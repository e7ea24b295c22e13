/**
  * Preview and acceptance of a build in web/src/BuildPlanner.tsx, as a transition system over a lossy
  * connection to the coordinator of `ReceiptServer`. Handlers and effects are steps, disabled buttons are
  * guards, and every request may be taken up late, answered, or lost in either direction.
  */
module BuildAcceptance {
  import opened Results
  import opened ReceiptServer

  type Key = string       // the serialized options and context fingerprint
  type Token = nat        // identity of a preview's AbortController

  /** A plan in hand; `writes` is how many resources it builds. */
  datatype Draft = Draft(plan: PlanId, writes: nat, expires: nat, key: Key, receipt: Receipt)

  datatype Busy = Idle | Previewing | Accepting

  /** A preview waiting for the server, or for the pause before a conflict is retried. */
  datatype PreviewTask = PreviewTask(key: Key, aborted: bool, retrying: bool)

  /** What the planner knew of the draft at one call of `acceptPlan`. */
  datatype Submission = Submission(stale: bool, expired: bool, rejected: bool)

  datatype Ui = Ui(
    reviewing: bool, autoPreview: bool, draft: Option<Draft>, failedKey: Option<Key>, error: bool,
    busy: Busy, uncertain: bool, rejected: bool)

  datatype Refs = Refs(key: Key, conflictRetries: nat, current: Option<Token>, closed: bool, now: nat)

  /** `shown` is the acceptance on display: the index of the build it names, with its draft. */
  datatype Outcome = Outcome(shown: Option<(nat, Draft)>, confirmed: set<Receipt>, refused: set<Receipt>)

  /** `drafts` records every draft by its receipt; submission `i` is the server's call `i`. */
  datatype History = History(drafts: map<Receipt, Draft>, submissions: seq<Submission>)

  datatype State = State(
    ui: Ui, refs: Refs, previews: map<Token, PreviewTask>, accepting: Option<Draft>,
    nextToken: Token, nextReceipt: Receipt, nextPlan: PlanId, outcome: Outcome, history: History, server: Server)

  function Initial(key: Key): State {
    State(Ui(false, false, None, None, false, Idle, false, false), Refs(key, 0, None, false, 0), map[], None, 0, 0, 0,
          Outcome(None, {}, {}), History(map[], []), EMPTY)
  }

  // ---------------------------------------------------------------- derived state

  predicate Expired(s: State) {
    s.ui.draft.Some? && s.refs.now >= s.ui.draft.value.expires
  }

  predicate Stale(s: State) {
    s.ui.draft.Some? && s.ui.draft.value.key != s.refs.key
  }

  predicate Locked(s: State) {
    s.ui.busy.Accepting? || s.ui.uncertain
  }

  /** `previewRequest.current?.abort()`. */
  function Abort(previews: map<Token, PreviewTask>, current: Option<Token>): map<Token, PreviewTask> {
    if current.Some? && current.value in previews
    then previews[current.value := previews[current.value].(aborted := true)]
    else previews
  }

  // ---------------------------------------------------------------- preview

  predicate NextEnabled(s: State) {
    !s.refs.closed && !s.ui.reviewing && !Locked(s)
  }

  predicate RetryEnabled(s: State) {
    && !s.refs.closed && s.ui.reviewing && s.ui.error && s.ui.failedKey == Some(s.refs.key) && !s.ui.uncertain
    && s.ui.busy.Idle?
  }

  predicate AutoEnabled(s: State) {
    && !s.refs.closed && s.ui.reviewing && !Locked(s) && s.ui.busy.Idle?
    && (s.ui.autoPreview ||
        !(s.ui.failedKey == Some(s.refs.key) || (s.ui.draft.Some? && !Stale(s) && !Expired(s) && !s.ui.rejected)))
  }

  function Preview(s: State): State {
    s.(previews := Abort(s.previews, s.refs.current)[s.nextToken := PreviewTask(s.refs.key, false, false)],
       refs := s.refs.(current := Some(s.nextToken)), nextToken := s.nextToken + 1,
       ui := s.ui.(autoPreview := false, failedKey := None, busy := Previewing, error := false, rejected := false,
                   reviewing := true))
  }

  /** The `finally` block of `preview`. */
  function LeavePreview(s: State, t: Token): State {
    s.(previews := s.previews - {t},
       ui := if s.refs.current == Some(t) then s.ui.(busy := Idle) else s.ui)
  }

  function PreviewSucceeds(s: State, t: Token, writes: nat, expires: nat): State
    requires t in s.previews
  {
    var task := s.previews[t];
    var u := s.(nextPlan := s.nextPlan + 1);
    if task.aborted || task.key != s.refs.key then LeavePreview(u, t)
    else
      var draft := Draft(s.nextPlan, writes, expires, task.key, s.nextReceipt);
      LeavePreview(
        u.(refs := u.refs.(conflictRetries := 0), ui := u.ui.(draft := Some(draft)), nextReceipt := u.nextReceipt + 1,
           history := u.history.(drafts := u.history.drafts[draft.receipt := draft])),
        t)
  }

  function PreviewFails(s: State, t: Token, conflict: bool): State
    requires t in s.previews
  {
    var task := s.previews[t];
    if task.aborted then LeavePreview(s, t)
    else
      var ui := s.ui.(failedKey := Some(task.key), rejected := true);
      if conflict && s.refs.conflictRetries < 3 then
        s.(ui := ui, refs := s.refs.(conflictRetries := s.refs.conflictRetries + 1),
           previews := s.previews[t := task.(retrying := true)])
      else LeavePreview(s.(ui := ui.(error := true)), t)
  }

  /** The pause before a retry has passed and the workspace was refreshed, or refreshing failed. */
  function RetryReady(s: State, t: Token, refreshed: bool): State
    requires t in s.previews
  {
    LeavePreview(if s.previews[t].aborted || !refreshed then s else s.(ui := s.ui.(autoPreview := true)), t)
  }

  // ---------------------------------------------------------------- accept

  /** The plan under review. */
  function Reviewed(s: State): Option<Draft> {
    if !Stale(s) && !Expired(s) && !s.ui.rejected then s.ui.draft else None
  }

  /** The button that starts or retries an acceptance; the last test is the one `accept` repeats. */
  predicate AcceptEnabled(s: State) {
    && !s.refs.closed && s.ui.reviewing && s.ui.draft.Some? && s.ui.busy.Idle?
    && Reviewed(s).Some? && Reviewed(s).value.writes > 0
    && (s.ui.uncertain || !(Stale(s) || Expired(s) || s.ui.rejected))
  }

  function Accept(s: State): State
    requires AcceptEnabled(s)
  {
    var d := s.ui.draft.value;
    s.(ui := s.ui.(busy := Accepting, error := false), accepting := Some(d),
       history := s.history.(
         submissions := s.history.submissions + [Submission(Stale(s), Expired(s), s.ui.rejected)]),
       server := Send(s.server, Call(d.receipt, d.plan)))
  }

  /** The last request has this reply. */
  predicate LastReply(v: Server, reply: Reply) {
    v.progress != [] && v.progress[|v.progress| - 1] == Replied(reply)
  }

  /** The reply naming build `b` arrives. */
  function AcceptSucceeds(s: State, b: nat): State
    requires s.accepting.Some?
  {
    var d := s.accepting.value;
    s.(accepting := None,
       ui := s.ui.(draft := None, uncertain := false, reviewing := false, busy := Idle),
       outcome := s.outcome.(shown := Some((b, d)), confirmed := s.outcome.confirmed + {d.receipt}))
  }

  /** The reply is `conflict` or `expired`. */
  function AcceptRefused(s: State): State
    requires s.accepting.Some?
  {
    var u := s.(accepting := None);
    if s.refs.closed then u.(ui := u.ui.(busy := Idle))
    else
      u.(ui := u.ui.(uncertain := false, rejected := true, error := false, busy := Idle),
         outcome := s.outcome.(refused := s.outcome.refused + {s.accepting.value.receipt}))
  }

  /** No usable reply: the build may or may not exist. */
  function AcceptLost(s: State): State
    requires s.accepting.Some?
  {
    var u := s.(accepting := None);
    if s.refs.closed then u.(ui := u.ui.(busy := Idle))
    else u.(ui := u.ui.(uncertain := true, rejected := false, error := true, busy := Idle))
  }

  // ---------------------------------------------------------------- the rest of the component

  function Cancel(s: State): State {
    s.(previews := Abort(s.previews, s.refs.current),
       ui := s.ui.(draft := None, reviewing := false, autoPreview := false, failedKey := None, error := false,
                   rejected := false))
  }

  /** The options, the catalogue or the branch changed. */
  function KeyChanges(s: State, key: Key): State {
    s.(refs := s.refs.(key := key, conflictRetries := 0), previews := Abort(s.previews, s.refs.current))
  }

  /** The force switch sets the option and asks for a new preview. */
  function ForceToggled(s: State, key: Key): State {
    var t := KeyChanges(s, key);
    t.(ui := t.ui.(autoPreview := true))
  }

  function Unmount(s: State): State {
    s.(refs := s.refs.(closed := true), previews := Abort(s.previews, s.refs.current))
  }

  // ---------------------------------------------------------------- the system

  datatype Event =
    | EvNext | EvRetryPreview | EvAutoPreview
    | EvPreviewSucceeds(token: Token, writes: nat, expires: nat)
    | EvPreviewFails(token: Token, conflict: bool)
    | EvRetryReady(token: Token, refreshed: bool)
    | EvAccept | EvServer(action: Action)
    | EvAcceptSucceeds(build: nat) | EvAcceptRefused | EvAcceptLost
    | EvCancel | EvKeyChanges(key: Key) | EvForce(key: Key) | EvClock(time: nat) | EvUnmount

  predicate Enabled(s: State, e: Event) {
    match e
    case EvNext => NextEnabled(s)
    case EvRetryPreview => RetryEnabled(s)
    case EvAutoPreview => AutoEnabled(s)
    case EvPreviewSucceeds(t, _, _) => t in s.previews && !s.previews[t].retrying
    case EvPreviewFails(t, _) => t in s.previews && !s.previews[t].retrying
    case EvRetryReady(t, _) => t in s.previews && s.previews[t].retrying
    case EvAccept => AcceptEnabled(s)
    case EvServer(action) => CanAct(s.server, action)
    case EvAcceptSucceeds(b) => s.accepting.Some? && LastReply(s.server, Names(b))
    case EvAcceptRefused => s.accepting.Some? && LastReply(s.server, Refuses)
    case EvAcceptLost => s.accepting.Some?
    case EvCancel => !s.refs.closed && s.ui.reviewing && !Locked(s)
    case EvKeyChanges(key) => !s.refs.closed && key != s.refs.key
    case EvForce(key) => !s.refs.closed && s.ui.reviewing && !Locked(s) && !s.ui.busy.Previewing?
    case EvClock(time) => time >= s.refs.now
    case EvUnmount => !s.refs.closed
  }

  function Step(s: State, e: Event): State
    requires Enabled(s, e)
  {
    match e
    case EvNext => Preview(s)
    case EvRetryPreview => Preview(s)
    case EvAutoPreview => Preview(s)
    case EvPreviewSucceeds(t, writes, expires) => PreviewSucceeds(s, t, writes, expires)
    case EvPreviewFails(t, conflict) => PreviewFails(s, t, conflict)
    case EvRetryReady(t, refreshed) => RetryReady(s, t, refreshed)
    case EvAccept => Accept(s)
    case EvServer(action) => s.(server := Act(s.server, action))
    case EvAcceptSucceeds(b) => AcceptSucceeds(s, b)
    case EvAcceptRefused => AcceptRefused(s)
    case EvAcceptLost => AcceptLost(s)
    case EvCancel => Cancel(s)
    case EvKeyChanges(key) => KeyChanges(s, key)
    case EvForce(key) => ForceToggled(s, key)
    case EvClock(time) => s.(refs := s.refs.(now := time))
    case EvUnmount => Unmount(s)
  }

  predicate Possible(s: State, events: seq<Event>)
    decreases |events|
  {
    events == [] || (Enabled(s, events[0]) && Possible(Step(s, events[0]), events[1..]))
  }

  function After(s: State, events: seq<Event>): State
    requires Possible(s, events)
    decreases |events|
  {
    if events == [] then s else After(Step(s, events[0]), events[1..])
  }

  // ---------------------------------------------------------------- the invariant

  /** The draft in hand is one of the recorded drafts, and acceptance works on it. */
  predicate DraftOk(ui: Ui, accepting: Option<Draft>, history: History, nextReceipt: Receipt) {
    && (forall r :: r in history.drafts ==> r < nextReceipt && history.drafts[r].receipt == r)
    && (ui.draft.Some? ==>
          ui.draft.value.receipt in history.drafts && history.drafts[ui.draft.value.receipt] == ui.draft.value)
    && (ui.busy.Accepting? <==> accepting.Some?)
    && (accepting.Some? ==> ui.draft == accepting)
  }

  /** Only the current preview can still set a draft, and only while the planner is previewing. */
  predicate PreviewsOk(busy: Busy, current: Option<Token>, previews: map<Token, PreviewTask>, nextToken: Token) {
    && (forall t :: t in previews ==> t < nextToken && (current == Some(t) || previews[t].aborted))
    && (busy.Previewing? <==> current.Some? && current.value in previews)
  }

  /** A draft whose outcome is awaited or unknown is in hand, under review, and was good when it was submitted. */
  predicate LockedOk(ui: Ui) {
    ui.busy.Accepting? || ui.uncertain ==> ui.reviewing && !ui.rejected && ui.draft.Some? && ui.draft.value.writes > 0
  }

  /** The draft waits for a reply or for a retry. */
  predicate InHand(ui: Ui, r: Receipt) {
    ui.draft.Some? && ui.draft.value.receipt == r && (ui.uncertain || ui.busy.Accepting?)
  }

  /** The receipt was sent before the last request. */
  predicate Retried(v: Server, r: Receipt) {
    exists i :: 0 <= i < |v.calls| - 1 && v.calls[i].receipt == r
  }

  /** The draft being accepted is the last request; it is a retry if the planner says so. */
  predicate AwaitedOk(ui: Ui, accepting: Option<Draft>, server: Server) {
    && (ui.uncertain ==> ui.draft.Some? && Submitted(server, ui.draft.value.receipt) && !ui.busy.Previewing?)
    && (accepting.Some? ==>
          && server.calls != []
          && server.calls[|server.calls| - 1] == Call(accepting.value.receipt, accepting.value.plan)
          && (ui.uncertain ==> Retried(server, accepting.value.receipt)))
  }

  /** Until the planner is unmounted, a submitted draft was confirmed, was refused, or is in hand. */
  predicate OutcomeOk(ui: Ui, accepting: Option<Draft>, outcome: Outcome, server: Server) {
    && (forall i :: 0 <= i < |server.calls| ==>
          var r := server.calls[i].receipt; r in outcome.confirmed || r in outcome.refused || InHand(ui, r))
    && (ui.draft.Some? ==> ui.draft.value.receipt !in outcome.confirmed)
    && (accepting.Some? && Retried(server, accepting.value.receipt) && accepting.value.receipt !in outcome.refused ==>
          ui.uncertain)
  }

  /** Every submission carries its draft's plan, and was made while the draft was good. */
  predicate SubmissionsOk(history: History, calls: seq<Call>) {
    && |history.submissions| == |calls|
    && forall i :: 0 <= i < |calls| ==>
         && calls[i].receipt in history.drafts && history.drafts[calls[i].receipt].plan == calls[i].plan
         && history.drafts[calls[i].receipt].writes > 0
         && history.submissions[i] == Submission(false, false, false)
  }

  /** Once a build was confirmed an acceptance is on display, and names a build of its draft. */
  predicate ShownOk(outcome: Outcome, server: Server) {
    && (forall r :: r in outcome.confirmed ==> Answered(server, r))
    && (outcome.confirmed != {} ==> outcome.shown.Some?)
    && (outcome.shown.Some? ==>
          var (b, d) := outcome.shown.value;
          b < |server.builds| && server.builds[b] == Build(d.plan, d.receipt) && d.receipt in outcome.confirmed)
  }

  predicate Inv(s: State) {
    && DraftOk(s.ui, s.accepting, s.history, s.nextReceipt)
    && PreviewsOk(s.ui.busy, s.refs.current, s.previews, s.nextToken)
    && LockedOk(s.ui)
    && AwaitedOk(s.ui, s.accepting, s.server)
    && (!s.refs.closed ==> OutcomeOk(s.ui, s.accepting, s.outcome, s.server))
    && SubmissionsOk(s.history, s.server.calls)
    && ServerOk(s.server)
    && ShownOk(s.outcome, s.server)
    && s.refs.conflictRetries <= 3
  }
}
