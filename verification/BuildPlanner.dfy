/**
  * The mutable planner of web/src/BuildPlanner.tsx: its state and refs, updated in place by one method
  * per handler and per continuation of its async functions, each proved against the transition system.
  */
module BuildPlanner {
  import opened Results
  import V = ReceiptServer
  import P = BuildAcceptance
  import S = BuildAcceptanceSafety
  import G = BuildAcceptanceProgress

  /** A preview that succeeds sets a draft if it is still wanted, and ends. */
  lemma SuccessInSteps(s: P.State, t: P.Token, writes: nat, expires: nat)
    requires t in s.previews
    ensures var u := s.(nextPlan := s.nextPlan + 1); var task := s.previews[t];
            P.PreviewSucceeds(s, t, writes, expires) ==
            P.LeavePreview(
              if task.aborted || task.key != s.refs.key then u
              else S.WithDraft(u, P.Draft(s.nextPlan, writes, expires, task.key, s.nextReceipt)), t)
  {
  }

  /** The last request is the draft awaited, good when submitted, under the one plan of its receipt. */
  ghost predicate SubmitsDraft(s: P.State) {
    s.server.calls != [] && |s.history.submissions| == |s.server.calls| && s.accepting.Some? &&
    var last := |s.server.calls| - 1;
    s.server.calls[last] == V.Call(s.accepting.value.receipt, s.accepting.value.plan) &&
    s.history.submissions[last] == P.Submission(false, false, false) &&
    forall i :: 0 <= i < last && s.server.calls[i].receipt == s.accepting.value.receipt ==>
      s.server.calls[i].plan == s.accepting.value.plan
  }

  /** Build `b` is the only build of the draft's receipt, and builds the plan that was reviewed. */
  ghost predicate OnlyBuild(v: V.Server, b: nat, d: P.Draft) {
    b < |v.builds| && v.builds[b] == V.Build(d.plan, d.receipt) &&
    forall i :: 0 <= i < |v.builds| && v.builds[i].receipt == d.receipt ==> i == b
  }

  lemma SuccessNamesOnlyBuild(s: P.State, b: nat)
    requires P.Inv(s) && P.Enabled(s, P.EvAcceptSucceeds(b))
    ensures s.ui.draft == s.accepting && OnlyBuild(s.server, b, s.accepting.value)
  {
    S.ReplyNamesBuild(s, b);
    forall i | 0 <= i < |s.server.builds| && s.server.builds[i].receipt == s.accepting.value.receipt ensures i == b {
      assert !(i < b) && !(b < i);
    }
  }

  lemma AcceptSubmitsDraft(s: P.State)
    requires P.Inv(s) && P.AcceptEnabled(s)
    ensures SubmitsDraft(P.Accept(s))
  {
  }

  class Planner {
    // state
    var reviewing: bool
    var autoPreview: bool
    var draft: Option<P.Draft>
    var failedKey: Option<P.Key>
    var error: bool
    var busy: P.Busy
    var uncertain: bool
    var rejected: bool
    // refs and clock
    var latestKey: P.Key
    var conflictRetries: nat
    var previewRequest: Option<P.Token>
    var closed: bool
    var now: nat
    // pending continuations, and the sources of identities
    var previews: map<P.Token, P.PreviewTask>
    var accepting: Option<P.Draft>
    var nextToken: P.Token
    var nextReceipt: V.Receipt
    var nextPlan: V.PlanId
    // what is displayed, and what has been observed
    var outcome: P.Outcome
    var history: P.History
    // the coordinator, with every request sent to it
    var server: V.Server

    ghost function View(): P.Ui
      reads this
    {
      P.Ui(reviewing, autoPreview, draft, failedKey, error, busy, uncertain, rejected)
    }

    ghost function Kept(): P.Refs
      reads this
    {
      P.Refs(latestKey, conflictRetries, previewRequest, closed, now)
    }

    ghost function Now(): P.State
      reads this
    {
      P.State(View(), Kept(), previews, accepting, nextToken, nextReceipt, nextPlan, outcome, history, server)
    }

    constructor (key: P.Key)
      ensures Now() == P.Initial(key)
    {
      reviewing, autoPreview, draft, failedKey, error := false, false, None, None, false;
      busy, uncertain, rejected := P.Idle, false, false;
      latestKey, conflictRetries, previewRequest, closed, now := key, 0, None, false, 0;
      previews, accepting, nextToken, nextReceipt, nextPlan := map[], None, 0, 0, 0;
      outcome, history := P.Outcome(None, {}, {}), P.History(map[], []);
      server := V.EMPTY;
    }

    /** `previewRequest.current?.abort()`. */
    method AbortPreview()
      modifies `previews
      ensures previews == P.Abort(old(previews), previewRequest)
    {
      if previewRequest.Some? && previewRequest.value in previews {
        previews := previews[previewRequest.value := previews[previewRequest.value].(aborted := true)];
      }
    }

    // -------------------------------------------------------------- preview

    method ShowPreviewing()
      modifies `autoPreview, `failedKey, `busy, `error, `rejected, `reviewing
      ensures View() == old(View()).(autoPreview := false, failedKey := None, busy := P.Previewing, error := false,
                                     rejected := false, reviewing := true)
    {
      autoPreview := false;
      failedKey := None;
      busy := P.Previewing;
      error := false;
      rejected := false;
      reviewing := true;
    }

    /** The previous request is aborted and a new one is current. */
    method NewRequest()
      modifies `previews, `previewRequest, `nextToken
      ensures Kept() == old(Kept()).(current := Some(old(nextToken))) && nextToken == old(nextToken) + 1
      ensures previews ==
        P.Abort(old(previews), old(previewRequest))[old(nextToken) := P.PreviewTask(latestKey, false, false)]
    {
      AbortPreview();
      previews := previews[nextToken := P.PreviewTask(latestKey, false, false)];
      previewRequest := Some(nextToken);
      nextToken := nextToken + 1;
    }

    /** `preview` up to its first `await`. */
    method Preview()
      modifies `previews, `previewRequest, `nextToken, `autoPreview, `failedKey, `busy, `error, `rejected, `reviewing
      ensures Now() == P.Preview(old(Now()))
    {
      NewRequest();
      ShowPreviewing();
    }

    /** The `finally` block of `preview`. */
    method LeavePreview(token: P.Token)
      modifies `previews, `busy
      ensures Now() == P.LeavePreview(old(Now()), token)
    {
      previews := previews - {token};
      if previewRequest == Some(token) {
        busy := P.Idle;
      }
    }

    /** A plan to review, with the receipt under which it will be accepted. */
    method SetDraft(plan: V.PlanId, writes: nat, expires: nat, key: P.Key)
      modifies `conflictRetries, `nextReceipt, `draft, `history
      ensures Now() == S.WithDraft(old(Now()), P.Draft(plan, writes, expires, key, old(nextReceipt)))
    {
      var d := P.Draft(plan, writes, expires, key, nextReceipt);
      conflictRetries := 0;
      nextReceipt := nextReceipt + 1;
      draft := Some(d);
      history := history.(drafts := history.drafts[d.receipt := d]);
    }

    /** The reply arrives; it is used only if it is still wanted. */
    method PreviewSucceeds(token: P.Token, writes: nat, expires: nat)
      requires token in previews
      modifies `conflictRetries, `nextReceipt, `nextPlan, `draft, `history, `previews, `busy
      ensures Now() == P.PreviewSucceeds(old(Now()), token, writes, expires)
      ensures old(P.Inv(Now())) ==> P.Inv(Now()) && S.FreshOrSame(old(Now()), Now())
    {
      ghost var before := Now();
      UsePreview(token, writes, expires);
      if P.Inv(before) {
        S.PreviewSucceedsKeeps(before, token, writes, expires);
        S.PreviewGivesFreshDraft(before, token, writes, expires);
      }
    }

    method UsePreview(token: P.Token, writes: nat, expires: nat)
      requires token in previews
      modifies `conflictRetries, `nextReceipt, `nextPlan, `draft, `history, `previews, `busy
      ensures Now() == P.PreviewSucceeds(old(Now()), token, writes, expires)
    {
      SuccessInSteps(Now(), token, writes, expires);
      var task := previews[token];
      var plan := nextPlan;
      nextPlan := plan + 1;
      if !task.aborted && latestKey == task.key {
        SetDraft(plan, writes, expires, task.key);
      }
      LeavePreview(token);
    }

    /** A conflict will be retried, with the pause before it still to pass. */
    method RetryLater(token: P.Token)
      requires token in previews
      modifies `conflictRetries, `previews
      ensures conflictRetries == old(conflictRetries) + 1
      ensures previews == old(previews)[token := old(previews)[token].(retrying := true)]
    {
      conflictRetries := conflictRetries + 1;
      previews := previews[token := previews[token].(retrying := true)];
    }

    method PreviewFails(token: P.Token, conflict: bool)
      requires token in previews
      modifies `failedKey, `rejected, `conflictRetries, `error, `previews, `busy
      ensures Now() == P.PreviewFails(old(Now()), token, conflict)
    {
      if previews[token].aborted {
        LeavePreview(token);
        return;
      }
      failedKey := Some(previews[token].key);
      rejected := true;
      if conflict && conflictRetries < 3 {
        RetryLater(token);
      } else {
        error := true;
        LeavePreview(token);
      }
    }

    method RetryReady(token: P.Token, refreshed: bool)
      requires token in previews
      modifies this
      ensures Now() == P.RetryReady(old(Now()), token, refreshed)
    {
      if !previews[token].aborted && refreshed {
        autoPreview := true;
      }
      LeavePreview(token);
    }

    // -------------------------------------------------------------- accept

    /** `accept` up to its `await`. */
    method Accept()
      requires P.AcceptEnabled(Now())
      modifies `busy, `error, `accepting, `history, `server
      ensures Now() == P.Accept(old(Now()))
      ensures old(P.Inv(Now())) ==> P.Inv(Now()) && accepting == draft && SubmitsDraft(Now())
    {
      ghost var before := Now();
      Submit();
      if P.Inv(before) {
        S.AcceptKeeps(before);
        AcceptSubmitsDraft(before);
      }
    }

    /** One call of `acceptPlan`. */
    method Submit()
      requires P.AcceptEnabled(Now())
      modifies `busy, `error, `accepting, `history, `server
      ensures Now() == P.Accept(old(Now()))
    {
      var d := draft.value;
      var stale, expired := d.key != latestKey, now >= d.expires;
      busy := P.Accepting;
      error := false;
      accepting := Some(d);
      history := history.(submissions := history.submissions + [P.Submission(stale, expired, rejected)]);
      server := V.Send(server, V.Call(d.receipt, d.plan));
    }

    method AcceptSucceeds(build: nat)
      requires accepting.Some?
      modifies `accepting, `outcome, `draft, `uncertain, `reviewing, `busy
      ensures Now() == P.AcceptSucceeds(old(Now()), build)
      ensures old(P.Inv(Now()) && P.Enabled(Now(), P.EvAcceptSucceeds(build))) ==>
                P.Inv(Now()) && old(draft == accepting) && OnlyBuild(server, build, old(accepting).value)
      ensures outcome.shown == Some((build, old(accepting).value)) && draft.None? && !uncertain
    {
      ghost var before := Now();
      ShowAccepted(build);
      if P.Inv(before) && P.Enabled(before, P.EvAcceptSucceeds(build)) {
        S.AcceptEndsKeep(before, P.EvAcceptSucceeds(build));
        SuccessNamesOnlyBuild(before, build);
      }
    }

    method ShowAccepted(build: nat)
      requires accepting.Some?
      modifies `accepting, `outcome, `draft, `uncertain, `reviewing, `busy
      ensures Now() == P.AcceptSucceeds(old(Now()), build)
    {
      var d := accepting.value;
      accepting := None;
      outcome := outcome.(shown := Some((build, d)), confirmed := outcome.confirmed + {d.receipt});
      draft := None;
      uncertain := false;
      reviewing := false;
      busy := P.Idle;
    }

    /** What a failed acceptance shows, unless the planner is gone. */
    method ShowFailure(ambiguous: bool)
      modifies `uncertain, `rejected, `error, `busy
      ensures View() ==
        if closed then old(View()).(busy := P.Idle)
        else old(View()).(uncertain := ambiguous, rejected := !ambiguous, error := ambiguous, busy := P.Idle)
    {
      if !closed {
        uncertain := ambiguous;
        rejected := !ambiguous;
        error := ambiguous;
      }
      busy := P.Idle;
    }

    method AcceptRefused()
      requires accepting.Some?
      modifies `outcome, `accepting, `uncertain, `rejected, `error, `busy
      ensures Now() == P.AcceptRefused(old(Now()))
    {
      StopWaiting();
      ShowFailure(false);
    }

    /** The awaited draft was refused; an unmounted planner does not hear of it. */
    method StopWaiting()
      requires accepting.Some?
      modifies `outcome, `accepting
      ensures accepting == None
      ensures outcome ==
        if closed then old(outcome)
        else old(outcome).(refused := old(outcome).refused + {old(accepting).value.receipt})
    {
      if !closed {
        outcome := outcome.(refused := outcome.refused + {accepting.value.receipt});
      }
      accepting := None;
    }

    method AcceptLost()
      requires accepting.Some?
      modifies this
      ensures Now() == P.AcceptLost(old(Now()))
      ensures old(P.Inv(Now())) ==>
                P.Inv(Now()) && draft == old(accepting) && V.Submitted(server, draft.value.receipt) &&
                (!closed ==> uncertain)
    {
      ghost var before := Now();
      accepting := None;
      ShowFailure(true);
      if P.Inv(before) {
        S.AcceptEndsKeep(before, P.EvAcceptLost);
      }
    }

    // -------------------------------------------------------------- the rest of the component

    method ClearReview()
      modifies `draft, `reviewing, `autoPreview, `failedKey, `error, `rejected
      ensures View() == old(View()).(draft := None, reviewing := false, autoPreview := false, failedKey := None,
                                     error := false, rejected := false)
    {
      draft := None;
      reviewing := false;
      autoPreview := false;
      failedKey := None;
      error := false;
      rejected := false;
    }

    method Cancel()
      modifies this
      ensures Now() == P.Cancel(old(Now()))
    {
      AbortPreview();
      ClearReview();
    }

    method KeyChanges(key: P.Key)
      modifies `conflictRetries, `latestKey, `previews
      ensures Now() == P.KeyChanges(old(Now()), key)
    {
      conflictRetries := 0;
      latestKey := key;
      AbortPreview();
    }

    method ForceToggled(key: P.Key)
      modifies this
      ensures Now() == P.ForceToggled(old(Now()), key)
    {
      KeyChanges(key);
      autoPreview := true;
    }

    method Unmount()
      modifies `closed, `previews
      ensures Now() == P.Unmount(old(Now()))
    {
      closed := true;
      AbortPreview();
    }

    // -------------------------------------------------------------- any event

    predicate PreviewEvent(e: P.Event) {
      e.EvNext? || e.EvRetryPreview? || e.EvAutoPreview? || e.EvPreviewSucceeds? || e.EvPreviewFails? || e.EvRetryReady?
    }

    method PreviewHappens(e: P.Event)
      requires P.Enabled(Now(), e) && PreviewEvent(e)
      modifies this
      ensures Now() == P.Step(old(Now()), e)
    {
      match e
      case EvNext => Preview();
      case EvRetryPreview => Preview();
      case EvAutoPreview => Preview();
      case EvPreviewSucceeds(t, writes, expires) => PreviewSucceeds(t, writes, expires);
      case EvPreviewFails(t, conflict) => PreviewFails(t, conflict);
      case EvRetryReady(t, refreshed) => RetryReady(t, refreshed);
    }

    method AcceptHappens(e: P.Event)
      requires P.Enabled(Now(), e) && !PreviewEvent(e)
      modifies this
      ensures Now() == P.Step(old(Now()), e)
    {
      match e
      case EvAccept => Accept();
      case EvServer(action) => server := V.Act(server, action);
      case EvAcceptSucceeds(b) => AcceptSucceeds(b);
      case EvAcceptRefused => AcceptRefused();
      case EvAcceptLost => AcceptLost();
      case EvCancel => Cancel();
      case EvKeyChanges(key) => KeyChanges(key);
      case EvForce(key) => ForceToggled(key);
      case EvClock(time) => now := time;
      case EvUnmount => Unmount();
    }

    /**
      * Whatever happens next, the object takes the transition system's step, and keeps its invariant; a review is
      * stranded only by the steps that do so.
      */
    method Happen(e: P.Event)
      requires P.Enabled(Now(), e)
      modifies this
      ensures Now() == P.Step(old(Now()), e)
      ensures old(P.Inv(Now())) ==> P.Inv(Now())
      ensures old(P.Inv(Now()) && G.Linked(Now()) && !G.Stranded(Now())) ==>
                G.Linked(Now()) && (G.Stranded(Now()) <==> old(G.Strands(Now(), e)))
    {
      ghost var before := Now();
      if PreviewEvent(e) {
        PreviewHappens(e);
      } else {
        AcceptHappens(e);
      }
      if P.Inv(before) {
        S.StepKeeps(before, e);
        if G.Linked(before) && !G.Stranded(before) {
          G.StepLinks(before, e);
          G.StrandingIsExact(before, e);
        }
      }
    }
  }
}
