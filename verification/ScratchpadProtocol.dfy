/**
  * The lifetime of one scratchpad in web/src/ScratchpadInspector.tsx, as a transition system.
  *
  * Each async function is cut at its `await`s into atomic segments. A pending continuation is part
  * of the state, and any of them may run next, with the reply the server gave or with a failure.
  * Query ids are assigned by the server and never reused, so they stand for the identity of the
  * `{ id, context }` object that the source compares with `===`.
  */
module ScratchpadProtocol {
  import opened Results

  type QueryId = nat
  type Row = seq<string>

  datatype Fate = Succeeded(rows: seq<Row>) | Canceled | Broken

  /** One reply of the results endpoint. */
  datatype Page = Page(rows: seq<Row>, next: Option<nat>)

  /** What `setResult` holds: the accumulated rows of one query. */
  datatype Shown = Shown(owner: QueryId, rows: seq<Row>, next: Option<nat>)

  /** What `setJob` holds; `rows` is the row count of a succeeded job. */
  datatype Job = Active(id: QueryId) | Ended(id: QueryId, succeeded: bool, rows: nat)

  /** Where `run` waits: before submitting, for acceptance, for its receipt, or for a late cancel. */
  datatype RunTask = Preparing | Submitted | Accepted(id: QueryId) | LateCancel(canceled: QueryId)

  /** Where the one active `poll` waits. */
  datatype PollTask = NoPoll | AwaitStatus(query: QueryId) | AwaitPage(query: QueryId)

  /** `more` and `download` wait for the page at `offset`, having `rows` in hand. */
  datatype PageTask = NoTask | Await(query: QueryId, offset: nat, rows: seq<Row>, total: nat)

  /** The `Owned` object. `polling`, `paging` and `downloading` are read off the pending continuations. */
  datatype Lifetime = Lifetime(
    closed: bool, running: bool, cancelRequested: bool, pollAgain: bool,
    query: Option<QueryId>, timer: bool, strayTimers: nat)

  /** The component's state; `busy` and `canceling` only mirror the lifetime. */
  datatype Ui = Ui(
    shown: Option<Shown>, previousRows: bool, job: Option<Job>, error: bool, readFailed: bool, moreBusy: bool)

  datatype Server = Server(nextQuery: QueryId, finished: map<QueryId, Fate>)

  /** What has been received, lost, seen, sent, acknowledged and emitted so far. */
  datatype Log = Log(
    receipts: set<QueryId>, lost: set<QueryId>, seenTerminal: set<QueryId>, cancelSent: set<QueryId>,
    acknowledged: set<QueryId>, emitted: seq<(QueryId, seq<Row>)>)

  /** Cancels that were sent and not yet answered: those of `cancel`, and the one sent at unmount. */
  datatype Canceling = Canceling(asked: multiset<QueryId>, leaving: Option<QueryId>)

  datatype State = State(
    own: Lifetime, ui: Ui, runs: map<nat, RunTask>, nextRun: nat,
    poll: PollTask, cancels: Canceling, more: PageTask, download: PageTask,
    server: Server, log: Log)

  const INITIAL := State(
    Lifetime(false, false, false, false, None, false, 0),
    Ui(None, false, None, false, false, false),
    map[], 0, NoPoll, Canceling(multiset{}, None), NoTask, NoTask, Server(0, map[]), Log({}, {}, {}, {}, {}, []))

  // ---------------------------------------------------------------- pages

  /** The check at the end of `page`. */
  predicate PageMatches(offset: nat, page: Page) {
    && |page.rows| <= 500
    && (page.next.Some? ==> page.next.value == offset + |page.rows| && offset < page.next.value < 1000)
  }

  /** The server answers with a slice of the query's fixed rows. */
  predicate Honest(server: Server, q: QueryId, offset: nat, page: Page) {
    && q in server.finished && server.finished[q].Succeeded?
    && offset + |page.rows| <= |server.finished[q].rows|
    && page.rows == server.finished[q].rows[offset..offset + |page.rows|]
  }

  /** The page crates/transflow/src/api_query.rs returns for a limit of 500. */
  function ServerPage(rows: seq<Row>, offset: nat): Page
    requires offset <= |rows|
  {
    var end := if offset + 500 < |rows| then offset + 500 else |rows|;
    Page(rows[offset..end], if end < |rows| then Some(end) else None)
  }

  // ---------------------------------------------------------------- poll

  /** `setTimeout`, which forgets a timer still pending instead of clearing it. */
  function SetTimer(l: Lifetime): Lifetime {
    l.(timer := true, strayTimers := l.strayTimers + (if l.timer then 1 else 0))
  }

  function StartPoll(s: State): State {
    if s.own.query.None? || s.own.closed then s
    else if !s.poll.NoPoll? then s.(own := s.own.(pollAgain := true))
    else s.(poll := AwaitStatus(s.own.query.value))
  }

  /** The `finally` block of `poll`. */
  function LeavePoll(s: State, finished: bool): State {
    s.(poll := NoPoll,
       own :=
         if s.own.pollAgain && !s.own.closed then
           var l := s.own.(pollAgain := false, timer := false);
           if finished then l else SetTimer(l)
         else s.own)
  }

  /** The status reply; `terminal` is possible only once the server has finished the query. */
  function StatusArrives(s: State, terminal: bool): State
    requires s.poll.AwaitStatus? && (terminal ==> s.poll.query in s.server.finished)
  {
    if s.own.closed || s.own.query != Some(s.poll.query) then LeavePoll(s, false)
    else if terminal then TerminalStatus(s)
    else
      LeavePoll(
        s.(own := SetTimer(s.own),
           ui := s.ui.(job := Some(Active(s.poll.query)), readFailed := false, error := false)),
        false)
  }

  function TerminalStatus(s: State): State
    requires s.poll.AwaitStatus? && s.poll.query in s.server.finished
  {
    var q := s.poll.query;
    var ui := s.ui.(readFailed := false, error := false);
    var log := s.log.(seenTerminal := s.log.seenTerminal + {q});
    match s.server.finished[q]
    case Succeeded(rows) => s.(ui := ui.(job := Some(Ended(q, true, |rows|))), poll := AwaitPage(q), log := log)
    case fate =>
      LeavePoll(
        s.(ui := ui.(job := Some(Ended(q, false, 0)), error := fate.Broken?),
           own := s.own.(running := false), log := log),
        true)
  }

  function StatusFails(s: State): State
    requires s.poll.AwaitStatus?
  {
    LeavePoll(if s.own.closed then s else s.(ui := s.ui.(error := true, readFailed := true)), false)
  }

  /** The first page, after a succeeded status: `running` is cleared whatever query is owned by then. */
  function FirstPage(s: State, page: Page): State
    requires s.poll.AwaitPage?
  {
    if !PageMatches(0, page) then FirstPageFails(s)
    else if s.own.closed then LeavePoll(s, true)
    else
      var q := s.poll.query;
      var ui := if s.own.query == Some(q)
                then s.ui.(shown := Some(Shown(q, page.rows, page.next)), previousRows := false) else s.ui;
      LeavePoll(s.(ui := ui, own := s.own.(running := false)), true)
  }

  function FirstPageFails(s: State): State
    requires s.poll.AwaitPage?
  {
    LeavePoll(
      if s.own.closed then s
      else s.(ui := s.ui.(error := true, readFailed := true), own := s.own.(running := false)),
      true)
  }

  // ---------------------------------------------------------------- run

  predicate CanRun(s: State) {
    !s.own.closed && !s.own.running && s.download.NoTask?
  }

  function Run(s: State, criteria: bool): State
    requires CanRun(s)
  {
    s.(own := s.own.(running := true, cancelRequested := false, query := None),
       ui := Ui(if criteria then s.ui.shown else None, criteria && s.ui.shown.Some?, None, false, false, false),
       runs := s.runs[s.nextRun := Preparing], nextRun := s.nextRun + 1)
  }

  function EndRun(s: State, task: nat): State {
    s.(runs := s.runs - {task})
  }

  /** The `catch` block of `run`. */
  function RunFails(s: State, task: nat): State {
    if s.own.closed then EndRun(s, task)
    else EndRun(s.(own := s.own.(running := false), ui := s.ui.(error := true)), task)
  }

  /** The segment that ends by calling `startQuery`. */
  function Prepared(s: State, task: nat): State {
    if s.own.closed then EndRun(s, task)
    else if s.own.cancelRequested then EndRun(s.(own := s.own.(running := false)), task)
    else s.(runs := s.runs[task := Submitted])
  }

  /** The server creates the query. */
  function ServerAccepts(s: State, task: nat): State {
    var q := s.server.nextQuery;
    s.(runs := s.runs[task := Accepted(q)], server := s.server.(nextQuery := q + 1))
  }

  /** The segment that receives the receipt. */
  function Receipt(s: State, task: nat, q: QueryId): State {
    var own := s.own.(query := Some(q));
    var log := s.log.(receipts := s.log.receipts + {q});
    if own.closed || own.cancelRequested then
      s.(own := own, runs := s.runs[task := LateCancel(q)], log := log.(cancelSent := log.cancelSent + {q}))
    else StartPoll(EndRun(s.(own := own, ui := s.ui.(job := Some(Active(q))), log := log), task))
  }

  /** The reply to `startQuery` is lost after the server accepted: no receipt ever arrives. */
  function ReceiptLost(s: State, task: nat, q: QueryId): State {
    RunFails(s.(log := s.log.(lost := s.log.lost + {q})), task)
  }

  function LateCancelDone(s: State, task: nat, q: QueryId): State {
    var u := s.(log := Acknowledge(s.log, q));
    if s.own.closed then EndRun(u, task)
    else StartPoll(EndRun(u.(ui := s.ui.(job := Some(Active(q)))), task))
  }

  // ---------------------------------------------------------------- cancel and unmount

  predicate CanCancel(s: State) {
    !s.own.closed && s.own.running && !s.own.cancelRequested
  }

  function SendCancel(log: Log, q: QueryId): Log {
    log.(cancelSent := log.cancelSent + {q})
  }

  function Acknowledge(log: Log, q: QueryId): Log {
    log.(acknowledged := log.acknowledged + {q})
  }

  function Cancel(s: State): State
    requires CanCancel(s)
  {
    var own := s.own.(cancelRequested := true);
    if own.query.None? then s.(own := own)
    else
      var q := own.query.value;
      s.(own := own, cancels := s.cancels.(asked := s.cancels.asked + multiset{q}), log := SendCancel(s.log, q))
  }

  /** The reply to one cancel of `q` has come. */
  function CancelEnds(s: State, q: QueryId): State {
    s.(cancels := s.cancels.(asked := s.cancels.asked - multiset{q}))
  }

  function CancelDone(s: State, q: QueryId): State {
    var u := CancelEnds(s, q).(log := Acknowledge(s.log, q));
    if s.own.closed then u else StartPoll(u.(own := s.own.(timer := false)))
  }

  function CancelFails(s: State, q: QueryId): State {
    var u := CancelEnds(s, q);
    if s.own.closed then u
    else u.(own := s.own.(cancelRequested := false), ui := s.ui.(error := true))
  }

  function Unmount(s: State): State {
    var u := s.(own := s.own.(closed := true, timer := false));
    if s.own.query.Some? && s.own.running
    then u.(log := SendCancel(s.log, s.own.query.value), cancels := s.cancels.(leaving := s.own.query))
    else u
  }

  /** The cancel sent at unmount is answered, or fails; nobody looks at either. */
  function LeaveEnds(s: State, done: bool): State
    requires s.cancels.leaving.Some?
  {
    s.(cancels := s.cancels.(leaving := None),
       log := if done then Acknowledge(s.log, s.cancels.leaving.value) else s.log)
  }

  // ---------------------------------------------------------------- more

  predicate CanMore(s: State) {
    && !s.own.closed && s.ui.shown.Some? && s.ui.shown.value.next.Some? && s.more.NoTask? && !s.own.running
    && !s.ui.previousRows && !s.ui.error && s.download.NoTask?
  }

  function More(s: State): State
    requires CanMore(s)
  {
    if s.own.query.None? then s.(ui := s.ui.(error := true, moreBusy := false))
    else
      var r := s.ui.shown.value;
      s.(more := Await(s.own.query.value, r.next.value, r.rows, 0), ui := s.ui.(moreBusy := true))
  }

  /** The page still belongs to the owned query of a mounted scratchpad. */
  predicate Current(s: State, task: PageTask) {
    task.Await? && !s.own.closed && s.own.query == Some(task.query)
  }

  function MorePage(s: State, page: Page): State
    requires s.more.Await?
  {
    var w := s.more;
    if !PageMatches(w.offset, page) then MoreFails(s)
    else if !Current(s, w) then s.(more := NoTask)
    else if |w.rows| + |page.rows| > 1000 then MoreFails(s)
    else
      s.(more := NoTask,
         ui := s.ui.(shown := Some(Shown(w.query, w.rows + page.rows, page.next)), moreBusy := false))
  }

  function MoreFails(s: State): State
    requires s.more.Await?
  {
    if Current(s, s.more) then s.(more := NoTask, ui := s.ui.(error := true, moreBusy := false))
    else s.(more := NoTask)
  }

  // ---------------------------------------------------------------- download

  predicate CanDownload(s: State) {
    && !s.own.closed && s.own.query.Some? && s.ui.shown.Some? && s.ui.job.Some? && !s.ui.previousRows
    && s.ui.job.value.Ended? && s.ui.job.value.succeeded && s.download.NoTask? && !s.ui.moreBusy
  }

  function Download(s: State): State
    requires CanDownload(s)
  {
    var r := s.ui.shown.value;
    ContinueDownload(s.(ui := s.ui.(error := false)), s.own.query.value, r.next, r.rows, s.ui.job.value.rows)
  }

  /** The head of the loop: wait for another page, or leave it and emit the rows. */
  function ContinueDownload(s: State, q: QueryId, offset: Option<nat>, rows: seq<Row>, total: nat): State {
    match offset
    case Some(o) => s.(download := Await(q, o, rows, total))
    case None =>
      if s.own.closed || s.own.query != Some(q) then s.(download := NoTask)
      else if |rows| != total then s.(download := NoTask, ui := s.ui.(error := true))
      else s.(download := NoTask, log := s.log.(emitted := s.log.emitted + [(q, rows)]))
  }

  function DownloadPage(s: State, page: Page): State
    requires s.download.Await?
  {
    var w := s.download;
    if !PageMatches(w.offset, page) then DownloadFails(s)
    else if !Current(s, w) then s.(download := NoTask)
    else if |w.rows| + |page.rows| > 1000 then DownloadFails(s)
    else ContinueDownload(s, w.query, page.next, w.rows + page.rows, w.total)
  }

  function DownloadFails(s: State): State
    requires s.download.Await?
  {
    if Current(s, s.download) then s.(download := NoTask, ui := s.ui.(error := true))
    else s.(download := NoTask)
  }

  // ---------------------------------------------------------------- the system

  datatype Event =
    | EvRun(criteria: bool)
    | EvPrepared(task: nat) | EvPrepareFails(task: nat)
    | EvServerAccepts(task: nat) | EvSubmitFails(task: nat)
    | EvReceipt(task: nat) | EvReceiptLost(task: nat)
    | EvLateCancelDone(task: nat) | EvLateCancelFails(task: nat)
    | EvCancel | EvCancelDone(query: QueryId) | EvCancelFails(query: QueryId) | EvLeaveEnds(done: bool)
    | EvTimer | EvStrayTimer | EvRetry
    | EvStatus(terminal: bool) | EvStatusFails
    | EvFirstPage(page: Page) | EvFirstPageFails
    | EvMore | EvMorePage(page: Page) | EvMoreFails
    | EvDownload | EvDownloadPage(page: Page) | EvDownloadFails
    | EvFinish(query: QueryId, fate: Fate)
    | EvUnmount

  predicate Enabled(s: State, e: Event) {
    match e
    case EvRun(_) => CanRun(s)
    case EvPrepared(t) => t in s.runs && s.runs[t].Preparing?
    case EvPrepareFails(t) => t in s.runs && s.runs[t].Preparing?
    case EvServerAccepts(t) => t in s.runs && s.runs[t].Submitted?
    case EvSubmitFails(t) => t in s.runs && s.runs[t].Submitted?
    case EvReceipt(t) => t in s.runs && s.runs[t].Accepted?
    case EvReceiptLost(t) => t in s.runs && s.runs[t].Accepted?
    case EvLateCancelDone(t) => t in s.runs && s.runs[t].LateCancel?
    case EvLateCancelFails(t) => t in s.runs && s.runs[t].LateCancel?
    case EvCancel => CanCancel(s)
    case EvCancelDone(q) => q in s.cancels.asked
    case EvCancelFails(q) => q in s.cancels.asked
    case EvLeaveEnds(_) => s.cancels.leaving.Some?
    case EvTimer => s.own.timer
    case EvStrayTimer => s.own.strayTimers > 0
    case EvRetry => !s.own.closed && s.ui.error && s.ui.readFailed
    case EvStatus(terminal) => s.poll.AwaitStatus? && (terminal ==> s.poll.query in s.server.finished)
    case EvStatusFails => s.poll.AwaitStatus?
    case EvFirstPage(page) => s.poll.AwaitPage? && Honest(s.server, s.poll.query, 0, page)
    case EvFirstPageFails => s.poll.AwaitPage?
    case EvMore => CanMore(s)
    case EvMorePage(page) => s.more.Await? && Honest(s.server, s.more.query, s.more.offset, page)
    case EvMoreFails => s.more.Await?
    case EvDownload => CanDownload(s)
    case EvDownloadPage(page) => s.download.Await? && Honest(s.server, s.download.query, s.download.offset, page)
    case EvDownloadFails => s.download.Await?
    case EvFinish(q, _) => q < s.server.nextQuery && q !in s.server.finished
    case EvUnmount => !s.own.closed
  }

  function Step(s: State, e: Event): State
    requires Enabled(s, e)
  {
    match e
    case EvRun(criteria) => Run(s, criteria)
    case EvPrepared(t) => Prepared(s, t)
    case EvPrepareFails(t) => RunFails(s, t)
    case EvServerAccepts(t) => ServerAccepts(s, t)
    case EvSubmitFails(t) => RunFails(s, t)
    case EvReceipt(t) => Receipt(s, t, s.runs[t].id)
    case EvReceiptLost(t) => ReceiptLost(s, t, s.runs[t].id)
    case EvLateCancelDone(t) => LateCancelDone(s, t, s.runs[t].canceled)
    case EvLateCancelFails(t) => RunFails(s, t)
    case EvCancel => Cancel(s)
    case EvCancelDone(q) => CancelDone(s, q)
    case EvCancelFails(q) => CancelFails(s, q)
    case EvLeaveEnds(done) => LeaveEnds(s, done)
    case EvTimer => StartPoll(s.(own := s.own.(timer := false)))
    case EvStrayTimer => StartPoll(s.(own := s.own.(strayTimers := s.own.strayTimers - 1)))
    case EvRetry => StartPoll(s)
    case EvStatus(terminal) => StatusArrives(s, terminal)
    case EvStatusFails => StatusFails(s)
    case EvFirstPage(page) => FirstPage(s, page)
    case EvFirstPageFails => FirstPageFails(s)
    case EvMore => More(s)
    case EvMorePage(page) => MorePage(s, page)
    case EvMoreFails => MoreFails(s)
    case EvDownload => Download(s)
    case EvDownloadPage(page) => DownloadPage(s, page)
    case EvDownloadFails => DownloadFails(s)
    case EvFinish(q, fate) => s.(server := s.server.(finished := s.server.finished[q := fate]))
    case EvUnmount => Unmount(s)
  }

  /** `run` starts only while no poll waits for its first page and no earlier `run` is still pending. */
  predicate SafeToRun(s: State) {
    s.runs == map[] && !s.poll.AwaitPage?
  }

  predicate Disciplined(s: State, e: Event) {
    e.EvRun? ==> SafeToRun(s)
  }

  /** `events` can happen one after the other from `s`. */
  predicate Possible(s: State, events: seq<Event>)
    decreases |events|
  {
    events == [] || (Enabled(s, events[0]) && Possible(Step(s, events[0]), events[1..]))
  }

  function After(s: State, events: seq<Event>): State
    requires Possible(s, events)
    decreases |events|
  {
    if events == [] then s else After(Step(s, events[0]), events[1..])
  }

  predicate PossibleDisciplined(s: State, events: seq<Event>)
    decreases |events|
  {
    events == [] ||
    (Enabled(s, events[0]) && Disciplined(s, events[0]) && PossibleDisciplined(Step(s, events[0]), events[1..]))
  }

  lemma {:induction false} DisciplinedIsPossible(s: State, events: seq<Event>)
    requires PossibleDisciplined(s, events)
    ensures Possible(s, events)
    decreases |events|
  {
    if events != [] {
      DisciplinedIsPossible(Step(s, events[0]), events[1..]);
    }
  }
}
