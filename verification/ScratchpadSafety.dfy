/** What holds in every reachable state of a scratchpad whose runs start safely, and why the guard is exact. */
module ScratchpadSafety {
  import opened Results
  import opened ScratchpadProtocol

  /** The client knows of `q`, has not seen it end and has not asked the server to stop it. */
  predicate Live(log: Log, q: QueryId) {
    q in log.receipts && q !in log.seenTerminal && q !in log.cancelSent
  }

  predicate NothingLive(log: Log) {
    forall q :: q in log.receipts ==> !Live(log, q)
  }

  /** A live query is the owned one, and the scratchpad is running and mounted. */
  predicate OwnsLive(own: Lifetime, log: Log) {
    forall q :: q in log.receipts ==> Live(log, q) ==> own.query == Some(q) && own.running && !own.closed
  }

  /** `rows` are the first rows of the fixed result of `q`. */
  predicate PrefixOf(server: Server, q: QueryId, rows: seq<Row>) {
    q in server.finished && server.finished[q].Succeeded? && |rows| <= 1000 && rows <= server.finished[q].rows
  }

  // ---------------------------------------------------------------- the invariant

  predicate Known(query: Option<QueryId>, server: Server, log: Log) {
    && (forall q :: q in server.finished ==> q < server.nextQuery)
    && (forall q :: q in log.receipts ==> q < server.nextQuery)
    && (forall q :: q in log.lost ==> q < server.nextQuery)
    && log.seenTerminal <= log.receipts && log.cancelSent <= log.receipts
    && (query.Some? ==> query.value in log.receipts)
  }

  predicate PollOk(query: Option<QueryId>, poll: PollTask, server: Server, log: Log) {
    (poll.AwaitStatus? ==> poll.query in log.receipts) &&
    (poll.AwaitPage? ==>
      query == Some(poll.query) && poll.query in log.seenTerminal &&
      poll.query in server.finished && server.finished[poll.query].Succeeded?)
  }

  predicate RunOk(query: Option<QueryId>, alive: bool, task: RunTask, nextQuery: QueryId, log: Log) {
    match task
    case LateCancel(q) => query == Some(q) && q in log.cancelSent
    case Accepted(q) => query.None? && alive && q < nextQuery && q !in log.receipts && q !in log.lost
    case _ => query.None? && alive
  }

  predicate RunsOk(
    query: Option<QueryId>, alive: bool, runs: map<nat, RunTask>, nextRun: nat, nextQuery: QueryId, log: Log)
  {
    && (forall i :: i in runs ==> i < nextRun && RunOk(query, alive, runs[i], nextQuery, log))
    && (forall i, j :: i in runs && j in runs ==> i == j)
  }

  /** Every query the server created is known, in flight, or had its receipt lost. */
  predicate Accounted(runs: map<nat, RunTask>, nextQuery: QueryId, log: Log) {
    forall q: QueryId :: q < nextQuery ==>
      q in log.receipts || q in log.lost || exists i :: i in runs && runs[i] == Accepted(q)
  }

  predicate ShownOk(query: Option<QueryId>, ui: Ui, server: Server) {
    ui.shown.Some? ==>
      && PrefixOf(server, ui.shown.value.owner, ui.shown.value.rows)
      && (ui.shown.value.next.Some? ==> ui.shown.value.next.value == |ui.shown.value.rows|)
      && (!ui.previousRows ==> query == Some(ui.shown.value.owner))
  }

  predicate JobOk(query: Option<QueryId>, job: Option<Job>, server: Server) {
    job.Some? && job.value.Ended? && job.value.succeeded ==>
      query == Some(job.value.id) && job.value.id in server.finished &&
      server.finished[job.value.id].Succeeded? && job.value.rows == |server.finished[job.value.id].rows|
  }

  predicate TaskOk(server: Server, task: PageTask) {
    task.Await? ==> PrefixOf(server, task.query, task.rows) && task.offset == |task.rows|
  }

  predicate DownloadOk(server: Server, task: PageTask) {
    TaskOk(server, task) && (task.Await? ==> task.total == |server.finished[task.query].rows|)
  }

  /** Everything emitted is the complete result, of at most 1,000 rows, of its query. */
  predicate EmittedOk(server: Server, emitted: seq<(QueryId, seq<Row>)>) {
    forall i :: 0 <= i < |emitted| ==>
      && emitted[i].0 in server.finished && server.finished[emitted[i].0] == Succeeded(emitted[i].1)
      && |emitted[i].1| <= 1000
  }

  /** Rows shown, in hand and emitted are those of the queries they are taken for. */
  predicate RowsOk(s: State) {
    && ShownOk(s.own.query, s.ui, s.server)
    && JobOk(s.own.query, s.ui.job, s.server)
    && TaskOk(s.server, s.more)
    && DownloadOk(s.server, s.download)
    && EmittedOk(s.server, s.log.emitted)
  }

  predicate Inv(s: State) {
    && Known(s.own.query, s.server, s.log)
    && PollOk(s.own.query, s.poll, s.server, s.log)
    && OwnsLive(s.own, s.log)
    && RunsOk(s.own.query, s.own.running || s.own.closed, s.runs, s.nextRun, s.server.nextQuery, s.log)
    && Accounted(s.runs, s.server.nextQuery, s.log)
    && RowsOk(s)
    && (s.cancels.leaving.Some? ==> s.own.closed)
  }

  // ---------------------------------------------------------------- every step keeps it

  lemma RunKeeps(s: State, criteria: bool)
    requires Inv(s) && CanRun(s)
    ensures NothingLive(Run(s, criteria).log)
    ensures SafeToRun(s) ==> Inv(Run(s, criteria))
  {
  }

  lemma RunFailsKeeps(s: State, task: nat)
    requires Inv(s) && task in s.runs && !s.runs[task].Accepted?
    ensures Inv(RunFails(s, task))
  {
    assert forall i :: i !in RunFails(s, task).runs;
  }

  lemma PreparedKeeps(s: State, task: nat)
    requires Inv(s) && task in s.runs && s.runs[task].Preparing?
    ensures Inv(Prepared(s, task))
    ensures s.own.closed || s.own.cancelRequested ==> Prepared(s, task).runs == map[]
  {
    assert forall i :: i in Prepared(s, task).runs ==> i == task;
  }

  lemma ServerAcceptsKeeps(s: State, task: nat)
    requires Inv(s) && task in s.runs && s.runs[task].Submitted?
    ensures Inv(ServerAccepts(s, task))
  {
    var t := ServerAccepts(s, task);
    assert t.runs[task] == Accepted(s.server.nextQuery);
    forall q: QueryId | q < t.server.nextQuery
      ensures q in t.log.receipts || q in t.log.lost || exists i :: i in t.runs && t.runs[i] == Accepted(q)
    {
    }
  }

  lemma StartPollKeeps(s: State)
    requires Inv(s)
    ensures Inv(StartPoll(s))
  {
  }

  lemma LeavePollKeeps(s: State, finished: bool)
    requires Inv(s)
    ensures Inv(LeavePoll(s, finished))
  {
  }

  /** A received query is owned; if it is no longer wanted the server was asked to stop it, else it is live. */
  predicate Held(before: Lifetime, after: State, q: QueryId) {
    after.own.query == Some(q) &&
    if before.closed || before.cancelRequested then q in after.log.cancelSent else Live(after.log, q)
  }

  lemma ReceiptKeeps(s: State, task: nat)
    requires Inv(s) && task in s.runs && s.runs[task].Accepted?
    ensures Inv(Receipt(s, task, s.runs[task].id))
    ensures Held(s.own, Receipt(s, task, s.runs[task].id), s.runs[task].id)
  {
    var q := s.runs[task].id;
    var own := s.own.(query := Some(q));
    var log := s.log.(receipts := s.log.receipts + {q});
    if own.closed || own.cancelRequested {
    } else {
      var u := EndRun(s.(own := own, ui := s.ui.(job := Some(Active(q))), log := log), task);
      assert forall i :: i !in u.runs;
      assert Inv(u);
      StartPollKeeps(u);
    }
  }

  lemma ReceiptLostKeeps(s: State, task: nat)
    requires Inv(s) && task in s.runs && s.runs[task].Accepted?
    ensures Inv(ReceiptLost(s, task, s.runs[task].id))
  {
    var q := s.runs[task].id;
    var t := ReceiptLost(s, task, q);
    assert forall i :: i !in t.runs;
  }

  lemma LateCancelDoneKeeps(s: State, task: nat)
    requires Inv(s) && task in s.runs && s.runs[task].LateCancel?
    ensures Inv(LateCancelDone(s, task, s.runs[task].canceled))
  {
    var q := s.runs[task].canceled;
    var u := EndRun(s.(ui := s.ui.(job := Some(Active(q))), log := Acknowledge(s.log, q)), task);
    assert forall i :: i !in u.runs;
    assert Inv(u);
    StartPollKeeps(u);
  }

  lemma StatusKeeps(s: State, terminal: bool)
    requires Inv(s) && s.poll.AwaitStatus? && (terminal ==> s.poll.query in s.server.finished)
    ensures Inv(StatusArrives(s, terminal))
    ensures terminal && !s.own.closed && s.own.query == Some(s.poll.query) ==>
              NothingLive(StatusArrives(s, terminal).log)
  {
    if s.own.closed || s.own.query != Some(s.poll.query) {
      LeavePollKeeps(s, false);
    } else if terminal {
      TerminalStatusKeeps(s);
    } else {
      var t := s.(own := SetTimer(s.own),
                  ui := s.ui.(job := Some(Active(s.poll.query)), readFailed := false, error := false));
      LeavePollKeeps(t, false);
    }
  }

  lemma TerminalStatusKeeps(s: State)
    requires Inv(s) && s.poll.AwaitStatus? && s.poll.query in s.server.finished
    requires !s.own.closed && s.own.query == Some(s.poll.query)
    ensures Inv(TerminalStatus(s)) && NothingLive(TerminalStatus(s).log)
  {
    var q := s.poll.query;
    var log := s.log.(seenTerminal := s.log.seenTerminal + {q});
    if !s.server.finished[q].Succeeded? {
      var t := s.(ui := s.ui.(readFailed := false, job := Some(Ended(q, false, 0)),
                              error := s.server.finished[q].Broken?),
                  own := s.own.(running := false), log := log);
      assert Inv(t) by {
        assert forall i :: i in s.runs ==> s.runs[i].LateCancel?;
      }
      LeavePollKeeps(t, true);
    }
  }

  lemma StatusFailsKeeps(s: State)
    requires Inv(s) && s.poll.AwaitStatus?
    ensures Inv(StatusFails(s))
  {
    if s.own.closed {
      LeavePollKeeps(s, false);
    } else {
      LeavePollKeeps(s.(ui := s.ui.(error := true, readFailed := true)), false);
    }
  }

  /** While a poll waits for its first page, the owned query is the one it polls and no acceptance is pending. */
  lemma StopsRunning(s: State, ui: Ui)
    requires Inv(s) && s.poll.AwaitPage?
    requires ShownOk(s.own.query, ui, s.server) && ui.job == s.ui.job
    ensures Inv(s.(ui := ui, own := s.own.(running := false)))
  {
    assert forall i :: i in s.runs ==> s.runs[i].LateCancel?;
  }

  /** The page is shown as the start of the owned query's result, and nothing is live any more. */
  predicate Displays(before: State, page: Page, after: State) {
    before.poll.AwaitPage? && after.own.query == Some(before.poll.query) &&
    after.ui.shown == Some(Shown(before.poll.query, page.rows, page.next)) && !after.ui.previousRows &&
    PrefixOf(after.server, before.poll.query, page.rows) && NothingLive(after.log)
  }

  lemma FirstPageKeeps(s: State, page: Page)
    requires Inv(s) && s.poll.AwaitPage? && Honest(s.server, s.poll.query, 0, page)
    ensures Inv(FirstPage(s, page))
    ensures !s.own.closed && PageMatches(0, page) ==> Displays(s, page, FirstPage(s, page))
  {
    var q := s.poll.query;
    if !PageMatches(0, page) {
      FirstPageFailsKeeps(s);
    } else if s.own.closed {
      LeavePollKeeps(s, true);
    } else {
      var ui := s.ui.(shown := Some(Shown(q, page.rows, page.next)), previousRows := false);
      StopsRunning(s, ui);
      LeavePollKeeps(s.(ui := ui, own := s.own.(running := false)), true);
    }
  }

  lemma FirstPageFailsKeeps(s: State)
    requires Inv(s) && s.poll.AwaitPage?
    ensures Inv(FirstPageFails(s))
  {
    if s.own.closed {
      LeavePollKeeps(s, true);
    } else {
      var ui := s.ui.(error := true, readFailed := true);
      StopsRunning(s, ui);
      LeavePollKeeps(s.(ui := ui, own := s.own.(running := false)), true);
    }
  }

  lemma CancelKeeps(s: State)
    requires Inv(s) && CanCancel(s)
    ensures Inv(Cancel(s)) && NothingLive(Cancel(s).log) && Cancel(s).own.cancelRequested
  {
  }

  lemma UnmountKeeps(s: State)
    requires Inv(s)
    ensures Inv(Unmount(s)) && NothingLive(Unmount(s).log)
  {
  }

  lemma CancelReplyKeeps(s: State, e: Event)
    requires Inv(s) && Enabled(s, e) && (e.EvCancelDone? || e.EvCancelFails? || e.EvLeaveEnds?)
    ensures Inv(Step(s, e))
  {
    if e.EvCancelDone? && !s.own.closed {
      var u := CancelEnds(s, e.query).(log := Acknowledge(s.log, e.query));
      TimersAreFree(u, false, s.own.strayTimers);
      StartPollKeeps(u.(own := s.own.(timer := false)));
    }
  }

  predicate CancelEvent(e: Event) {
    e.EvCancel? || e.EvCancelDone? || e.EvCancelFails? || e.EvLeaveEnds? || e.EvUnmount?
  }

  lemma CancelStepsKeep(s: State, e: Event)
    requires Inv(s) && Enabled(s, e) && CancelEvent(e)
    ensures Inv(Step(s, e))
  {
    if e.EvCancel? {
      CancelKeeps(s);
    } else if e.EvUnmount? {
      UnmountKeeps(s);
    } else {
      CancelReplyKeeps(s, e);
    }
  }

  /** A page that follows rows already in hand extends the prefix. */
  lemma PageExtendsPrefix(server: Server, task: PageTask, page: Page)
    requires TaskOk(server, task) && task.Await? && Honest(server, task.query, task.offset, page)
    requires |task.rows| + |page.rows| <= 1000
    ensures PrefixOf(server, task.query, task.rows + page.rows)
  {
    var all := server.finished[task.query].rows;
    assert task.rows + page.rows == all[..task.offset + |page.rows|];
  }

  /** The page follows the rows in hand, for the query still owned, and leaves room for them all. */
  predicate Fits(before: State, task: PageTask, page: Page) {
    Current(before, task) && PageMatches(task.offset, page) && |task.rows| + |page.rows| <= 1000
  }

  /** The rows after a page of `more` are those in hand and the page, for the query owned when it arrived. */
  predicate Extended(before: State, page: Page, after: Option<Shown>) {
    before.more.Await? && after.Some? && before.own.query == Some(after.value.owner) &&
    after.value.rows == before.more.rows + page.rows && after.value.next == page.next &&
    PrefixOf(before.server, after.value.owner, after.value.rows)
  }

  lemma MorePageKeeps(s: State, page: Page)
    requires Inv(s) && s.more.Await? && Honest(s.server, s.more.query, s.more.offset, page)
    ensures Inv(MorePage(s, page))
    ensures var t := MorePage(s, page);
      if Fits(s, s.more, page) then Extended(s, page, t.ui.shown) else t.ui.shown == s.ui.shown
  {
    if Current(s, s.more) && |s.more.rows| + |page.rows| <= 1000 {
      PageExtendsPrefix(s.server, s.more, page);
    }
  }

  lemma MoreStepsKeep(s: State, e: Event)
    requires Inv(s) && Enabled(s, e) && (e.EvMore? || e.EvMorePage? || e.EvMoreFails?)
    ensures Inv(Step(s, e))
  {
    if e.EvMorePage? {
      MorePageKeeps(s, e.page);
    }
  }

  /** `rows` are as many as the owned query has, and there is no further page. */
  predicate Complete(s: State, rows: seq<Row>, next: Option<nat>) {
    && next.None? && !s.own.closed && s.own.query.Some? && s.own.query.value in s.server.finished
    && s.server.finished[s.own.query.value].Succeeded? && |rows| == |s.server.finished[s.own.query.value].rows|
  }

  /** The complete result of the owned query is emitted if `rows` are all of it, and otherwise nothing is. */
  predicate EmitsIfComplete(before: State, rows: seq<Row>, next: Option<nat>, after: Log) {
    after.emitted == before.log.emitted +
      if Complete(before, rows, next)
      then [(before.own.query.value, before.server.finished[before.own.query.value].rows)] else []
  }

  /** What `download` does with the rows on display. */
  predicate DownloadEmits(before: State, after: Log) {
    before.ui.shown.Some? && EmitsIfComplete(before, before.ui.shown.value.rows, before.ui.shown.value.next, after)
  }

  /** What it does with a further page. */
  predicate PageEmits(before: State, page: Page, after: Log) {
    before.download.Await? &&
    if Fits(before, before.download, page)
    then EmitsIfComplete(before, before.download.rows + page.rows, page.next, after)
    else after.emitted == before.log.emitted
  }

  lemma ContinueDownloadKeeps(s: State, q: QueryId, offset: Option<nat>, rows: seq<Row>, total: nat)
    requires Inv(s) && PrefixOf(s.server, q, rows) && total == |s.server.finished[q].rows|
    requires offset.Some? ==> offset.value == |rows|
    ensures Inv(ContinueDownload(s, q, offset, rows, total))
    ensures s.own.query == Some(q) ==> EmitsIfComplete(s, rows, offset, ContinueDownload(s, q, offset, rows, total).log)
  {
    assert |rows| == total ==> rows == s.server.finished[q].rows;
  }

  lemma DownloadKeeps(s: State)
    requires Inv(s) && CanDownload(s)
    ensures Inv(Download(s)) && DownloadEmits(s, Download(s).log)
  {
    var r := s.ui.shown.value;
    ContinueDownloadKeeps(s.(ui := s.ui.(error := false)), s.own.query.value, r.next, r.rows, s.ui.job.value.rows);
  }

  lemma DownloadPageKeeps(s: State, page: Page)
    requires Inv(s) && s.download.Await? && Honest(s.server, s.download.query, s.download.offset, page)
    ensures Inv(DownloadPage(s, page)) && PageEmits(s, page, DownloadPage(s, page).log)
  {
    var w := s.download;
    if Fits(s, w, page) {
      PageExtendsPrefix(s.server, w, page);
      ContinueDownloadKeeps(s, w.query, page.next, w.rows + page.rows, w.total);
    }
  }

  lemma DownloadStepsKeep(s: State, e: Event)
    requires Inv(s) && Enabled(s, e) && (e.EvDownload? || e.EvDownloadPage? || e.EvDownloadFails?)
    ensures Inv(Step(s, e))
  {
    if e.EvDownload? {
      DownloadKeeps(s);
    } else if e.EvDownloadPage? {
      DownloadPageKeeps(s, e.page);
    }
  }

  lemma FinishKeeps(s: State, q: QueryId, fate: Fate)
    requires Inv(s) && Enabled(s, EvFinish(q, fate))
    ensures Inv(Step(s, EvFinish(q, fate)))
  {
  }

  predicate RunEvent(e: Event) {
    e.EvRun? || e.EvPrepared? || e.EvPrepareFails? || e.EvServerAccepts? || e.EvSubmitFails? || e.EvReceipt?
    || e.EvReceiptLost? || e.EvLateCancelDone? || e.EvLateCancelFails?
  }

  lemma RunStepsKeep(s: State, e: Event)
    requires Inv(s) && Enabled(s, e) && Disciplined(s, e) && RunEvent(e)
    ensures Inv(Step(s, e))
  {
    match e
    case EvRun(criteria) => RunKeeps(s, criteria);
    case EvPrepared(t) => PreparedKeeps(s, t);
    case EvServerAccepts(t) => ServerAcceptsKeeps(s, t);
    case EvReceipt(t) => ReceiptKeeps(s, t);
    case EvReceiptLost(t) => ReceiptLostKeeps(s, t);
    case EvLateCancelDone(t) => LateCancelDoneKeeps(s, t);
    case EvPrepareFails(t) => RunFailsKeeps(s, t);
    case EvSubmitFails(t) => RunFailsKeeps(s, t);
    case EvLateCancelFails(t) => RunFailsKeeps(s, t);
  }

  predicate TimerEvent(e: Event) {
    e.EvTimer? || e.EvStrayTimer? || e.EvRetry?
  }

  predicate ReplyEvent(e: Event) {
    e.EvStatus? || e.EvStatusFails? || e.EvFirstPage? || e.EvFirstPageFails?
  }

  predicate PollEvent(e: Event) {
    TimerEvent(e) || ReplyEvent(e)
  }

  /** Nothing depends on the timers. */
  lemma TimersAreFree(s: State, timer: bool, strayTimers: nat)
    requires Inv(s)
    ensures Inv(s.(own := s.own.(timer := timer, strayTimers := strayTimers)))
  {
  }

  lemma TimerStepsKeep(s: State, e: Event)
    requires Inv(s) && Enabled(s, e) && TimerEvent(e)
    ensures Inv(Step(s, e))
  {
    if e.EvTimer? {
      TimersAreFree(s, false, s.own.strayTimers);
      StartPollKeeps(s.(own := s.own.(timer := false)));
    } else if e.EvStrayTimer? {
      TimersAreFree(s, s.own.timer, s.own.strayTimers - 1);
      StartPollKeeps(s.(own := s.own.(strayTimers := s.own.strayTimers - 1)));
    } else {
      StartPollKeeps(s);
    }
  }

  lemma ReplyStepsKeep(s: State, e: Event)
    requires Inv(s) && Enabled(s, e) && ReplyEvent(e)
    ensures Inv(Step(s, e))
  {
    match e
    case EvStatus(terminal) => StatusKeeps(s, terminal);
    case EvStatusFails => StatusFailsKeeps(s);
    case EvFirstPage(page) => FirstPageKeeps(s, page);
    case EvFirstPageFails => FirstPageFailsKeeps(s);
  }

  lemma StepKeeps(s: State, e: Event)
    requires Inv(s) && Enabled(s, e) && Disciplined(s, e)
    ensures Inv(Step(s, e))
  {
    if RunEvent(e) {
      RunStepsKeep(s, e);
    } else if TimerEvent(e) {
      TimerStepsKeep(s, e);
    } else if ReplyEvent(e) {
      ReplyStepsKeep(s, e);
    } else if e.EvMore? || e.EvMorePage? || e.EvMoreFails? {
      MoreStepsKeep(s, e);
    } else if e.EvDownload? || e.EvDownloadPage? || e.EvDownloadFails? {
      DownloadStepsKeep(s, e);
    } else if e.EvFinish? {
      FinishKeeps(s, e.query, e.fate);
    } else {
      CancelStepsKeep(s, e);
    }
  }

  lemma {:induction false} ReachableStatesKeepInv(s: State, events: seq<Event>)
    requires Inv(s) && PossibleDisciplined(s, events)
    ensures Possible(s, events) && Inv(After(s, events))
    decreases |events|
  {
    DisciplinedIsPossible(s, events);
    if events != [] {
      StepKeeps(s, events[0]);
      ReachableStatesKeepInv(Step(s, events[0]), events[1..]);
    }
  }

  // ---------------------------------------------------------------- main results

  /**
    * In every reachable state at most one query is live, and it is the owned query of a running,
    * mounted scratchpad. Once unmounted there is none, and when the pending runs have drained every
    * query the server created was seen to end, was sent a cancel, or had its receipt lost.
    */
  lemma QueryOwnership(events: seq<Event>)
    requires PossibleDisciplined(INITIAL, events)
    ensures Possible(INITIAL, events)
    ensures var s := After(INITIAL, events);
      && (forall q: QueryId, r: QueryId :: Live(s.log, q) && Live(s.log, r) ==> q == r)
      && (forall q: QueryId :: Live(s.log, q) ==> s.own.query == Some(q) && s.own.running && !s.own.closed)
      && (s.own.closed && s.runs == map[] ==>
            forall q: QueryId :: q < s.server.nextQuery ==>
              q in s.log.seenTerminal || q in s.log.cancelSent || q in s.log.lost)
  {
    ReachableStatesKeepInv(INITIAL, events);
  }

  // ---------------------------------------------------------------- acknowledged cancels

  /** The client knows of `q`, has not seen it end, and no cancel of it was acknowledged. */
  predicate Unended(log: Log, q: QueryId) {
    q in log.receipts && q !in log.seenTerminal && q !in log.acknowledged
  }

  predicate Owns(own: Lifetime, q: QueryId) {
    own.query == Some(q) && own.running && !own.closed
  }

  predicate LateCancelOf(runs: map<nat, RunTask>, q: QueryId) {
    exists i :: i in runs && runs[i] == LateCancel(q)
  }

  /** An unended query is owned by a running, mounted scratchpad, or a cancel of it is under way. */
  predicate Traced(s: State, q: QueryId) {
    Unended(s.log, q) ==>
      Owns(s.own, q) || q in s.cancels.asked || s.cancels.leaving == Some(q) || LateCancelOf(s.runs, q)
  }

  predicate AllTraced(s: State) {
    forall q :: q in s.log.receipts ==> Traced(s, q)
  }

  /** The last cancel of an unended query fails, and no running scratchpad owns that query afterwards. */
  predicate Abandons(s: State, e: Event)
    requires Enabled(s, e)
  {
    match e
    case EvCancelFails(q) =>
      Unended(s.log, q) && !Owns(s.own, q) && s.cancels.asked[q] == 1 && s.cancels.leaving != Some(q)
      && !LateCancelOf(s.runs, q)
    case EvLateCancelFails(t) =>
      var q := s.runs[t].canceled;
      Unended(s.log, q) && q !in s.cancels.asked && s.cancels.leaving != Some(q)
    case EvLeaveEnds(done) =>
      var q := s.cancels.leaving.value;
      !done && Unended(s.log, q) && q !in s.cancels.asked && !LateCancelOf(s.runs, q)
    case _ => false
  }

  lemma RunStepsTrace(s: State, e: Event, q: QueryId)
    requires Inv(s) && Enabled(s, e) && RunEvent(e) && Traced(s, q) && !Abandons(s, e)
    requires q in s.log.receipts || !e.EvReceipt?
    ensures Traced(Step(s, e), q)
  {
    var t := Step(s, e);
    if LateCancelOf(s.runs, q) {
      var i :| i in s.runs && s.runs[i] == LateCancel(q);
      if i in t.runs && t.runs[i] == LateCancel(q) {
      } else {
        assert e.EvLateCancelDone? || e.EvLateCancelFails?;
      }
    }
  }

  /** A query that was just received is owned, or asked to stop. */
  lemma ReceiptIsTraced(s: State, task: nat)
    requires Inv(s) && task in s.runs && s.runs[task].Accepted?
    ensures Traced(Receipt(s, task, s.runs[task].id), s.runs[task].id)
  {
    var t := Receipt(s, task, s.runs[task].id);
    if s.own.closed || s.own.cancelRequested {
      assert t.runs[task] == LateCancel(s.runs[task].id);
    }
  }

  /** Steps of a poll leave runs and cancels alone. */
  predicate SameCancels(s: State, t: State) {
    t.runs == s.runs && t.cancels == s.cancels && t.log.receipts == s.log.receipts &&
    t.log.acknowledged == s.log.acknowledged && s.log.seenTerminal <= t.log.seenTerminal
  }

  lemma TimerTouchesNoCancel(s: State, e: Event)
    requires Enabled(s, e) && TimerEvent(e)
    ensures SameCancels(s, Step(s, e))
  {
  }

  lemma ReplyTouchesNoCancel(s: State, e: Event)
    requires Enabled(s, e) && ReplyEvent(e)
    ensures SameCancels(s, Step(s, e))
  {
  }

  lemma TimerKeepsOwned(s: State, e: Event, q: QueryId)
    requires Enabled(s, e) && TimerEvent(e) && Owns(s.own, q)
    ensures Owns(Step(s, e).own, q)
  {
  }

  /** A poll stops running only for a query that it has seen to end. */
  lemma ReplyKeepsOwned(s: State, e: Event, q: QueryId)
    requires PollOk(s.own.query, s.poll, s.server, s.log) && Enabled(s, e) && ReplyEvent(e)
    requires Owns(s.own, q) && Unended(Step(s, e).log, q)
    ensures Owns(Step(s, e).own, q)
  {
  }

  lemma PollStepsTrace(s: State, e: Event, q: QueryId)
    requires Inv(s) && Enabled(s, e) && PollEvent(e) && Traced(s, q)
    ensures Traced(Step(s, e), q)
  {
    if TimerEvent(e) {
      TimerTouchesNoCancel(s, e);
      if Owns(s.own, q) {
        TimerKeepsOwned(s, e, q);
      }
    } else {
      ReplyTouchesNoCancel(s, e);
      if Owns(s.own, q) && Unended(Step(s, e).log, q) {
        ReplyKeepsOwned(s, e, q);
      }
    }
  }

  lemma CancelStepsTrace(s: State, e: Event, q: QueryId)
    requires Inv(s) && Enabled(s, e) && CancelEvent(e) && Traced(s, q) && !Abandons(s, e)
    ensures Traced(Step(s, e), q)
  {
  }

  lemma OtherStepsTrace(s: State, e: Event, q: QueryId)
    requires Inv(s) && Enabled(s, e) && !RunEvent(e) && !PollEvent(e) && !CancelEvent(e) && Traced(s, q)
    ensures Traced(Step(s, e), q)
  {
  }

  lemma StepTraces(s: State, e: Event)
    requires Inv(s) && AllTraced(s) && Enabled(s, e) && !Abandons(s, e)
    ensures AllTraced(Step(s, e))
  {
    forall q | q in Step(s, e).log.receipts ensures Traced(Step(s, e), q) {
      if e.EvReceipt? && s.runs[e.task].id == q {
        ReceiptIsTraced(s, e.task);
      } else if RunEvent(e) {
        RunStepsTrace(s, e, q);
      } else if PollEvent(e) {
        PollStepsTrace(s, e, q);
      } else if CancelEvent(e) {
        CancelStepsTrace(s, e, q);
      } else {
        OtherStepsTrace(s, e, q);
      }
    }
  }

  lemma AbandoningLosesTrace(s: State, e: Event)
    requires Inv(s) && Enabled(s, e) && Abandons(s, e)
    ensures !AllTraced(Step(s, e))
  {
    var q := match e
      case EvCancelFails(q) => q
      case EvLateCancelFails(t) => s.runs[t].canceled
      case EvLeaveEnds(_) => s.cancels.leaving.value;
    assert q in Step(s, e).log.receipts && !Traced(Step(s, e), q);
  }

  /**
    * Every query that was received, has not been seen to end and has no acknowledged cancel stays owned or has a
    * cancel under way, at every step but one: the failure of its last cancel when no running scratchpad owns it.
    */
  lemma TraceIsExact(s: State, e: Event)
    requires Inv(s) && AllTraced(s) && Enabled(s, e)
    ensures AllTraced(Step(s, e)) <==> !Abandons(s, e)
  {
    if Abandons(s, e) {
      AbandoningLosesTrace(s, e);
    } else {
      StepTraces(s, e);
    }
  }

  ghost predicate NeverAbandons(s: State, events: seq<Event>)
    requires Possible(s, events)
    decreases |events|
  {
    events == [] || (!Abandons(s, events[0]) && NeverAbandons(Step(s, events[0]), events[1..]))
  }

  lemma {:induction false} RunsTrace(s: State, events: seq<Event>)
    requires Inv(s) && AllTraced(s) && PossibleDisciplined(s, events)
    requires Possible(s, events) && NeverAbandons(s, events)
    ensures AllTraced(After(s, events))
    decreases |events|
  {
    if events != [] {
      TraceIsExact(s, events[0]);
      StepKeeps(s, events[0]);
      DisciplinedIsPossible(Step(s, events[0]), events[1..]);
      RunsTrace(Step(s, events[0]), events[1..]);
    }
  }

  /**
    * After any such run an unended query is owned or being canceled; and once the scratchpad is unmounted and
    * nothing is under way, every received query was seen to end or its cancel was acknowledged.
    */
  lemma AcknowledgedOwnership(events: seq<Event>)
    requires PossibleDisciplined(INITIAL, events) && Possible(INITIAL, events) && NeverAbandons(INITIAL, events)
    ensures var s := After(INITIAL, events);
      && AllTraced(s)
      && (s.own.closed && s.runs == map[] && s.cancels == Canceling(multiset{}, None) ==>
            forall q :: q in s.log.receipts ==> q in s.log.seenTerminal || q in s.log.acknowledged)
  {
    RunsTrace(INITIAL, events);
  }

  const CANCELS_LATE: seq<Event> := [EvRun(false), EvPrepared(0), EvServerAccepts(0), EvCancel, EvReceipt(0)]
  const RUNS_ANEW: seq<Event> := [EvLateCancelFails(0), EvRun(false)]

  /** A query canceled before its receipt came: its cancel is under way. */
  predicate WaitsForLateCancel(s: State) {
    && s.own == Lifetime(false, true, true, false, Some(0), false, 0) && s.download.NoTask? && s.poll.NoPoll?
    && s.runs == map[0 := LateCancel(0)] && s.nextRun == 1 && s.cancels == Canceling(multiset{}, None)
    && Unended(s.log, 0) && s.server == Server(1, map[])
  }

  lemma CancelIsLate()
    ensures PossibleDisciplined(INITIAL, CANCELS_LATE) && Possible(INITIAL, CANCELS_LATE)
    ensures WaitsForLateCancel(After(INITIAL, CANCELS_LATE))
  {
  }

  /** The query is not ended, the server still has it, and nothing at the client refers to it. */
  predicate Forgotten(s: State, q: QueryId) {
    && !Traced(s, q) && q !in s.server.finished && q < s.server.nextQuery && s.own.query != Some(q)
    && s.own.running && !s.own.closed
  }

  lemma LateCancelFailsThenRuns(s: State)
    requires WaitsForLateCancel(s)
    ensures PossibleDisciplined(s, RUNS_ANEW) && Possible(s, RUNS_ANEW) && Forgotten(After(s, RUNS_ANEW), 0)
  {
    var t := Step(s, EvLateCancelFails(0));
    assert t.runs == map[];
    assert RUNS_ANEW[1..] == [EvRun(false)] && [EvRun(false)][1..] == [];
  }

  /** A late cancel that fails, and another run: the first query runs on and nobody knows of it. */
  lemma ForgottenQueryIsReachable()
    ensures PossibleDisciplined(INITIAL, CANCELS_LATE + RUNS_ANEW) && Possible(INITIAL, CANCELS_LATE + RUNS_ANEW)
    ensures Forgotten(After(INITIAL, CANCELS_LATE + RUNS_ANEW), 0)
  {
    CancelIsLate();
    var s := After(INITIAL, CANCELS_LATE);
    LateCancelFailsThenRuns(s);
    var e, f := RUNS_ANEW[0], RUNS_ANEW[1];
    OneMore(INITIAL, CANCELS_LATE, e);
    OneMore(INITIAL, CANCELS_LATE + [e], f);
    assert CANCELS_LATE + [e] + [f] == CANCELS_LATE + RUNS_ANEW;
    assert RUNS_ANEW[1..] == [f] && [f][1..] == [];
    assert After(s, RUNS_ANEW) == Step(Step(s, e), f);
  }

  // ---------------------------------------------------------------- downloads end

  /** How many pages a pending download may still take. */
  function PagesLeft(task: PageTask): nat {
    if task.NoTask? then 0 else if task.offset < 1000 then 1000 - task.offset else 1
  }

  function DownloadsStarted(events: seq<Event>): nat {
    if events == [] then 0 else (if events[0].EvDownload? then 1 else 0) + DownloadsStarted(events[1..])
  }

  function DownloadPages(events: seq<Event>): nat {
    if events == [] then 0 else (if events[0].EvDownloadPage? then 1 else 0) + DownloadPages(events[1..])
  }

  /** Each page of a download ends it or moves its offset forward, below 1,000. */
  lemma PagesRunOut(s: State, e: Event)
    requires Enabled(s, e)
    ensures PagesLeft(Step(s, e).download) + (if e.EvDownloadPage? then 1 else 0) <=
      PagesLeft(s.download) + (if e.EvDownload? then 1000 else 0)
  {
  }

  /**
    * A download ends: whatever else happens meanwhile, and whatever pages the server sends, the pages
    * fetched in any run are at most those the pending download may still take and 1,000 for each one started.
    */
  lemma {:induction false} DownloadsAreBounded(s: State, events: seq<Event>)
    requires Possible(s, events)
    ensures DownloadPages(events) <= PagesLeft(s.download) + 1000 * DownloadsStarted(events)
    decreases |events|
  {
    if events != [] {
      PagesRunOut(s, events[0]);
      DownloadsAreBounded(Step(s, events[0]), events[1..]);
    }
  }

  // ---------------------------------------------------------------- the guard on run is exact

  /** However the run continues, as long as later runs start safely, its live query stays owned. */
  ghost predicate StaysOwned(s: State) {
    forall events :: PossibleDisciplined(s, events) ==> OwnedAfter(s, events)
  }

  predicate OwnedAfter(s: State, events: seq<Event>) {
    Possible(s, events) && OwnsLive(After(s, events).own, After(s, events).log)
  }

  /** The steps that take a new run to its receipt. */
  function ToReceipt(task: nat): seq<Event> {
    [EvPrepared(task), EvServerAccepts(task), EvReceipt(task)]
  }

  /** After these steps the new query is live, owned and running, and every older task is untouched. */
  lemma NewRunIsLive(s: State, criteria: bool)
    requires Inv(s) && CanRun(s)
    ensures var t := Run(s, criteria); var events := ToReceipt(s.nextRun);
      && PossibleDisciplined(t, events) && Possible(t, events)
      && var u := After(t, events);
         Live(u.log, s.server.nextQuery) && !u.own.closed && u.server.finished == s.server.finished &&
         (!s.poll.NoPoll? ==> u.poll == s.poll) && forall i :: i in s.runs ==> i in u.runs && u.runs[i] == s.runs[i]
  {
    var task := s.nextRun;
    var q := s.server.nextQuery;
    var t0 := Run(s, criteria);
    var t1 := Step(t0, EvPrepared(task));
    var t2 := Step(t1, EvServerAccepts(task));
    assert t2.runs[task] == Accepted(q);
    var t3 := Step(t2, EvReceipt(task));
    Unfold3(t0, EvPrepared(task), EvServerAccepts(task), EvReceipt(task));
    assert q !in s.log.receipts && q !in s.log.seenTerminal && q !in s.log.cancelSent;
  }

  lemma Unfold3(s: State, a: Event, b: Event, c: Event)
    requires Enabled(s, a) && Enabled(Step(s, a), b) && Enabled(Step(Step(s, a), b), c)
    requires Disciplined(s, a) && Disciplined(Step(s, a), b) && Disciplined(Step(Step(s, a), b), c)
    ensures PossibleDisciplined(s, [a, b, c]) && Possible(s, [a, b, c])
    ensures After(s, [a, b, c]) == Step(Step(Step(s, a), b), c)
  {
    assert [a, b, c][1..] == [b, c] && [b, c][1..] == [c] && [c][1..] == [];
    assert PossibleDisciplined(Step(Step(s, a), b), [c]);
    assert PossibleDisciplined(Step(s, a), [b, c]);
    assert After(Step(Step(s, a), b), [c]) == Step(Step(Step(s, a), b), c);
    assert After(Step(s, a), [b, c]) == Step(Step(Step(s, a), b), c);
  }

  lemma {:induction false} OneMore(s: State, events: seq<Event>, e: Event)
    requires PossibleDisciplined(s, events) && Possible(s, events)
    requires Enabled(After(s, events), e) && Disciplined(After(s, events), e)
    ensures PossibleDisciplined(s, events + [e]) && Possible(s, events + [e])
    ensures After(s, events + [e]) == Step(After(s, events), e)
    decreases |events|
  {
    var all := events + [e];
    if events == [] {
      assert all[1..] == [];
    } else {
      assert all[1..] == events[1..] + [e];
      OneMore(Step(s, events[0]), events[1..], e);
    }
  }

  /** The step of an older poll or run that clears `running` under the new query. */
  function Intruder(s: State): Event
    requires Inv(s) && !SafeToRun(s)
  {
    if s.poll.AwaitPage? then EvFirstPage(ServerPage(s.server.finished[s.poll.query].rows, 0))
    else
      var i := AnyTask(s.runs);
      EvLateCancelFails(i)
  }

  function AnyTask(runs: map<nat, RunTask>): (i: nat)
    requires exists i :: i in runs && forall j :: j in runs ==> i == j
    ensures i in runs
  {
    var i :| i in runs && forall j :: j in runs ==> i == j;
    i
  }

  lemma UnsafeRunLosesItsQuery(s: State, criteria: bool)
    requires Inv(s) && CanRun(s) && !SafeToRun(s)
    ensures !StaysOwned(Run(s, criteria))
  {
    NewRunIsLive(s, criteria);
    var t := Run(s, criteria);
    var events := ToReceipt(s.nextRun);
    var u := After(t, events);
    var e := Intruder(s);
    if s.poll.AwaitPage? {
      assert Enabled(u, e);
    } else {
      assert s.runs[e.task].LateCancel?;
      assert Enabled(u, e);
    }
    OneMore(t, events, e);
    var v := After(t, events + [e]);
    assert Live(v.log, s.server.nextQuery) && !v.own.running;
    assert !OwnedAfter(t, events + [e]);
  }

  /**
    * Starting a run keeps ownership, whatever happens next, exactly when no poll is waiting for its
    * first page and no earlier run is pending. Both exceptions are reachable: a poll of a query that has
    * ended, started by a late cancel or by Retry status, and a cancel sent late by an earlier run.
    */
  lemma RunGuardIsExact(s: State, criteria: bool)
    requires Inv(s) && CanRun(s)
    ensures StaysOwned(Run(s, criteria)) <==> SafeToRun(s)
  {
    var t := Run(s, criteria);
    if SafeToRun(s) {
      RunKeeps(s, criteria);
      forall events | PossibleDisciplined(t, events) ensures OwnedAfter(t, events) {
        ReachableStatesKeepInv(t, events);
      }
    } else {
      UnsafeRunLosesItsQuery(s, criteria);
    }
  }

  // ---------------------------------------------------------------- the unsafe state is reachable

  const FATE := Succeeded([])
  const NONE := Canceling(multiset{}, None)
  const ONE := Canceling(multiset{0}, None)
  const PAGE := Page([], None)

  /** A query is run, canceled and found to have succeeded before the cancel is acknowledged. */
  const FIRST_HALF: seq<Event> := CANCELED + [EvStatus(true), EvFirstPage(PAGE)]

  const CANCELED: seq<Event> := ToReceiptOf(0) + [EvCancel, EvFinish(0, FATE)]

  function ToReceiptOf(task: nat): seq<Event> {
    [EvRun(false), EvPrepared(task), EvServerAccepts(task), EvReceipt(task)]
  }

  lemma FirstHalf()
    ensures PossibleDisciplined(INITIAL, FIRST_HALF) && Possible(INITIAL, FIRST_HALF)
    ensures var s := After(INITIAL, FIRST_HALF);
      && s.runs == map[] && s.poll == NoPoll && s.cancels == ONE && s.download.NoTask?
      && s.own.query == Some(0) && !s.own.running && !s.own.closed && !s.own.pollAgain
      && s.server.finished == map[0 := FATE]
  {
    var s0 := INITIAL;
    var s1 := Run(s0, false);
    var s2 := Step(s1, EvPrepared(0));
    var s3 := Step(s2, EvServerAccepts(0));
    var s4 := Step(s3, EvReceipt(0));
    assert s4.runs == map[] && s4.poll == AwaitStatus(0);
    OneMore(s0, [], EvRun(false));
    OneMore(s0, [EvRun(false)], EvPrepared(0));
    assert [EvRun(false)] + [EvPrepared(0)] == ToReceiptOf(0)[..2];
    OneMore(s0, ToReceiptOf(0)[..2], EvServerAccepts(0));
    assert ToReceiptOf(0)[..2] + [EvServerAccepts(0)] == ToReceiptOf(0)[..3];
    OneMore(s0, ToReceiptOf(0)[..3], EvReceipt(0));
    assert ToReceiptOf(0)[..3] + [EvReceipt(0)] == ToReceiptOf(0);
    FirstHalfEnds(s4);
  }

  /** The run is canceled and the server finishes the query. */
  lemma CancelThenFinish(s4: State)
    requires PossibleDisciplined(INITIAL, ToReceiptOf(0)) && Possible(INITIAL, ToReceiptOf(0))
    requires After(INITIAL, ToReceiptOf(0)) == s4
    requires s4.own == Lifetime(false, true, false, false, Some(0), false, 0)
    requires s4.runs == map[] && s4.poll == AwaitStatus(0) && s4.cancels == NONE && s4.download.NoTask?
    requires s4.server == Server(1, map[])
    ensures PossibleDisciplined(INITIAL, CANCELED) && Possible(INITIAL, CANCELED)
    ensures var s := After(INITIAL, CANCELED);
      && s.own == Lifetime(false, true, true, false, Some(0), false, 0)
      && s.runs == map[] && s.poll == AwaitStatus(0) && s.cancels == ONE && s.download.NoTask?
      && s.server == Server(1, map[0 := FATE])
  {
    var e := ToReceiptOf(0);
    OneMore(INITIAL, e, EvCancel);
    OneMore(INITIAL, e + [EvCancel], EvFinish(0, FATE));
    assert e + [EvCancel] + [EvFinish(0, FATE)] == CANCELED;
  }

  lemma FirstHalfEnds(s4: State)
    requires PossibleDisciplined(INITIAL, ToReceiptOf(0)) && Possible(INITIAL, ToReceiptOf(0))
    requires After(INITIAL, ToReceiptOf(0)) == s4
    requires s4.own == Lifetime(false, true, false, false, Some(0), false, 0)
    requires s4.runs == map[] && s4.poll == AwaitStatus(0) && s4.cancels == NONE && s4.download.NoTask?
    requires s4.server == Server(1, map[])
    ensures PossibleDisciplined(INITIAL, FIRST_HALF) && Possible(INITIAL, FIRST_HALF)
    ensures var s := After(INITIAL, FIRST_HALF);
      && s.runs == map[] && s.poll == NoPoll && s.cancels == ONE && s.download.NoTask?
      && s.own.query == Some(0) && !s.own.running && !s.own.closed && !s.own.pollAgain
      && s.server.finished == map[0 := FATE]
  {
    CancelThenFinish(s4);
    OneMore(INITIAL, CANCELED, EvStatus(true));
    OneMore(INITIAL, CANCELED + [EvStatus(true)], EvFirstPage(PAGE));
    assert CANCELED + [EvStatus(true)] + [EvFirstPage(PAGE)] == FIRST_HALF;
  }

  /** An ordinary late cancel acknowledgement leads to a state in which starting a run is unsafe. */
  lemma UnsafeStateIsReachable()
    ensures exists events ::
      PossibleDisciplined(INITIAL, events) && Possible(INITIAL, events) &&
      CanRun(After(INITIAL, events)) && !SafeToRun(After(INITIAL, events))
  {
    FirstHalf();
    OneMore(INITIAL, FIRST_HALF, EvCancelDone(0));
    var e := FIRST_HALF + [EvCancelDone(0)];
    OneMore(INITIAL, e, EvStatus(true));
    var s := After(INITIAL, e + [EvStatus(true)]);
    assert s.poll == AwaitPage(0) && !s.own.running;
  }
}
