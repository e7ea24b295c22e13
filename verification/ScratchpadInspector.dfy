/**
  * The mutable scratchpad of web/src/ScratchpadInspector.tsx: its `Owned` fields and component state,
  * updated in place by one method per atomic segment of its async functions. Each method is proved
  * against the transition system, so what holds of all runs of that system holds of the object.
  */
module ScratchpadInspector {
  import opened Results
  import P = ScratchpadProtocol
  import opened ScratchpadSafety
  import D = ScratchpadDisplay
  import G = ScratchpadProgress

  class Scratchpad {
    // `Owned`
    var closed: bool
    var running: bool
    var cancelRequested: bool
    var pollAgain: bool
    var query: Option<P.QueryId>
    var timer: bool
    var strayTimers: nat
    // component state
    var shown: Option<P.Shown>
    var previousRows: bool
    var job: Option<P.Job>
    var error: bool
    var readFailed: bool
    var moreBusy: bool
    // pending continuations
    var runs: map<nat, P.RunTask>
    var nextRun: nat
    var polling: P.PollTask
    var cancels: P.Canceling
    var paging: P.PageTask
    var downloading: P.PageTask
    // the server, and what has been observed
    var server: P.Server
    var log: P.Log

    ghost function Own(): P.Lifetime
      reads this
    {
      P.Lifetime(closed, running, cancelRequested, pollAgain, query, timer, strayTimers)
    }

    ghost function View(): P.Ui
      reads this
    {
      P.Ui(shown, previousRows, job, error, readFailed, moreBusy)
    }

    ghost function Now(): P.State
      reads this
    {
      P.State(Own(), View(), runs, nextRun, polling, cancels, paging, downloading, server, log)
    }

    constructor ()
      ensures Now() == P.INITIAL
    {
      closed, running, cancelRequested, pollAgain := false, false, false, false;
      query, timer, strayTimers := None, false, 0;
      shown, previousRows, job, error, readFailed, moreBusy := None, false, None, false, false, false;
      runs, nextRun, polling, paging, downloading := map[], 0, P.NoPoll, P.NoTask, P.NoTask;
      cancels := P.Canceling(multiset{}, None);
      server, log := P.Server(0, map[]), P.Log({}, {}, {}, {}, {}, []);
    }

    // -------------------------------------------------------------- poll

    method SetTimer()
      modifies `timer, `strayTimers
      ensures Own() == P.SetTimer(old(Own()))
    {
      if timer {
        strayTimers := strayTimers + 1;
      }
      timer := true;
    }

    /** `poll` up to its first `await`. */
    method Poll()
      modifies `pollAgain, `polling
      ensures Now() == P.StartPoll(old(Now()))
    {
      if query.None? || closed {
        return;
      }
      if !polling.NoPoll? {
        pollAgain := true;
        return;
      }
      polling := P.AwaitStatus(query.value);
    }

    /** The `finally` block of `poll`. */
    method LeavePoll(finished: bool)
      modifies `polling, `pollAgain, `timer, `strayTimers
      ensures Now() == P.LeavePoll(old(Now()), finished)
    {
      polling := P.NoPoll;
      if pollAgain && !closed {
        pollAgain := false;
        timer := false;
        if !finished {
          SetTimer();
        }
      }
    }

    /** The query is still running: poll again in half a second. */
    method StillActive(q: P.QueryId)
      modifies `job, `timer, `strayTimers, `polling, `pollAgain
      ensures var s := old(Now());
        Now() == P.LeavePoll(s.(own := P.SetTimer(s.own), ui := s.ui.(job := Some(P.Active(q)))), false)
    {
      job := Some(P.Active(q));
      SetTimer();
      LeavePoll(false);
    }

    /** The query ended without rows. */
    method EndedWithoutRows(q: P.QueryId, broken: bool)
      requires !error
      modifies `job, `error, `running, `timer, `strayTimers, `polling, `pollAgain
      ensures Now() == P.LeavePoll(
                old(Now()).(own := old(Own()).(running := false),
                            ui := old(View()).(job := Some(P.Ended(q, false, 0)), error := broken)), true)
    {
      job := Some(P.Ended(q, false, 0));
      if broken {
        error := true;
      }
      running := false;
      LeavePoll(true);
    }

    /** Reading succeeded, and the query was seen to have ended. */
    method NoteEnd(q: P.QueryId)
      modifies `readFailed, `error, `log
      ensures View() == old(View()).(readFailed := false, error := false)
      ensures log == old(log).(seenTerminal := old(log).seenTerminal + {q})
    {
      readFailed := false;
      error := false;
      log := log.(seenTerminal := log.seenTerminal + {q});
    }

    /** The owned query is terminal. */
    method TerminalReply(fate: P.Fate)
      requires polling.AwaitStatus? && polling.query in server.finished && server.finished[polling.query] == fate
      modifies `job, `error, `readFailed, `running, `timer, `strayTimers, `polling, `pollAgain, `log
      ensures Now() == P.TerminalStatus(old(Now()))
    {
      var q := polling.query;
      NoteEnd(q);
      if fate.Succeeded? {
        job := Some(P.Ended(q, true, |fate.rows|));
        polling := P.AwaitPage(q);
      } else {
        EndedWithoutRows(q, fate.Broken?);
      }
    }

    /** The status reply, with the query's fate once it is terminal. */
    method StatusReply(fate: Option<P.Fate>)
      requires polling.AwaitStatus?
      requires fate.Some? ==> polling.query in server.finished && server.finished[polling.query] == fate.value
      modifies this
      ensures Now() == P.StatusArrives(old(Now()), fate.Some?)
      ensures old(Inv(Now())) ==> Inv(Now())
      ensures old(Inv(Now()) && !closed && query == Some(polling.query)) && fate.Some? ==> NothingLive(log)
    {
      ghost var before := Now();
      var q := polling.query;
      if closed || query != Some(q) {
        LeavePoll(false);
      } else if fate.None? {
        readFailed := false;
        error := false;
        StillActive(q);
      } else {
        TerminalReply(fate.value);
      }
      if Inv(before) {
        StatusKeeps(before, fate.Some?);
      }
    }

    method StatusFailure()
      requires polling.AwaitStatus?
      modifies this
      ensures Now() == P.StatusFails(old(Now()))
    {
      if !closed {
        error := true;
        readFailed := true;
      }
      LeavePoll(false);
    }

    method FirstPageReply(page: P.Page)
      requires polling.AwaitPage?
      modifies this
      ensures Now() == P.FirstPage(old(Now()), page)
      ensures old(Inv(Now()) && P.Honest(server, polling.query, 0, page)) ==>
                Inv(Now()) && (!closed && P.PageMatches(0, page) ==> Displays(old(Now()), page, Now()))
    {
      ghost var before := Now();
      if P.PageMatches(0, page) {
        ShowFirstPage(page);
      } else {
        FirstPageFailure();
      }
      if Inv(before) && P.Honest(before.server, before.poll.query, 0, page) {
        FirstPageKeeps(before, page);
      }
    }

    method ShowFirstPage(page: P.Page)
      requires polling.AwaitPage? && P.PageMatches(0, page)
      modifies this
      ensures Now() == P.FirstPage(old(Now()), page)
    {
      if !closed {
        if query == Some(polling.query) {
          shown := Some(P.Shown(polling.query, page.rows, page.next));
          previousRows := false;
        }
        running := false;
      }
      LeavePoll(true);
    }

    method FirstPageFailure()
      requires polling.AwaitPage?
      modifies this
      ensures Now() == P.FirstPageFails(old(Now()))
    {
      if !closed {
        error := true;
        readFailed := true;
        running := false;
      }
      LeavePoll(true);
    }

    // -------------------------------------------------------------- run

    /** What is displayed while a new query has no rows yet. */
    method ClearView(criteria: bool)
      modifies `shown, `previousRows, `job, `error, `readFailed, `moreBusy
      ensures View() ==
        P.Ui(if criteria then old(shown) else None, criteria && old(shown).Some?, None, false, false, false)
    {
      previousRows := criteria && shown.Some?;
      error := false;
      readFailed := false;
      moreBusy := false;
      job := None;
      if !criteria {
        shown := None;
      }
    }

    /** A new run owns no query yet. */
    method ClearQuery()
      modifies `running, `cancelRequested, `query
      ensures Own() == old(Own()).(running := true, cancelRequested := false, query := None)
    {
      running := true;
      cancelRequested := false;
      query := None;
    }

    /** `run` up to its first `await`. */
    method Run(criteria: bool)
      requires P.CanRun(Now())
      modifies this
      ensures Now() == P.Run(old(Now()), criteria)
      ensures old(Inv(Now())) ==> NothingLive(log)
      ensures old(Inv(Now()) && P.SafeToRun(Now())) ==> Inv(Now())
    {
      ghost var before := Now();
      StartRun(criteria);
      if Inv(before) {
        RunKeeps(before, criteria);
      }
    }

    method StartRun(criteria: bool)
      requires P.CanRun(Now())
      modifies `running, `cancelRequested, `query, `shown, `previousRows, `job, `error, `readFailed, `moreBusy,
        `runs, `nextRun
      ensures Now() == P.Run(old(Now()), criteria)
    {
      ClearQuery();
      ClearView(criteria);
      runs, nextRun := runs[nextRun := P.Preparing], nextRun + 1;
    }

    /** The `catch` block of `run`. */
    method RunFailure(task: nat)
      modifies this
      ensures Now() == P.RunFails(old(Now()), task)
    {
      if !closed {
        running := false;
        error := true;
      }
      runs := runs - {task};
    }

    method Prepared(task: nat)
      modifies `running, `runs
      ensures Now() == P.Prepared(old(Now()), task)
      ensures old(Inv(Now()) && task in runs && runs[task].Preparing?) ==>
                Inv(Now()) && (closed || cancelRequested ==> runs == map[])
    {
      ghost var before := Now();
      if closed {
        runs := runs - {task};
      } else if cancelRequested {
        running := false;
        runs := runs - {task};
      } else {
        runs := runs[task := P.Submitted];
      }
      if Inv(before) && task in before.runs && before.runs[task].Preparing? {
        PreparedKeeps(before, task);
      }
    }

    /** The server creates the query; the client learns of it with the receipt. */
    method Accept(task: nat)
      modifies `runs, `server
      ensures Now() == P.ServerAccepts(old(Now()), task)
    {
      runs := runs[task := P.Accepted(server.nextQuery)];
      server := server.(nextQuery := server.nextQuery + 1);
    }

    /** The end of `run`: the query is shown as active and polled. */
    method Follow(task: nat, id: P.QueryId)
      modifies `job, `runs, `pollAgain, `polling
      ensures Now() == P.StartPoll(P.EndRun(old(Now()).(ui := old(View()).(job := Some(P.Active(id)))), task))
    {
      job := Some(P.Active(id));
      runs := runs - {task};
      Poll();
    }

    method TakeReceipt(task: nat, id: P.QueryId)
      modifies `query, `job, `runs, `log, `pollAgain, `polling
      ensures Now() == P.Receipt(old(Now()), task, id)
    {
      query := Some(id);
      log := log.(receipts := log.receipts + {id});
      if closed || cancelRequested {
        log := log.(cancelSent := log.cancelSent + {id});
        runs := runs[task := P.LateCancel(id)];
      } else {
        Follow(task, id);
      }
    }

    /** The segment of `run` that receives the receipt. */
    method Receipt(task: nat, id: P.QueryId)
      modifies `query, `job, `runs, `log, `pollAgain, `polling
      ensures Now() == P.Receipt(old(Now()), task, id)
      ensures old(Inv(Now()) && task in runs && runs[task] == P.Accepted(id)) ==>
                Inv(Now()) && Held(old(Own()), Now(), id)
    {
      ghost var before := Now();
      TakeReceipt(task, id);
      if Inv(before) && task in before.runs && before.runs[task] == P.Accepted(id) {
        ReceiptKeeps(before, task);
      }
    }

    method LateCancelDone(task: nat, id: P.QueryId)
      modifies `job, `runs, `pollAgain, `polling, `log
      ensures Now() == P.LateCancelDone(old(Now()), task, id)
    {
      log := log.(acknowledged := log.acknowledged + {id});
      if closed {
        runs := runs - {task};
      } else {
        Follow(task, id);
      }
    }

    // -------------------------------------------------------------- cancel and unmount

    method Cancel()
      requires P.CanCancel(Now())
      modifies `cancelRequested, `cancels, `log
      ensures Now() == P.Cancel(old(Now()))
      ensures old(Inv(Now())) ==> Inv(Now()) && NothingLive(log) && cancelRequested
    {
      ghost var before := Now();
      cancelRequested := true;
      if query.Some? {
        cancels := cancels.(asked := cancels.asked + multiset{query.value});
        log := log.(cancelSent := log.cancelSent + {query.value});
      }
      if Inv(before) {
        CancelKeeps(before);
      }
    }

    method CancelDone(id: P.QueryId)
      modifies `cancels, `log, `timer, `pollAgain, `polling
      ensures Now() == P.CancelDone(old(Now()), id)
    {
      NoteCanceled(id);
      if !closed {
        timer := false;
        Poll();
      }
    }

    /** One cancel of the query is acknowledged. */
    method NoteCanceled(id: P.QueryId)
      modifies `cancels, `log
      ensures cancels == old(cancels).(asked := old(cancels).asked - multiset{id})
      ensures log == P.Acknowledge(old(log), id)
    {
      cancels := cancels.(asked := cancels.asked - multiset{id});
      log := log.(acknowledged := log.acknowledged + {id});
    }

    method CancelFailure(id: P.QueryId)
      modifies `cancels, `cancelRequested, `error
      ensures Now() == P.CancelFails(old(Now()), id)
    {
      cancels := cancels.(asked := cancels.asked - multiset{id});
      if !closed {
        cancelRequested := false;
        error := true;
      }
    }

    /** The cancel sent at unmount is answered, or fails. */
    method LeaveEnds(done: bool)
      requires cancels.leaving.Some?
      modifies `cancels, `log
      ensures Now() == P.LeaveEnds(old(Now()), done)
    {
      if done {
        log := log.(acknowledged := log.acknowledged + {cancels.leaving.value});
      }
      cancels := cancels.(leaving := None);
    }

    method Unmount()
      modifies `closed, `timer, `log, `cancels
      ensures Now() == P.Unmount(old(Now()))
      ensures old(Inv(Now())) ==> Inv(Now()) && NothingLive(log)
    {
      ghost var before := Now();
      closed := true;
      timer := false;
      if query.Some? && running {
        cancels := cancels.(leaving := query);
        log := log.(cancelSent := log.cancelSent + {query.value});
      }
      if Inv(before) {
        UnmountKeeps(before);
      }
    }

    // -------------------------------------------------------------- more

    method More()
      requires P.CanMore(Now())
      modifies this
      ensures Now() == P.More(old(Now()))
    {
      if query.None? {
        error := true;
        moreBusy := false;
        return;
      }
      moreBusy := true;
      paging := P.Await(query.value, shown.value.next.value, shown.value.rows, 0);
    }

    method MorePage(page: P.Page)
      requires paging.Await?
      modifies `shown, `paging, `moreBusy, `error
      ensures Now() == P.MorePage(old(Now()), page)
      ensures old(Inv(Now()) && P.Honest(server, paging.query, paging.offset, page)) ==>
                Inv(Now()) &&
                if old(Fits(Now(), paging, page)) then Extended(old(Now()), page, shown) else shown == old(shown)
    {
      ghost var before := Now();
      ShowMore(page);
      if Inv(before) && P.Honest(before.server, before.more.query, before.more.offset, page) {
        MorePageKeeps(before, page);
      }
    }

    method ShowMore(page: P.Page)
      requires paging.Await?
      modifies `shown, `paging, `moreBusy, `error
      ensures Now() == P.MorePage(old(Now()), page)
    {
      var w := paging;
      if !P.PageMatches(w.offset, page) {
        MoreFailure();
      } else if closed || query != Some(w.query) {
        paging := P.NoTask;
      } else if |w.rows| + |page.rows| > 1000 {
        MoreFailure();
      } else {
        shown := Some(P.Shown(w.query, w.rows + page.rows, page.next));
        paging := P.NoTask;
        moreBusy := false;
      }
    }

    method MoreFailure()
      requires paging.Await?
      modifies `paging, `error, `moreBusy
      ensures Now() == P.MoreFails(old(Now()))
    {
      var current := !closed && query == Some(paging.query);
      paging := P.NoTask;
      if current {
        error := true;
        moreBusy := false;
      }
    }

    // -------------------------------------------------------------- download

    method Download()
      requires P.CanDownload(Now())
      modifies `error, `downloading, `log
      ensures Now() == P.Download(old(Now()))
      ensures old(Inv(Now())) ==> Inv(Now()) && DownloadEmits(old(Now()), log)
    {
      ghost var before := Now();
      error := false;
      ContinueDownload(query.value, shown.value.next, shown.value.rows, job.value.rows);
      if Inv(before) {
        DownloadKeeps(before);
      }
    }

    /** The head of the loop: wait for another page, or leave it and emit the rows. */
    method ContinueDownload(q: P.QueryId, offset: Option<nat>, rows: seq<P.Row>, total: nat)
      modifies `downloading, `error, `log
      ensures Now() == P.ContinueDownload(old(Now()), q, offset, rows, total)
    {
      if offset.Some? {
        downloading := P.Await(q, offset.value, rows, total);
        return;
      }
      downloading := P.NoTask;
      if closed || query != Some(q) {
        return;
      }
      if |rows| != total {
        error := true;
        return;
      }
      log := log.(emitted := log.emitted + [(q, rows)]);
    }

    method DownloadPage(page: P.Page)
      requires downloading.Await?
      modifies `downloading, `error, `log
      ensures Now() == P.DownloadPage(old(Now()), page)
      ensures old(Inv(Now()) && P.Honest(server, downloading.query, downloading.offset, page)) ==>
                Inv(Now()) && PageEmits(old(Now()), page, log)
    {
      ghost var before := Now();
      var w := downloading;
      if !P.PageMatches(w.offset, page) {
        DownloadFailure();
      } else if closed || query != Some(w.query) {
        downloading := P.NoTask;
      } else if |w.rows| + |page.rows| > 1000 {
        DownloadFailure();
      } else {
        ContinueDownload(w.query, page.next, w.rows + page.rows, w.total);
      }
      if Inv(before) && P.Honest(before.server, w.query, w.offset, page) {
        DownloadPageKeeps(before, page);
      }
    }

    method DownloadFailure()
      requires downloading.Await?
      modifies `downloading, `error
      ensures Now() == P.DownloadFails(old(Now()))
    {
      var current := !closed && query == Some(downloading.query);
      downloading := P.NoTask;
      if current {
        error := true;
      }
    }

    // -------------------------------------------------------------- any event

    /** The timer that `clearTimeout` would still reach. */
    method TimerFires()
      requires timer
      modifies `timer, `pollAgain, `polling
      ensures Now() == P.StartPoll(old(Now()).(own := old(Own()).(timer := false)))
    {
      timer := false;
      Poll();
    }

    /** A timer whose handle has been overwritten. */
    method StrayTimerFires()
      requires strayTimers > 0
      modifies `strayTimers, `pollAgain, `polling
      ensures Now() == P.StartPoll(old(Now()).(own := old(Own()).(strayTimers := old(strayTimers) - 1)))
    {
      strayTimers := strayTimers - 1;
      Poll();
    }

    method RunHappens(e: P.Event)
      requires P.Enabled(Now(), e) && RunEvent(e)
      modifies this
      ensures Now() == P.Step(old(Now()), e)
    {
      match e
      case EvRun(criteria) => Run(criteria);
      case EvPrepared(t) => Prepared(t);
      case EvPrepareFails(t) => RunFailure(t);
      case EvServerAccepts(t) => Accept(t);
      case EvSubmitFails(t) => RunFailure(t);
      case EvReceipt(t) => Receipt(t, runs[t].id);
      case EvReceiptLost(t) =>
        log := log.(lost := log.lost + {runs[t].id});
        RunFailure(t);
      case EvLateCancelDone(t) => LateCancelDone(t, runs[t].canceled);
      case EvLateCancelFails(t) => RunFailure(t);
    }

    method PollHappens(e: P.Event)
      requires P.Enabled(Now(), e) && PollEvent(e)
      modifies this
      ensures Now() == P.Step(old(Now()), e)
    {
      match e
      case EvTimer => TimerFires();
      case EvStrayTimer => StrayTimerFires();
      case EvRetry => Poll();
      case EvStatus(terminal) => StatusReply(if terminal then Some(server.finished[polling.query]) else None);
      case EvStatusFails => StatusFailure();
      case EvFirstPage(page) => FirstPageReply(page);
      case EvFirstPageFails => FirstPageFailure();
    }

    method PageHappens(e: P.Event)
      requires P.Enabled(Now(), e) && !RunEvent(e) && !PollEvent(e)
      modifies this
      ensures Now() == P.Step(old(Now()), e)
    {
      match e
      case EvCancel => Cancel();
      case EvCancelDone(q) => CancelDone(q);
      case EvCancelFails(q) => CancelFailure(q);
      case EvLeaveEnds(done) => LeaveEnds(done);
      case EvMore => More();
      case EvMorePage(page) => MorePage(page);
      case EvMoreFails => MoreFailure();
      case EvDownload => Download();
      case EvDownloadPage(page) => DownloadPage(page);
      case EvDownloadFails => DownloadFailure();
      case EvFinish(q, fate) => server := server.(finished := server.finished[q := fate]);
      case EvUnmount => Unmount();
    }

    /**
      * Whatever happens next, the object takes the system's step, and keeps its invariants: all of them, and that
      * a busy scratchpad is attended to, if runs start safely; those of the rows on display if they start calmly.
      */
    method Happen(e: P.Event)
      requires P.Enabled(Now(), e)
      modifies this
      ensures Now() == P.Step(old(Now()), e)
      ensures old(Inv(Now())) && P.Disciplined(old(Now()), e) ==> Inv(Now())
      ensures old(D.Tidy(Now())) && D.Calm(old(Now()), e) ==> D.Tidy(Now())
      ensures old(Inv(Now()) && G.Attended(Now())) && P.Disciplined(old(Now()), e) ==> G.Attended(Now())
    {
      ghost var before := Now();
      if RunEvent(e) {
        RunHappens(e);
      } else if PollEvent(e) {
        PollHappens(e);
      } else {
        PageHappens(e);
      }
      if Inv(before) && P.Disciplined(before, e) {
        StepKeeps(before, e);
        if G.Attended(before) {
          G.StepAttends(before, e);
        }
      }
      if D.Tidy(before) && D.Calm(before, e) {
        D.StepTidy(before, e);
      }
    }
  }
}
