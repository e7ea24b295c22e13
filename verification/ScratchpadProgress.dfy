/**
  * What a scratchpad gets done: queries that are run show their rows, `more` shows the next ones, downloads are
  * completed, a running query stays watched, failures are shown, and a cancel is kept.
  */
module ScratchpadProgress {
  import opened Results
  import opened ScratchpadProtocol
  import opened ScratchpadSafety
  import D = ScratchpadDisplay

  function Least(a: nat, b: nat): nat {
    if a < b then a else b
  }

  // ---------------------------------------------------------------- a query shows its rows

  /** A new run starts; a poll of an older query, if one is pending, finds its query given up. */
  function Begins(s: State, criteria: bool): seq<Event> {
    [EvRun(criteria)] + if s.poll.AwaitStatus? then [EvStatus(false)] else []
  }

  /** The server runs query `q` to its end, and the client learns of it. */
  function Serves(q: QueryId, all: seq<Row>): seq<Event> {
    [EvFinish(q, Succeeded(all)), EvStatus(true), EvFirstPage(ServerPage(all, 0))]
  }

  /** Run `task` waits, can be canceled, and nothing is polled. */
  predicate Begun(s: State, task: nat) {
    && CanCancel(s) && !s.own.closed && !s.own.cancelRequested && s.poll.NoPoll? && s.download.NoTask?
    && !s.ui.moreBusy && task in s.runs && s.runs[task].Preparing?
    && forall q :: q in s.server.finished ==> q < s.server.nextQuery
  }

  /** Query `q` is owned, its status is asked for, and it can be canceled. */
  predicate Asked(s: State, q: QueryId) {
    && CanCancel(s) && !s.own.closed && s.own.query == Some(q) && s.poll == AwaitStatus(q)
    && s.download.NoTask? && !s.ui.moreBusy && q < s.server.nextQuery && q !in s.server.finished
  }

  /** The first rows of `all` are on display, ready for `run`, `download`, and for `more` if there are more. */
  predicate Served(s: State, q: QueryId, all: seq<Row>) {
    && s.own.query == Some(q) && !s.own.running && !s.ui.previousRows && !s.ui.error
    && s.ui.shown.Some? && s.ui.shown.value.owner == q && s.ui.shown.value.rows == all[..Least(500, |all|)]
    && CanRun(s) && CanDownload(s)
    && (s.more.NoTask? ==> (CanMore(s) <==> |all| > 500))
  }

  lemma RunBegins(s: State, criteria: bool)
    requires Inv(s) && CanRun(s) && SafeToRun(s)
    ensures var events := Begins(s, criteria);
      && Possible(s, events) && Begun(After(s, events), s.nextRun)
      && After(s, events).server == s.server && After(s, events).more == s.more
  {
    var events := Begins(s, criteria);
    var t := Run(s, criteria);
    if s.poll.AwaitStatus? {
      assert events[2..] == [];
      D.FollowAt(t, events, 1, Step(t, EvStatus(false)));
    } else {
      assert events[1..] == [];
    }
    D.FollowAt(s, events, 0, t);
    assert events[0..] == events;
  }

  lemma BegunIsAsked(s: State, task: nat)
    requires Begun(s, task)
    ensures var events := ToReceipt(task);
      && Possible(s, events) && Asked(After(s, events), s.server.nextQuery)
      && After(s, events).server.finished == s.server.finished && After(s, events).more == s.more
  {
    var events := ToReceipt(task);
    var s1 := Step(s, EvPrepared(task));
    var s2 := Step(s1, EvServerAccepts(task));
    var s3 := Step(s2, EvReceipt(task));
    assert events[3..] == [];
    D.FollowAt(s2, events, 2, s3);
    D.FollowAt(s1, events, 1, s2);
    D.FollowAt(s, events, 0, s1);
    assert events[0..] == events;
  }

  lemma AskedIsServed(s: State, q: QueryId, all: seq<Row>)
    requires Asked(s, q)
    ensures var events := Serves(q, all);
      Possible(s, events) && Served(After(s, events), q, all) && After(s, events).more == s.more
  {
    var events := Serves(q, all);
    var s1 := Step(s, EvFinish(q, Succeeded(all)));
    var s2 := Step(s1, EvStatus(true));
    var s3 := Step(s2, EvFirstPage(ServerPage(all, 0)));
    assert events[3..] == [];
    D.FollowAt(s2, events, 2, s3);
    D.FollowAt(s1, events, 1, s2);
    D.FollowAt(s, events, 0, s1);
    assert events[0..] == events;
  }

  /**
    * Whatever happened before, a run that starts safely and is served shows the first 500 rows of its own query,
    * offers the others, and can be downloaded.
    */
  lemma QueryIsServed(s: State, criteria: bool, all: seq<Row>)
    requires Inv(s) && CanRun(s) && SafeToRun(s)
    ensures var events := Begins(s, criteria) + (ToReceipt(s.nextRun) + Serves(s.server.nextQuery, all));
      Possible(s, events) && Served(After(s, events), s.server.nextQuery, all) && After(s, events).more == s.more
  {
    var q := s.server.nextQuery;
    RunBegins(s, criteria);
    var t := After(s, Begins(s, criteria));
    BegunIsAsked(t, s.nextRun);
    AskedIsServed(After(t, ToReceipt(s.nextRun)), q, all);
    D.OneAfterOther(t, ToReceipt(s.nextRun), Serves(q, all));
    D.OneAfterOther(s, Begins(s, criteria), ToReceipt(s.nextRun) + Serves(q, all));
  }

  /** A poll of the owned query, which has ended, waits for its status. */
  predicate AsksAgain(s: State, q: QueryId) {
    && Inv(s) && !s.own.closed && s.own.query == Some(q) && s.poll == AwaitStatus(q)
    && q in s.server.finished && s.server.finished[q].Succeeded?
  }

  lemma RetryAsksAgain(s: State)
    requires Inv(s) && s.poll.AwaitPage? && !s.own.closed
    ensures var events := [EvFirstPageFails, EvRetry];
      && Possible(s, events) && AsksAgain(After(s, events), s.poll.query) && After(s, events).server == s.server
  {
    var events := [EvFirstPageFails, EvRetry];
    var s1 := Step(s, EvFirstPageFails);
    FirstPageFailsKeeps(s);
    var s2 := Step(s1, EvRetry);
    StartPollKeeps(s1);
    assert events[2..] == [];
    D.FollowAt(s1, events, 1, s2);
    D.FollowAt(s, events, 0, s1);
    assert events[0..] == events;
  }

  lemma AnswerIsDisplayed(s: State, q: QueryId)
    requires AsksAgain(s, q)
    ensures var page := ServerPage(s.server.finished[q].rows, 0); var events := [EvStatus(true), EvFirstPage(page)];
      && Possible(s, events)
      && var t := After(s, events);
         && t.own.query == Some(q) && t.ui.shown == Some(Shown(q, page.rows, page.next))
         && !t.ui.previousRows && !t.ui.error && NothingLive(t.log)
  {
    var page := ServerPage(s.server.finished[q].rows, 0);
    var events := [EvStatus(true), EvFirstPage(page)];
    var s1 := Step(s, EvStatus(true));
    StatusKeeps(s, true);
    var s2 := Step(s1, EvFirstPage(page));
    FirstPageKeeps(s1, page);
    assert events[2..] == [];
    D.FollowAt(s1, events, 1, s2);
    D.FollowAt(s, events, 0, s1);
    assert events[0..] == events;
  }

  /** A first page that fails can be had by `Retry status`. */
  lemma FailedPageIsRetried(s: State)
    requires Inv(s) && s.poll.AwaitPage? && !s.own.closed
    ensures var page := ServerPage(s.server.finished[s.poll.query].rows, 0);
      var events := [EvFirstPageFails, EvRetry] + [EvStatus(true), EvFirstPage(page)];
      && Possible(s, events)
      && var t := After(s, events);
         && t.own.query == Some(s.poll.query) && t.ui.shown == Some(Shown(s.poll.query, page.rows, page.next))
         && !t.ui.previousRows && !t.ui.error && NothingLive(t.log)
  {
    RetryAsksAgain(s);
    AnswerIsDisplayed(After(s, [EvFirstPageFails, EvRetry]), s.poll.query);
    var page := ServerPage(s.server.finished[s.poll.query].rows, 0);
    D.OneAfterOther(s, [EvFirstPageFails, EvRetry], [EvStatus(true), EvFirstPage(page)]);
  }

  // ---------------------------------------------------------------- more

  /** All rows of the query whose rows are on display. */
  function AllRows(s: State): seq<Row>
    requires ShownOk(s.own.query, s.ui, s.server) && s.ui.shown.Some?
  {
    s.server.finished[s.ui.shown.value.owner].rows
  }

  /** `more`, with the page that the server then sends. */
  function AsksMore(all: seq<Row>, offset: nat): seq<Event>
    requires offset <= |all|
  {
    [EvMore, EvMorePage(ServerPage(all, offset))]
  }

  lemma MoreStarts(s: State)
    requires Inv(s) && CanMore(s)
    ensures var all, n := AllRows(s), s.ui.shown.value.next.value;
      && n <= |all| && s.ui.shown.value.rows == all[..n] && Enabled(s, EvMore)
      && var t := Step(s, EvMore);
         && Inv(t) && t.more == Await(s.ui.shown.value.owner, n, all[..n], 0) && Current(t, t.more)
         && t.own == s.own && t.server == s.server && t.download == s.download
         && t.ui == s.ui.(moreBusy := true)
  {
    MoreStepsKeep(s, EvMore);
  }

  /**
    * The page that the server answers `more` with is shown after the rows on display, and the rest is offered, if and
    * only if it neither passes nor reaches the bound of 1,000 rows, except with the last row of the result. Otherwise
    * the failure is shown.
    */
  lemma MoreShowsNextRows(s: State)
    requires Inv(s) && CanMore(s)
    ensures var all, n := AllRows(s), s.ui.shown.value.next.value;
      && n <= |all| && Possible(s, AsksMore(all, n))
      && var t, end := After(s, AsksMore(all, n)), Least(n + 500, |all|);
         && t.more.NoTask? && !t.ui.moreBusy
         && if end < 1000 || end == 1000 == |all| then
              && t.ui.shown.Some? && t.ui.shown.value.owner == s.ui.shown.value.owner
              && t.ui.shown.value.rows == all[..end] && !t.ui.error && (CanMore(t) <==> end < |all|)
            else t.ui.shown == s.ui.shown && t.ui.error
  {
    var all, n := AllRows(s), s.ui.shown.value.next.value;
    MoreStarts(s);
    var events := AsksMore(all, n);
    var page := ServerPage(all, n);
    var s1 := Step(s, EvMore);
    var s2 := Step(s1, EvMorePage(page));
    assert events[2..] == [];
    D.FollowAt(s1, events, 1, s2);
    D.FollowAt(s, events, 0, s1);
    assert events[0..] == events;
    assert all[..n] + page.rows == all[..Least(n + 500, |all|)];
  }

  // ---------------------------------------------------------------- download

  /** The pages that the server sends from `offset` on. */
  function PagesFrom(all: seq<Row>, offset: Option<nat>): seq<Page>
    requires offset.Some? ==> offset.value <= |all|
    decreases if offset.Some? then |all| - offset.value + 1 else 0
  {
    if offset.None? then []
    else [ServerPage(all, offset.value)] + PagesFrom(all, ServerPage(all, offset.value).next)
  }

  /** Pages that arrive for a pending download. */
  function Sent(pages: seq<Page>): seq<Event> {
    if pages == [] then [] else [EvDownloadPage(pages[0])] + Sent(pages[1..])
  }

  /** The download of `all` was emitted. */
  predicate Emitted(s: State, q: QueryId, all: seq<Row>, t: State) {
    t.log.emitted == s.log.emitted + [(q, all)] && t.download.NoTask? && !t.ui.error
  }

  lemma {:induction false} PagesComplete(s: State, all: seq<Row>)
    requires Inv(s) && s.download.Await? && Current(s, s.download) && !s.ui.error
    requires s.server.finished[s.download.query].rows == all && |all| <= 1000
    ensures var events := Sent(PagesFrom(all, Some(s.download.offset)));
      Possible(s, events) && Emitted(s, s.download.query, all, After(s, events))
    decreases |all| - s.download.offset
  {
    var w := s.download;
    var page := ServerPage(all, w.offset);
    var pages := PagesFrom(all, Some(w.offset));
    var t := Step(s, EvDownloadPage(page));
    DownloadPageKeeps(s, page);
    assert pages[1..] == PagesFrom(all, page.next);
    assert Sent(pages)[1..] == Sent(pages[1..]);
    if page.next.Some? {
      assert t.download == Await(w.query, page.next.value, w.rows + page.rows, w.total);
      PagesComplete(t, all);
    } else {
      assert |w.rows + page.rows| == |all|;
    }
  }

  /** The result has at most 1,000 rows, and the server announced a next page unless all are on display. */
  predicate Obtainable(s: State)
    requires ShownOk(s.own.query, s.ui, s.server) && s.ui.shown.Some?
  {
    |AllRows(s)| <= 1000 && (s.ui.shown.value.next.None? ==> |s.ui.shown.value.rows| == |AllRows(s)|)
  }

  /** A download for which the server sends `pages` emits something. */
  predicate Emits(s: State, pages: seq<Page>) {
    Possible(s, [EvDownload] + Sent(pages)) && After(s, [EvDownload] + Sent(pages)).log.emitted != s.log.emitted
  }

  lemma DownloadIsCompleted(s: State)
    requires Inv(s) && CanDownload(s) && Obtainable(s)
    ensures var all, next := AllRows(s), s.ui.shown.value.next;
      && (next.Some? ==> next.value <= |all|)
      && var events := [EvDownload] + Sent(PagesFrom(all, next));
         Possible(s, events) && Emitted(s, s.ui.shown.value.owner, all, After(s, events))
  {
    var all, next := AllRows(s), s.ui.shown.value.next;
    var events := [EvDownload] + Sent(PagesFrom(all, next));
    var t := Step(s, EvDownload);
    DownloadKeeps(s);
    assert events[1..] == Sent(PagesFrom(all, next));
    if next.Some? {
      PagesComplete(t, all);
    }
  }

  /** Pages make a pending download emit nothing, or one complete result of at most 1,000 rows. */
  lemma {:induction false} PagesEmitAtMostResult(s: State, pages: seq<Page>)
    requires Inv(s) && Possible(s, Sent(pages))
    ensures var t := After(s, Sent(pages));
      t.log.emitted == s.log.emitted ||
      (s.download.Await? && s.own.query == Some(s.download.query) && |s.server.finished[s.download.query].rows| <= 1000)
    decreases |pages|
  {
    if pages != [] {
      var t := Step(s, EvDownloadPage(pages[0]));
      DownloadPageKeeps(s, pages[0]);
      assert Sent(pages)[1..] == Sent(pages[1..]);
      PagesEmitAtMostResult(t, pages[1..]);
      if t.log.emitted != s.log.emitted {
        assert t.log.emitted[|s.log.emitted|] == (s.own.query.value, s.server.finished[s.own.query.value].rows);
      }
    }
  }

  /**
    * Some pages of an honest server make a download emit something, which is then the complete result, if and only if
    * the result has at most 1,000 rows and is on display whole or announced to go on.
    */
  lemma DownloadIsExact(s: State)
    requires Inv(s) && CanDownload(s)
    ensures (exists pages :: Emits(s, pages)) <==> Obtainable(s)
  {
    if Obtainable(s) {
      DownloadIsCompleted(s);
      assert Emits(s, PagesFrom(AllRows(s), s.ui.shown.value.next));
    } else {
      forall pages ensures !Emits(s, pages) {
        var events := [EvDownload] + Sent(pages);
        if Possible(s, events) {
          assert events[1..] == Sent(pages);
          DownloadKeeps(s);
          PagesEmitAtMostResult(Step(s, EvDownload), pages);
        }
      }
    }
  }

  // ---------------------------------------------------------------- a running query is watched

  /** A poll, a timer or an offered `Retry status` will ask for the status of `q`. */
  predicate Watched(s: State, q: QueryId) {
    || (s.poll.AwaitStatus? && (s.poll.query == q || s.own.pollAgain))
    || s.own.timer || s.own.strayTimers > 0
    || (s.ui.error && s.ui.readFailed)
  }

  /**
    * While the scratchpad is busy something is under way: a run that has no query yet, the first page of a query that
    * has ended, a late cancel, or something that will ask for the status of the owned query.
    */
  predicate Attended(s: State) {
    && (s.ui.job.Some? && s.ui.job.value.Ended? ==> s.ui.job.value.id in s.log.seenTerminal)
    && (s.own.running && !s.own.closed ==>
          if s.own.query.None? then s.runs != map[]
          else if s.own.query.value in s.log.seenTerminal then s.poll.AwaitPage?
          else s.runs != map[] || Watched(s, s.own.query.value))
  }

  lemma RunStepsAttend(s: State, e: Event)
    requires Inv(s) && Attended(s) && Enabled(s, e) && Disciplined(s, e) && RunEvent(e)
    ensures Attended(Step(s, e))
  {
    var t := Step(s, e);
    if e.EvRun? {
      assert s.nextRun in t.runs;
    } else if e.EvServerAccepts? || e.EvPrepared? {
      assert t.runs != map[] || !t.own.running || t.own.closed by {
        assert e.task in t.runs || !t.own.running || t.own.closed;
      }
    } else if e.EvReceipt? && (s.own.closed || s.own.cancelRequested) {
      assert e.task in t.runs;
    }
  }

  lemma TimerStepsAttend(s: State, e: Event)
    requires Inv(s) && Attended(s) && Enabled(s, e) && TimerEvent(e)
    ensures Attended(Step(s, e))
  {
  }

  lemma StatusAttends(s: State, terminal: bool)
    requires Inv(s) && Attended(s) && s.poll.AwaitStatus? && (terminal ==> s.poll.query in s.server.finished)
    ensures Attended(StatusArrives(s, terminal))
  {
  }

  lemma StatusFailsAttends(s: State)
    requires Inv(s) && Attended(s) && s.poll.AwaitStatus?
    ensures Attended(StatusFails(s))
  {
  }

  /** The first page ends the run, whether it arrives or fails. */
  lemma FirstPageAttends(s: State, e: Event)
    requires PollOk(s.own.query, s.poll, s.server, s.log) && Attended(s)
    requires Enabled(s, e) && (e.EvFirstPage? || e.EvFirstPageFails?)
    ensures Attended(Step(s, e))
  {
  }

  lemma CancelStepsAttend(s: State, e: Event)
    requires Inv(s) && Attended(s) && Enabled(s, e) && CancelEvent(e)
    ensures Attended(Step(s, e))
  {
  }

  /** Paging, downloading and the end of a query touch nothing that the run depends on. */
  predicate Quiet(s: State, t: State) {
    && t.own == s.own && t.runs == s.runs && t.poll == s.poll && t.cancels == s.cancels
    && t.ui.job == s.ui.job && t.ui.readFailed == s.ui.readFailed
    && t.log.receipts == s.log.receipts && t.log.seenTerminal == s.log.seenTerminal
    && t.log.cancelSent == s.log.cancelSent
  }

  lemma OtherStepsAreQuiet(s: State, e: Event)
    requires Enabled(s, e) && !RunEvent(e) && !PollEvent(e) && !CancelEvent(e)
    ensures Quiet(s, Step(s, e)) && (s.ui.error && !e.EvDownload? ==> Step(s, e).ui.error)
  {
  }

  lemma OtherStepsAttend(s: State, e: Event)
    requires JobOk(s.own.query, s.ui.job, s.server)
    requires Attended(s) && Enabled(s, e) && !RunEvent(e) && !PollEvent(e) && !CancelEvent(e)
    ensures Attended(Step(s, e))
  {
    OtherStepsAreQuiet(s, e);
  }

  lemma StepAttends(s: State, e: Event)
    requires Inv(s) && Attended(s) && Enabled(s, e) && Disciplined(s, e)
    ensures Attended(Step(s, e))
  {
    if RunEvent(e) {
      RunStepsAttend(s, e);
    } else if TimerEvent(e) {
      TimerStepsAttend(s, e);
    } else if e.EvStatus? {
      StatusAttends(s, e.terminal);
    } else if e.EvStatusFails? {
      StatusFailsAttends(s);
    } else if ReplyEvent(e) {
      FirstPageAttends(s, e);
    } else if CancelEvent(e) {
      CancelStepsAttend(s, e);
    } else {
      OtherStepsAttend(s, e);
    }
  }

  lemma {:induction false} RunsAttend(s: State, events: seq<Event>)
    requires Inv(s) && Attended(s) && PossibleDisciplined(s, events)
    ensures Possible(s, events) && Inv(After(s, events)) && Attended(After(s, events))
    decreases |events|
  {
    DisciplinedIsPossible(s, events);
    if events != [] {
      StepKeeps(s, events[0]);
      StepAttends(s, events[0]);
      RunsAttend(Step(s, events[0]), events[1..]);
    }
  }

  /** In every reachable state a scratchpad that shows itself busy is not stuck. */
  lemma BusyIsAttended(events: seq<Event>)
    requires PossibleDisciplined(INITIAL, events)
    ensures Possible(INITIAL, events) && Attended(After(INITIAL, events))
  {
    RunsAttend(INITIAL, events);
  }

  // ---------------------------------------------------------------- unmounting

  lemma RunStaysMounted(s: State, e: Event)
    requires Enabled(s, e) && RunEvent(e)
    ensures Step(s, e).own.closed == s.own.closed
  {
  }

  lemma StepMounted(s: State, e: Event)
    requires Enabled(s, e)
    ensures Step(s, e).own.closed <==> s.own.closed || e.EvUnmount?
  {
    if RunEvent(e) {
      RunStaysMounted(s, e);
    } else if TimerEvent(e) {
      TimerKeepsRequest(s, e);
    } else if ReplyEvent(e) {
      ReplyKeepsRequest(s, e);
    } else if !CancelEvent(e) {
      OtherStepsAreQuiet(s, e);
    }
  }

  /** A scratchpad is closed exactly if it was unmounted. */
  lemma {:induction false} ClosedIffUnmounted(s: State, events: seq<Event>)
    requires Possible(s, events)
    ensures After(s, events).own.closed <==> s.own.closed || EvUnmount in events
    decreases |events|
  {
    if events != [] {
      StepMounted(s, events[0]);
      ClosedIffUnmounted(Step(s, events[0]), events[1..]);
    }
  }

  // ---------------------------------------------------------------- failures are shown

  /** The step is a failure that concerns the mounted scratchpad. */
  predicate Fails(s: State, e: Event)
    requires Enabled(s, e)
  {
    match e
    case EvStatus(terminal) =>
      terminal && !s.own.closed && s.own.query == Some(s.poll.query) && s.server.finished[s.poll.query].Broken?
    case EvFirstPage(page) => !s.own.closed && !PageMatches(0, page)
    case EvMore => s.own.query.None?
    case EvMorePage(page) => Current(s, s.more) && !Fits(s, s.more, page)
    case EvMoreFails => Current(s, s.more)
    case EvDownload => s.ui.shown.value.next.None? && |s.ui.shown.value.rows| != s.ui.job.value.rows
    case EvDownloadPage(page) =>
      Current(s, s.download) &&
      (!Fits(s, s.download, page) || (page.next.None? && |s.download.rows| + |page.rows| != s.download.total))
    case EvDownloadFails => Current(s, s.download)
    case _ =>
      !s.own.closed &&
      (e.EvPrepareFails? || e.EvSubmitFails? || e.EvReceiptLost? || e.EvLateCancelFails? || e.EvCancelFails?
       || e.EvStatusFails? || e.EvFirstPageFails?)
  }

  /** The step starts something anew, or brings news of the owned query. */
  predicate Clears(s: State, e: Event) {
    || e.EvRun? || e.EvDownload?
    || (e.EvStatus? && s.poll.AwaitStatus? && !s.own.closed && s.own.query == Some(s.poll.query))
  }

  lemma RunErrors(s: State, e: Event)
    requires Enabled(s, e) && RunEvent(e)
    ensures Step(s, e).ui.error <==> Fails(s, e) || (s.ui.error && !Clears(s, e))
  {
  }

  lemma ReplyErrors(s: State, e: Event)
    requires Enabled(s, e) && PollEvent(e)
    ensures Step(s, e).ui.error <==> Fails(s, e) || (s.ui.error && !Clears(s, e))
  {
  }

  /** An error is on display after a step exactly if the step failed, or it was there and the step did not clear it. */
  lemma ErrorsAreShown(s: State, e: Event)
    requires Enabled(s, e)
    ensures Step(s, e).ui.error <==> Fails(s, e) || (s.ui.error && !Clears(s, e))
  {
    if RunEvent(e) {
      RunErrors(s, e);
    } else if PollEvent(e) {
      ReplyErrors(s, e);
    }
  }

  // ---------------------------------------------------------------- rows stay on display

  /** No run starts and no page arrives. */
  predicate KeepsRows(events: seq<Event>) {
    forall i :: 0 <= i < |events| ==> !events[i].EvRun? && !events[i].EvFirstPage? && !events[i].EvMorePage?
  }

  predicate SameRows(s: State, t: State) {
    t.ui.shown == s.ui.shown && t.ui.previousRows == s.ui.previousRows
  }

  lemma RunKeepsRows(s: State, e: Event)
    requires Enabled(s, e) && RunEvent(e) && !e.EvRun?
    ensures SameRows(s, Step(s, e))
  {
  }

  lemma PollKeepsRows(s: State, e: Event)
    requires Enabled(s, e) && PollEvent(e) && !e.EvFirstPage?
    ensures SameRows(s, Step(s, e))
  {
  }

  lemma StepKeepsRows(s: State, e: Event)
    requires Enabled(s, e) && !e.EvRun? && !e.EvFirstPage? && !e.EvMorePage?
    ensures SameRows(s, Step(s, e))
  {
    if RunEvent(e) {
      RunKeepsRows(s, e);
    } else if PollEvent(e) {
      PollKeepsRows(s, e);
    }
  }

  lemma {:induction false} RowsStay(s: State, events: seq<Event>)
    requires Possible(s, events) && KeepsRows(events)
    ensures SameRows(s, After(s, events))
    decreases |events|
  {
    if events != [] {
      StepKeepsRows(s, events[0]);
      RowsStay(Step(s, events[0]), events[1..]);
    }
  }

  /** A run with other criteria keeps the rows it found, marked as previous, until a page of it arrives. */
  lemma PreviousRowsStay(s: State, criteria: bool, events: seq<Event>)
    requires CanRun(s) && Possible(Run(s, criteria), events) && KeepsRows(events)
    ensures var t := After(Run(s, criteria), events);
      && t.ui.shown == (if criteria then s.ui.shown else None)
      && t.ui.previousRows == (criteria && s.ui.shown.Some?)
  {
    RowsStay(Run(s, criteria), events);
  }

  // ---------------------------------------------------------------- a cancel is kept

  predicate StartsNone(events: seq<Event>) {
    forall i :: 0 <= i < |events| ==> !events[i].EvRun?
  }

  predicate NothingLiveAfter(s: State, events: seq<Event>) {
    Possible(s, events) && NothingLive(After(s, events).log)
  }

  /** No query comes to run unasked to stop before another run is started. */
  ghost predicate StaysCanceled(s: State) {
    forall events :: PossibleDisciplined(s, events) && StartsNone(events) ==> NothingLiveAfter(s, events)
  }

  /** The cancel is in force: there is nothing left to receive, or no failure can take the request back. */
  predicate Stopped(s: State) {
    && Inv(s) && NothingLive(s.log)
    && (s.own.closed || s.own.query.Some? || (s.own.cancelRequested && s.cancels.asked == multiset{}))
  }

  lemma RunStepsStayStopped(s: State, e: Event)
    requires Stopped(s) && Enabled(s, e) && RunEvent(e) && !e.EvRun? && Inv(Step(s, e))
    ensures Stopped(Step(s, e))
  {
    if e.EvReceipt? {
      ReceiptKeeps(s, e.task);
    }
  }

  /** Nothing was received, and the request to cancel stands. */
  predicate SameRequest(s: State, t: State) {
    && t.own.closed == s.own.closed && t.own.query == s.own.query && t.cancels == s.cancels
    && t.own.cancelRequested == s.own.cancelRequested && t.log.receipts == s.log.receipts
    && t.log.cancelSent == s.log.cancelSent && s.log.seenTerminal <= t.log.seenTerminal
  }

  lemma TimerKeepsRequest(s: State, e: Event)
    requires Enabled(s, e) && TimerEvent(e)
    ensures SameRequest(s, Step(s, e))
  {
  }

  lemma ReplyKeepsRequest(s: State, e: Event)
    requires Enabled(s, e) && ReplyEvent(e)
    ensures SameRequest(s, Step(s, e))
  {
  }

  lemma CancelStepsStayStopped(s: State, e: Event)
    requires Stopped(s) && Enabled(s, e) && CancelEvent(e) && Inv(Step(s, e))
    ensures Stopped(Step(s, e))
  {
  }

  lemma StepStaysStopped(s: State, e: Event)
    requires Stopped(s) && Enabled(s, e) && !e.EvRun? && Inv(Step(s, e))
    ensures Stopped(Step(s, e))
  {
    if RunEvent(e) {
      RunStepsStayStopped(s, e);
    } else if TimerEvent(e) {
      TimerKeepsRequest(s, e);
    } else if ReplyEvent(e) {
      ReplyKeepsRequest(s, e);
    } else if CancelEvent(e) {
      CancelStepsStayStopped(s, e);
    } else {
      OtherStepsAreQuiet(s, e);
    }
  }

  lemma {:induction false} StoppedStays(s: State, events: seq<Event>)
    requires Stopped(s) && PossibleDisciplined(s, events) && StartsNone(events)
    ensures NothingLiveAfter(s, events)
    decreases |events|
  {
    DisciplinedIsPossible(s, events);
    if events != [] {
      var e := events[0];
      StepKeeps(s, e);
      StepStaysStopped(s, e);
      StoppedStays(Step(s, e), events[1..]);
    }
  }

  /** What is left of a waiting run. */
  function ToOwn(task: RunTask, i: nat): seq<Event> {
    match task
    case Preparing => ToReceipt(i)
    case Submitted => [EvServerAccepts(i), EvReceipt(i)]
    case _ => [EvReceipt(i)]
  }

  /** A waiting run that was not canceled comes to own a live query. */
  lemma WaitingRunGoesLive(s: State, i: nat)
    requires Inv(s) && i in s.runs && !s.runs[i].LateCancel? && !s.own.closed && !s.own.cancelRequested
    ensures var events := ToOwn(s.runs[i], i);
      PossibleDisciplined(s, events) && Possible(s, events) && !NothingLive(After(s, events).log)
    decreases if s.runs[i].Preparing? then 2 else if s.runs[i].Submitted? then 1 else 0
  {
    var events := ToOwn(s.runs[i], i);
    if s.runs[i].Preparing? {
      var s1 := Step(s, EvPrepared(i));
      PreparedKeeps(s, i);
      assert events[1..] == ToOwn(s1.runs[i], i);
      WaitingRunGoesLive(s1, i);
    } else if s.runs[i].Submitted? {
      var s1 := Step(s, EvServerAccepts(i));
      ServerAcceptsKeeps(s, i);
      assert events[1..] == ToOwn(s1.runs[i], i);
      WaitingRunGoesLive(s1, i);
    } else {
      ReceiptKeeps(s, i);
      assert events[1..] == [];
      assert Live(Step(s, EvReceipt(i)).log, s.runs[i].id);
    }
  }

  /** The reply to an older cancel fails, and takes back the request to cancel the run that waits now. */
  lemma OlderFailureRevives(s: State)
    requires Inv(s) && Attended(s) && CanCancel(s) && s.own.query.None? && s.cancels.asked != multiset{}
    ensures !StaysCanceled(Cancel(s))
  {
    var q :| q in s.cancels.asked;
    var t := Cancel(s);
    CancelKeeps(s);
    var u := Step(t, EvCancelFails(q));
    CancelReplyKeeps(t, EvCancelFails(q));
    var i :| i in u.runs;
    WaitingRunGoesLive(u, i);
    var events := [EvCancelFails(q)] + ToOwn(u.runs[i], i);
    assert events[1..] == ToOwn(u.runs[i], i);
    assert !NothingLiveAfter(t, events);
  }

  /**
    * A cancel is kept, whatever happens before the next run, exactly if the run has its query already or no earlier
    * cancel is unanswered.
    */
  lemma CancelIsKeptIff(s: State)
    requires Inv(s) && Attended(s) && CanCancel(s)
    ensures StaysCanceled(Cancel(s)) <==> s.own.query.Some? || s.cancels.asked == multiset{}
  {
    if s.own.query.Some? || s.cancels.asked == multiset{} {
      CancelKeeps(s);
      forall events | PossibleDisciplined(Cancel(s), events) && StartsNone(events)
        ensures NothingLiveAfter(Cancel(s), events)
      {
        StoppedStays(Cancel(s), events);
      }
    } else {
      OlderFailureRevives(s);
    }
  }

  /** A query that is canceled ends before the reply to its cancel; the next run then has no query yet. */
  lemma RevivableCancelIsReachable()
    ensures PossibleDisciplined(INITIAL, FIRST_HALF + [EvRun(false)])
    ensures Possible(INITIAL, FIRST_HALF + [EvRun(false)])
    ensures var s := After(INITIAL, FIRST_HALF + [EvRun(false)]);
      CanCancel(s) && s.own.query.None? && s.cancels.asked != multiset{}
  {
    FirstHalf();
    OneMore(INITIAL, FIRST_HALF, EvRun(false));
    assert 0 in ONE.asked;
  }
}
