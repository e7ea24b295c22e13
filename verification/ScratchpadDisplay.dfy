/**
  * What is on display and what is downloaded, over all runs of a scratchpad in which no run starts while another
  * waits for its receipt; and why that condition is exact.
  */
module ScratchpadDisplay {
  import opened Results
  import opened ScratchpadProtocol
  import opened ScratchpadSafety

  /** No run waits for its receipt; first pages and late cancels may be pending. */
  predicate NoneWaits(s: State) {
    forall i :: i in s.runs ==> s.runs[i].LateCancel?
  }

  predicate Calm(s: State, e: Event) {
    e.EvRun? ==> NoneWaits(s)
  }

  predicate PossibleCalm(s: State, events: seq<Event>)
    decreases |events|
  {
    events == [] || (Enabled(s, events[0]) && Calm(s, events[0]) && PossibleCalm(Step(s, events[0]), events[1..]))
  }

  lemma {:induction false} CalmIsPossible(s: State, events: seq<Event>)
    requires PossibleCalm(s, events)
    ensures Possible(s, events)
    decreases |events|
  {
    if events != [] {
      CalmIsPossible(Step(s, events[0]), events[1..]);
    }
  }

  // ---------------------------------------------------------------- the invariant

  /** At most one run waits, and meanwhile no query is owned. */
  predicate WaitingOk(query: Option<QueryId>, runs: map<nat, RunTask>, nextRun: nat, nextQuery: QueryId) {
    && (forall i :: i in runs ==> i < nextRun && (runs[i].Accepted? ==> runs[i].id < nextQuery))
    && (forall i :: i in runs && !runs[i].LateCancel? ==> query.None?)
    && (forall i, j :: i in runs && j in runs && !runs[i].LateCancel? && !runs[j].LateCancel? ==> i == j)
  }

  predicate ServerOk(poll: PollTask, server: Server) {
    && (forall q :: q in server.finished ==> q < server.nextQuery)
    && (poll.AwaitPage? ==> poll.query in server.finished && server.finished[poll.query].Succeeded?)
  }

  predicate Tidy(s: State) {
    WaitingOk(s.own.query, s.runs, s.nextRun, s.server.nextQuery) && ServerOk(s.poll, s.server) && RowsOk(s)
  }

  // ---------------------------------------------------------------- every step keeps it

  lemma RunTidy(s: State, criteria: bool)
    requires Tidy(s) && CanRun(s) && NoneWaits(s)
    ensures Tidy(Run(s, criteria))
  {
  }

  lemma ReceiptTidy(s: State, task: nat)
    requires Tidy(s) && task in s.runs && s.runs[task].Accepted?
    ensures Tidy(Receipt(s, task, s.runs[task].id))
  {
  }

  lemma RunFailsTidy(s: State, task: nat)
    requires Tidy(s)
    ensures Tidy(RunFails(s, task))
  {
  }

  lemma PreparedTidy(s: State, task: nat)
    requires Tidy(s) && task in s.runs && s.runs[task].Preparing?
    ensures Tidy(Prepared(s, task))
  {
  }

  lemma ServerAcceptsTidy(s: State, task: nat)
    requires Tidy(s) && task in s.runs && s.runs[task].Submitted?
    ensures Tidy(ServerAccepts(s, task))
  {
  }

  lemma LateCancelDoneTidy(s: State, task: nat)
    requires Tidy(s) && task in s.runs && s.runs[task].LateCancel?
    ensures Tidy(LateCancelDone(s, task, s.runs[task].canceled))
  {
  }

  lemma RunStepsTidy(s: State, e: Event)
    requires Tidy(s) && Enabled(s, e) && Calm(s, e) && RunEvent(e)
    ensures Tidy(Step(s, e))
  {
    match e
    case EvRun(criteria) => RunTidy(s, criteria);
    case EvReceipt(t) => ReceiptTidy(s, t);
    case EvReceiptLost(t) => RunFailsTidy(s.(log := s.log.(lost := s.log.lost + {s.runs[t].id})), t);
    case EvPrepareFails(t) => RunFailsTidy(s, t);
    case EvSubmitFails(t) => RunFailsTidy(s, t);
    case EvLateCancelFails(t) => RunFailsTidy(s, t);
    case EvPrepared(t) => PreparedTidy(s, t);
    case EvServerAccepts(t) => ServerAcceptsTidy(s, t);
    case EvLateCancelDone(t) => LateCancelDoneTidy(s, t);
  }

  lemma StatusTidy(s: State, terminal: bool)
    requires Tidy(s) && s.poll.AwaitStatus? && (terminal ==> s.poll.query in s.server.finished)
    ensures Tidy(StatusArrives(s, terminal))
  {
  }

  /** The page is shown only if the query it was asked for is the owned one. */
  lemma FirstPageTidy(s: State, page: Page)
    requires Tidy(s) && s.poll.AwaitPage? && Honest(s.server, s.poll.query, 0, page)
    ensures Tidy(FirstPage(s, page))
  {
  }

  lemma TimerStepsTidy(s: State, e: Event)
    requires Tidy(s) && Enabled(s, e) && TimerEvent(e)
    ensures Tidy(Step(s, e))
  {
  }

  lemma FailedReplyTidy(s: State, e: Event)
    requires Tidy(s) && Enabled(s, e) && (e.EvStatusFails? || e.EvFirstPageFails?)
    ensures Tidy(Step(s, e))
  {
  }

  lemma PollStepsTidy(s: State, e: Event)
    requires Tidy(s) && Enabled(s, e) && PollEvent(e)
    ensures Tidy(Step(s, e))
  {
    if TimerEvent(e) {
      TimerStepsTidy(s, e);
    } else {
      match e
      case EvStatus(terminal) => StatusTidy(s, terminal);
      case EvFirstPage(page) => FirstPageTidy(s, page);
      case _ => FailedReplyTidy(s, e);
    }
  }

  lemma CancelStepsTidy(s: State, e: Event)
    requires Tidy(s) && Enabled(s, e) && CancelEvent(e)
    ensures Tidy(Step(s, e))
  {
  }

  lemma MoreStepsTidy(s: State, e: Event)
    requires Tidy(s) && Enabled(s, e) && (e.EvMore? || e.EvMorePage? || e.EvMoreFails?)
    ensures Tidy(Step(s, e))
  {
    if e.EvMorePage? && Current(s, s.more) && |s.more.rows| + |e.page.rows| <= 1000 {
      PageExtendsPrefix(s.server, s.more, e.page);
    }
  }

  lemma ContinueDownloadTidy(s: State, q: QueryId, offset: Option<nat>, rows: seq<Row>, total: nat)
    requires Tidy(s) && PrefixOf(s.server, q, rows) && total == |s.server.finished[q].rows|
    requires offset.Some? ==> offset.value == |rows|
    ensures Tidy(ContinueDownload(s, q, offset, rows, total))
  {
    assert |rows| == total ==> rows == s.server.finished[q].rows;
  }

  lemma DownloadStepsTidy(s: State, e: Event)
    requires Tidy(s) && Enabled(s, e) && (e.EvDownload? || e.EvDownloadPage? || e.EvDownloadFails?)
    ensures Tidy(Step(s, e))
  {
    if e.EvDownload? {
      var r := s.ui.shown.value;
      ContinueDownloadTidy(
        s.(ui := s.ui.(error := false)), s.own.query.value, r.next, r.rows, s.ui.job.value.rows);
    } else if e.EvDownloadPage? {
      var w := s.download;
      if PageMatches(w.offset, e.page) && Current(s, w) && |w.rows| + |e.page.rows| <= 1000 {
        PageExtendsPrefix(s.server, w, e.page);
        ContinueDownloadTidy(s, w.query, e.page.next, w.rows + e.page.rows, w.total);
      }
    }
  }

  lemma FinishTidy(s: State, q: QueryId, fate: Fate)
    requires Tidy(s) && Enabled(s, EvFinish(q, fate))
    ensures Tidy(Step(s, EvFinish(q, fate)))
  {
  }

  lemma StepTidy(s: State, e: Event)
    requires Tidy(s) && Enabled(s, e) && Calm(s, e)
    ensures Tidy(Step(s, e))
  {
    if RunEvent(e) {
      RunStepsTidy(s, e);
    } else if PollEvent(e) {
      PollStepsTidy(s, e);
    } else if CancelEvent(e) {
      CancelStepsTidy(s, e);
    } else if e.EvMore? || e.EvMorePage? || e.EvMoreFails? {
      MoreStepsTidy(s, e);
    } else if e.EvFinish? {
      FinishTidy(s, e.query, e.fate);
    } else {
      DownloadStepsTidy(s, e);
    }
  }

  lemma {:induction false} CalmRunsTidy(s: State, events: seq<Event>)
    requires Tidy(s) && PossibleCalm(s, events)
    ensures Possible(s, events) && Tidy(After(s, events))
    decreases |events|
  {
    CalmIsPossible(s, events);
    if events != [] {
      StepTidy(s, events[0]);
      CalmRunsTidy(Step(s, events[0]), events[1..]);
    }
  }

  // ---------------------------------------------------------------- main result

  /** The rows on display belong to the owned query, unless they are marked as previous ones. */
  predicate ShowsOwn(s: State) {
    s.ui.shown.Some? && !s.ui.previousRows ==> s.own.query == Some(s.ui.shown.value.owner)
  }

  /**
    * In every state that calm starts reach, whatever late pages, late cancels and failures happen meanwhile, the rows
    * on display are the first rows, at most 1,000, of one query's fixed result; unless they are marked as previous
    * rows that query is the owned one. Every download that was emitted is the complete result of its query.
    */
  lemma DisplayedRows(events: seq<Event>)
    requires PossibleCalm(INITIAL, events)
    ensures Possible(INITIAL, events)
    ensures var s := After(INITIAL, events);
      && (s.ui.shown.Some? ==>
            && s.ui.shown.value.owner in s.server.finished
            && s.server.finished[s.ui.shown.value.owner].Succeeded?
            && s.ui.shown.value.rows <= s.server.finished[s.ui.shown.value.owner].rows
            && |s.ui.shown.value.rows| <= 1000)
      && ShowsOwn(s)
      && (forall i :: 0 <= i < |s.log.emitted| ==>
            s.log.emitted[i].0 in s.server.finished &&
            s.server.finished[s.log.emitted[i].0] == Succeeded(s.log.emitted[i].1))
  {
    CalmRunsTidy(INITIAL, events);
  }

  // ---------------------------------------------------------------- the condition is exact

  predicate ShowsOwnAfter(s: State, events: seq<Event>) {
    Possible(s, events) && ShowsOwn(After(s, events))
  }

  /** However the run continues, as long as later runs start calmly, the rows on display are the owned query's. */
  ghost predicate StaysOwn(s: State) {
    forall events :: PossibleCalm(s, events) ==> ShowsOwnAfter(s, events)
  }

  predicate CalmRun(s: State, events: seq<Event>, t: State) {
    PossibleCalm(s, events) && Possible(s, events) && After(s, events) == t
  }

  /** A calm run leads from one state to the other. */
  ghost predicate Leads(s: State, t: State) {
    exists events :: CalmRun(s, events, t)
  }

  lemma LeadsNowhere(s: State)
    ensures Leads(s, s)
  {
    var none: seq<Event> := [];
    assert CalmRun(s, none, s);
  }

  lemma {:induction false} OneMoreCalm(s: State, events: seq<Event>, e: Event)
    requires PossibleCalm(s, events) && Possible(s, events)
    requires Enabled(After(s, events), e) && Calm(After(s, events), e)
    ensures CalmRun(s, events + [e], Step(After(s, events), e))
    decreases |events|
  {
    var all := events + [e];
    if events == [] {
      assert all[1..] == [];
    } else {
      assert all[1..] == events[1..] + [e];
      OneMoreCalm(Step(s, events[0]), events[1..], e);
    }
  }

  lemma LeadsOn(s: State, t: State, e: Event) returns (u: State)
    requires Leads(s, t) && Enabled(t, e) && Calm(t, e)
    ensures u == Step(t, e) && Leads(s, u)
  {
    u := Step(t, e);
    var events :| CalmRun(s, events, t);
    OneMoreCalm(s, events, e);
  }

  /** Run `rival` waits beside the new run, and no poll is pending. */
  predicate Races(s: State, rival: nat, task: nat) {
    && !s.own.closed && !s.own.cancelRequested && s.poll.NoPoll?
    && rival in s.runs && !s.runs[rival].LateCancel? && task in s.runs && s.runs[task].Preparing? && rival != task
    && (s.runs[rival].Accepted? ==> s.runs[rival].id < s.server.nextQuery)
    && forall q :: q in s.server.finished ==> q < s.server.nextQuery
  }

  /** A pending poll of an older query may fail, which ends it. */
  lemma PollClears(s: State, criteria: bool, rival: nat) returns (t: State)
    requires Tidy(s) && CanRun(s) && rival in s.runs && !s.runs[rival].LateCancel?
    ensures Leads(Run(s, criteria), t) && Races(t, rival, s.nextRun)
  {
    t := Run(s, criteria);
    LeadsNowhere(t);
    if t.poll.AwaitStatus? {
      t := LeadsOn(Run(s, criteria), t, EvStatusFails);
    } else if t.poll.AwaitPage? {
      t := LeadsOn(Run(s, criteria), t, EvFirstPageFails);
    }
  }

  /** The new run owns query `q` and waits for its status, while the rival still waits for a receipt. */
  predicate Followed(s: State, rival: nat, q: QueryId) {
    && !s.own.closed && !s.own.cancelRequested && s.own.query == Some(q) && s.poll == AwaitStatus(q)
    && rival in s.runs && !s.runs[rival].LateCancel? && (s.runs[rival].Accepted? ==> s.runs[rival].id != q)
    && q < s.server.nextQuery && q !in s.server.finished
  }

  lemma NewRunIsFollowed(start: State, s: State, rival: nat, task: nat) returns (t: State)
    requires Leads(start, s) && Races(s, rival, task)
    ensures Leads(start, t) && Followed(t, rival, s.server.nextQuery)
  {
    t := LeadsOn(start, s, EvPrepared(task));
    t := LeadsOn(start, t, EvServerAccepts(task));
    t := LeadsOn(start, t, EvReceipt(task));
  }

  /** The rows of query `q` are shown as current, while the rival still waits for a receipt. */
  predicate ShownBeside(s: State, rival: nat, q: QueryId) {
    && !s.own.closed && !s.own.cancelRequested && q < s.server.nextQuery
    && s.ui.shown.Some? && s.ui.shown.value.owner == q && !s.ui.previousRows
    && rival in s.runs && !s.runs[rival].LateCancel? && (s.runs[rival].Accepted? ==> s.runs[rival].id != q)
  }

  lemma NewRunShowsRows(start: State, s: State, rival: nat, q: QueryId) returns (t: State)
    requires Leads(start, s) && Followed(s, rival, q)
    ensures Leads(start, t) && ShownBeside(t, rival, q)
  {
    t := LeadsOn(start, s, EvFinish(q, Succeeded([])));
    t := LeadsOn(start, t, EvStatus(true));
    t := LeadsOn(start, t, EvFirstPage(Page([], None)));
  }

  /** The rival receives its query, under the rows of the new one. */
  lemma OldRunTakesOver(start: State, s: State, rival: nat, q: QueryId) returns (t: State)
    requires Leads(start, s) && ShownBeside(s, rival, q)
    ensures Leads(start, t) && !ShowsOwn(t)
  {
    t := s;
    if t.runs[rival].Preparing? {
      t := LeadsOn(start, t, EvPrepared(rival));
    }
    if t.runs[rival].Submitted? {
      t := LeadsOn(start, t, EvServerAccepts(rival));
    }
    t := LeadsOn(start, t, EvReceipt(rival));
  }

  lemma WaitingRunMixesRows(s: State, criteria: bool)
    requires Tidy(s) && CanRun(s) && !NoneWaits(s)
    ensures !StaysOwn(Run(s, criteria))
  {
    var start := Run(s, criteria);
    var rival :| rival in s.runs && !s.runs[rival].LateCancel?;
    var t := PollClears(s, criteria, rival);
    var q := t.server.nextQuery;
    t := NewRunIsFollowed(start, t, rival, s.nextRun);
    t := NewRunShowsRows(start, t, rival, q);
    t := OldRunTakesOver(start, t, rival, q);
    var events :| CalmRun(start, events, t);
    assert !ShowsOwnAfter(start, events);
  }

  /**
    * Starting a run keeps the rows on display those of the owned query, whatever happens next, exactly when no run
    * waits for its receipt.
    */
  lemma DisplayGuardIsExact(s: State, criteria: bool)
    requires Tidy(s) && CanRun(s)
    ensures StaysOwn(Run(s, criteria)) <==> NoneWaits(s)
  {
    var t := Run(s, criteria);
    if NoneWaits(s) {
      RunTidy(s, criteria);
      forall events | PossibleCalm(t, events) ensures ShowsOwnAfter(t, events) {
        CalmRunsTidy(t, events);
      }
    } else {
      WaitingRunMixesRows(s, criteria);
    }
  }

  // ---------------------------------------------------------------- mixed rows are reachable

  lemma {:induction false} OneAfterOther(s: State, a: seq<Event>, b: seq<Event>)
    requires Possible(s, a) && Possible(After(s, a), b)
    ensures Possible(s, a + b) && After(s, a + b) == After(After(s, a), b)
    ensures PossibleCalm(s, a) && PossibleCalm(After(s, a), b) ==> PossibleCalm(s, a + b)
    decreases |a|
  {
    if a == [] {
      assert a + b == b;
    } else {
      assert (a + b)[0] == a[0] && (a + b)[1..] == a[1..] + b;
      OneAfterOther(Step(s, a[0]), a[1..], b);
    }
  }

  const A_ROWS: seq<Row> := [["a"]]
  const B_ROWS: seq<Row> := [["b"]]

  const GETS_RECEIPT: seq<Event> := [EvRun(false), EvPrepared(0), EvServerAccepts(0), EvReceipt(0)]
  /** The query is canceled, but found to have succeeded; its rows are shown. */
  const ENDS: seq<Event> := [EvCancel, EvFinish(0, Succeeded([]))]
  const SHOWS_NONE: seq<Event> := [EvStatus(true), EvFirstPage(PAGE)]
  /** The late acknowledgement polls once more; its page arrives in the next run and clears `running`. */
  const POLLS_AGAIN: seq<Event> := [EvCancelDone(0), EvStatus(true)]
  const CLEARS_RUNNING: seq<Event> := [EvRun(false), EvFirstPage(PAGE)]
  /** A third run starts beside the second, and the second receives its query. */
  const STARTS_BESIDE: seq<Event> := [EvRun(false), EvPrepared(1)]
  const OWNS_A: seq<Event> := [EvServerAccepts(1), EvReceipt(1)]
  const SHOWS_A: seq<Event> := [EvFinish(1, Succeeded(A_ROWS)), EvStatus(true), EvFirstPage(Page(A_ROWS, None))]
  /** The third run receives its query. */
  const OWNS_B: seq<Event> := [EvPrepared(2), EvServerAccepts(2), EvReceipt(2)]
  const DOWNLOADS: seq<Event> := [EvFinish(2, Succeeded(B_ROWS)), EvStatus(true), EvDownload]

  const RECEIVED := State(
    Lifetime(false, true, false, false, Some(0), false, 0),
    Ui(None, false, Some(Active(0)), false, false, false),
    map[], 1, AwaitStatus(0), NONE, NoTask, NoTask,
    Server(1, map[]), Log({0}, {}, {}, {}, {}, []))

  const ENDED := RECEIVED.(
    own := RECEIVED.own.(cancelRequested := true), cancels := ONE,
    server := Server(1, map[0 := Succeeded([])]), log := RECEIVED.log.(cancelSent := {0}))

  const NONE_SHOWN := State(
    Lifetime(false, false, true, false, Some(0), false, 0),
    Ui(Some(Shown(0, [], None)), false, Some(Ended(0, true, 0)), false, false, false),
    map[], 1, NoPoll, Canceling(multiset{0}, None), NoTask, NoTask,
    Server(1, map[0 := Succeeded([])]), Log({0}, {}, {0}, {0}, {}, []))

  const POLLED_AGAIN := NONE_SHOWN.(
    cancels := NONE, poll := AwaitPage(0), log := NONE_SHOWN.log.(acknowledged := {0}))

  const RUNNING_CLEARED := State(
    Lifetime(false, false, false, false, None, false, 0),
    Ui(None, false, None, false, false, false),
    map[1 := Preparing], 2, NoPoll, NONE, NoTask, NoTask,
    Server(1, map[0 := Succeeded([])]), Log({0}, {}, {0}, {0}, {0}, []))

  const BESIDE := RUNNING_CLEARED.(
    own := RUNNING_CLEARED.own.(running := true), runs := map[1 := Submitted, 2 := Preparing], nextRun := 3)

  const A_OWNED := State(
    Lifetime(false, true, false, false, Some(1), false, 0),
    Ui(None, false, Some(Active(1)), false, false, false),
    map[2 := Preparing], 3, AwaitStatus(1), NONE, NoTask, NoTask,
    Server(2, map[0 := Succeeded([])]), Log({0, 1}, {}, {0}, {0}, {0}, []))

  const A_SHOWN := State(
    Lifetime(false, false, false, false, Some(1), false, 0),
    Ui(Some(Shown(1, A_ROWS, None)), false, Some(Ended(1, true, 1)), false, false, false),
    map[2 := Preparing], 3, NoPoll, NONE, NoTask, NoTask,
    Server(2, map[0 := Succeeded([]), 1 := Succeeded(A_ROWS)]), Log({0, 1}, {}, {0, 1}, {0}, {0}, []))

  const MIXED := State(
    Lifetime(false, false, false, false, Some(2), false, 0),
    Ui(Some(Shown(1, A_ROWS, None)), false, Some(Active(2)), false, false, false),
    map[], 3, AwaitStatus(2), NONE, NoTask, NoTask,
    Server(3, map[0 := Succeeded([]), 1 := Succeeded(A_ROWS)]), Log({0, 1, 2}, {}, {0, 1}, {0}, {0}, []))

  /** One step, followed by what is possible after it. */
  lemma FollowAt(s: State, events: seq<Event>, k: nat, t: State)
    requires k < |events| && Enabled(s, events[k]) && Step(s, events[k]) == t && Possible(t, events[k + 1..])
    ensures Possible(s, events[k..]) && After(s, events[k..]) == After(t, events[k + 1..])
    ensures Calm(s, events[k]) && PossibleCalm(t, events[k + 1..]) ==> PossibleCalm(s, events[k..])
  {
    assert events[k..][1..] == events[k + 1..];
  }

  lemma GetsReceipt()
    ensures PossibleCalm(INITIAL, GETS_RECEIPT) && Possible(INITIAL, GETS_RECEIPT)
    ensures After(INITIAL, GETS_RECEIPT) == RECEIVED
  {
    var s1 := Step(INITIAL, EvRun(false));
    var s2 := Step(s1, EvPrepared(0));
    var s3 := Step(s2, EvServerAccepts(0));
    var s4 := Step(s3, EvReceipt(0));
    assert s4.runs == map[];
    assert s4 == RECEIVED;
    assert GETS_RECEIPT[4..] == [];
    FollowAt(s3, GETS_RECEIPT, 3, s4);
    FollowAt(s2, GETS_RECEIPT, 2, s3);
    FollowAt(s1, GETS_RECEIPT, 1, s2);
    FollowAt(INITIAL, GETS_RECEIPT, 0, s1);
    assert GETS_RECEIPT[0..] == GETS_RECEIPT;
  }

  lemma Ends()
    ensures PossibleCalm(RECEIVED, ENDS) && Possible(RECEIVED, ENDS)
    ensures After(RECEIVED, ENDS) == ENDED
  {
    var s1 := Step(RECEIVED, EvCancel);
    var s2 := Step(s1, EvFinish(0, Succeeded([])));
    assert s2 == ENDED;
    assert ENDS[2..] == [];
    FollowAt(s1, ENDS, 1, s2);
    FollowAt(RECEIVED, ENDS, 0, s1);
    assert ENDS[0..] == ENDS;
  }

  lemma ShowsNone()
    ensures PossibleCalm(ENDED, SHOWS_NONE) && Possible(ENDED, SHOWS_NONE)
    ensures After(ENDED, SHOWS_NONE) == NONE_SHOWN
  {
    var s1 := Step(ENDED, EvStatus(true));
    var s2 := Step(s1, EvFirstPage(PAGE));
    assert s2 == NONE_SHOWN;
    assert SHOWS_NONE[2..] == [];
    FollowAt(s1, SHOWS_NONE, 1, s2);
    FollowAt(ENDED, SHOWS_NONE, 0, s1);
    assert SHOWS_NONE[0..] == SHOWS_NONE;
  }

  lemma PollsAgain()
    ensures PossibleCalm(NONE_SHOWN, POLLS_AGAIN) && Possible(NONE_SHOWN, POLLS_AGAIN)
    ensures After(NONE_SHOWN, POLLS_AGAIN) == POLLED_AGAIN
  {
    var s1 := Step(NONE_SHOWN, EvCancelDone(0));
    var s2 := Step(s1, EvStatus(true));
    assert s2 == POLLED_AGAIN;
    assert POLLS_AGAIN[2..] == [];
    FollowAt(s1, POLLS_AGAIN, 1, s2);
    FollowAt(NONE_SHOWN, POLLS_AGAIN, 0, s1);
    assert POLLS_AGAIN[0..] == POLLS_AGAIN;
  }

  lemma ClearsRunning()
    ensures PossibleCalm(POLLED_AGAIN, CLEARS_RUNNING) && Possible(POLLED_AGAIN, CLEARS_RUNNING)
    ensures After(POLLED_AGAIN, CLEARS_RUNNING) == RUNNING_CLEARED
  {
    var s1 := Step(POLLED_AGAIN, EvRun(false));
    assert s1.runs == map[1 := Preparing];
    var s2 := Step(s1, EvFirstPage(PAGE));
    assert s2 == RUNNING_CLEARED;
    assert CLEARS_RUNNING[2..] == [];
    FollowAt(s1, CLEARS_RUNNING, 1, s2);
    FollowAt(POLLED_AGAIN, CLEARS_RUNNING, 0, s1);
    assert CLEARS_RUNNING[0..] == CLEARS_RUNNING;
  }

  lemma StartsBeside()
    ensures Possible(RUNNING_CLEARED, STARTS_BESIDE)
    ensures After(RUNNING_CLEARED, STARTS_BESIDE) == BESIDE
  {
    var s1 := Step(RUNNING_CLEARED, EvRun(false));
    var s2 := Step(s1, EvPrepared(1));
    assert s2 == BESIDE;
    assert STARTS_BESIDE[2..] == [];
    FollowAt(s1, STARTS_BESIDE, 1, s2);
    FollowAt(RUNNING_CLEARED, STARTS_BESIDE, 0, s1);
    assert STARTS_BESIDE[0..] == STARTS_BESIDE;
  }

  lemma OwnsA()
    ensures Possible(BESIDE, OWNS_A)
    ensures After(BESIDE, OWNS_A) == A_OWNED
  {
    var s1 := Step(BESIDE, EvServerAccepts(1));
    var s2 := Step(s1, EvReceipt(1));
    assert s2.runs == map[2 := Preparing];
    assert s2 == A_OWNED;
    assert OWNS_A[2..] == [];
    FollowAt(s1, OWNS_A, 1, s2);
    FollowAt(BESIDE, OWNS_A, 0, s1);
    assert OWNS_A[0..] == OWNS_A;
  }

  lemma ShowsA()
    ensures Possible(A_OWNED, SHOWS_A)
    ensures After(A_OWNED, SHOWS_A) == A_SHOWN
  {
    var s1 := Step(A_OWNED, EvFinish(1, Succeeded(A_ROWS)));
    var s2 := Step(s1, EvStatus(true));
    assert A_ROWS[0..1] == A_ROWS;
    var s3 := Step(s2, EvFirstPage(Page(A_ROWS, None)));
    assert s3 == A_SHOWN;
    assert SHOWS_A[3..] == [];
    FollowAt(s2, SHOWS_A, 2, s3);
    FollowAt(s1, SHOWS_A, 1, s2);
    FollowAt(A_OWNED, SHOWS_A, 0, s1);
    assert SHOWS_A[0..] == SHOWS_A;
  }

  lemma OwnsB()
    ensures Possible(A_SHOWN, OWNS_B)
    ensures After(A_SHOWN, OWNS_B) == MIXED
  {
    var s1 := Step(A_SHOWN, EvPrepared(2));
    var s2 := Step(s1, EvServerAccepts(2));
    var s3 := Step(s2, EvReceipt(2));
    assert s3.runs == map[];
    assert s3 == MIXED;
    assert OWNS_B[3..] == [];
    FollowAt(s2, OWNS_B, 2, s3);
    FollowAt(s1, OWNS_B, 1, s2);
    FollowAt(A_SHOWN, OWNS_B, 0, s1);
    assert OWNS_B[0..] == OWNS_B;
  }

  lemma Downloads()
    ensures Possible(MIXED, DOWNLOADS)
    ensures var s := After(MIXED, DOWNLOADS);
      s.log.emitted == [(2, A_ROWS)] && 2 in s.server.finished && s.server.finished[2] == Succeeded(B_ROWS)
  {
    var s1 := Step(MIXED, EvFinish(2, Succeeded(B_ROWS)));
    var s2 := Step(s1, EvStatus(true));
    var s3 := Step(s2, EvDownload);
    assert DOWNLOADS[3..] == [];
    FollowAt(s2, DOWNLOADS, 2, s3);
    FollowAt(s1, DOWNLOADS, 1, s2);
    FollowAt(MIXED, DOWNLOADS, 0, s1);
    assert DOWNLOADS[0..] == DOWNLOADS;
  }

  const CALM_PART := GETS_RECEIPT + (ENDS + (SHOWS_NONE + (POLLS_AGAIN + CLEARS_RUNNING)))
  const MIXES := CALM_PART + (STARTS_BESIDE + (OWNS_A + (SHOWS_A + OWNS_B)))

  lemma CalmPart()
    ensures PossibleCalm(INITIAL, CALM_PART) && Possible(INITIAL, CALM_PART)
    ensures After(INITIAL, CALM_PART) == RUNNING_CLEARED
  {
    ClearsRunning();
    PollsAgain();
    OneAfterOther(NONE_SHOWN, POLLS_AGAIN, CLEARS_RUNNING);
    ShowsNone();
    OneAfterOther(ENDED, SHOWS_NONE, POLLS_AGAIN + CLEARS_RUNNING);
    Ends();
    OneAfterOther(RECEIVED, ENDS, SHOWS_NONE + (POLLS_AGAIN + CLEARS_RUNNING));
    GetsReceipt();
    OneAfterOther(INITIAL, GETS_RECEIPT, ENDS + (SHOWS_NONE + (POLLS_AGAIN + CLEARS_RUNNING)));
  }

  /** A run that starts while another waits: the rows of query 1 are shown as current while query 2 is owned. */
  lemma MixedRowsAreReachable()
    ensures Possible(INITIAL, MIXES) && After(INITIAL, MIXES) == MIXED && !ShowsOwn(MIXED)
  {
    OwnsB();
    ShowsA();
    OneAfterOther(A_OWNED, SHOWS_A, OWNS_B);
    OwnsA();
    OneAfterOther(BESIDE, OWNS_A, SHOWS_A + OWNS_B);
    StartsBeside();
    OneAfterOther(RUNNING_CLEARED, STARTS_BESIDE, OWNS_A + (SHOWS_A + OWNS_B));
    CalmPart();
    OneAfterOther(INITIAL, CALM_PART, STARTS_BESIDE + (OWNS_A + (SHOWS_A + OWNS_B)));
  }

  /** And a download then emits the rows of query 1 as the result of query 2. */
  lemma WrongDownloadIsReachable()
    ensures Possible(INITIAL, MIXES + DOWNLOADS)
    ensures var s := After(INITIAL, MIXES + DOWNLOADS);
      s.log.emitted == [(2, A_ROWS)] && 2 in s.server.finished && s.server.finished[2] == Succeeded(B_ROWS)
  {
    MixedRowsAreReachable();
    Downloads();
    OneAfterOther(INITIAL, MIXES, DOWNLOADS);
  }

  /** Of the three starts only the last is not calm: calm starts lead to the state before it. */
  lemma WaitingStateIsReachable()
    ensures PossibleCalm(INITIAL, CALM_PART) && Possible(INITIAL, CALM_PART)
    ensures CanRun(After(INITIAL, CALM_PART)) && !NoneWaits(After(INITIAL, CALM_PART))
  {
    CalmPart();
    assert RUNNING_CLEARED.runs[1] == Preparing;
  }
}
