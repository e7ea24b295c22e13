/** Exactly-once acceptance: what holds in every reachable state of a build planner. */
module BuildAcceptanceSafety {
  import opened Results
  import opened ReceiptServer
  import opened BuildAcceptance

  lemma AbortLeavesOnlyCurrent(previews: map<Token, PreviewTask>, current: Option<Token>)
    requires forall t :: t in previews ==> current == Some(t) || previews[t].aborted
    ensures Abort(previews, current).Keys == previews.Keys
    ensures forall t :: t in Abort(previews, current) ==> Abort(previews, current)[t].aborted
  {
  }

  lemma PreviewKeeps(s: State)
    requires Inv(s) && !Locked(s)
    ensures Inv(Preview(s))
  {
    AbortLeavesOnlyCurrent(s.previews, s.refs.current);
  }

  lemma LeavePreviewKeeps(s: State, t: Token)
    requires Inv(s) && t in s.previews
    ensures Inv(LeavePreview(s, t))
  {
    var u := LeavePreview(s, t);
    assert forall x :: x in u.previews ==> x in s.previews && x != t;
  }

  /** A preview that was not aborted is the current one, and nothing is locked while it is pending. */
  lemma LivePreviewIsCurrent(s: State, t: Token)
    requires Inv(s) && t in s.previews && !s.previews[t].aborted
    ensures s.refs.current == Some(t) && s.ui.busy.Previewing? && !Locked(s)
  {
  }

  function WithDraft(s: State, draft: Draft): State {
    s.(refs := s.refs.(conflictRetries := 0), ui := s.ui.(draft := Some(draft)),
       nextReceipt := s.nextReceipt + 1,
       history := s.history.(drafts := s.history.drafts[draft.receipt := draft]))
  }

  lemma PreviewSucceedsKeeps(s: State, t: Token, writes: nat, expires: nat)
    requires Inv(s) && t in s.previews
    ensures Inv(PreviewSucceeds(s, t, writes, expires))
  {
    var task := s.previews[t];
    var u := s.(nextPlan := s.nextPlan + 1);
    if task.aborted || task.key != s.refs.key {
      LeavePreviewKeeps(u, t);
    } else {
      var draft := Draft(s.nextPlan, writes, expires, task.key, s.nextReceipt);
      LivePreviewIsCurrent(s, t);
      NewDraftKeeps(u, draft);
      LeavePreviewKeeps(WithDraft(u, draft), t);
    }
  }

  /** The draft is the one that was there, or one of the latest selection under a receipt never used before. */
  predicate FreshOrSame(before: State, after: State) {
    after.ui.draft == before.ui.draft ||
    (after.ui.draft.Some? && after.ui.draft.value.key == after.refs.key &&
     after.ui.draft.value.receipt !in before.history.drafts && !Submitted(after.server, after.ui.draft.value.receipt))
  }

  lemma PreviewGivesFreshDraft(s: State, t: Token, writes: nat, expires: nat)
    requires Inv(s) && t in s.previews
    ensures FreshOrSame(s, PreviewSucceeds(s, t, writes, expires))
  {
  }

  lemma NewDraftKeeps(s: State, draft: Draft)
    requires Inv(s) && draft.receipt == s.nextReceipt && !Locked(s)
    ensures Inv(WithDraft(s, draft))
  {
    assert SubmissionsOk(WithDraft(s, draft).history, s.server.calls);
    if draft.receipt in s.outcome.confirmed {
      AnsweredIsSubmitted(s.server, draft.receipt);
    }
  }

  lemma AnsweredIsSubmitted(v: Server, r: Receipt)
    requires ServerOk(v) && Answered(v, r)
    ensures Submitted(v, r)
  {
    var b :| 0 <= b < |v.builds| && v.builds[b].receipt == r;
    var i :| 0 <= i < |v.calls| && v.calls[i] == Call(v.builds[b].receipt, v.builds[b].plan);
  }

  lemma PreviewFailsKeeps(s: State, t: Token, conflict: bool)
    requires Inv(s) && t in s.previews
    ensures Inv(PreviewFails(s, t, conflict))
  {
    var task := s.previews[t];
    if task.aborted {
      LeavePreviewKeeps(s, t);
    } else {
      LivePreviewIsCurrent(s, t);
      var ui := s.ui.(failedKey := Some(task.key), rejected := true);
      if !(conflict && s.refs.conflictRetries < 3) {
        LeavePreviewKeeps(s.(ui := ui.(error := true)), t);
      }
    }
  }

  lemma RetryReadyKeeps(s: State, t: Token, refreshed: bool)
    requires Inv(s) && t in s.previews
    ensures Inv(RetryReady(s, t, refreshed))
  {
    LeavePreviewKeeps(if s.previews[t].aborted || !refreshed then s else s.(ui := s.ui.(autoPreview := true)), t);
  }

  lemma AcceptKeeps(s: State)
    requires Inv(s) && AcceptEnabled(s)
    ensures Inv(Accept(s))
  {
    var d := s.ui.draft.value;
    var t := Accept(s);
    var n := |s.server.calls|;
    SendKeeps(s.server, Call(d.receipt, d.plan));
    assert forall i :: 0 <= i < n ==> t.server.calls[i] == s.server.calls[i];
    assert t.server.calls[n].receipt == d.receipt;
    assert Retried(t.server, d.receipt) <==> Submitted(s.server, d.receipt);
    assert SubmissionsOk(t.history, t.server.calls);
    assert forall r :: Answered(s.server, r) <==> Answered(t.server, r);
  }

  lemma ServerKeeps(s: State, a: Action)
    requires Inv(s) && CanAct(s.server, a)
    ensures Inv(s.(server := Act(s.server, a)))
  {
    ActKeeps(s.server, a);
    AnsweredGrows(s.server, Act(s.server, a));
    assert forall r :: Submitted(s.server, r) <==> Submitted(Act(s.server, a), r);
    assert forall r :: Retried(s.server, r) <==> Retried(Act(s.server, a), r);
  }

  lemma AcceptEndsKeep(s: State, e: Event)
    requires Inv(s) && Enabled(s, e) && (e.EvAcceptSucceeds? || e.EvAcceptRefused? || e.EvAcceptLost?)
    ensures Inv(Step(s, e))
  {
    var n := |s.server.calls|;
    assert s.server.calls[n - 1].receipt == s.accepting.value.receipt;
    if e.EvAcceptSucceeds? {
      ReplyNamesBuild(s, e.build);
    }
  }

  /** The build a reply names is that of the draft being accepted. */
  lemma ReplyNamesBuild(s: State, b: nat)
    requires Inv(s) && s.accepting.Some? && LastReply(s.server, Names(b))
    ensures b < |s.server.builds|
    ensures s.server.builds[b] == Build(s.accepting.value.plan, s.accepting.value.receipt)
    ensures Answered(s.server, s.accepting.value.receipt)
  {
    var n := |s.server.calls|;
    assert RunningOk(s.server, n - 1);
    var build := s.server.builds[b];
    assert Call(build.receipt, build.plan) in s.server.calls;
  }

  lemma KeyChangesKeeps(s: State, key: Key)
    requires Inv(s)
    ensures Inv(KeyChanges(s, key))
  {
    AbortLeavesOnlyCurrent(s.previews, s.refs.current);
  }

  lemma CancelKeeps(s: State)
    requires Inv(s) && !Locked(s)
    ensures Inv(Cancel(s))
  {
    AbortLeavesOnlyCurrent(s.previews, s.refs.current);
  }

  lemma UnmountKeeps(s: State)
    requires Inv(s)
    ensures Inv(Unmount(s))
  {
    AbortLeavesOnlyCurrent(s.previews, s.refs.current);
  }

  lemma StepKeeps(s: State, e: Event)
    requires Inv(s) && Enabled(s, e)
    ensures Inv(Step(s, e))
  {
    match e
    case EvNext => PreviewKeeps(s);
    case EvRetryPreview => PreviewKeeps(s);
    case EvAutoPreview => PreviewKeeps(s);
    case EvPreviewSucceeds(t, writes, expires) => PreviewSucceedsKeeps(s, t, writes, expires);
    case EvPreviewFails(t, conflict) => PreviewFailsKeeps(s, t, conflict);
    case EvRetryReady(t, refreshed) => RetryReadyKeeps(s, t, refreshed);
    case EvAccept => AcceptKeeps(s);
    case EvServer(action) => ServerKeeps(s, action);
    case EvAcceptSucceeds(_) => AcceptEndsKeep(s, e);
    case EvAcceptRefused => AcceptEndsKeep(s, e);
    case EvAcceptLost => AcceptEndsKeep(s, e);
    case EvCancel => CancelKeeps(s);
    case EvKeyChanges(key) => KeyChangesKeeps(s, key);
    case EvForce(key) => KeyChangesKeeps(s, key);
    case EvClock(_) =>
    case EvUnmount => UnmountKeeps(s);
  }

  lemma {:induction false} ReachableStatesKeepInv(s: State, events: seq<Event>)
    requires Inv(s) && Possible(s, events)
    ensures Inv(After(s, events))
    decreases |events|
  {
    if events != [] {
      StepKeeps(s, events[0]);
      ReachableStatesKeepInv(Step(s, events[0]), events[1..]);
    }
  }

  // ---------------------------------------------------------------- main results

  /**
    * After any run: each draft has at most one build, on the plan that was reviewed; every submission
    * of a draft carries its one plan, which builds something, and was made while the draft was neither stale
    * nor expired nor rejected; and once a build was confirmed an acceptance is on display, which names the one build
    * of its draft.
    */
  lemma ExactlyOnce(key: Key, events: seq<Event>)
    requires Possible(Initial(key), events)
    ensures var s := After(Initial(key), events); var v := s.server; var drafts := s.history.drafts;
      && (forall i, j :: 0 <= i < j < |v.builds| ==> v.builds[i].receipt != v.builds[j].receipt)
      && (forall i :: 0 <= i < |v.builds| ==>
            v.builds[i].receipt in drafts && drafts[v.builds[i].receipt].plan == v.builds[i].plan)
      && (forall i, j :: 0 <= i < j < |v.calls| && v.calls[i].receipt == v.calls[j].receipt ==>
            v.calls[i].plan == v.calls[j].plan)
      && |s.history.submissions| == |v.calls|
      && (forall i :: 0 <= i < |v.calls| ==>
            && s.history.submissions[i] == Submission(false, false, false)
            && v.calls[i].receipt in drafts && drafts[v.calls[i].receipt].writes > 0)
    ensures var s := After(Initial(key), events);
      (s.outcome.confirmed != {} ==> s.outcome.shown.Some?) &&
      (s.outcome.shown.Some? ==>
        var (b, d) := s.outcome.shown.value;
        && d.receipt in s.outcome.confirmed
        && b < |s.server.builds| && s.server.builds[b] == Build(d.plan, d.receipt)
        && forall i :: 0 <= i < |s.server.builds| && s.server.builds[i].receipt == d.receipt ==> i == b)
  {
    ReachableStatesKeepInv(Initial(key), events);
    var s := After(Initial(key), events);
    assert ServerOk(s.server) && SubmissionsOk(s.history, s.server.calls);
    if s.outcome.shown.Some? {
      var (b, d) := s.outcome.shown.value;
      forall i | 0 <= i < |s.server.builds| && s.server.builds[i].receipt == d.receipt ensures i == b {
        assert !(i < b) && !(b < i);
      }
    }
  }

  // ---------------------------------------------------------------- what is not known is kept in hand

  /** The draft was submitted, and has or can still get a build that the planner has not seen. */
  predicate Unsettled(s: State, r: Receipt) {
    |s.server.calls| == |s.server.progress| && Submitted(s.server, r) && r !in s.outcome.confirmed && Open(s.server, r)
  }

  predicate AllInHand(s: State) {
    forall r :: r in s.history.drafts && Unsettled(s, r) ==> InHand(s.ui, r)
  }

  /** The reply refuses a draft that has or can still get a build. */
  predicate Misjudges(s: State, e: Event) {
    e.EvAcceptRefused? && s.accepting.Some? && |s.server.calls| == |s.server.progress| &&
    Open(s.server, s.accepting.value.receipt)
  }

  /** A step that leaves the planner's own record of a receipt alone can settle it, never unsettle it. */
  lemma UnsettledWasUnsettled(s: State, e: Event, r: Receipt)
    requires Inv(s) && Enabled(s, e) && Unsettled(Step(s, e), r)
    ensures Unsettled(s, r) || (e.EvAccept? && s.ui.draft.Some? && s.ui.draft.value.receipt == r)
  {
    var t := Step(s, e);
    if e.EvServer? && !Open(s.server, r) {
      ActsKeepClosed(s.server, e.action, r);
    } else if e.EvAccept? && s.ui.draft.value.receipt != r {
      var d := s.ui.draft.value;
      SendOpensOwn(s.server, Call(d.receipt, d.plan), r);
      var i :| 0 <= i < |t.server.calls| && t.server.calls[i].receipt == r;
      assert s.server.calls[i].receipt == r;
    }
  }

  /** Which draft is in hand, and whether it is locked there, changes only with these steps. */
  lemma HandStays(s: State, e: Event, r: Receipt)
    requires Inv(s) && Enabled(s, e) && InHand(s.ui, r)
    ensures Step(s, e).ui.draft == s.ui.draft || e.EvAcceptSucceeds?
    ensures InHand(Step(s, e).ui, r) || e.EvAcceptSucceeds? || e.EvAcceptRefused? || s.refs.closed
  {
  }

  /**
    * While the planner is mounted, everything that is unsettled stays in hand at every step but one: a reply that
    * refuses a draft of which another request is undecided or has already created the build.
    */
  lemma StepKeepsInHand(s: State, e: Event)
    requires Inv(s) && AllInHand(s) && Enabled(s, e) && !s.refs.closed
    ensures AllInHand(Step(s, e)) <==> !Misjudges(s, e)
  {
    var t := Step(s, e);
    if Misjudges(s, e) {
      var r := s.accepting.value.receipt;
      assert r in t.history.drafts && Unsettled(t, r) && !InHand(t.ui, r);
    } else {
      forall r | r in t.history.drafts && Unsettled(t, r) ensures InHand(t.ui, r) {
        UnsettledWasUnsettled(s, e, r);
        if Unsettled(s, r) {
          assert Submitted(s.server, r);
          HandStays(s, e, r);
        }
      }
    }
  }

  /** No reply of the run refuses a draft that has or can still get a build. */
  ghost predicate NeverMisjudges(s: State, events: seq<Event>)
    requires Possible(s, events)
    decreases |events|
  {
    events == [] || (!Misjudges(s, events[0]) && NeverMisjudges(Step(s, events[0]), events[1..]))
  }

  lemma {:induction false} RunsKeepInHand(s: State, events: seq<Event>)
    requires Inv(s) && AllInHand(s) && Possible(s, events) && NeverMisjudges(s, events)
    requires !After(s, events).refs.closed
    ensures AllInHand(After(s, events))
    decreases |events|
  {
    if events != [] {
      MountedBefore(s, events);
      StepKeeps(s, events[0]);
      StepKeepsInHand(s, events[0]);
      RunsKeepInHand(Step(s, events[0]), events[1..]);
    }
  }

  lemma {:induction false} MountedBefore(s: State, events: seq<Event>)
    requires Possible(s, events) && !After(s, events).refs.closed
    ensures !s.refs.closed
    decreases |events|
  {
    if events != [] {
      MountedBefore(Step(s, events[0]), events[1..]);
    }
  }

  /**
    * Nothing submitted is forgotten: in such a run, while the planner is mounted, every submitted draft that has or
    * can still get a build was confirmed, or is in hand waiting for its reply or for a retry.
    */
  lemma NoOutcomeIsLost(key: Key, events: seq<Event>, r: Receipt)
    requires Possible(Initial(key), events) && NeverMisjudges(Initial(key), events)
    requires var s := After(Initial(key), events);
      !s.refs.closed && Submitted(s.server, r) && |s.server.calls| == |s.server.progress| && Open(s.server, r)
    ensures var s := After(Initial(key), events);
      (r in s.outcome.confirmed && Answered(s.server, r)) || InHand(s.ui, r)
  {
    RunsKeepInHand(Initial(key), events);
    ReachableStatesKeepInv(Initial(key), events);
  }

  /**
    * An unsettled draft in hand stays there at every step but its own confirmation or refusal,
    * so every retry carries the same plan and receipt.
    */
  lemma UnknownOutcomeIsKept(key: Key, events: seq<Event>, e: Event, r: Receipt)
    requires Possible(Initial(key), events)
    requires var s := After(Initial(key), events);
      Enabled(s, e) && !s.refs.closed && Unsettled(s, r) && InHand(s.ui, r)
    ensures var s := After(Initial(key), events); var t := Step(s, e);
      && (InHand(t.ui, r) && t.ui.draft == s.ui.draft <==> !e.EvAcceptSucceeds? && !e.EvAcceptRefused?)
      && (e.EvAcceptSucceeds? ==> r in t.outcome.confirmed && Answered(t.server, r))
      && (e.EvAcceptRefused? ==> Misjudges(s, e) && r in t.outcome.refused && Unsettled(t, r))
  {
    ReachableStatesKeepInv(Initial(key), events);
    var s := After(Initial(key), events);
    HandStays(s, e, r);
    if e.EvAcceptSucceeds? {
      ReplyNamesBuild(s, e.build);
    }
  }

  // ---------------------------------------------------------------- what a refusal means

  /** Possible events, none of which submits the receipt again. */
  predicate PossibleWithout(s: State, events: seq<Event>, r: Receipt)
    decreases |events|
  {
    events == [] ||
    (&& Enabled(s, events[0])
     && !(events[0].EvAccept? && s.ui.draft.Some? && s.ui.draft.value.receipt == r)
     && PossibleWithout(Step(s, events[0]), events[1..], r))
  }

  predicate BuildsAfter(s: State, events: seq<Event>, r: Receipt) {
    PossibleWithout(s, events, r) && Possible(s, events) && Answered(After(s, events).server, r)
  }

  /** The draft has a build, or gets one in some continuation although it is not submitted again. */
  ghost predicate CanStillBuild(s: State, r: Receipt) {
    exists events :: BuildsAfter(s, events, r)
  }

  lemma StepKeepsClosed(s: State, e: Event, r: Receipt)
    requires Inv(s) && Enabled(s, e) && !Open(s.server, r)
    requires !(e.EvAccept? && s.ui.draft.Some? && s.ui.draft.value.receipt == r)
    ensures Inv(Step(s, e)) && !Open(Step(s, e).server, r)
  {
    StepKeeps(s, e);
    if e.EvServer? {
      ActsKeepClosed(s.server, e.action, r);
    } else if e.EvAccept? {
      SendOpensOwn(s.server, Call(s.ui.draft.value.receipt, s.ui.draft.value.plan), r);
    }
  }

  lemma {:induction false} ClosedStaysClosed(s: State, events: seq<Event>, r: Receipt)
    requires Inv(s) && !Open(s.server, r) && PossibleWithout(s, events, r) && Possible(s, events)
    ensures !Answered(After(s, events).server, r)
    decreases |events|
  {
    if events != [] {
      StepKeepsClosed(s, events[0], r);
      ClosedStaysClosed(Step(s, events[0]), events[1..], r);
    }
  }

  lemma OneActionBuilds(s: State, i: nat)
    requires Inv(s) && CanAct(s.server, Creates(i))
    ensures BuildsAfter(s, [EvServer(Creates(i))], s.server.calls[i].receipt)
  {
    var e := EvServer(Creates(i));
    var t := Step(s, e);
    assert [e][1..] == [] && t.server.builds[|s.server.builds|].receipt == s.server.calls[i].receipt;
    assert Possible(t, []) && After(t, []) == t && PossibleWithout(t, [], s.server.calls[i].receipt);
  }

  lemma TwoActionsBuild(s: State, i: nat)
    requires Inv(s) && CanAct(s.server, Reserves(i))
    ensures BuildsAfter(s, [EvServer(Reserves(i)), EvServer(Creates(i))], s.server.calls[i].receipt)
  {
    var e, f := EvServer(Reserves(i)), EvServer(Creates(i));
    StepKeeps(s, e);
    OneActionBuilds(Step(s, e), i);
    assert [e, f][1..] == [f];
  }

  /** A draft can still get a build exactly while its receipt is open. */
  lemma OpenIsExact(s: State, r: Receipt)
    requires Inv(s)
    ensures CanStillBuild(s, r) <==> Open(s.server, r)
  {
    if !Open(s.server, r) {
      forall events | PossibleWithout(s, events, r) && Possible(s, events) ensures !BuildsAfter(s, events, r) {
        ClosedStaysClosed(s, events, r);
      }
    } else if Answered(s.server, r) {
      var none: seq<Event> := [];
      assert BuildsAfter(s, none, r);
    } else {
      var i :| 0 <= i < |s.server.calls| && s.server.calls[i].receipt == r && Live(s.server, i);
      assert RunningOk(s.server, i);
      if s.server.progress[i].Running? {
        OneActionBuilds(s, i);
      } else {
        TwoActionsBuild(s, i);
      }
    }
  }

  /**
    * A draft refused by a reply has, or can still get, a build if and only if its receipt is open at the call's
    * end. If an error is frozen, that is so only if the build was created before the error; otherwise only if the
    * refused request was a retry, which is the exact condition when no other request of the receipt was turned away
    * and no operation of it stopped. That the request was a retry can be read off the planner's own flag, unless
    * the draft had been refused before.
    */
  lemma RefusalIsExact(key: Key, events: seq<Event>)
    requires Possible(Initial(key), events)
    requires var s := After(Initial(key), events); Enabled(s, EvAcceptRefused) && !s.refs.closed
    ensures var s := After(Initial(key), events); var v := s.server; var r := s.accepting.value.receipt;
      var frozen := r in v.records && v.records[r].Failed?;
      && |v.calls| == |v.progress|
      && (CanStillBuild(Step(s, EvAcceptRefused), r) <==> Open(v, r))
      && (Open(v, r) ==> if frozen then Answered(v, r) else Retried(v, r))
      && (Undisturbed(v, r, |v.calls| - 1) ==> (Open(v, r) <==> if frozen then Answered(v, r) else Retried(v, r)))
      && (r !in s.outcome.refused ==> (Retried(v, r) <==> s.ui.uncertain))
  {
    ReachableStatesKeepInv(Initial(key), events);
    var s := After(Initial(key), events);
    RefusedBuildsIffOpen(s);
    RefusedIsOpenOnlyOnRetry(s.server, s.accepting.value.receipt);
    if s.accepting.value.receipt !in s.outcome.refused {
      FlagTellsRetry(s);
    }
  }

  lemma RefusedBuildsIffOpen(s: State)
    requires Inv(s) && Enabled(s, EvAcceptRefused)
    ensures CanStillBuild(Step(s, EvAcceptRefused), s.accepting.value.receipt) <==>
      Open(s.server, s.accepting.value.receipt)
  {
    StepKeeps(s, EvAcceptRefused);
    OpenIsExact(Step(s, EvAcceptRefused), s.accepting.value.receipt);
  }

  lemma FlagTellsRetry(s: State)
    requires Inv(s) && s.accepting.Some? && !s.refs.closed && s.accepting.value.receipt !in s.outcome.refused
    ensures Retried(s.server, s.accepting.value.receipt) <==> s.ui.uncertain
  {
  }

  lemma RefusedIsOpenOnlyOnRetry(v: Server, r: Receipt)
    requires ServerOk(v) && v.calls != [] && v.calls[|v.calls| - 1].receipt == r && LastReply(v, Refuses)
    ensures var frozen := r in v.records && v.records[r].Failed?;
      && (Open(v, r) ==> if frozen then Answered(v, r) else Retried(v, r))
      && (Undisturbed(v, r, |v.calls| - 1) ==> (Open(v, r) <==> if frozen then Answered(v, r) else Retried(v, r)))
  {
    var last := |v.calls| - 1;
    if r in v.records && v.records[r].Failed? {
      FailedIsDecided(v, r);
    } else if Retried(v, r) {
      var i :| 0 <= i < last && v.calls[i].receipt == r;
      if Undisturbed(v, r, last) {
        UndisturbedIsOpen(v, r, i, last);
      }
    } else {
      OnlyRefusedIsClosed(v, r);
    }
  }

  /** A draft refused on its only submission gets no build from it, unless its operation failed after creating one. */
  lemma OnlyRefusedIsClosed(v: Server, r: Receipt)
    requires ServerOk(v) && v.calls != [] && v.calls[|v.calls| - 1].receipt == r && LastReply(v, Refuses)
    requires !Retried(v, r) && !(r in v.records && v.records[r].Failed?)
    ensures !Open(v, r)
  {
    var last := |v.calls| - 1;
    forall i | 0 <= i < |v.calls| && v.calls[i].receipt == r ensures i == last {
      assert !(i < last);
    }
  }

  lemma {:induction false} OneAfterOther(s: State, a: seq<Event>, b: seq<Event>)
    requires Possible(s, a) && Possible(After(s, a), b)
    ensures Possible(s, a + b) && After(s, a + b) == After(After(s, a), b)
    decreases |a|
  {
    if a == [] {
      assert a + b == b;
    } else {
      assert (a + b)[0] == a[0] && (a + b)[1..] == a[1..] + b;
      OneAfterOther(Step(s, a[0]), a[1..], b);
    }
  }

  const SENDS: seq<Event> := [EvNext, EvPreviewSucceeds(0, 1, 9), EvAccept]
  const LOSES_REPLY: seq<Event> := [EvServer(Reserves(0)), EvAcceptLost]
  const IS_REFUSED: seq<Event> := [EvAccept, EvServer(TurnsAway(1)), EvAcceptRefused, EvServer(Creates(0))]
  const SENDS_ANOTHER: seq<Event> := [EvAutoPreview, EvPreviewSucceeds(1, 1, 9), EvAccept]
  const BUILDS_AGAIN: seq<Event> := [EvServer(Reserves(2)), EvServer(Creates(2))]

  function FirstDraft(key: Key): Draft {
    Draft(0, 1, 9, key, 0)
  }

  function Sent(key: Key): State {
    State(Ui(true, false, Some(FirstDraft(key)), None, false, Accepting, false, false),
          Refs(key, 0, Some(0), false, 0), map[], Some(FirstDraft(key)), 1, 1, 1, Outcome(None, {}, {}),
          History(map[0 := FirstDraft(key)], [Submission(false, false, false)]),
          Server([Call(0, 0)], [InFlight], map[], []))
  }

  function Lost(key: Key): State {
    State(Ui(true, false, Some(FirstDraft(key)), None, true, Idle, true, false), Refs(key, 0, Some(0), false, 0),
          map[], None, 1, 1, 1, Outcome(None, {}, {}),
          History(map[0 := FirstDraft(key)], [Submission(false, false, false)]),
          Server([Call(0, 0)], [Running(None)], map[0 := Pending(0)], []))
  }

  function Refused(key: Key): State {
    State(Ui(true, false, Some(FirstDraft(key)), None, false, Idle, false, true), Refs(key, 0, Some(0), false, 0),
          map[], None, 1, 1, 1, Outcome(None, {}, {0}),
          History(map[0 := FirstDraft(key)], [Submission(false, false, false), Submission(false, false, false)]),
          Server([Call(0, 0), Call(0, 0)], [Running(Some(0)), Replied(Refuses)], map[0 := Pending(0)], [Build(0, 0)]))
  }

  lemma FirstIsSent(key: Key)
    ensures Possible(Initial(key), SENDS) && After(Initial(key), SENDS) == Sent(key)
  {
    assert After(Initial(key), SENDS).previews == map[];
  }

  lemma ReplyIsLost(key: Key)
    ensures Possible(Sent(key), LOSES_REPLY) && After(Sent(key), LOSES_REPLY) == Lost(key)
  {
  }

  lemma RetryIsRefused(key: Key)
    ensures Possible(Lost(key), IS_REFUSED) && After(Lost(key), IS_REFUSED) == Refused(key)
  {
  }

  const FORGETS := SENDS + (LOSES_REPLY + (IS_REFUSED + (SENDS_ANOTHER + BUILDS_AGAIN)))

  /** The first draft has a build that the planner does not know, and another draft of the same selection has one. */
  predicate BuiltTwice(s: State) {
    && !s.refs.closed && 0 in s.outcome.refused && Unsettled(s, 0) && !InHand(s.ui, 0) && InHand(s.ui, 1)
    && s.server.builds == [Build(0, 0), Build(1, 1)]
    && 0 in s.history.drafts && 1 in s.history.drafts && s.history.drafts[0].key == s.history.drafts[1].key
  }

  function SecondDraft(key: Key): Draft {
    Draft(1, 1, 9, key, 1)
  }

  function Resent(key: Key): State {
    Refused(key).(
      ui := Ui(true, false, Some(SecondDraft(key)), None, false, Accepting, false, false),
      refs := Refs(key, 0, Some(1), false, 0), accepting := Some(SecondDraft(key)),
      nextToken := 2, nextReceipt := 2, nextPlan := 2,
      history := History(
        map[0 := FirstDraft(key), 1 := SecondDraft(key)],
        [Submission(false, false, false), Submission(false, false, false), Submission(false, false, false)]),
      server := Server([Call(0, 0), Call(0, 0), Call(1, 1)], [Running(Some(0)), Replied(Refuses), InFlight],
                       map[0 := Pending(0)], [Build(0, 0)]))
  }

  function Rebuilt(key: Key): State {
    Resent(key).(server :=
      Server([Call(0, 0), Call(0, 0), Call(1, 1)], [Running(Some(0)), Replied(Refuses), Running(Some(1))],
             map[0 := Pending(0), 1 := Pending(2)], [Build(0, 0), Build(1, 1)]))
  }

  lemma AnotherIsSent(key: Key)
    ensures Possible(Refused(key), SENDS_ANOTHER) && After(Refused(key), SENDS_ANOTHER) == Resent(key)
  {
    assert After(Refused(key), SENDS_ANOTHER).previews == map[];
  }

  lemma AnotherIsBuilt(key: Key)
    ensures Possible(Resent(key), BUILDS_AGAIN) && After(Resent(key), BUILDS_AGAIN) == Rebuilt(key)
  {
  }

  lemma RebuiltIsBuiltTwice(key: Key)
    ensures BuiltTwice(Rebuilt(key))
  {
    assert Rebuilt(key).server.calls[0].receipt == 0 && Rebuilt(key).server.builds[0].receipt == 0;
  }

  /**
    * A lost reply, and a retry while the receipt is still pending: the draft is refused and gets its build,
    * unseen, and another draft for the same selection is built as well.
    */
  lemma ForgottenBuildIsReachable(key: Key)
    ensures Possible(Initial(key), FORGETS) && BuiltTwice(After(Initial(key), FORGETS))
  {
    AnotherIsBuilt(key);
    RebuiltIsBuiltTwice(key);
    AnotherIsSent(key);
    OneAfterOther(Refused(key), SENDS_ANOTHER, BUILDS_AGAIN);
    RetryIsRefused(key);
    OneAfterOther(Lost(key), IS_REFUSED, SENDS_ANOTHER + BUILDS_AGAIN);
    ReplyIsLost(key);
    OneAfterOther(Sent(key), LOSES_REPLY, IS_REFUSED + (SENDS_ANOTHER + BUILDS_AGAIN));
    FirstIsSent(key);
    OneAfterOther(Initial(key), SENDS, LOSES_REPLY + (IS_REFUSED + (SENDS_ANOTHER + BUILDS_AGAIN)));
  }

  const TURNED_AWAY_TWICE: seq<Event> :=
    [EvServer(TurnsAway(0)), EvAcceptLost, EvAccept, EvServer(TurnsAway(1))]

  /** A refused retry, no error frozen, and yet no build can come of it. */
  predicate RetriedInVain(s: State) {
    && Enabled(s, EvAcceptRefused) && s.ui.uncertain && s.server.records == map[]
    && |s.server.calls| == |s.server.progress| && !Open(s.server, s.accepting.value.receipt)
  }

  lemma BothTurnedAway(key: Key)
    ensures Possible(Sent(key), TURNED_AWAY_TWICE) && RetriedInVain(After(Sent(key), TURNED_AWAY_TWICE))
  {
  }

  /** That the refused request was a retry does not settle the matter: the first may have been turned away unheard. */
  lemma RetriedInVainIsReachable(key: Key)
    ensures Possible(Initial(key), SENDS + TURNED_AWAY_TWICE)
    ensures RetriedInVain(After(Initial(key), SENDS + TURNED_AWAY_TWICE))
  {
    BothTurnedAway(key);
    FirstIsSent(key);
    OneAfterOther(Initial(key), SENDS, TURNED_AWAY_TWICE);
  }

  const FAILS_LATE: seq<Event> :=
    [EvServer(Reserves(0)), EvServer(Creates(0)), EvServer(Fails(0, true)), EvAcceptRefused]

  /** A draft that was submitted once is refused, and has a build. */
  predicate RefusedAndBuilt(s: State) {
    |s.server.calls| == 1 && s.outcome.refused == {0} && Answered(s.server, 0) && !InHand(s.ui, 0)
  }

  lemma FailsAfterCreating(key: Key)
    ensures Possible(Sent(key), FAILS_LATE) && RefusedAndBuilt(After(Sent(key), FAILS_LATE))
  {
    var s := After(Sent(key), FAILS_LATE);
    assert s.server.builds[0].receipt == 0;
  }

  /** An operation that fails after it has created its build: the draft is refused on its only submission. */
  lemma RefusedBuildIsReachable(key: Key)
    ensures Possible(Initial(key), SENDS + FAILS_LATE) && RefusedAndBuilt(After(Initial(key), SENDS + FAILS_LATE))
  {
    FailsAfterCreating(key);
    FirstIsSent(key);
    OneAfterOther(Initial(key), SENDS, FAILS_LATE);
  }

  const IS_REFUSED_ONCE: seq<Event> := [EvServer(TurnsAway(0)), EvAcceptRefused]
  const PREVIEWS_IN_VAIN: seq<Event> :=
    [EvAutoPreview, EvKeyChanges("other"), EvKeyChanges(""), EvPreviewFails(1, false)]

  function RefusedOnce(): State {
    State(Ui(true, false, Some(FirstDraft("")), None, false, Idle, false, true), Refs("", 0, Some(0), false, 0),
          map[], None, 1, 1, 1, Outcome(None, {}, {0}),
          History(map[0 := FirstDraft("")], [Submission(false, false, false)]),
          Server([Call(0, 0)], [Replied(Refuses)], map[], []))
  }

  const RETURNS := SENDS + (IS_REFUSED_ONCE + PREVIEWS_IN_VAIN)

  /** The draft was refused, and can be accepted. */
  predicate OfferedAgain(s: State) {
    s.ui.draft.Some? && s.ui.draft.value.receipt in s.outcome.refused && AcceptEnabled(s)
  }

  lemma OnceRefused()
    ensures Possible(Sent(""), IS_REFUSED_ONCE) && After(Sent(""), IS_REFUSED_ONCE) == RefusedOnce()
  {
  }

  lemma VainPreview()
    ensures Possible(RefusedOnce(), PREVIEWS_IN_VAIN) && OfferedAgain(After(RefusedOnce(), PREVIEWS_IN_VAIN))
  {
  }

  /** A preview that is aborted by a change of selection forgets that the draft was refused. */
  lemma RefusedDraftReturns()
    ensures Possible(Initial(""), RETURNS) && OfferedAgain(After(Initial(""), RETURNS))
  {
    OnceRefused();
    VainPreview();
    OneAfterOther(Sent(""), IS_REFUSED_ONCE, PREVIEWS_IN_VAIN);
    FirstIsSent("");
    OneAfterOther(Initial(""), SENDS, IS_REFUSED_ONCE + PREVIEWS_IN_VAIN);
  }

  // ---------------------------------------------------------------- conflicts are retried three times

  /** The preview fails with a conflict and will be asked for again by itself. */
  predicate Retries(s: State, e: Event) {
    e.EvPreviewFails? && e.token in s.previews && !s.previews[e.token].aborted && e.conflict &&
    s.refs.conflictRetries < 3
  }

  /** The selection changes, or a preview yields a draft. */
  predicate Resets(s: State, e: Event) {
    e.EvKeyChanges? || e.EvForce? ||
    (e.EvPreviewSucceeds? && e.token in s.previews && !s.previews[e.token].aborted &&
     s.previews[e.token].key == s.refs.key)
  }

  /** How many steps of a run satisfy `p` in the state they start from. */
  ghost function Count(p: (State, Event) -> bool, s: State, events: seq<Event>): nat
    requires Possible(s, events)
    decreases |events|
  {
    if events == [] then 0 else (if p(s, events[0]) then 1 else 0) + Count(p, Step(s, events[0]), events[1..])
  }

  lemma RetrySpendsOne(s: State, e: Event)
    requires Inv(s) && Enabled(s, e)
    ensures Step(s, e).refs.conflictRetries ==
      if Resets(s, e) then 0 else s.refs.conflictRetries + (if Retries(s, e) then 1 else 0)
  {
  }

  /**
    * From any reachable state, a run retries conflicts by itself at most three times between two resets:
    * together with those already counted, at most three times and three more for each reset.
    */
  lemma {:induction false} ConflictRetriesAreBounded(s: State, events: seq<Event>)
    requires Inv(s) && Possible(s, events)
    ensures s.refs.conflictRetries + Count(Retries, s, events) <= 3 + 3 * Count(Resets, s, events)
    ensures Count(Resets, s, events) == 0 ==>
      After(s, events).refs.conflictRetries == s.refs.conflictRetries + Count(Retries, s, events) <= 3
    decreases |events|
  {
    if events != [] {
      RetrySpendsOne(s, events[0]);
      StepKeeps(s, events[0]);
      ConflictRetriesAreBounded(Step(s, events[0]), events[1..]);
    }
  }

  // ---------------------------------------------------------------- unknown outcomes

  /** The planner takes an outcome for unknown, and nothing is under way. */
  predicate Unknown(s: State) {
    s.ui.uncertain && s.ui.busy.Idle?
  }

  /** The button retries exactly a draft that is neither stale nor expired; the review cannot be given up. */
  lemma RetryIsExact(key: Key, events: seq<Event>)
    requires Possible(Initial(key), events)
    requires Unknown(After(Initial(key), events)) && !After(Initial(key), events).refs.closed
    ensures var s := After(Initial(key), events);
      && (Enabled(s, EvAccept) <==> !Stale(s) && !Expired(s))
      && !Enabled(s, EvCancel) && !NextEnabled(s) && !AutoEnabled(s) && !RetryEnabled(s)
  {
    ReachableStatesKeepInv(Initial(key), events);
  }

  lemma ExpiryStays(s: State, e: Event)
    requires Inv(s) && Unknown(s) && Expired(s) && Enabled(s, e)
    ensures Unknown(Step(s, e)) && Expired(Step(s, e)) && Step(s, e).ui.draft == s.ui.draft
  {
  }

  lemma {:induction false} ExpiryStaysForever(s: State, events: seq<Event>)
    requires Inv(s) && Unknown(s) && Expired(s) && Possible(s, events)
    ensures Unknown(After(s, events)) && Expired(After(s, events)) && After(s, events).ui.draft == s.ui.draft
    decreases |events|
  {
    if events != [] {
      ExpiryStays(s, events[0]);
      StepKeeps(s, events[0]);
      ExpiryStaysForever(Step(s, events[0]), events[1..]);
    }
  }

  /** After `events` the button that retries is enabled. */
  predicate EnablesRetry(s: State, events: seq<Event>) {
    Possible(s, events) && AcceptEnabled(After(s, events))
  }

  /**
    * An unknown outcome can be retried, at once or after the selection is back to that of the draft,
    * exactly when the plan has not expired. After that nothing the planner offers leads out of it.
    */
  lemma UnknownIsRetryableIffUnexpired(s: State)
    requires Inv(s) && Unknown(s) && !s.refs.closed
    ensures (exists events :: EnablesRetry(s, events)) <==> !Expired(s)
  {
    if Expired(s) {
      forall events | Possible(s, events) ensures !EnablesRetry(s, events) {
        ExpiryStaysForever(s, events);
      }
    } else if Stale(s) {
      var e := EvKeyChanges(s.ui.draft.value.key);
      var t := Step(s, e);
      assert [e][1..] == [] && After(t, []) == t && Possible(t, []);
      assert EnablesRetry(s, [e]);
    } else {
      var none: seq<Event> := [];
      assert EnablesRetry(s, none);
    }
  }

  const LOSES_ITS_OUTCOME: seq<Event> := [EvNext, EvPreviewSucceeds(0, 1, 1), EvAccept, EvAcceptLost, EvClock(1)]

  /** A lost reply, and the clock passing the plan's expiry, lead there. */
  lemma ExpiredUnknownIsReachable(key: Key)
    ensures Possible(Initial(key), LOSES_ITS_OUTCOME)
    ensures var s := After(Initial(key), LOSES_ITS_OUTCOME); Unknown(s) && Expired(s) && !s.refs.closed
  {
  }
}
