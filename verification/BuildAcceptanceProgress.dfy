/**
  * What a build planner gets done: a selection that is previewed and accepted is built and displayed, a retry finds
  * the build that is there, a review is never stranded but by two steps, and what is given up stays given up.
  */
module BuildAcceptanceProgress {
  import opened Results
  import opened ReceiptServer
  import opened BuildAcceptance
  import opened BuildAcceptanceSafety

  /** One step, followed by what is possible after it. */
  lemma FollowAt(s: State, events: seq<Event>, k: nat, t: State)
    requires k < |events| && Enabled(s, events[k]) && Step(s, events[k]) == t && Possible(t, events[k + 1..])
    ensures Possible(s, events[k..]) && After(s, events[k..]) == After(t, events[k + 1..])
  {
    assert events[k..][1..] == events[k + 1..];
  }

  // ---------------------------------------------------------------- a selection is built

  /** `Next`, and the preview that the server prepares. */
  function Previews(s: State, writes: nat, expires: nat): seq<Event> {
    [EvNext, EvPreviewSucceeds(s.nextToken, writes, expires)]
  }

  /** `Run build`, taken up as request `i` and answered with build `b`. */
  function Builds(i: nat, b: nat): seq<Event> {
    [EvAccept, EvServer(Reserves(i)), EvServer(Creates(i)), EvServer(Finishes(i)), EvAcceptSucceeds(b)]
  }

  lemma NextIsPreviewed(s: State, writes: nat, expires: nat)
    requires NextEnabled(s) && writes > 0 && expires > s.refs.now
    ensures var events := Previews(s, writes, expires);
      && Possible(s, events)
      && var t := After(s, events);
         && t.ui.draft == Some(Draft(s.nextPlan, writes, expires, s.refs.key, s.nextReceipt))
         && AcceptEnabled(t) && !AutoEnabled(t) && !t.ui.uncertain
         && t.server == s.server && t.nextReceipt == s.nextReceipt + 1 && t.outcome == s.outcome
  {
    var events := Previews(s, writes, expires);
    var s1 := Step(s, EvNext);
    var s2 := Step(s1, events[1]);
    assert events[2..] == [];
    FollowAt(s1, events, 1, s2);
    FollowAt(s, events, 0, s1);
    assert events[0..] == events;
  }

  /** Only receipts that were sent have records. */
  lemma NewReceiptHasNoRecord(v: Server, r: Receipt)
    requires ServerOk(v) && !Submitted(v, r)
    ensures r !in v.records
  {
    assert r in v.records ==> RecordOk(v, r);
  }

  /** The coordinator takes up request `i` and creates the build of its draft. */
  lemma AcceptedIsCreated(s: State)
    requires Inv(s) && AcceptEnabled(s) && s.ui.draft.value.receipt !in s.server.records
    ensures var events := Builds(|s.server.calls|, |s.server.builds|)[..3]; var d := s.ui.draft.value;
      && Possible(s, events)
      && var t := After(s, events); var i := |s.server.calls|;
         && t.accepting == Some(d) && t.refs == s.refs && i < |t.server.calls| == |t.server.progress| == i + 1
         && t.server.progress[i] == Running(Some(|s.server.builds|))
         && t.server.builds == s.server.builds + [Build(d.plan, d.receipt)]
  {
    var i, b := |s.server.calls|, |s.server.builds|;
    var events := Builds(i, b)[..3];
    var s1 := Step(s, EvAccept);
    AcceptKeeps(s);
    var s2 := Step(s1, EvServer(Reserves(i)));
    var s3 := Step(s2, EvServer(Creates(i)));
    assert events[3..] == [];
    FollowAt(s2, events, 2, s3);
    FollowAt(s1, events, 1, s2);
    FollowAt(s, events, 0, s1);
    assert events[0..] == events;
  }

  /** Build `b` of draft `d` is on display, and another selection can be made. */
  predicate Displayed(s: State, b: nat, d: Draft) {
    && s.outcome.shown == Some((b, d)) && d.receipt in s.outcome.confirmed
    && b < |s.server.builds| && s.server.builds[b] == Build(d.plan, d.receipt)
    && s.ui.draft.None? && (NextEnabled(s) <==> !s.refs.closed)
  }

  lemma CreatedIsDisplayed(s: State, i: nat, b: nat, d: Draft)
    requires s.accepting == Some(d) && |s.server.calls| == |s.server.progress| == i + 1
    requires s.server.progress[i] == Running(Some(b))
    requires b < |s.server.builds| && s.server.builds[b] == Build(d.plan, d.receipt)
    ensures Possible(s, [EvServer(Finishes(i)), EvAcceptSucceeds(b)])
    ensures Displayed(After(s, [EvServer(Finishes(i)), EvAcceptSucceeds(b)]), b, d)
  {
    var events := [EvServer(Finishes(i)), EvAcceptSucceeds(b)];
    var s1 := Step(s, EvServer(Finishes(i)));
    var s2 := Step(s1, EvAcceptSucceeds(b));
    assert events[2..] == [];
    FollowAt(s1, events, 1, s2);
    FollowAt(s, events, 0, s1);
    assert events[0..] == events;
  }

  lemma AcceptedIsBuilt(s: State)
    requires Inv(s) && AcceptEnabled(s) && s.ui.draft.value.receipt !in s.server.records
    ensures var i, b := |s.server.calls|, |s.server.builds|;
      Possible(s, Builds(i, b)) && Displayed(After(s, Builds(i, b)), b, s.ui.draft.value)
  {
    var i, b := |s.server.calls|, |s.server.builds|;
    AcceptedIsCreated(s);
    CreatedIsDisplayed(After(s, Builds(i, b)[..3]), i, b, s.ui.draft.value);
    OneAfterOther(s, Builds(i, b)[..3], [EvServer(Finishes(i)), EvAcceptSucceeds(b)]);
    assert Builds(i, b)[..3] + [EvServer(Finishes(i)), EvAcceptSucceeds(b)] == Builds(i, b);
  }

  /**
    * A selection that is previewed while none waits, with something to build and time left, is offered for
    * acceptance and not previewed again; accepted and answered, its build is the one on display, on the plan that was
    * previewed, and the planner is ready for the next selection.
    */
  lemma SelectionIsBuilt(s: State, writes: nat, expires: nat)
    requires Inv(s) && NextEnabled(s) && writes > 0 && expires > s.refs.now
    ensures var i, b := |s.server.calls|, |s.server.builds|;
      var d := Draft(s.nextPlan, writes, expires, s.refs.key, s.nextReceipt);
      var events := Previews(s, writes, expires) + Builds(i, b);
      Possible(s, events) && Displayed(After(s, events), b, d)
  {
    NextIsPreviewed(s, writes, expires);
    ReachableStatesKeepInv(s, Previews(s, writes, expires));
    var t := After(s, Previews(s, writes, expires));
    assert s.nextReceipt !in s.history.drafts;
    assert forall i :: 0 <= i < |s.server.calls| ==> s.server.calls[i].receipt in s.history.drafts;
    NewReceiptHasNoRecord(t.server, s.nextReceipt);
    AcceptedIsBuilt(t);
    OneAfterOther(s, Previews(s, writes, expires), Builds(|s.server.calls|, |s.server.builds|));
  }

  // ---------------------------------------------------------------- a retry finds the build

  /** `Retry build acceptance`, answered from the record. */
  function Recovers(i: nat, b: nat): seq<Event> {
    [EvAccept, EvServer(Replays(i)), EvAcceptSucceeds(b)]
  }

  /** A build under the draft's receipt is one of the draft. */
  lemma RecordedBuild(s: State)
    requires Inv(s) && s.ui.draft.Some? && s.ui.draft.value.receipt in s.server.records
    requires s.server.records[s.ui.draft.value.receipt].Built?
    ensures var b := s.server.records[s.ui.draft.value.receipt].build; var d := s.ui.draft.value;
      b < |s.server.builds| && s.server.builds[b] == Build(d.plan, d.receipt)
  {
    var r := s.ui.draft.value.receipt;
    assert RecordOk(s.server, r);
    var build := s.server.builds[s.server.records[r].build];
    assert Call(build.receipt, build.plan) in s.server.calls;
  }

  /** The build of a draft whose reply was lost is found by a retry, and no other is created. */
  lemma RetryFindsBuild(s: State, b: nat)
    requires Inv(s) && AcceptEnabled(s) && s.ui.draft.value.receipt in s.server.records
    requires var record := s.server.records[s.ui.draft.value.receipt]; record.Built? && record.build == b
    ensures var events := Recovers(|s.server.calls|, b);
      && Possible(s, events) && After(s, events).server.builds == s.server.builds
      && Displayed(After(s, events), b, s.ui.draft.value)
  {
    var i, d := |s.server.calls|, s.ui.draft.value;
    var events := Recovers(i, b);
    RecordedBuild(s);
    assert |s.server.calls| == |s.server.progress|;
    var s1 := Step(s, EvAccept);
    var s2 := Step(s1, EvServer(Replays(i)));
    var s3 := Step(s2, EvAcceptSucceeds(b));
    assert events[3..] == [];
    FollowAt(s2, events, 2, s3);
    FollowAt(s1, events, 1, s2);
    FollowAt(s, events, 0, s1);
    assert events[0..] == events;
  }

  // ---------------------------------------------------------------- what is on display

  /** No acceptance is confirmed. */
  predicate ConfirmsNone(events: seq<Event>) {
    forall i :: 0 <= i < |events| ==> !events[i].EvAcceptSucceeds?
  }

  lemma StepKeepsDisplay(s: State, e: Event)
    requires Enabled(s, e) && !e.EvAcceptSucceeds?
    ensures Step(s, e).outcome.shown == s.outcome.shown
  {
  }

  lemma {:induction false} DisplayStays(s: State, events: seq<Event>)
    requires Possible(s, events) && ConfirmsNone(events)
    ensures After(s, events).outcome.shown == s.outcome.shown
    decreases |events|
  {
    if events != [] {
      StepKeepsDisplay(s, events[0]);
      DisplayStays(Step(s, events[0]), events[1..]);
    }
  }

  /** From its confirmation to the next one, the draft that was accepted is the one on display, with its build. */
  lemma LastConfirmedIsShown(s: State, b: nat, events: seq<Event>)
    requires Inv(s) && Enabled(s, EvAcceptSucceeds(b))
    requires Possible(Step(s, EvAcceptSucceeds(b)), events) && ConfirmsNone(events)
    ensures After(Step(s, EvAcceptSucceeds(b)), events).outcome.shown == Some((b, s.accepting.value))
    ensures b < |s.server.builds| && s.server.builds[b] == Build(s.accepting.value.plan, s.accepting.value.receipt)
  {
    ReplyNamesBuild(s, b);
    DisplayStays(Step(s, EvAcceptSucceeds(b)), events);
  }

  // ---------------------------------------------------------------- a review is attended to

  /** A preview that is still wanted is of the latest key, and a preview that failed has spoilt the draft. */
  predicate Linked(s: State) {
    && (forall t :: t in s.previews && !s.previews[t].aborted ==> s.previews[t].key == s.refs.key)
    && (s.ui.failedKey.Some? ==> s.ui.rejected)
    && (s.ui.busy.Previewing? && s.ui.failedKey.Some? ==>
          s.refs.current.Some? && s.refs.current.value in s.previews && s.previews[s.refs.current.value].retrying)
  }

  lemma PreviewLinks(s: State, e: Event)
    requires Inv(s) && Linked(s) && Enabled(s, e) && (e.EvNext? || e.EvRetryPreview? || e.EvAutoPreview?)
    ensures Linked(Step(s, e))
  {
    AbortLeavesOnlyCurrent(s.previews, s.refs.current);
  }

  lemma ReplyLinks(s: State, e: Event)
    requires PreviewsOk(s.ui.busy, s.refs.current, s.previews, s.nextToken) && Linked(s)
    requires Enabled(s, e) && (e.EvPreviewSucceeds? || e.EvPreviewFails? || e.EvRetryReady?)
    ensures Linked(Step(s, e))
  {
  }

  lemma AcceptanceLinks(s: State, e: Event)
    requires Inv(s) && Linked(s) && Enabled(s, e)
    requires e.EvAccept? || e.EvAcceptSucceeds? || e.EvAcceptRefused? || e.EvAcceptLost?
    ensures Linked(Step(s, e))
  {
  }

  lemma StepLinks(s: State, e: Event)
    requires Inv(s) && Linked(s) && Enabled(s, e)
    ensures Linked(Step(s, e))
  {
    if e.EvNext? || e.EvRetryPreview? || e.EvAutoPreview? {
      PreviewLinks(s, e);
    } else if e.EvPreviewSucceeds? || e.EvPreviewFails? || e.EvRetryReady? {
      ReplyLinks(s, e);
    } else if e.EvAccept? || e.EvAcceptSucceeds? || e.EvAcceptRefused? || e.EvAcceptLost? {
      AcceptanceLinks(s, e);
    } else if e.EvKeyChanges? || e.EvForce? || e.EvCancel? || e.EvUnmount? {
      AbortLeavesOnlyCurrent(s.previews, s.refs.current);
    }
  }

  /** A review without a usable plan in which nothing is under way or unknown, and nothing but `Cancel` is offered. */
  predicate Stranded(s: State) {
    && !s.refs.closed && s.ui.reviewing && s.ui.busy.Idle? && !s.ui.uncertain
    && Reviewed(s).None? && !AutoEnabled(s) && !RetryEnabled(s)
  }

  /** A conflict's retry ends without asking again, for the latest key; or that key is chosen again later. */
  predicate Strands(s: State, e: Event)
    requires Enabled(s, e)
  {
    && !s.refs.closed && s.ui.reviewing && !s.ui.uncertain && !s.ui.autoPreview && !s.ui.error
    && match e
       case EvRetryReady(t, refreshed) =>
         s.refs.current == Some(t) && s.ui.failedKey == Some(s.refs.key) && (s.previews[t].aborted || !refreshed)
       case EvKeyChanges(key) => s.ui.busy.Idle? && s.ui.failedKey == Some(key)
       case _ => false
  }

  lemma ReplyStrands(s: State, e: Event)
    requires Inv(s) && Linked(s) && Enabled(s, e) && !Stranded(s)
    requires e.EvPreviewSucceeds? || e.EvPreviewFails? || e.EvRetryReady?
    ensures Stranded(Step(s, e)) <==> Strands(s, e)
  {
  }

  lemma AcceptanceStrandsNone(s: State, e: Event)
    requires Inv(s) && Linked(s) && Enabled(s, e) && !Stranded(s)
    requires e.EvAccept? || e.EvAcceptSucceeds? || e.EvAcceptRefused? || e.EvAcceptLost?
    ensures !Stranded(Step(s, e))
  {
  }

  lemma OtherStepsStrand(s: State, e: Event)
    requires Inv(s) && Linked(s) && Enabled(s, e) && !Stranded(s)
    requires !(e.EvPreviewSucceeds? || e.EvPreviewFails? || e.EvRetryReady?)
    requires !(e.EvAccept? || e.EvAcceptSucceeds? || e.EvAcceptRefused? || e.EvAcceptLost?)
    ensures Stranded(Step(s, e)) <==> Strands(s, e)
  {
  }

  /**
    * A review in which nothing is under way has a plan that can be accepted, previews again by itself, or offers the
    * retry; at every step but those that strand it.
    */
  lemma StrandingIsExact(s: State, e: Event)
    requires Inv(s) && Linked(s) && Enabled(s, e) && !Stranded(s)
    ensures Stranded(Step(s, e)) <==> Strands(s, e)
  {
    if e.EvPreviewSucceeds? || e.EvPreviewFails? || e.EvRetryReady? {
      ReplyStrands(s, e);
    } else if e.EvAccept? || e.EvAcceptSucceeds? || e.EvAcceptRefused? || e.EvAcceptLost? {
      AcceptanceStrandsNone(s, e);
    } else {
      OtherStepsStrand(s, e);
    }
  }

  /** No step of the run strands the review. */
  ghost predicate NeverStrands(s: State, events: seq<Event>)
    requires Possible(s, events)
    decreases |events|
  {
    events == [] || (!Strands(s, events[0]) && NeverStrands(Step(s, events[0]), events[1..]))
  }

  lemma {:induction false} RunsStrandNone(s: State, events: seq<Event>)
    requires Inv(s) && Linked(s) && !Stranded(s) && Possible(s, events) && NeverStrands(s, events)
    ensures !Stranded(After(s, events))
    decreases |events|
  {
    if events != [] {
      StrandingIsExact(s, events[0]);
      StepKeeps(s, events[0]);
      StepLinks(s, events[0]);
      RunsStrandNone(Step(s, events[0]), events[1..]);
    }
  }

  /** So a review is never without a way forward in a run without such steps. */
  lemma ReviewIsAttended(key: Key, events: seq<Event>)
    requires Possible(Initial(key), events) && NeverStrands(Initial(key), events)
    ensures !Stranded(After(Initial(key), events))
  {
    RunsStrandNone(Initial(key), events);
  }

  const REFRESH_FAILS: seq<Event> := [EvNext, EvPreviewFails(0, true), EvRetryReady(0, false)]

  /** The workspace cannot be refreshed after a conflict. */
  lemma StrandedByRefresh(key: Key)
    ensures Possible(Initial(key), REFRESH_FAILS) && Stranded(After(Initial(key), REFRESH_FAILS))
  {
  }

  const SELECTION_RETURNS: seq<Event> :=
    [EvNext, EvPreviewFails(0, true), EvKeyChanges("other"), EvKeyChanges(""), EvRetryReady(0, true)]

  /** The selection changes and changes back in the pause after a conflict. */
  lemma StrandedByReturn()
    ensures Possible(Initial(""), SELECTION_RETURNS) && Stranded(After(Initial(""), SELECTION_RETURNS))
  {
    var events := SELECTION_RETURNS;
    var s1 := Step(Initial(""), events[0]);
    var s2 := Step(s1, events[1]);
    var s3 := Step(s2, events[2]);
    var s4 := Step(s3, events[3]);
    var s5 := Step(s4, events[4]);
    assert events[5..] == [];
    FollowAt(s4, events, 4, s5);
    FollowAt(s3, events, 3, s4);
    FollowAt(s2, events, 2, s3);
    FollowAt(s1, events, 1, s2);
    FollowAt(Initial(""), events, 0, s1);
    assert events[0..] == events;
  }

  // ---------------------------------------------------------------- what is given up stays given up

  /** No preview is asked for. */
  predicate AsksNone(events: seq<Event>) {
    forall i :: 0 <= i < |events| ==> !events[i].EvNext? && !events[i].EvRetryPreview? && !events[i].EvAutoPreview?
  }

  /** Every pending preview was aborted. */
  predicate NoneWanted(s: State) {
    forall t :: t in s.previews ==> s.previews[t].aborted
  }

  lemma NoneComesBack(s: State, e: Event)
    requires NoneWanted(s) && Enabled(s, e) && AsksNone([e])
    ensures NoneWanted(Step(s, e)) && (Step(s, e).ui.draft == s.ui.draft || Step(s, e).ui.draft.None?)
  {
    assert [e][0] == e;
  }

  lemma {:induction false} NothingComesBack(s: State, events: seq<Event>)
    requires NoneWanted(s) && Possible(s, events) && AsksNone(events)
    ensures After(s, events).ui.draft == s.ui.draft || After(s, events).ui.draft.None?
    decreases |events|
  {
    if events != [] {
      assert [events[0]][0] == events[0];
      NoneComesBack(s, events[0]);
      NothingComesBack(Step(s, events[0]), events[1..]);
    }
  }

  /** `Cancel` leaves the review, and no late reply brings a draft until a preview is asked for. */
  lemma CanceledStaysCanceled(s: State, events: seq<Event>)
    requires Inv(s) && Enabled(s, EvCancel) && Possible(Step(s, EvCancel), events) && AsksNone(events)
    ensures NextEnabled(Step(s, EvCancel)) && After(Step(s, EvCancel), events).ui.draft.None?
  {
    AbortLeavesOnlyCurrent(s.previews, s.refs.current);
    NothingComesBack(Step(s, EvCancel), events);
  }

  /** A new selection makes every preview of the old one unwanted. */
  lemma OldSelectionIsForgotten(s: State, key: Key, events: seq<Event>)
    requires Inv(s) && Enabled(s, EvKeyChanges(key)) && Possible(Step(s, EvKeyChanges(key)), events) && AsksNone(events)
    ensures var t := After(Step(s, EvKeyChanges(key)), events); t.ui.draft == s.ui.draft || t.ui.draft.None?
  {
    AbortLeavesOnlyCurrent(s.previews, s.refs.current);
    NothingComesBack(Step(s, EvKeyChanges(key)), events);
  }

  lemma ClosedAsksNone(s: State, e: Event)
    requires Enabled(s, e)
    ensures Step(s, e).refs.closed <==> s.refs.closed || e.EvUnmount?
  {
  }

  /** A planner is closed exactly if it was unmounted. */
  lemma {:induction false} ClosedIffUnmounted(s: State, events: seq<Event>)
    requires Possible(s, events)
    ensures After(s, events).refs.closed <==> s.refs.closed || EvUnmount in events
    decreases |events|
  {
    if events != [] {
      ClosedAsksNone(s, events[0]);
      ClosedIffUnmounted(Step(s, events[0]), events[1..]);
    }
  }
}
