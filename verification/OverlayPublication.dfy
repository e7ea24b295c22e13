/**
  * `verify` and `write_overlay` in python/tools/catalog_overlay.py: any number of writers publish
  * overlays by staging a complete tree and renaming it into place; any of them may fail or crash.
  */
module OverlayPublication {
  import opened Results

  /** The parsed manifest. A file's digest is modelled as its text: equal digests mean equal texts. */
  datatype Metadata = Metadata(fingerprint: string, digests: map<string, string>)

  /** The files below a directory, the manifest apart. */
  datatype Tree = Tree(files: map<string, string>, manifest: Option<Metadata>)

  /** A captured catalogue with the files `render` generates for it. */
  datatype Snapshot = Snapshot(fingerprint: string, files: map<string, string>)

  /** What a destination must hold: exactly the rendered files and their manifest. */
  function Published(snapshot: Snapshot): Tree {
    Tree(snapshot.files, Some(Metadata(snapshot.fingerprint, snapshot.files)))
  }

  datatype Refusal = NoManifest | Stale | UnexpectedFiles | ContentDiffers | RenameFailed

  /** `verify`: accepts exactly the published tree. */
  method Verify(overlay: Tree, snapshot: Snapshot) returns (r: Result<(), Refusal>)
    ensures r.Ok? <==> overlay == Published(snapshot)
  {
    if overlay.manifest.None? {
      return Err(NoManifest);
    }
    if overlay.manifest.value != Metadata(snapshot.fingerprint, snapshot.files) {
      return Err(Stale);
    }
    if overlay.files.Keys != snapshot.files.Keys {
      return Err(UnexpectedFiles);
    }
    var left := snapshot.files.Keys;
    while left != {}
      invariant left <= snapshot.files.Keys
      invariant forall name :: name in snapshot.files && name !in left ==> overlay.files[name] == snapshot.files[name]
    {
      var name :| name in left;
      if overlay.files[name] != snapshot.files[name] {
        return Err(ContentDiffers);
      }
      left := left - {name};
    }
    assert overlay.files == snapshot.files;
    return Ok(());
  }

  /** The generated directory of one workspace, as a writer that meets no other one changes it. */
  class Workspace {
    var destinations: map<string, Tree>

    constructor (before: map<string, Tree>)
      ensures destinations == before
    {
      destinations := before;
    }

    /**
      * `write_overlay`: publishes a complete generation or leaves everything as it was. `renames` says
      * whether the file system carries out the rename.
      */
    method WriteOverlay(snapshot: Snapshot, renames: bool) returns (r: Result<(), Refusal>)
      modifies this
      ensures var f := snapshot.fingerprint;
              var found := old(destinations);
              && (r.Ok? <==> if f in found then found[f] == Published(snapshot) else renames)
              && destinations == if r.Ok? then found[f := Published(snapshot)] else found
    {
      var f := snapshot.fingerprint;
      if f in destinations {
        r := Verify(destinations[f], snapshot);
        return;
      }
      var staged := Tree(map[], None);
      var left := snapshot.files.Keys;
      while left != {}
        invariant left <= snapshot.files.Keys && staged.manifest.None?
        invariant staged.files.Keys == snapshot.files.Keys - left
        invariant forall name :: name in staged.files ==> staged.files[name] == snapshot.files[name]
      {
        var name :| name in left;
        staged := staged.(files := staged.files[name := snapshot.files[name]]);
        left := left - {name};
      }
      assert staged.files == snapshot.files;
      staged := staged.(manifest := Some(Metadata(f, snapshot.files)));
      if !renames {
        return Err(RenameFailed);
      }
      destinations := destinations[f := staged];
      r := Verify(destinations[f], snapshot);
    }
  }

  // ---------------------------------------------------------------- writers

  /**
    * Where a writer is: before looking for the destination, writing into its own staging directory,
    * verifying a destination it found in place of its own, or doing the final verification.
    */
  datatype Phase = Starting
                 | Staging(staged: Tree, pending: set<string>)
                 | Losing
                 | Confirming
                 | Returned
                 | Raised
                 | Crashed

  datatype Writer = Writer(snapshot: Snapshot, phase: Phase)

  /** `destinations` maps a fingerprint to the tree published under it. */
  datatype State = State(destinations: map<string, Tree>, writers: seq<Writer>)

  datatype Event = Arrive(snapshot: Snapshot)
                 | Look(w: nat)
                 | WriteFile(w: nat, name: string)
                 | WriteManifest(w: nat)
                 | Rename(w: nat)
                 | Check(w: nat)
                 | Fail(w: nat)
                 | Crash(w: nat)

  predicate Running(p: Phase) {
    !p.Returned? && !p.Raised? && !p.Crashed?
  }

  predicate Enabled(s: State, e: Event) {
    if e.Arrive? then true
    else if e.w >= |s.writers| then false
    else
      var p := s.writers[e.w].phase;
      match e
      case Look(_) => p.Starting?
      case WriteFile(_, name) => p.Staging? && name in p.pending
      case WriteManifest(_) => p.Staging? && p.pending == {} && p.staged.manifest.None?
      case Rename(_) => p.Staging? && p.staged.manifest.Some?
      case Check(_) => p.Losing? || p.Confirming?
      case Fail(_) => Running(p)
      case Crash(_) => Running(p)
  }

  /** What one step does to a writer, given the destination of its fingerprint. */
  function Next(writer: Writer, e: Event, destination: Option<Tree>): Phase
    requires !e.Arrive?
  {
    var Writer(snapshot, p) := writer;
    match e
    case Look(_) => if destination.Some? then Confirming else Staging(Tree(map[], None), snapshot.files.Keys)
    case WriteFile(_, name) =>
      if p.Staging? && name in snapshot.files
      then Staging(Tree(p.staged.files[name := snapshot.files[name]], p.staged.manifest), p.pending - {name}) else p
    case WriteManifest(_) =>
      if p.Staging?
      then Staging(Tree(p.staged.files, Some(Metadata(snapshot.fingerprint, snapshot.files))), p.pending) else p
    case Rename(_) => if destination.Some? then Losing else Confirming
    case Check(_) =>
      if destination == Some(Published(snapshot)) then (if p.Losing? then Confirming else Returned) else Raised
    case Fail(_) => Raised
    case Crash(_) => Crashed
  }

  function Destination(s: State, fingerprint: string): Option<Tree> {
    if fingerprint in s.destinations then Some(s.destinations[fingerprint]) else None
  }

  /** Only a rename onto an absent destination changes what is published. */
  function Step(s: State, e: Event): State
    requires Enabled(s, e)
  {
    if e.Arrive? then s.(writers := s.writers + [Writer(e.snapshot, Starting)])
    else
      var writer := s.writers[e.w];
      var fingerprint := writer.snapshot.fingerprint;
      var writers := s.writers[e.w := writer.(phase := Next(writer, e, Destination(s, fingerprint)))];
      if e.Rename? && fingerprint !in s.destinations
      then State(s.destinations[fingerprint := writer.phase.staged], writers)
      else State(s.destinations, writers)
  }

  // ---------------------------------------------------------------- the invariant

  /** A staging directory holds the files written so far, and a manifest only once they are all there. */
  ghost predicate StagedRight(w: Writer) {
    w.phase.Staging? ==>
      && w.phase.pending <= w.snapshot.files.Keys
      && w.phase.staged.files.Keys == w.snapshot.files.Keys - w.phase.pending
      && (forall name :: name in w.phase.staged.files ==> w.phase.staged.files[name] == w.snapshot.files[name])
      && (w.phase.staged.manifest.Some? ==>
            w.phase.pending == {} && w.phase.staged.manifest == Published(w.snapshot).manifest)
  }

  /** A writer past its rename has a destination, and one that returned has verified it. */
  ghost predicate Arrived(w: Writer, destinations: map<string, Tree>) {
    && (w.phase.Losing? || w.phase.Confirming? || w.phase.Returned? ==> w.snapshot.fingerprint in destinations)
    && (w.phase.Returned? ==> destinations[w.snapshot.fingerprint] == Published(w.snapshot))
  }

  ghost predicate WritersFine(s: State) {
    forall w :: 0 <= w < |s.writers| ==> StagedRight(s.writers[w]) && Arrived(s.writers[w], s.destinations)
  }

  ghost predicate PublishedBy(writers: seq<Writer>, fingerprint: string, tree: Tree) {
    exists w ::
      0 <= w < |writers| && writers[w].snapshot.fingerprint == fingerprint && tree == Published(writers[w].snapshot)
  }

  /** What was there at the start is untouched, and whatever is new is some writer's complete overlay. */
  ghost predicate DestinationsFine(before: map<string, Tree>, s: State) {
    && (forall f :: f in before ==> f in s.destinations && s.destinations[f] == before[f])
    && (forall f :: f in s.destinations && f !in before ==> PublishedBy(s.writers, f, s.destinations[f]))
  }

  ghost predicate Inv(before: map<string, Tree>, s: State) {
    WritersFine(s) && DestinationsFine(before, s)
  }

  lemma CompleteStageIsPublished(w: Writer)
    requires StagedRight(w) && w.phase.Staging? && w.phase.staged.manifest.Some?
    ensures w.phase.staged == Published(w.snapshot)
  {
    assert w.phase.staged.files == w.snapshot.files;
  }

  /** A destination never changes once it is there. */
  lemma DestinationsNeverChange(s: State, e: Event, fingerprint: string)
    requires Enabled(s, e) && fingerprint in s.destinations
    ensures fingerprint in Step(s, e).destinations
    ensures Step(s, e).destinations[fingerprint] == s.destinations[fingerprint]
  {
  }

  lemma StepKeepsWriter(s: State, e: Event, w: nat)
    requires Enabled(s, e) && WritersFine(s) && w < |s.writers|
    ensures var t := Step(s, e); StagedRight(t.writers[w]) && Arrived(t.writers[w], t.destinations)
  {
    assert StagedRight(s.writers[w]) && Arrived(s.writers[w], s.destinations);
    if w < |s.writers| && s.writers[w].snapshot.fingerprint in s.destinations {
      DestinationsNeverChange(s, e, s.writers[w].snapshot.fingerprint);
    }
    if e.Rename? && e.w == w && s.writers[w].snapshot.fingerprint !in s.destinations {
      CompleteStageIsPublished(s.writers[w]);
    }
  }

  lemma StepKeepsDestinations(before: map<string, Tree>, s: State, e: Event)
    requires Enabled(s, e) && Inv(before, s)
    ensures DestinationsFine(before, Step(s, e))
  {
    var t := Step(s, e);
    forall f | f in t.destinations && f !in before ensures PublishedBy(t.writers, f, t.destinations[f]) {
      if f in s.destinations {
        var w :| 0 <= w < |s.writers| && s.writers[w].snapshot.fingerprint == f
                 && s.destinations[f] == Published(s.writers[w].snapshot);
        assert t.writers[w].snapshot == s.writers[w].snapshot;
      } else {
        CompleteStageIsPublished(s.writers[e.w]);
        assert t.writers[e.w].snapshot == s.writers[e.w].snapshot;
      }
    }
  }

  lemma StepKeeps(before: map<string, Tree>, s: State, e: Event)
    requires Enabled(s, e) && Inv(before, s)
    ensures Inv(before, Step(s, e))
  {
    var t := Step(s, e);
    StepKeepsDestinations(before, s, e);
    forall w | 0 <= w < |t.writers| ensures StagedRight(t.writers[w]) && Arrived(t.writers[w], t.destinations) {
      if w < |s.writers| {
        StepKeepsWriter(s, e, w);
      }
    }
  }

  // ---------------------------------------------------------------- runs

  predicate Possible(s: State, events: seq<Event>)
    decreases |events|
  {
    events == [] || (Enabled(s, events[0]) && Possible(Step(s, events[0]), events[1..]))
  }

  function After(s: State, events: seq<Event>): State
    requires Possible(s, events)
    decreases |events|
  {
    if events == [] then s else After(Step(s, events[0]), events[1..])
  }

  lemma {:induction false} RunKeeps(before: map<string, Tree>, s: State, events: seq<Event>)
    requires Inv(before, s) && Possible(s, events)
    ensures Inv(before, After(s, events))
    decreases |events|
  {
    if events != [] {
      StepKeeps(before, s, events[0]);
      RunKeeps(before, Step(s, events[0]), events[1..]);
    }
  }

  /** `s` is reached from the destinations `before`, with no writers, by some run. */
  ghost predicate Reached(before: map<string, Tree>, events: seq<Event>, s: State) {
    Possible(State(before, []), events) && s == After(State(before, []), events)
  }

  lemma ReachedKeeps(before: map<string, Tree>, events: seq<Event>, s: State)
    requires Reached(before, events, s)
    ensures Inv(before, s)
  {
    RunKeeps(before, State(before, []), events);
  }

  /** A fingerprint identifies its snapshot. */
  ghost predicate FingerprintsIdentify(writers: seq<Writer>) {
    forall v, w ::
      0 <= v < |writers| && 0 <= w < |writers| &&
      writers[v].snapshot.fingerprint == writers[w].snapshot.fingerprint ==>
      writers[v].snapshot == writers[w].snapshot
  }

  /**
    * Publication is atomic: whatever the writers do, fail or crash, the destination of each of them is
    * absent, or exactly its complete overlay, or what somebody had put there before the run.
    */
  lemma PublicationIsAtomic(before: map<string, Tree>, events: seq<Event>, s: State, w: nat)
    requires Reached(before, events, s) && w < |s.writers| && FingerprintsIdentify(s.writers)
    ensures var snapshot := s.writers[w].snapshot;
            match Destination(s, snapshot.fingerprint)
            case None => snapshot.fingerprint !in before
            case Some(tree) =>
              if snapshot.fingerprint in before then tree == before[snapshot.fingerprint]
              else tree == Published(snapshot)
  {
    ReachedKeeps(before, events, s);
    var f := s.writers[w].snapshot.fingerprint;
    if f in s.destinations && f !in before {
      assert PublishedBy(s.writers, f, s.destinations[f]);
    }
  }

  /** Every writer that returned has its own complete overlay at its destination. */
  lemma ReturnedMeansPublished(before: map<string, Tree>, events: seq<Event>, s: State, w: nat)
    requires Reached(before, events, s) && w < |s.writers| && s.writers[w].phase.Returned?
    ensures Destination(s, s.writers[w].snapshot.fingerprint) == Some(Published(s.writers[w].snapshot))
  {
    ReachedKeeps(before, events, s);
    assert Arrived(s.writers[w], s.destinations);
  }

  /** A stale or tampered destination is refused by every writer, and kept as it is. */
  lemma TamperedIsRefused(before: map<string, Tree>, events: seq<Event>, s: State, w: nat)
    requires Reached(before, events, s) && w < |s.writers|
    requires var snapshot := s.writers[w].snapshot;
             snapshot.fingerprint in before && before[snapshot.fingerprint] != Published(snapshot)
    ensures !s.writers[w].phase.Returned?
    ensures Destination(s, s.writers[w].snapshot.fingerprint) == Some(before[s.writers[w].snapshot.fingerprint])
  {
    ReachedKeeps(before, events, s);
    assert Arrived(s.writers[w], s.destinations);
  }

  /** Losing the race is harmless: unless the destination was tampered with before, no verification ever fails. */
  lemma VerificationSucceeds(before: map<string, Tree>, events: seq<Event>, s: State, w: nat)
    requires Reached(before, events, s) && FingerprintsIdentify(s.writers) && Enabled(s, Check(w))
    requires var snapshot := s.writers[w].snapshot;
             snapshot.fingerprint in before ==> before[snapshot.fingerprint] == Published(snapshot)
    ensures !Step(s, Check(w)).writers[w].phase.Raised?
  {
    ReachedKeeps(before, events, s);
    assert Arrived(s.writers[w], s.destinations);
    PublicationIsAtomic(before, events, s, w);
  }

  // ---------------------------------------------------------------- every writer can return

  /** How many steps of its own a writer still has to take. */
  function StepsLeft(w: Writer): nat {
    match w.phase
    case Starting => |w.snapshot.files.Keys| + 5
    case Staging(staged, pending) => |pending| + (if staged.manifest.None? then 4 else 3)
    case Losing => 2
    case Confirming => 1
    case _ => 0
  }

  predicate OnlyBy(events: seq<Event>, w: nat) {
    forall i :: 0 <= i < |events| ==> !events[i].Arrive? && events[i].w == w
  }

  /** The writer's next step when nothing fails. */
  ghost function NextStep(w: nat, phase: Phase): Event {
    match phase
    case Starting => Look(w)
    case Staging(staged, pending) =>
      if pending != {} then WriteFile(w, Pick(pending))
      else if staged.manifest.None? then WriteManifest(w) else Rename(w)
    case _ => Check(w)
  }

  ghost function Pick(names: set<string>): (name: string)
    requires names != {}
    ensures name in names
  {
    var name :| name in names;
    name
  }

  /** The destination is free, or holds what the writer is to publish. */
  predicate Intact(s: State, w: nat)
    requires w < |s.writers|
  {
    var destination := Destination(s, s.writers[w].snapshot.fingerprint);
    destination == None || destination == Some(Published(s.writers[w].snapshot))
  }

  lemma OneNameLess(names: set<string>, name: string)
    requires name in names
    ensures |names - {name}| == |names| - 1
  {
  }

  /** One step of the writer itself, at a destination that is free or right. */
  lemma WriterAdvances(writer: Writer, w: nat, destination: Option<Tree>)
    requires StagedRight(writer) && Running(writer.phase)
    requires destination == None || destination == Some(Published(writer.snapshot))
    requires writer.phase.Losing? || writer.phase.Confirming? ==> destination.Some?
    ensures var next := Next(writer, NextStep(w, writer.phase), destination);
      && StepsLeft(writer.(phase := next)) < StepsLeft(writer)
      && (Running(next) || next.Returned?)
  {
    if writer.phase.Staging? && writer.phase.pending != {} {
      OneNameLess(writer.phase.pending, Pick(writer.phase.pending));
    }
  }

  lemma NextStepAdvances(before: map<string, Tree>, s: State, w: nat)
    requires Inv(before, s) && w < |s.writers| && Running(s.writers[w].phase) && Intact(s, w)
    ensures Enabled(s, NextStep(w, s.writers[w].phase))
    ensures var t := Step(s, NextStep(w, s.writers[w].phase));
      && |t.writers| == |s.writers| && t.writers[w].snapshot == s.writers[w].snapshot && Intact(t, w)
      && StepsLeft(t.writers[w]) < StepsLeft(s.writers[w])
      && (Running(t.writers[w].phase) || t.writers[w].phase.Returned?)
  {
    var writer := s.writers[w];
    assert StagedRight(writer) && Arrived(writer, s.destinations);
    WriterAdvances(writer, w, Destination(s, writer.snapshot.fingerprint));
    if writer.phase.Staging? && writer.phase.staged.manifest.Some? {
      CompleteStageIsPublished(writer);
    }
  }

  lemma {:induction false} WriterFinishes(before: map<string, Tree>, s: State, w: nat) returns (events: seq<Event>)
    requires Inv(before, s) && w < |s.writers| && Running(s.writers[w].phase) && Intact(s, w)
    ensures OnlyBy(events, w) && ReturnsAfter(s, events, w)
    decreases StepsLeft(s.writers[w])
  {
    var e := NextStep(w, s.writers[w].phase);
    NextStepAdvances(before, s, w);
    var t := Step(s, e);
    var rest: seq<Event> := [];
    if Running(t.writers[w].phase) {
      StepKeeps(before, s, e);
      rest := WriterFinishes(before, t, w);
    }
    events := [e] + rest;
    assert events[1..] == rest;
  }

  predicate ReturnsAfter(s: State, events: seq<Event>, w: nat) {
    Possible(s, events) && w < |After(s, events).writers| && After(s, events).writers[w].phase.Returned?
  }

  lemma {:induction false} WritersStay(s: State, events: seq<Event>, w: nat)
    requires Possible(s, events) && w < |s.writers|
    ensures w < |After(s, events).writers| && After(s, events).writers[w].snapshot == s.writers[w].snapshot
    decreases |events|
  {
    if events != [] {
      WritersStay(Step(s, events[0]), events[1..], w);
    }
  }

  /**
    * A writer that is still running, in whatever state the others have left things, can return by steps of its own
    * exactly if its destination was free at the start or held the complete overlay; otherwise no run lets it return.
    */
  lemma CanReturnIff(before: map<string, Tree>, events: seq<Event>, s: State, w: nat)
    requires Reached(before, events, s) && w < |s.writers| && FingerprintsIdentify(s.writers)
    requires Running(s.writers[w].phase)
    ensures var snapshot := s.writers[w].snapshot;
      if snapshot.fingerprint in before ==> before[snapshot.fingerprint] == Published(snapshot)
      then exists more :: OnlyBy(more, w) && ReturnsAfter(s, more, w)
      else forall more :: !ReturnsAfter(s, more, w)
  {
    ReachedKeeps(before, events, s);
    var snapshot := s.writers[w].snapshot;
    if snapshot.fingerprint in before ==> before[snapshot.fingerprint] == Published(snapshot) {
      PublicationIsAtomic(before, events, s, w);
      var more := WriterFinishes(before, s, w);
    } else {
      forall more ensures !ReturnsAfter(s, more, w) {
        if Possible(s, more) {
          RunKeeps(before, s, more);
          WritersStay(s, more, w);
          assert Arrived(After(s, more).writers[w], After(s, more).destinations);
        }
      }
    }
  }
}
