/**
  * How the coordinator answers acceptances: crates/tf-store/src/api.rs and `execute` in crates/transflow/src/api.rs.
  *
  * A receipt is reserved before its operation runs and its answer frozen afterwards; the build is created in between.
  * Requests are taken up one by one, at any time after they were sent, and each at most once.
  */
module ReceiptServer {
  import opened Results

  type Receipt = nat      // crypto.randomUUID(), never repeated
  type PlanId = nat

  /** A request to build a plan, under its `Idempotency-Key`. */
  datatype Call = Call(receipt: Receipt, plan: PlanId)

  datatype Build = Build(plan: PlanId, receipt: Receipt)

  /** What is stored of a receipt: reserved by an operation, or frozen as a build or as an error. */
  datatype Record = Pending(operation: nat) | Built(operation: nat, build: nat) | Failed(refuses: bool)

  /** What the client can read from a reply: a build, a refusal (`conflict` or `expired`), or neither. */
  datatype Reply = Names(build: nat) | Refuses | Unusable

  /** How far a request has come; an operation that stopped, or whose answer was not stored, gives no reply. */
  datatype Progress = InFlight | Running(build: Option<nat>) | Replied(reply: Reply) | Stopped

  datatype Server = Server(
    calls: seq<Call>, progress: seq<Progress>, records: map<Receipt, Record>, builds: seq<Build>)

  /** A step of the coordinator on request `i`. */
  datatype Action =
    | TurnsAway(i: nat)                 // session expired, context changed, or the receipt is pending
    | Reserves(i: nat)
    | Creates(i: nat)
    | Finishes(i: nat)                  // freezes the build
    | Fails(i: nat, refuses: bool)      // freezes an error, even if the build was created before
    | Replays(i: nat)
    | Stops(i: nat)

  const EMPTY := Server([], [], map[], [])

  predicate Answered(v: Server, r: Receipt) {
    exists b :: 0 <= b < |v.builds| && v.builds[b].receipt == r
  }

  predicate Submitted(v: Server, r: Receipt) {
    exists i :: 0 <= i < |v.calls| && v.calls[i].receipt == r
  }

  /** The request was sent. */
  function Send(v: Server, call: Call): Server {
    v.(calls := v.calls + [call], progress := v.progress + [InFlight])
  }

  function ReplyOf(record: Record): Reply
    requires !record.Pending?
  {
    match record
    case Built(_, b) => Names(b)
    case Failed(refuses) => if refuses then Refuses else Unusable
  }

  predicate CanAct(v: Server, a: Action) {
    && a.i < |v.calls| == |v.progress|
    && var p := v.progress[a.i];
       var r := v.calls[a.i].receipt;
       match a
       case TurnsAway(_) => p.InFlight?
       case Reserves(_) => p.InFlight? && r !in v.records
       case Creates(_) => p == Running(None)
       case Finishes(_) => p.Running? && p.build.Some?
       case Fails(_, _) => p.Running?
       case Replays(_) => p.InFlight? && r in v.records && !v.records[r].Pending?
       case Stops(_) => p.InFlight? || p.Running?
  }

  /** The operation of request `i` ends, with this answer for good. */
  function Freeze(v: Server, i: nat, record: Record): Server
    requires i < |v.calls| == |v.progress| && !record.Pending?
  {
    v.(progress := v.progress[i := Replied(ReplyOf(record))], records := v.records[v.calls[i].receipt := record])
  }

  function Act(v: Server, a: Action): Server
    requires CanAct(v, a)
  {
    var call := v.calls[a.i];
    match a
    case TurnsAway(i) => v.(progress := v.progress[i := Replied(Refuses)])
    case Reserves(i) =>
      v.(progress := v.progress[i := Running(None)], records := v.records[call.receipt := Pending(i)])
    case Creates(i) =>
      v.(progress := v.progress[i := Running(Some(|v.builds|))], builds := v.builds + [Build(call.plan, call.receipt)])
    case Finishes(i) => Freeze(v, i, Built(i, v.progress[i].build.value))
    case Fails(i, refuses) => Freeze(v, i, Failed(refuses))
    case Replays(i) => v.(progress := v.progress[i := Replied(ReplyOf(v.records[call.receipt]))])
    case Stops(i) => v.(progress := v.progress[i := Stopped])
  }

  // ---------------------------------------------------------------- the invariant

  /** The operation of a request: it holds its receipt's record, and knows whether it has created the build. */
  predicate RunningOk(v: Server, i: nat)
    requires i < |v.calls| == |v.progress|
  {
    var r := v.calls[i].receipt;
    match v.progress[i]
    case Running(build) =>
      && r in v.records && v.records[r] == Pending(i)
      && (build.Some? ==> build.value < |v.builds| && v.builds[build.value].receipt == r)
      && (build.None? ==> !Answered(v, r))
    case Replied(Names(b)) => b < |v.builds| && v.builds[b].receipt == r
    case Replied(Unusable) => r in v.records && v.records[r].Failed?
    case _ => true
  }

  predicate RecordOk(v: Server, r: Receipt)
    requires r in v.records && |v.calls| == |v.progress|
  {
    match v.records[r]
    case Pending(i) =>
      i < |v.calls| && v.calls[i].receipt == r && (v.progress[i].Running? || v.progress[i].Stopped?)
    case Built(i, b) =>
      && i < |v.calls| && v.calls[i].receipt == r && v.progress[i] == Replied(Names(b))
      && b < |v.builds| && v.builds[b].receipt == r
    case Failed(_) => Submitted(v, r)
  }

  /** A build has its own receipt, under which its plan was asked for. */
  predicate BuildsOk(v: Server) {
    && (forall b :: 0 <= b < |v.builds| ==>
          v.builds[b].receipt in v.records && Call(v.builds[b].receipt, v.builds[b].plan) in v.calls)
    && (forall a, b :: 0 <= a < b < |v.builds| ==> v.builds[a].receipt != v.builds[b].receipt)
  }

  predicate ServerOk(v: Server) {
    && |v.calls| == |v.progress|
    && (forall i :: 0 <= i < |v.calls| ==> RunningOk(v, i))
    && (forall r :: r in v.records ==> RecordOk(v, r))
    && BuildsOk(v)
  }

  lemma SendKeeps(v: Server, call: Call)
    requires ServerOk(v)
    ensures ServerOk(Send(v, call))
  {
    var w := Send(v, call);
    assert forall r :: Answered(w, r) <==> Answered(v, r);
    forall r | Submitted(v, r) ensures Submitted(w, r) {
      var i :| 0 <= i < |v.calls| && v.calls[i].receipt == r;
      assert w.calls[i].receipt == r;
    }
    forall i | 0 <= i < |w.calls| ensures RunningOk(w, i) {
      assert i < |v.calls| ==> RunningOk(v, i);
    }
    forall r | r in w.records ensures RecordOk(w, r) {
      assert RecordOk(v, r);
    }
  }

  /** Steps that neither create a build nor touch a record. */
  lemma ReplyKeeps(v: Server, a: Action)
    requires ServerOk(v) && CanAct(v, a) && (a.TurnsAway? || a.Replays? || a.Stops?)
    ensures ServerOk(Act(v, a))
  {
    var w := Act(v, a);
    assert RunningOk(v, a.i);
    assert v.calls[a.i].receipt in v.records ==> RecordOk(v, v.calls[a.i].receipt);
    assert forall r :: Answered(w, r) <==> Answered(v, r);
    forall i | 0 <= i < |w.calls| ensures RunningOk(w, i) {
      assert RunningOk(v, i);
    }
    forall r | r in w.records ensures RecordOk(w, r) {
      assert RecordOk(v, r);
    }
  }

  lemma ReservesKeeps(v: Server, i: nat)
    requires ServerOk(v) && CanAct(v, Reserves(i))
    ensures ServerOk(Act(v, Reserves(i)))
  {
    var w := Act(v, Reserves(i));
    assert forall r :: Answered(w, r) <==> Answered(v, r);
    forall j | 0 <= j < |w.calls| ensures RunningOk(w, j) {
      assert RunningOk(v, j);
    }
    forall r | r in w.records ensures RecordOk(w, r) {
      assert r in v.records ==> RecordOk(v, r);
    }
  }

  lemma CreatesKeeps(v: Server, i: nat)
    requires ServerOk(v) && CanAct(v, Creates(i))
    ensures ServerOk(Act(v, Creates(i)))
  {
    var w := Act(v, Creates(i));
    var mine := v.calls[i].receipt;
    assert RunningOk(v, i);
    AnsweredGrows(v, w);
    forall j | 0 <= j < |w.calls| ensures RunningOk(w, j) {
      assert RunningOk(v, j);
    }
    forall r | r in w.records ensures RecordOk(w, r) {
      assert RecordOk(v, r);
    }
  }

  lemma AnsweredGrows(v: Server, w: Server)
    requires v.builds <= w.builds && |w.builds| <= |v.builds| + 1
    ensures forall r :: Answered(v, r) ==> Answered(w, r)
    ensures forall r :: Answered(w, r) ==> Answered(v, r) || r == w.builds[|w.builds| - 1].receipt
  {
    forall r | Answered(v, r) ensures Answered(w, r) {
      var b :| 0 <= b < |v.builds| && v.builds[b].receipt == r;
      assert w.builds[b].receipt == r;
    }
    forall r | Answered(w, r) ensures Answered(v, r) || r == w.builds[|w.builds| - 1].receipt {
      var b :| 0 <= b < |w.builds| && w.builds[b].receipt == r;
      assert b < |v.builds| ==> v.builds[b].receipt == r;
    }
  }

  lemma FreezeKeeps(v: Server, i: nat, record: Record)
    requires ServerOk(v) && i < |v.calls| && v.progress[i].Running?
    requires record.Failed? || (v.progress[i].build.Some? && record == Built(i, v.progress[i].build.value))
    ensures ServerOk(Freeze(v, i, record))
  {
    var w := Freeze(v, i, record);
    assert RunningOk(v, i);
    assert forall r :: Answered(w, r) <==> Answered(v, r);
    forall j | 0 <= j < |w.calls| ensures RunningOk(w, j) {
      assert RunningOk(v, j);
    }
    forall r | r in w.records ensures RecordOk(w, r) {
      assert RecordOk(v, r);
    }
  }

  lemma ActKeeps(v: Server, a: Action)
    requires ServerOk(v) && CanAct(v, a)
    ensures ServerOk(Act(v, a))
  {
    match a
    case Reserves(i) => ReservesKeeps(v, i);
    case Creates(i) => CreatesKeeps(v, i);
    case Finishes(i) => FreezeKeeps(v, i, Built(i, v.progress[i].build.value));
    case Fails(i, refuses) => FreezeKeeps(v, i, Failed(refuses));
    case _ => ReplyKeeps(v, a);
  }

  // ---------------------------------------------------------------- undecided receipts

  /** Request `i` can still lead to a build: its operation runs, or it is on its way to a receipt that is new. */
  predicate Live(v: Server, i: nat)
    requires |v.calls| == |v.progress|
  {
    i < |v.calls| &&
    (v.progress[i].Running? || (v.progress[i].InFlight? && v.calls[i].receipt !in v.records))
  }

  /** The receipt has a build, or one of its requests is undecided. */
  predicate Open(v: Server, r: Receipt)
    requires |v.calls| == |v.progress|
  {
    Answered(v, r) || exists i :: 0 <= i < |v.calls| && v.calls[i].receipt == r && Live(v, i)
  }

  /** No step of the server opens a receipt again. */
  lemma ActsKeepClosed(v: Server, a: Action, r: Receipt)
    requires ServerOk(v) && CanAct(v, a) && !Open(v, r)
    ensures |Act(v, a).calls| == |Act(v, a).progress| && !Open(Act(v, a), r)
  {
    var w := Act(v, a);
    AnsweredGrows(v, w);
    if a.Creates? && v.calls[a.i].receipt == r {
      assert Live(v, a.i);
    }
    forall i | 0 <= i < |w.calls| && w.calls[i].receipt == r ensures !Live(w, i) {
      assert !Live(v, i);
    }
  }

  lemma SendOpensOwn(v: Server, call: Call, r: Receipt)
    requires ServerOk(v) && call.receipt != r
    ensures Open(Send(v, call), r) <==> Open(v, r)
  {
    var w := Send(v, call);
    assert Answered(w, r) <==> Answered(v, r);
    forall i | 0 <= i < |v.calls| ensures Live(w, i) <==> Live(v, i) {
    }
  }

  /** Once an error is frozen no build is created any more; one may be there already. */
  lemma FailedIsDecided(v: Server, r: Receipt)
    requires ServerOk(v) && r in v.records && v.records[r].Failed?
    ensures Open(v, r) <==> Answered(v, r)
  {
    forall i | 0 <= i < |v.calls| && v.calls[i].receipt == r ensures !Live(v, i) {
      assert RunningOk(v, i);
    }
  }

  /** No operation of the receipt stopped before it created the build, and no request was turned away but `but`. */
  predicate Undisturbed(v: Server, r: Receipt, but: nat)
    requires |v.calls| == |v.progress|
  {
    forall i :: 0 <= i < |v.calls| && v.calls[i].receipt == r && i != but ==>
      !v.progress[i].Stopped? && (v.progress[i] == Replied(Refuses) ==> r in v.records && v.records[r].Failed?)
  }

  /** Then a receipt with another request is open, unless an error was frozen before the build was created. */
  lemma UndisturbedIsOpen(v: Server, r: Receipt, i: nat, but: nat)
    requires ServerOk(v) && Undisturbed(v, r, but) && i != but && i < |v.calls| && v.calls[i].receipt == r
    requires but < |v.calls| && v.progress[but] == Replied(Refuses)
    ensures Open(v, r) <==> Answered(v, r) || !(r in v.records && v.records[r].Failed?)
  {
    if r in v.records && v.records[r].Failed? {
      FailedIsDecided(v, r);
    } else {
      assert RunningOk(v, i);
      if r in v.records {
        assert RecordOk(v, r);
        if v.records[r].Pending? {
          assert Live(v, v.records[r].operation);
        }
      } else {
        assert v.progress[i].InFlight? ==> Live(v, i);
      }
    }
  }
}
