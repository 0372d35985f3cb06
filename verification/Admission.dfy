/** Optimistic admission against the occupancy map, as interleaved steps of any
    number of coroutines, the API server and the pod watch (app/main.py). */
module Admission {
  import opened Sums
  import opened Reservations
  import opened Occupancy

  datatype Attempt = Attempt(rid: int, gpus: nat)

  /** `patched` holds the pods whose toleration patch has landed, with the
      reservation and GPU count the patch names; `gone` the pods that ended. */
  datatype World = World(
    occ: Occupied,
    inFlight: map<string, Attempt>,
    patched: map<string, Attempt>,
    gone: set<string>)

  const START := World(map[], map[], map[], {})

  /** A release drops one record of the pod, `from`, `None` if it has none. */
  datatype Event =
    | Begin(uid: string, attempt: Attempt)        // budget check and optimistic record, before any await
    | Land(uid: string)                           // the API server applies the patch
    | Commit(uid: string)                         // the coroutine resumes: admitted
    | Fail(uid: string, from: Option<int>)        // the coroutine resumes: error or finished pod, roll back
    | Vacate(uid: string, from: Option<int>)      // the watch sees the pod deleted or finished
    | KeepWarm(uid: string)                       // the watch sees a live admitted pod

  /** GPUs reserved under an id; an unknown id reserves none. */
  function Budget(budgets: map<int, nat>, rid: int): nat {
    if rid in budgets then budgets[rid] else 0
  }

  ghost predicate HasRoom(w: World, budgets: map<int, nat>, uid: string, a: Attempt) {
    a.gpus <= Budget(budgets, a.rid) - UsedBut(w.occ, a.rid, Some(uid)) || a.gpus == 0
  }

  /** One attempt at a time per pod. A pod that already carries the toleration may be
      attempted again, for any reservation, and is then not patched. An attempt fails
      only if its patch did not land or its pod has ended. */
  predicate Enabled(w: World, e: Event) {
    match e
    case Begin(uid, a) => uid !in w.inFlight && (uid in w.patched ==> a.gpus == w.patched[uid].gpus)
    case Land(uid) => uid in w.inFlight && uid !in w.patched
    case Commit(uid) => uid in w.inFlight && uid in w.patched
    case Fail(uid, from) => uid in w.inFlight && IsRecord(w.occ, uid, from) && (uid !in w.patched || uid in w.gone)
    case Vacate(uid, from) => IsRecord(w.occ, uid, from)
    case KeepWarm(uid) => uid in w.patched && uid !in w.gone
  }

  ghost function Next(w: World, budgets: map<int, nat>, e: Event): World
    requires e.Land? || e.Commit? || e.Fail? ==> e.uid in w.inFlight
    requires e.KeepWarm? ==> e.uid in w.patched
  {
    match e
    case Begin(uid, a) =>
      if HasRoom(w, budgets, uid, a)
      then w.(occ := Place(w.occ, a.rid, uid, a.gpus), inFlight := w.inFlight[uid := a])
      else w
    case Land(uid) => w.(patched := w.patched[uid := w.inFlight[uid]])
    case Commit(uid) => w.(inFlight := w.inFlight - {uid})
    case Fail(uid, from) => w.(occ := ReleaseOne(w.occ, uid, from), inFlight := w.inFlight - {uid})
    case Vacate(uid, from) => w.(occ := ReleaseOne(w.occ, uid, from), gone := w.gone + {uid})
    case KeepWarm(uid) => w.(occ := Place(w.occ, w.patched[uid].rid, uid, w.patched[uid].gpus))
  }

  /** The synchronous head of an attempt. */
  method TryReserve(held: OccupancyMap, r: Reservation, uid: string, gpus: nat) returns (reserved: bool)
    modifies held
    ensures reserved <==> gpus <= Available(old(held.occupancy), r, Some(uid))
    ensures held.occupancy == if reserved then Place(old(held.occupancy), r.id, uid, gpus) else old(held.occupancy)
  {
    var free := held.AvailableOn(r, Some(uid));
    if gpus > free {
      return false;
    }
    held.RecordPlacement(r.id, uid, gpus);
    reserved := true;
  }

  /** The method's check is the protocol's. */
  lemma ReserveIsBegin(w: World, budgets: map<int, nat>, r: Reservation, uid: string, gpus: nat)
    requires Budget(budgets, r.id) == r.gpuCount
    ensures gpus <= Available(w.occ, r, Some(uid)) <==> HasRoom(w, budgets, uid, Attempt(r.id, gpus))
  {}

  ghost predicate Recorded(occ: Occupied, uid: string, a: Attempt) {
    a.rid in occ && uid in occ[a.rid] && occ[a.rid][uid] == a.gpus
  }

  ghost predicate WithinBudget(w: World, budgets: map<int, nat>) {
    forall rid :: Used(w.occ, rid) <= Budget(budgets, rid)
  }

  /** Every pod whose patch landed and that still lives is on record. */
  ghost predicate AdmittedRecorded(w: World) {
    forall uid <- w.patched :: uid !in w.gone ==> Recorded(w.occ, uid, w.patched[uid])
  }

  ghost predicate AttemptsRecorded(w: World) {
    forall uid <- w.inFlight :: uid !in w.gone ==> Recorded(w.occ, uid, w.inFlight[uid])
  }

  ghost predicate Inv(w: World, budgets: map<int, nat>) {
    WithinBudget(w, budgets) && AdmittedRecorded(w) && AttemptsRecorded(w)
  }

  lemma StartInv(budgets: map<int, nat>)
    ensures Inv(START, budgets)
  {
    forall rid ensures Used(START.occ, rid) == 0 {
      assert Occupants(START.occ, rid).Keys - {} == {};
    }
  }

  lemma PlaceWithinBudget(w: World, budgets: map<int, nat>, uid: string, a: Attempt)
    requires WithinBudget(w, budgets) && HasRoom(w, budgets, uid, a)
    ensures WithinBudget(w.(occ := Place(w.occ, a.rid, uid, a.gpus)), budgets)
  {
    forall rid ensures Used(Place(w.occ, a.rid, uid, a.gpus), rid) <= Budget(budgets, rid) {
      PlaceUse(w.occ, a.rid, uid, a.gpus, rid);
      UsedButAtMost(w.occ, a.rid, uid);
    }
  }

  lemma BeginKeeps(w: World, budgets: map<int, nat>, uid: string, a: Attempt)
    requires Inv(w, budgets) && Enabled(w, Begin(uid, a))
    ensures Inv(Next(w, budgets, Begin(uid, a)), budgets)
  {
    if HasRoom(w, budgets, uid, a) {
      var occ := Place(w.occ, a.rid, uid, a.gpus);
      forall other, b | Recorded(w.occ, other, b) && (other == uid ==> b.gpus == a.gpus)
        ensures Recorded(occ, other, b)
      {}
      PlaceWithinBudget(w, budgets, uid, a);
    }
  }

  /** A release drops no other pod, and frees budget if anything. */
  lemma ReleaseKeeps(w: World, budgets: map<int, nat>, uid: string, from: Option<int>)
    requires WithinBudget(w, budgets)
    ensures WithinBudget(w.(occ := ReleaseOne(w.occ, uid, from)), budgets)
    ensures forall other, a :: other != uid && Recorded(w.occ, other, a) ==>
      Recorded(ReleaseOne(w.occ, uid, from), other, a)
  {
    forall rid ensures Used(ReleaseOne(w.occ, uid, from), rid) <= Budget(budgets, rid) {
      ReleaseOneUse(w.occ, uid, from, rid);
    }
  }

  /** Every step keeps the books: no reservation is ever recorded beyond its GPU
      count, and no admitted pod is ever off the record. */
  lemma StepKeepsBooks(w: World, budgets: map<int, nat>, e: Event)
    requires Inv(w, budgets) && Enabled(w, e)
    ensures Inv(Next(w, budgets, e), budgets)
  {
    match e
    case Begin(uid, a) => BeginKeeps(w, budgets, uid, a);
    case Land(uid) =>
    case Commit(uid) =>
    case Fail(uid, from) => ReleaseKeeps(w, budgets, uid, from);
    case Vacate(uid, from) => ReleaseKeeps(w, budgets, uid, from);
    case KeepWarm(uid) =>
      var a := w.patched[uid];
      assert Place(w.occ, a.rid, uid, a.gpus) == w.occ by {
        assert w.occ[a.rid][uid := a.gpus] == w.occ[a.rid];
      }
  }

  /** A step puts a pod on a second reservation exactly when it begins an attempt on
      a pod on record with another. Nothing is released then, and only a later release
      or reconcile settles it. */
  lemma SingleBrokenExactly(w: World, budgets: map<int, nat>, e: Event)
    requires Inv(w, budgets) && Enabled(w, e) && Single(w.occ)
    ensures !Single(Next(w, budgets, e).occ) <==>
      e.Begin? && HasRoom(w, budgets, e.uid, e.attempt) &&
      exists rid <- w.occ :: e.uid in w.occ[rid] && rid != e.attempt.rid
  {
    match e
    case Begin(uid, a) =>
      if HasRoom(w, budgets, uid, a) {
        var occ := Place(w.occ, a.rid, uid, a.gpus);
        forall rid, other | other != uid || rid != a.rid
          ensures rid in occ && other in occ[rid] <==> rid in w.occ && other in w.occ[rid]
        {}
        assert a.rid in occ && uid in occ[a.rid];
      }
    case KeepWarm(uid) =>
      var a := w.patched[uid];
      assert Recorded(w.occ, uid, a);
      assert w.occ[a.rid][uid := a.gpus] == w.occ[a.rid];
    case _ =>
  }

  ghost predicate EnabledRun(w: World, budgets: map<int, nat>, events: seq<Event>)
    decreases |events|
  {
    events == [] || (Enabled(w, events[0]) && EnabledRun(Next(w, budgets, events[0]), budgets, events[1..]))
  }

  ghost function After(w: World, budgets: map<int, nat>, events: seq<Event>): World
    requires EnabledRun(w, budgets, events)
    decreases |events|
  {
    if events == [] then w else After(Next(w, budgets, events[0]), budgets, events[1..])
  }

  lemma {:induction false} RunKeepsBooks(w: World, budgets: map<int, nat>, events: seq<Event>)
    requires Inv(w, budgets) && EnabledRun(w, budgets, events)
    ensures Inv(After(w, budgets, events), budgets)
    decreases |events|
  {
    if events != [] {
      StepKeepsBooks(w, budgets, events[0]);
      RunKeepsBooks(Next(w, budgets, events[0]), budgets, events[1..]);
    }
  }

  /** In every reachable state, however the coroutines interleave. */
  lemma AdmissionSafe(budgets: map<int, nat>, events: seq<Event>)
    requires EnabledRun(START, budgets, events)
    ensures var w := After(START, budgets, events);
      && AdmittedRecorded(w)
      && (forall rid <- budgets :: Used(w.occ, rid) <= budgets[rid])
      && (forall rid :: rid !in budgets ==> Used(w.occ, rid) <= 0)
  {
    StartInv(budgets);
    RunKeepsBooks(START, budgets, events);
  }

  /** What becomes of an attempt on a new pod. Where what others use leaves no room for it
      nothing changes; where it does, the attempt ends with the pod recorded, patched and no
      longer in flight, or, rolled back, with everything as it was before. */
  lemma AttemptExactly(w: World, budgets: map<int, nat>, uid: string, a: Attempt)
    requires uid !in w.inFlight && uid !in w.patched && a.gpus > 0
    requires forall rid <- w.occ :: uid !in w.occ[rid] && w.occ[rid] != map[]
    ensures Enabled(w, Begin(uid, a))
    ensures var begun := Next(w, budgets, Begin(uid, a));
      if UsedBut(w.occ, a.rid, Some(uid)) + a.gpus > (if a.rid in budgets then budgets[a.rid] else 0) then begun == w
      else
        && Enabled(begun, Land(uid)) && Enabled(Next(begun, budgets, Land(uid)), Commit(uid))
        && Next(Next(begun, budgets, Land(uid)), budgets, Commit(uid))
             == w.(occ := Place(w.occ, a.rid, uid, a.gpus), patched := w.patched[uid := a])
        && Enabled(begun, Fail(uid, Some(a.rid))) && Next(begun, budgets, Fail(uid, Some(a.rid))) == w
  {
    var begun := Next(w, budgets, Begin(uid, a));
    if HasRoom(w, budgets, uid, a) {
      assert begun.inFlight - {uid} == w.inFlight;
      ReleaseUndoesPlace(w.occ, a.rid, uid, a.gpus);
    }
  }

  /** And of an admitted pod: the watch's sight of it changes nothing while it lives, and
      when it ends its GPUs are free again and nothing else changes. */
  lemma AdmittedPodLeaves(w: World, budgets: map<int, nat>, uid: string, a: Attempt)
    requires uid !in w.gone && uid !in w.patched
    requires forall rid <- w.occ :: uid !in w.occ[rid] && w.occ[rid] != map[]
    ensures var admitted := w.(occ := Place(w.occ, a.rid, uid, a.gpus), patched := w.patched[uid := a]);
      && Enabled(admitted, KeepWarm(uid)) && Next(admitted, budgets, KeepWarm(uid)) == admitted
      && Enabled(admitted, Vacate(uid, Some(a.rid)))
      && Next(admitted, budgets, Vacate(uid, Some(a.rid)))
           == admitted.(occ := w.occ, gone := w.gone + {uid})
  {
    ReleaseUndoesPlace(w.occ, a.rid, uid, a.gpus);
    var occ: Occupied := Place(w.occ, a.rid, uid, a.gpus);
    assert occ[a.rid][uid := a.gpus] == occ[a.rid];
  }

  /** Releasing the record just made leaves the map as it was. */
  lemma ReleaseUndoesPlace(occ: Occupied, rid: int, uid: string, gpus: nat)
    requires rid in occ ==> uid !in occ[rid] && occ[rid] != map[]
    ensures ReleaseOne(Place(occ, rid, uid, gpus), uid, Some(rid)) == occ
  {
    var placed := Place(occ, rid, uid, gpus);
    if rid in occ {
      assert placed[rid] - {uid} == occ[rid];
    } else {
      assert placed[rid].Keys == {uid};
    }
  }

  /** The condition on failures is exact: rolling back an attempt keeps every admitted
      pod on record if and only if its patch had not landed, its pod has ended, or the
      record released is not the one its patch names. */
  lemma RollbackIsSafeIff(w: World, budgets: map<int, nat>, uid: string, from: Option<int>)
    requires Inv(w, budgets) && uid in w.inFlight && IsRecord(w.occ, uid, from)
    ensures Inv(Next(w, budgets, Fail(uid, from)), budgets) <==>
      uid !in w.patched || uid in w.gone || from != Some(w.patched[uid].rid)
  {
    var next := Next(w, budgets, Fail(uid, from));
    ReleaseKeeps(w, budgets, uid, from);
    assert WithinBudget(next, budgets) && AttemptsRecorded(next);
    if uid in w.patched && uid !in w.gone {
      RecordAfterRelease(w.occ, uid, from, w.patched[uid]);
    }
    forall other <- w.patched | other != uid && other !in w.gone ensures Recorded(next.occ, other, w.patched[other]) {
      assert Recorded(w.occ, other, w.patched[other]);
    }
  }

  lemma RecordAfterRelease(occ: Occupied, uid: string, from: Option<int>, a: Attempt)
    requires Recorded(occ, uid, a)
    ensures Recorded(ReleaseOne(occ, uid, from), uid, a) <==> from != Some(a.rid)
  {
  }

  /** And when a landed patch is reported as a failure, the budget itself can be
      exceeded: the rollback frees the slot, another pod takes it, and the watch
      then records the first pod again. */
  lemma LostReplyOvercommits(rid: int, a: string, b: string)
    requires a != b
    ensures var budgets: map<int, nat> := map[rid := 1];
      var attempt := Attempt(rid, 1);
      var w1 := Next(START, budgets, Begin(a, attempt));
      && w1.inFlight == map[a := attempt]
      && var w2 := Next(w1, budgets, Land(a));
         var w3 := Next(w2, budgets, Fail(a, Some(rid)));
         && EnabledRun(w3, budgets, [Begin(b, attempt), KeepWarm(a)])
         && Used(After(w3, budgets, [Begin(b, attempt), KeepWarm(a)]).occ, rid) == 2
  {
    var budgets: map<int, nat> := map[rid := 1];
    var attempt := Attempt(rid, 1);
    EmptyHasRoom(START, rid, a);
    var w1 := Next(START, budgets, Begin(a, attempt));
    assert w1.occ == map[rid := map[a := 1]];
    var w3 := Next(Next(w1, budgets, Land(a)), budgets, Fail(a, Some(rid)));
    assert w3.occ == map[];
    EmptyHasRoom(w3, rid, b);
    var w4 := Next(w3, budgets, Begin(b, attempt));
    assert w4.occ == map[rid := map[b := 1]];
    var w5 := Next(w4, budgets, KeepWarm(a));
    TwoStepRun(w3, budgets, Begin(b, attempt), KeepWarm(a));
    TwiceUsed(rid, a, b);
  }

  lemma EmptyHasRoom(w: World, rid: int, uid: string)
    requires w.occ == map[]
    ensures HasRoom(w, map[rid := 1], uid, Attempt(rid, 1))
  {
    assert Occupants(w.occ, rid).Keys - {uid} == {};
  }

  lemma TwoStepRun(w: World, budgets: map<int, nat>, e: Event, f: Event)
    requires Enabled(w, e) && Enabled(Next(w, budgets, e), f)
    ensures EnabledRun(w, budgets, [e, f]) && After(w, budgets, [e, f]) == Next(Next(w, budgets, e), budgets, f)
  {
    assert [e, f][1..] == [f] && [f][1..] == [];
    var w1 := Next(w, budgets, e);
    assert EnabledRun(Next(w1, budgets, f), budgets, []);
    assert EnabledRun(w1, budgets, [f]) && After(w1, budgets, [f]) == After(Next(w1, budgets, f), budgets, []);
    assert After(w, budgets, [e, f]) == After(w1, budgets, [f]);
  }

  lemma TwiceUsed(rid: int, a: string, b: string)
    requires a != b
    ensures Used(Place(map[rid := map[b := 1]], rid, a, 1), rid) == 2
  {
    var occ: Occupied := map[rid := map[b := 1]];
    PlaceUse(occ, rid, a, 1, rid);
    var m := Occupants(occ, rid);
    assert m.Keys - {a} == {} + {b};
    SumKeysInsert({}, b, GpusOf(m));
  }
}
