/** The occupancy map every admission path shares, and the two planners that
    re-link pods to another reservation of the same user (app/controller.py). */
module Occupancy {
  import opened Sums
  import opened Pods
  import opened Reservations

  /** Reservation id to the pods on it and the GPUs each holds. */
  type Occupied = map<int, map<string, nat>>

  function Occupants(occ: Occupied, rid: int): map<string, nat> {
    if rid in occ then occ[rid] else map[]
  }

  function GpusOf(m: map<string, nat>): string -> int {
    (uid: string) => if uid in m then m[uid] else 0
  }

  /** GPUs recorded on a reservation by every pod but `exclude`. */
  ghost function UsedBut(occ: Occupied, rid: int, exclude: Option<string>): int {
    var m := Occupants(occ, rid);
    SumKeys(m.Keys - (if exclude.Some? then {exclude.value} else {}), GpusOf(m))
  }

  ghost function Used(occ: Occupied, rid: int): int {
    UsedBut(occ, rid, None)
  }

  ghost function Available(occ: Occupied, r: Reservation, exclude: Option<string>): nat {
    Max(0, r.gpuCount - UsedBut(occ, r.id, exclude))
  }

  /** No pod is recorded on two reservations. */
  ghost predicate Single(occ: Occupied) {
    forall a, b, uid :: a in occ && b in occ && uid in occ[a] && uid in occ[b] ==> a == b
  }

  function Place(occ: Occupied, rid: int, uid: string, gpus: nat): Occupied {
    occ[rid := Occupants(occ, rid)[uid := gpus]]
  }

  /** Drop the pod from one reservation, and the reservation once it is empty. */
  function ReleaseFrom(occ: Occupied, rid: int, uid: string): Occupied
    requires rid in occ
  {
    if occ[rid].Keys <= {uid} then occ - {rid} else occ[rid := occ[rid] - {uid}]
  }

  /** Drop the pod from wherever it is recorded. */
  function Without(occ: Occupied, uid: string): Occupied {
    map rid | rid in occ && !(uid in occ[rid] && occ[rid].Keys == {uid}) :: occ[rid] - {uid}
  }

  function Relink(occ: Occupied, uid: string, rid: int, gpus: nat): Occupied {
    Place(Without(occ, uid), rid, uid, gpus)
  }

  /** `from` is a reservation the pod is on record with, `None` when there is none. */
  predicate IsRecord(occ: Occupied, uid: string, from: Option<int>) {
    if from.Some? then from.value in occ && uid in occ[from.value] else forall rid <- occ :: uid !in occ[rid]
  }

  /** Drop the pod from the one reservation it is first found on. */
  function ReleaseOne(occ: Occupied, uid: string, from: Option<int>): Occupied {
    if from.Some? && from.value in occ then ReleaseFrom(occ, from.value, uid) else occ
  }

  function RelinkOne(occ: Occupied, uid: string, from: Option<int>, rid: int, gpus: nat): Occupied {
    Place(ReleaseOne(occ, uid, from), rid, uid, gpus)
  }

  class OccupancyMap {
    var occupancy: Occupied

    constructor ()
      ensures occupancy == map[]
    {
      occupancy := map[];
    }

    method AvailableOn(r: Reservation, exclude: Option<string>) returns (free: nat)
      ensures free == Available(occupancy, r, exclude)
    {
      var m := Occupants(occupancy, r.id);
      var rest := m.Keys - (if exclude.Some? then {exclude.value} else {});
      var used := 0;
      while rest != {}
        invariant rest <= m.Keys
        invariant used + SumKeys(rest, GpusOf(m)) == UsedBut(occupancy, r.id, exclude)
        decreases rest
      {
        var uid :| uid in rest;
        SumKeysRemove(rest, uid, GpusOf(m));
        used := used + m[uid];
        rest := rest - {uid};
      }
      free := Max(0, r.gpuCount - used);
    }

    method RecordPlacement(rid: int, uid: string, gpus: nat)
      modifies this
      ensures occupancy == Place(old(occupancy), rid, uid, gpus)
    {
      if rid !in occupancy {
        occupancy := occupancy[rid := map[]];
      }
      var occupants: map<string, nat> := occupancy[rid][uid := gpus];
      occupancy := occupancy[rid := occupants];
    }

    /** Removes the pod from a reservation that records it; which one, if several
        do, is left open. */
    method ReleasePod(uid: string) returns (released: Option<int>)
      modifies this
      ensures IsRecord(old(occupancy), uid, released) && occupancy == ReleaseOne(old(occupancy), uid, released)
    {
      if rid :| rid in occupancy && uid in occupancy[rid] {
        var occupants := occupancy[rid] - {uid};
        assert occupants.Keys == occupancy[rid].Keys - {uid};
        if occupants.Keys == {} {
          occupancy := occupancy - {rid};
        } else {
          occupancy := occupancy[rid := occupants];
        }
        released := Some(rid);
      } else {
        released := None;
      }
    }

    /** Moves the pod: off the reservation it is first found on, and onto another. */
    method RelinkPod(uid: string, rid: int, gpus: nat) returns (from: Option<int>)
      modifies this
      ensures IsRecord(old(occupancy), uid, from) && occupancy == RelinkOne(old(occupancy), uid, from, rid, gpus)
      ensures Single(old(occupancy)) ==> occupancy == Relink(old(occupancy), uid, rid, gpus)
    {
      from := ReleasePod(uid);
      if Single(old(occupancy)) {
        ReleaseIsWithout(old(occupancy), from, uid);
      }
      RecordPlacement(rid, uid, gpus);
    }
  }

  /** Releasing a pod from the one place it is recorded removes it altogether. */
  lemma ReleaseIsWithout(occ: Occupied, rid: Option<int>, uid: string)
    requires Single(occ) && IsRecord(occ, uid, rid)
    ensures Without(occ, uid) == ReleaseOne(occ, uid, rid)
  {
    forall a <- occ | Some(a) != rid ensures uid !in occ[a] && occ[a] - {uid} == occ[a] {}
    if rid.Some? {
      assert ReleaseFrom(occ, rid.value, uid).Keys == Without(occ, uid).Keys;
    }
  }

  // -- how the recorded use moves ------------------------------------------------

  lemma PlaceUse(occ: Occupied, rid: int, uid: string, gpus: nat, at: int)
    ensures at != rid ==> Used(Place(occ, rid, uid, gpus), at) == Used(occ, at)
    ensures at == rid ==> Used(Place(occ, rid, uid, gpus), at) == UsedBut(occ, rid, Some(uid)) + gpus
  {
    if at == rid {
      var before, after := Occupants(occ, rid), Occupants(Place(occ, rid, uid, gpus), rid);
      assert after.Keys - {} == (before.Keys - {uid}) + {uid};
      SumKeysInsert(before.Keys - {uid}, uid, GpusOf(after));
      SumKeysSame(before.Keys - {uid}, GpusOf(after), GpusOf(before));
    }
  }

  lemma UsedButAtMost(occ: Occupied, rid: int, uid: string)
    ensures UsedBut(occ, rid, Some(uid)) ==
            Used(occ, rid) - (if uid in Occupants(occ, rid) then Occupants(occ, rid)[uid] else 0)
  {
    var m := Occupants(occ, rid);
    assert m.Keys - {} == m.Keys;
    if uid in m {
      SumKeysRemove(m.Keys, uid, GpusOf(m));
    } else {
      assert m.Keys - {uid} == m.Keys;
    }
  }

  lemma WithoutUse(occ: Occupied, uid: string, at: int)
    ensures Used(Without(occ, uid), at) == UsedBut(occ, at, Some(uid))
  {
    var before, after := Occupants(occ, at), Occupants(Without(occ, uid), at);
    assert after.Keys - {} == before.Keys - {uid};
    SumKeysSame(before.Keys - {uid}, GpusOf(after), GpusOf(before));
  }

  lemma WithoutIsSingle(occ: Occupied, uid: string)
    requires Single(occ)
    ensures Single(Without(occ, uid)) && forall rid <- Without(occ, uid) :: uid !in Without(occ, uid)[rid]
  {}

  /** A relink keeps every pod on one reservation and adds to its target only. */
  lemma RelinkUse(occ: Occupied, uid: string, rid: int, gpus: nat, at: int)
    requires Single(occ)
    ensures Single(Relink(occ, uid, rid, gpus))
    ensures Used(Relink(occ, uid, rid, gpus), at) <= Used(occ, at) + if at == rid then gpus else 0
  {
    WithoutIsSingle(occ, uid);
    WithoutUse(occ, uid, at);
    UsedButAtMost(occ, at, uid);
    PlaceUse(Without(occ, uid), rid, uid, gpus, at);
    UsedButAtMost(Without(occ, uid), rid, uid);
  }

  lemma ReleaseOneUse(occ: Occupied, uid: string, from: Option<int>, at: int)
    ensures UsedBut(ReleaseOne(occ, uid, from), at, Some(uid)) == UsedBut(occ, at, Some(uid))
    ensures Used(ReleaseOne(occ, uid, from), at) <= Used(occ, at)
  {
    var before, after := Occupants(occ, at), Occupants(ReleaseOne(occ, uid, from), at);
    assert after.Keys - {uid} == before.Keys - {uid};
    SumKeysSame(before.Keys - {uid}, GpusOf(after), GpusOf(before));
    UsedButAtMost(occ, at, uid);
    UsedButAtMost(ReleaseOne(occ, uid, from), at, uid);
  }

  /** A relink as it is carried out, wherever else the pod is on record. */
  lemma RelinkOneUse(occ: Occupied, uid: string, from: Option<int>, rid: int, gpus: nat, at: int)
    ensures at == rid ==> Used(RelinkOne(occ, uid, from, rid, gpus), at) == UsedBut(occ, rid, Some(uid)) + gpus
    ensures at != rid ==> Used(RelinkOne(occ, uid, from, rid, gpus), at) <= Used(occ, at)
    ensures Used(RelinkOne(occ, uid, from, rid, gpus), at) <= Used(occ, at) + if at == rid then gpus else 0
  {
    ReleaseOneUse(occ, uid, from, at);
    PlaceUse(ReleaseOne(occ, uid, from), rid, uid, gpus, at);
    UsedButAtMost(occ, rid, uid);
  }

  /** No budget is looked at when a relink is carried out. It leaves its target no
      worse than it was, or within what it reserves, exactly when the target still
      has the pod's GPUs available, itself excluded, or has the pod on record with
      as many already. */
  lemma RelinkKeepsBudgetIff(occ: Occupied, r: Reservation, uid: string, from: Option<int>, gpus: nat)
    ensures Used(RelinkOne(occ, uid, from, r.id, gpus), r.id) <= Max(Used(occ, r.id), r.gpuCount) <==>
      gpus <= Available(occ, r, Some(uid)) || (uid in Occupants(occ, r.id) && gpus <= Occupants(occ, r.id)[uid])
  {
    RelinkOneUse(occ, uid, from, r.id, gpus, r.id);
    UsedButAtMost(occ, r.id, uid);
  }

  /** A relink releases one record. The pod ends on its target alone exactly when it
      was on record with no other reservation than the one released. */
  lemma RelinkSettlesExactly(occ: Occupied, uid: string, from: Option<int>, rid: int, gpus: nat)
    requires IsRecord(occ, uid, from)
    ensures var after := RelinkOne(occ, uid, from, rid, gpus);
      && rid in after && uid in after[rid] && after[rid][uid] == gpus
      && ((forall q <- after :: uid in after[q] ==> q == rid) <==>
          (forall q <- occ :: uid in occ[q] && q != rid ==> from == Some(q)))
  {
    var after := RelinkOne(occ, uid, from, rid, gpus);
    forall q | q != rid ensures q in after && uid in after[q] <==> q in occ && uid in occ[q] && from != Some(q) {
      if from == Some(q) {
        assert uid !in Occupants(ReleaseFrom(occ, q, uid), q);
      }
    }
  }

  // -- planning re-links -----------------------------------------------------------

  datatype Relinking = Relinking(pod: PodView, target: Reservation)

  function AssignedTo(rid: int): Relinking -> int {
    (a: Relinking) => if a.target.id == rid then a.pod.gpuCount else 0
  }

  /** GPUs a plan assigns to a reservation. */
  function Assigned(plan: seq<Relinking>, rid: int): int {
    Sum(plan, AssignedTo(rid))
  }

  /** Budget left on r once the plan so far is carried out. */
  ghost function Spare(occ: Occupied, plan: seq<Relinking>, r: Reservation): int {
    Available(occ, r, None) - Assigned(plan, r.id)
  }

  /** r is an open booking of the pod's user and class that could take it. */
  predicate Matches(cal: Calendar, p: PodView, r: Reservation, now: int) {
    && r.kind.Booking? && r.user == Some(p.namespace)
    && cal.EffectiveLabel(r) == Some(p.gpuClass)
    && (cal.groupRequired ==> r.groupName.Some? && r.groupName == p.groupLabel)
    && r.start <= now < r.end
    && r.id !in cal.noshow
  }

  ghost predicate CanTake(cal: Calendar, occ: Occupied, plan: seq<Relinking>, p: PodView, r: Reservation, now: int) {
    r in cal.reservations && Matches(cal, p, r, now) && Spare(occ, plan, r) >= p.gpuCount
  }

  /** Latest end first, then most spare budget, then highest id. */
  predicate AtLeast(aEnd: int, aSpare: int, aId: int, bEnd: int, bSpare: int, bId: int) {
    aEnd > bEnd || (aEnd == bEnd && (aSpare > bSpare || (aSpare == bSpare && aId >= bId)))
  }

  ghost predicate IsBest(cal: Calendar, occ: Occupied, plan: seq<Relinking>, p: PodView, best: Reservation, now: int) {
    && CanTake(cal, occ, plan, p, best, now)
    && forall r :: CanTake(cal, occ, plan, p, r, now) ==>
         AtLeast(best.end, Spare(occ, plan, best), best.id, r.end, Spare(occ, plan, r), r.id)
  }

  /** Overstay adoption rescues pods past their guarantee; merging moves pods off
      a just-in-time lease. */
  datatype Purpose = Adopt | Merge

  predicate Eligible(cal: Calendar, purpose: Purpose, p: PodView, now: int) {
    && p.reservationId.Some? && p.nodeResident && !p.terminating && p.gpuCount > 0
    && match purpose
       case Adopt => cal.PastGuarantee(p.reservationId, now)
       case Merge => cal.Find(p.reservationId.value).Some? && cal.Find(p.reservationId.value).value.kind.OnDemand?
  }

  ghost predicate Stays(cal: Calendar, occ: Occupied, purpose: Purpose, plan: seq<Relinking>, p: PodView, now: int) {
    || !Eligible(cal, purpose, p, now)
    || (forall r :: !CanTake(cal, occ, plan, p, r, now))
    || (exists r :: IsBest(cal, occ, plan, p, r, now) && Some(r.id) == p.reservationId)
  }

  /** The plan is what comes of offering each pod, in order, the best booking that
      still has room for it. */
  ghost predicate IsPlan(
    cal: Calendar, occ: Occupied, purpose: Purpose, pods: seq<PodView>, plan: seq<Relinking>, now: int)
  {
    if pods == [] then plan == [] else
    var init, p := pods[..|pods| - 1], pods[|pods| - 1];
    || (IsPlan(cal, occ, purpose, init, plan, now) && Stays(cal, occ, purpose, plan, p, now))
    || (&& plan != [] && plan[|plan| - 1].pod == p
        && IsPlan(cal, occ, purpose, init, plan[..|plan| - 1], now)
        && Eligible(cal, purpose, p, now)
        && IsBest(cal, occ, plan[..|plan| - 1], p, plan[|plan| - 1].target, now)
        && Some(plan[|plan| - 1].target.id) != p.reservationId)
  }

  method FindOpenBooking(cal: Calendar, held: OccupancyMap, extraUsed: map<int, int>, ghost plan: seq<Relinking>,
                         p: PodView, now: int)
    returns (best: Option<Reservation>)
    requires forall r <- cal.reservations :: (if r.id in extraUsed then extraUsed[r.id] else 0) == Assigned(plan, r.id)
    ensures best.None? ==> forall r :: !CanTake(cal, held.occupancy, plan, p, r, now)
    ensures best.Some? ==> IsBest(cal, held.occupancy, plan, p, best.value, now)
  {
    best := None;
    var bestSpare := 0;
    for i := 0 to |cal.reservations|
      invariant best.None? ==>
        forall j :: 0 <= j < i ==> !CanTake(cal, held.occupancy, plan, p, cal.reservations[j], now)
      invariant best.Some? ==> CanTake(cal, held.occupancy, plan, p, best.value, now)
                               && bestSpare == Spare(held.occupancy, plan, best.value)
      invariant best.Some? ==>
        forall j :: 0 <= j < i && CanTake(cal, held.occupancy, plan, p, cal.reservations[j], now) ==>
        AtLeast(best.value.end, bestSpare, best.value.id,
                cal.reservations[j].end, Spare(held.occupancy, plan, cal.reservations[j]), cal.reservations[j].id)
    {
      var r := cal.reservations[i];
      if Matches(cal, p, r, now) {
        var free := held.AvailableOn(r, None);
        var spare := free - (if r.id in extraUsed then extraUsed[r.id] else 0);
        if spare >= p.gpuCount &&
           (best.None? || !AtLeast(best.value.end, bestSpare, best.value.id, r.end, spare, r.id)) {
          best, bestSpare := Some(r), spare;
        }
      }
    }
  }

  method PlanRelinks(cal: Calendar, held: OccupancyMap, purpose: Purpose, pods: seq<PodView>, now: int)
    returns (plan: seq<Relinking>)
    ensures IsPlan(cal, held.occupancy, purpose, pods, plan, now)
  {
    plan := [];
    var extraUsed: map<int, int> := map[];
    for i := 0 to |pods|
      invariant IsPlan(cal, held.occupancy, purpose, pods[..i], plan, now)
      invariant forall r <- cal.reservations ::
        (if r.id in extraUsed then extraUsed[r.id] else 0) == Assigned(plan, r.id)
    {
      var p := pods[i];
      assert pods[..i + 1][..i] == pods[..i];
      if !Eligible(cal, purpose, p, now) {
        continue;
      }
      var target := FindOpenBooking(cal, held, extraUsed, plan, p, now);
      if target.None? || Some(target.value.id) == p.reservationId {
        continue;
      }
      var rid := target.value.id;
      ghost var longer := plan + [Relinking(p, target.value)];
      forall r <- cal.reservations
        ensures Assigned(longer, r.id) == Assigned(plan, r.id) + if r.id == rid then p.gpuCount else 0
      {
        SumConcat(plan, [Relinking(p, target.value)], AssignedTo(r.id));
      }
      assert longer[..|longer| - 1] == plan;
      plan := plan + [Relinking(p, target.value)];
      extraUsed := extraUsed[rid := (if rid in extraUsed then extraUsed[rid] else 0) + p.gpuCount];
    }
    assert pods[..|pods|] == pods;
  }

  /** One pass never assigns a reservation more than it had available, and leaves
      no pod where it already was. */
  lemma {:induction false} PlanWithinBudget(
    cal: Calendar, occ: Occupied, purpose: Purpose, pods: seq<PodView>, plan: seq<Relinking>, now: int, r: Reservation)
    requires cal.WellFormed() && r in cal.reservations
    requires IsPlan(cal, occ, purpose, pods, plan, now)
    ensures 0 <= Assigned(plan, r.id) <= Available(occ, r, None)
    ensures forall a <- plan ::
      a.pod in pods && a.target in cal.reservations && Some(a.target.id) != a.pod.reservationId
  {
    if pods != [] {
      var init, p := pods[..|pods| - 1], pods[|pods| - 1];
      if IsPlan(cal, occ, purpose, init, plan, now) && Stays(cal, occ, purpose, plan, p, now) {
        PlanWithinBudget(cal, occ, purpose, init, plan, now, r);
      } else {
        var before, last := plan[..|plan| - 1], plan[|plan| - 1];
        PlanWithinBudget(cal, occ, purpose, init, before, now, r);
        assert plan == before + [last];
        SumConcat(before, [last], AssignedTo(r.id));
        if last.target.id == r.id {
          assert last.target == r by {
            var i :| 0 <= i < |cal.reservations| && cal.reservations[i] == r;
            var j :| 0 <= j < |cal.reservations| && cal.reservations[j] == last.target;
          }
        }
      }
    }
  }

  /** No booking that could take the pod ends later than the best, or as late with more
      budget to spare, or as late with as much and a higher id. */
  lemma BestIsLongest(
    cal: Calendar, occ: Occupied, plan: seq<Relinking>, p: PodView, best: Reservation, r: Reservation, now: int)
    requires IsBest(cal, occ, plan, p, best, now) && CanTake(cal, occ, plan, p, r, now)
    ensures r.end <= best.end
    ensures r.end == best.end ==> Spare(occ, plan, r) <= Spare(occ, plan, best)
    ensures r.end == best.end && Spare(occ, plan, r) == Spare(occ, plan, best) ==> r.id <= best.id
  {
  }

  /** Who is moved where, field by field: a live admitted pod that is past its guarantee
      (or, when merging, on an on-demand lease), to an open booking, no no-show, of its own
      user, class and, where groups count, group. */
  lemma {:induction false} PlannedMoves(
    cal: Calendar, occ: Occupied, purpose: Purpose, pods: seq<PodView>, plan: seq<Relinking>, now: int, a: Relinking)
    requires cal.WellFormed() && IsPlan(cal, occ, purpose, pods, plan, now) && a in plan
    ensures var p, r := a.pod, a.target;
      && p in pods && p.reservationId.Some? && p.nodeResident && !p.terminating && p.gpuCount > 0
      && (var own := cal.Find(p.reservationId.value);
          match purpose
          case Adopt => own.None? || FirstEnd(cal, own.value) <= now
          case Merge => own.Some? && own.value.kind.OnDemand?)
      && r in cal.reservations && r.kind.Booking? && r.user == Some(p.namespace)
      && cal.EffectiveLabel(r) == Some(p.gpuClass) && r.id !in cal.noshow && r.start <= now < r.end
      && (cal.groupRequired ==> r.groupName.Some? && r.groupName == p.groupLabel)
      && r.id != p.reservationId.value && p.gpuCount <= r.gpuCount
  {
    var init, last := pods[..|pods| - 1], pods[|pods| - 1];
    if plan != [] && a == plan[|plan| - 1] && Eligible(cal, purpose, a.pod, now) && a.pod == last
      && CanTake(cal, occ, plan[..|plan| - 1], a.pod, a.target, now) && Some(a.target.id) != a.pod.reservationId {
      PastGuaranteeExactly(cal, a.pod.reservationId.value, now);
      AssignedNonNegative(plan[..|plan| - 1], a.target.id);
      UsedNonNegative(occ, a.target.id);
    } else if IsPlan(cal, occ, purpose, init, plan, now) && Stays(cal, occ, purpose, plan, last, now) {
      PlannedMoves(cal, occ, purpose, init, plan, now, a);
    } else {
      PlannedMoves(cal, occ, purpose, init, plan[..|plan| - 1], now, a);
    }
  }

  lemma AssignedNonNegative(plan: seq<Relinking>, rid: int)
    ensures Assigned(plan, rid) >= 0
  {
    SumNonNegative(plan, AssignedTo(rid));
  }

  lemma UsedNonNegative(occ: Occupied, rid: int)
    ensures Used(occ, rid) >= 0
  {
    SumKeysWithin({}, Occupants(occ, rid).Keys - {}, GpusOf(Occupants(occ, rid)), GpusOf(Occupants(occ, rid)));
  }

  /** The pod is moved, or sits on an open booking of its own that ends no sooner than r. */
  ghost predicate Settled(cal: Calendar, plan: seq<Relinking>, p: PodView, r: Reservation, now: int) {
    || (exists a :: a in plan && a.pod == p)
    || (exists own :: own in cal.reservations && Some(own.id) == p.reservationId && Matches(cal, p, own, now) &&
          own.end >= r.end)
  }

  lemma StayIsSettled(
    cal: Calendar, occ: Occupied, purpose: Purpose, plan: seq<Relinking>, p: PodView, r: Reservation, now: int)
    requires Eligible(cal, purpose, p, now) && Stays(cal, occ, purpose, plan, p, now)
    requires CanTake(cal, occ, plan, p, r, now)
    ensures Settled(cal, plan, p, r, now)
  {
    var own :| IsBest(cal, occ, plan, p, own, now) && Some(own.id) == p.reservationId;
    BestIsLongest(cal, occ, plan, p, own, r, now);
  }

  /** What has room for a pod had it before the last move was planned. */
  lemma RoomBefore(
    cal: Calendar, occ: Occupied, before: seq<Relinking>, a: Relinking, p: PodView, r: Reservation, now: int)
    requires CanTake(cal, occ, before + [a], p, r, now)
    ensures CanTake(cal, occ, before, p, r, now)
  {
    SumConcat(before, [a], AssignedTo(r.id));
  }

  /** The last pod of a pass stays, or the last move is its own. */
  lemma LastStep(
    cal: Calendar, occ: Occupied, purpose: Purpose, pods: seq<PodView>, plan: seq<Relinking>, now: int)
    returns (stays: bool)
    requires pods != [] && IsPlan(cal, occ, purpose, pods, plan, now)
    ensures stays ==> Stays(cal, occ, purpose, plan, pods[|pods| - 1], now)
    ensures stays ==> IsPlan(cal, occ, purpose, pods[..|pods| - 1], plan, now)
    ensures !stays ==> plan != [] && plan[|plan| - 1].pod == pods[|pods| - 1]
    ensures !stays ==> IsPlan(cal, occ, purpose, pods[..|pods| - 1], plan[..|plan| - 1], now)
  {
    stays := IsPlan(cal, occ, purpose, pods[..|pods| - 1], plan, now)
             && Stays(cal, occ, purpose, plan, pods[|pods| - 1], now);
  }

  lemma SettledMore(cal: Calendar, before: seq<Relinking>, a: Relinking, p: PodView, r: Reservation, now: int)
    requires Settled(cal, before, p, r, now)
    ensures Settled(cal, before + [a], p, r, now)
  {
    if x :| x in before && x.pod == p {
      assert x in before + [a];
    }
  }

  /** The last pod of a pass is settled. */
  lemma LastIsSettled(
    cal: Calendar, occ: Occupied, purpose: Purpose, pods: seq<PodView>, plan: seq<Relinking>, now: int, r: Reservation)
    requires pods != [] && IsPlan(cal, occ, purpose, pods, plan, now)
    requires Eligible(cal, purpose, pods[|pods| - 1], now) && CanTake(cal, occ, plan, pods[|pods| - 1], r, now)
    ensures Settled(cal, plan, pods[|pods| - 1], r, now)
  {
    var last := pods[|pods| - 1];
    var stays := LastStep(cal, occ, purpose, pods, plan, now);
    if stays {
      StayIsSettled(cal, occ, purpose, plan, last, r, now);
    } else {
      assert plan[|plan| - 1] in plan;
    }
  }

  lemma IndexOf(pods: seq<PodView>, p: PodView) returns (i: nat)
    requires p in pods
    ensures i < |pods| && pods[i] == p
  {
    i :| i < |pods| && pods[i] == p;
  }

  lemma {:induction false} SettledByPlan(
    cal: Calendar, occ: Occupied, purpose: Purpose, pods: seq<PodView>, plan: seq<Relinking>, now: int, i: nat,
    r: Reservation)
    requires i < |pods| && IsPlan(cal, occ, purpose, pods, plan, now) && Eligible(cal, purpose, pods[i], now)
    requires CanTake(cal, occ, plan, pods[i], r, now)
    ensures Settled(cal, plan, pods[i], r, now)
  {
    var init := pods[..|pods| - 1];
    var stays := LastStep(cal, occ, purpose, pods, plan, now);
    if i == |init| {
      LastIsSettled(cal, occ, purpose, pods, plan, now, r);
    } else if stays {
      SettledByPlan(cal, occ, purpose, init, plan, now, i, r);
    } else {
      var before, a := plan[..|plan| - 1], plan[|plan| - 1];
      assert plan == before + [a];
      RoomBefore(cal, occ, before, a, pods[i], r, now);
      SettledByPlan(cal, occ, purpose, init, before, now, i, r);
      SettledMore(cal, before, a, pods[i], r, now);
    }
  }

  /** And nobody is left behind: where an open booking of a pod's user, class and group has
      room for it even after all the moves planned, a pod that may move is moved, or already
      sits on such a booking that ends no sooner. */
  lemma NoneLeftBehind(
    cal: Calendar, occ: Occupied, purpose: Purpose, pods: seq<PodView>, plan: seq<Relinking>, now: int, p: PodView,
    r: Reservation)
    requires cal.WellFormed() && IsPlan(cal, occ, purpose, pods, plan, now) && p in pods
    requires p.reservationId.Some? && p.nodeResident && !p.terminating && p.gpuCount > 0
    requires var own := cal.Find(p.reservationId.value);
      match purpose
      case Adopt => own.None? || FirstEnd(cal, own.value) <= now
      case Merge => own.Some? && own.value.kind.OnDemand?
    requires r in cal.reservations && r.kind.Booking? && r.user == Some(p.namespace)
    requires cal.EffectiveLabel(r) == Some(p.gpuClass) && r.id !in cal.noshow && r.start <= now < r.end
    requires cal.groupRequired ==> r.groupName.Some? && r.groupName == p.groupLabel
    requires Used(occ, r.id) + Assigned(plan, r.id) + p.gpuCount <= r.gpuCount
    ensures Settled(cal, plan, p, r, now)
  {
    PastGuaranteeExactly(cal, p.reservationId.value, now);
    var i := IndexOf(pods, p);
    SettledByPlan(cal, occ, purpose, pods, plan, now, i, r);
  }

  /** What came of one planned relink: the occupancy as other coroutines left it while
      the pod was read and patched, whether the patch landed, and the record then
      released. */
  datatype Relinked = Relinked(meanwhile: Option<Occupied>, landed: bool, from: Option<int>)

  function Found(occ: Occupied, o: Relinked): Occupied {
    if o.meanwhile.Some? then o.meanwhile.value else occ
  }

  function AfterRelink(occ: Occupied, a: Relinking, o: Relinked): Occupied {
    if o.landed then RelinkOne(Found(occ, o), a.pod.uid, o.from, a.target.id, a.pod.gpuCount) else Found(occ, o)
  }

  /** The occupancy once a plan has been carried out. */
  function Carried(occ: Occupied, plan: seq<Relinking>, outcomes: seq<Relinked>): Occupied
    requires |outcomes| == |plan|
    decreases |plan|
  {
    if plan == [] then occ else Carried(AfterRelink(occ, plan[0], outcomes[0]), plan[1..], outcomes[1..])
  }

  lemma {:induction false} CarriedOneMore(
    occ: Occupied, plan: seq<Relinking>, outcomes: seq<Relinked>, a: Relinking, o: Relinked)
    requires |outcomes| == |plan|
    ensures Carried(occ, plan + [a], outcomes + [o]) == AfterRelink(Carried(occ, plan, outcomes), a, o)
    decreases |plan|
  {
    if plan == [] {
      assert plan + [a] == [a] && outcomes + [o] == [o];
      assert Carried(occ, [a], [o]) == Carried(AfterRelink(occ, a, o), [a][1..], [o][1..]);
    } else {
      assert (plan + [a])[1..] == plan[1..] + [a] && (outcomes + [o])[1..] == outcomes[1..] + [o];
      CarriedOneMore(AfterRelink(occ, plan[0], outcomes[0]), plan[1..], outcomes[1..], a, o);
    }
  }

  /** Carries a plan out. `meanwhile` is the occupancy as other coroutines leave it
      while each pod is read and patched, `landed` whether its patch lands. */
  method CarryOut(held: OccupancyMap, plan: seq<Relinking>, meanwhile: seq<Option<Occupied>>, landed: seq<bool>)
    returns (ghost outcomes: seq<Relinked>)
    requires |meanwhile| == |landed| == |plan|
    modifies held
    ensures |outcomes| == |plan| && held.occupancy == Carried(old(held.occupancy), plan, outcomes)
    ensures forall i :: 0 <= i < |plan| ==> outcomes[i].meanwhile == meanwhile[i] && outcomes[i].landed == landed[i]
  {
    outcomes := [];
    for i := 0 to |plan|
      invariant |outcomes| == i && held.occupancy == Carried(old(held.occupancy), plan[..i], outcomes)
      invariant forall j :: 0 <= j < i ==> outcomes[j].meanwhile == meanwhile[j] && outcomes[j].landed == landed[j]
    {
      if meanwhile[i].Some? {
        held.occupancy := meanwhile[i].value;
      }
      var from := None;
      if landed[i] {
        from := held.RelinkPod(plan[i].pod.uid, plan[i].target.id, plan[i].pod.gpuCount);
      }
      CarriedOneMore(old(held.occupancy), plan[..i], outcomes, plan[i], Relinked(meanwhile[i], landed[i], from));
      assert plan[..i + 1] == plan[..i] + [plan[i]];
      outcomes := outcomes + [Relinked(meanwhile[i], landed[i], from)];
    }
    assert plan[..|plan|] == plan;
  }

  /** By how much other coroutines raised a reservation's use meanwhile. */
  ghost function OthersRise(occ: Occupied, plan: seq<Relinking>, outcomes: seq<Relinked>, rid: int): nat
    requires |outcomes| == |plan|
    decreases |plan|
  {
    if plan == [] then 0 else
    Max(0, Used(Found(occ, outcomes[0]), rid) - Used(occ, rid))
    + OthersRise(AfterRelink(occ, plan[0], outcomes[0]), plan[1..], outcomes[1..], rid)
  }

  lemma {:induction false} CarriedUse(occ: Occupied, plan: seq<Relinking>, outcomes: seq<Relinked>, rid: int)
    requires |outcomes| == |plan|
    ensures Used(Carried(occ, plan, outcomes), rid)
         <= Used(occ, rid) + Assigned(plan, rid) + OthersRise(occ, plan, outcomes, rid)
    decreases |plan|
  {
    if plan != [] {
      var a, o := plan[0], outcomes[0];
      RelinkOneUse(Found(occ, o), a.pod.uid, o.from, a.target.id, a.pod.gpuCount, rid);
      CarriedUse(AfterRelink(occ, a, o), plan[1..], outcomes[1..], rid);
    }
  }

  /** Whichever of the planned relinks land, whatever admissions and releases come in
      between, and wherever a pod is on record twice: no reservation ends up with more
      use than it had or than it reserves, but for what the others recorded on it. */
  lemma RelinksBound(
    cal: Calendar, occ: Occupied, purpose: Purpose, pods: seq<PodView>, plan: seq<Relinking>, now: int,
    outcomes: seq<Relinked>, r: Reservation)
    requires cal.WellFormed() && r in cal.reservations
    requires IsPlan(cal, occ, purpose, pods, plan, now) && |outcomes| == |plan|
    ensures Used(Carried(occ, plan, outcomes), r.id)
         <= Max(Used(occ, r.id), r.gpuCount) + OthersRise(occ, plan, outcomes, r.id)
  {
    PlanWithinBudget(cal, occ, purpose, pods, plan, now, r);
    CarriedUse(occ, plan, outcomes, r.id);
  }

  /** Nothing came in between, and each relink released the record there was. */
  ghost predicate NothingBetween(occ: Occupied, plan: seq<Relinking>, outcomes: seq<Relinked>)
    requires |outcomes| == |plan|
    decreases |plan|
  {
    plan == [] ||
    (&& outcomes[0].meanwhile.None? && (outcomes[0].landed ==> IsRecord(occ, plan[0].pod.uid, outcomes[0].from))
     && NothingBetween(AfterRelink(occ, plan[0], outcomes[0]), plan[1..], outcomes[1..]))
  }

  lemma {:induction false} UndisturbedCarry(occ: Occupied, plan: seq<Relinking>, outcomes: seq<Relinked>, rid: int)
    requires |outcomes| == |plan| && Single(occ) && NothingBetween(occ, plan, outcomes)
    ensures Single(Carried(occ, plan, outcomes)) && OthersRise(occ, plan, outcomes, rid) == 0
    decreases |plan|
  {
    if plan != [] {
      var a, o := plan[0], outcomes[0];
      if o.landed {
        ReleaseIsWithout(occ, o.from, a.pod.uid);
        RelinkUse(occ, a.pod.uid, a.target.id, a.pod.gpuCount, rid);
      }
      UndisturbedCarry(AfterRelink(occ, a, o), plan[1..], outcomes[1..], rid);
    }
  }

  /** With nothing in between, no reservation ends up with more use than it had or
      than it reserves, and every pod stays on one reservation. */
  lemma RelinksConserveBudget(
    cal: Calendar, occ: Occupied, purpose: Purpose, pods: seq<PodView>, plan: seq<Relinking>, now: int,
    outcomes: seq<Relinked>, r: Reservation)
    requires cal.WellFormed() && r in cal.reservations && Single(occ)
    requires IsPlan(cal, occ, purpose, pods, plan, now) && |outcomes| == |plan| && NothingBetween(occ, plan, outcomes)
    ensures Single(Carried(occ, plan, outcomes))
    ensures Used(Carried(occ, plan, outcomes), r.id) <= Max(Used(occ, r.id), r.gpuCount)
  {
    RelinksBound(cal, occ, purpose, pods, plan, now, outcomes, r);
    UndisturbedCarry(occ, plan, outcomes, r.id);
  }

  /** A relink that overcommits: a pod is planned onto an empty booking of one GPU;
      while it is patched another pod finds that GPU available and is recorded; the
      relink then makes the booking's use two. */
  lemma RelinkRaceOvercommits(cal: Calendar, r: Reservation, p: PodView, other: string, now: int)
    requires r in cal.reservations && r.gpuCount == 1 && p.gpuCount == 1 && other != p.uid
    requires Eligible(cal, Adopt, p, now) && Some(r.id) != p.reservationId && Matches(cal, p, r, now)
    requires forall x <- cal.reservations :: Matches(cal, p, x, now) ==> x == r
    ensures var placed := Place(map[], r.id, other, 1);
      && IsPlan(cal, map[], Adopt, [p], [Relinking(p, r)], now)
      && 1 <= Available(map[], r, Some(other))
      && Used(Carried(map[], [Relinking(p, r)], [Relinked(Some(placed), true, None)]), r.id) == 2
  {
    var occ: Occupied := map[];
    var placed := Place(occ, r.id, other, 1);
    assert Occupants(occ, r.id).Keys - {} == {} && Occupants(occ, r.id).Keys - {other} == {};
    assert Spare(occ, [], r) == 1;
    assert [p][..0] == [] && [Relinking(p, r)][..0] == [];
    assert IsBest(cal, occ, [], p, r, now);
    RelinkOneUse(placed, p.uid, None, r.id, 1, r.id);
    PlaceUse(occ, r.id, other, 1, r.id);
    UsedButAtMost(occ, r.id, other);
    UsedButAtMost(placed, r.id, p.uid);
    assert [Relinking(p, r)][1..] == [];
  }

  /** And one that leaves a pod on two reservations: the watch records it under the
      new one first, and that record is the one released. */
  lemma RelinkKeepsOldRecord(uid: string, previous: int, target: int, gpus: nat)
    requires previous != target
    ensures var occ: Occupied := map[previous := map[uid := gpus], target := map[uid := gpus]];
      IsRecord(occ, uid, Some(target)) && RelinkOne(occ, uid, Some(target), target, gpus) == occ
  {
    var occ: Occupied := map[previous := map[uid := gpus], target := map[uid := gpus]];
    assert ReleaseOne(occ, uid, Some(target)) == map[previous := map[uid := gpus]];
  }
}
