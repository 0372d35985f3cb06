/** Boundary preemption: what the bookings starting at a boundary still need, the
    pods past their guarantee that may give it, the choice of victims and the plan
    made from it (app/controller.py, app/main.py). */
module Preemption {
  import opened Sums
  import opened Pods
  import opened Reservations
  import opened Occupancy

  predicate Holding(p: PodView) {
    p.nodeResident && !p.terminating
  }

  // -- demand at a boundary --------------------------------------------------------

  function ChainsOnto(cal: Calendar, now: int, rid: int): PodView -> int {
    (p: PodView) =>
      if Holding(p) && p.reservationId.Some? && rid in cal.ClaimedBy(p.reservationId.value, now) then p.gpuCount else 0
  }

  /** GPUs that live holders already bring to a reservation through their chains. */
  function Chained(cal: Calendar, pods: seq<PodView>, now: int, rid: int): int {
    Sum(pods, ChainsOnto(cal, now, rid))
  }

  /** r is a booking whose GPUs are wanted at `boundary`. */
  predicate Opens(cal: Calendar, boundary: int, r: Reservation) {
    r.kind.Booking? && r.user.Some? && r.start == boundary && r.id !in cal.noshow && cal.EffectiveLabel(r).Some?
  }

  ghost function Need(cal: Calendar, occ: Occupied, pods: seq<PodView>, now: int, r: Reservation): nat {
    Max(0, Available(occ, r, None) - Chained(cal, pods, now, r.id))
  }

  ghost function NeedAt(cal: Calendar, occ: Occupied, boundary: int, pods: seq<PodView>, now: int, cls: string)
    : Reservation -> int
  {
    (r: Reservation) =>
      if Opens(cal, boundary, r) && cal.EffectiveLabel(r) == Some(cls) then Need(cal, occ, pods, now, r) else 0
  }

  /** GPUs of a class still needed for the bookings that start at `boundary`. */
  ghost function Demand(cal: Calendar, occ: Occupied, boundary: int, pods: seq<PodView>, now: int, cls: string): int {
    Sum(cal.reservations, NeedAt(cal, occ, boundary, pods, now, cls))
  }

  function Get(m: map<string, int>, cls: string): int {
    if cls in m then m[cls] else 0
  }

  /** `order` lists the keys of a dict, in the order it iterates over them. */
  ghost predicate Lists(order: seq<string>, keys: set<string>) {
    && (forall c :: c in order <==> c in keys)
    && (forall i, j :: 0 <= i < j < |order| ==> order[i] != order[j])
  }

  function Keep(order: seq<string>, keys: set<string>): seq<string> {
    if order == [] then [] else (if order[0] in keys then [order[0]] else []) + Keep(order[1..], keys)
  }

  lemma {:induction false} KeepLists(order: seq<string>, keys: set<string>)
    requires forall i, j :: 0 <= i < j < |order| ==> order[i] != order[j]
    ensures forall c :: c in Keep(order, keys) <==> c in order && c in keys
    ensures forall i, j :: 0 <= i < j < |Keep(order, keys)| ==> Keep(order, keys)[i] != Keep(order, keys)[j]
  {
    if order != [] {
      KeepLists(order[1..], keys);
    }
  }

  method ChainedGpus(cal: Calendar, pods: seq<PodView>, now: int) returns (chained: map<int, int>)
    ensures forall rid :: (if rid in chained then chained[rid] else 0) == Chained(cal, pods, now, rid)
  {
    chained := map[];
    for i := 0 to |pods|
      invariant forall rid :: (if rid in chained then chained[rid] else 0) == Chained(cal, pods[..i], now, rid)
    {
      var p := pods[i];
      forall rid
        ensures Chained(cal, pods[..i + 1], now, rid)
          == Chained(cal, pods[..i], now, rid) + ChainsOnto(cal, now, rid)(p)
      {
        assert pods[..i + 1] == pods[..i] + [p];
        SumConcat(pods[..i], [p], ChainsOnto(cal, now, rid));
      }
      if Holding(p) && p.reservationId.Some? {
        var claimed := cal.ClaimedBy(p.reservationId.value, now);
        chained := map rid | rid in chained.Keys + claimed ::
          (if rid in chained then chained[rid] else 0) + (if rid in claimed then p.gpuCount else 0);
      }
    }
    assert pods[..|pods|] == pods;
  }

  method BoundaryDemand(cal: Calendar, held: OccupancyMap, boundary: int, pods: seq<PodView>, now: int)
    returns (demand: map<string, int>, order: seq<string>)
    ensures Lists(order, demand.Keys)
    ensures forall cls :: Get(demand, cls) == Demand(cal, held.occupancy, boundary, pods, now, cls)
    ensures forall cls <- demand :: demand[cls] > 0
  {
    var chained := ChainedGpus(cal, pods, now);
    demand, order := map[], [];
    ghost var occ := held.occupancy;
    for i := 0 to |cal.reservations|
      invariant Demanded(cal, occ, boundary, pods, now, i, demand)
      invariant Lists(order, demand.Keys)
    {
      var r := cal.reservations[i];
      DemandNext(cal, occ, boundary, pods, now, i, demand);
      if Opens(cal, boundary, r) {
        var cls := cal.EffectiveLabel(r).value;
        var free := held.AvailableOn(r, None);
        var need := Max(0, free - if r.id in chained then chained[r.id] else 0);
        if need > 0 {
          if cls !in demand {
            order := order + [cls];
          }
          demand := demand[cls := Get(demand, cls) + need];
        }
      }
    }
    assert cal.reservations[..|cal.reservations|] == cal.reservations;
  }

  /** What the first reservations of the calendar want at the boundary. */
  ghost predicate Demanded(
    cal: Calendar, occ: Occupied, boundary: int, pods: seq<PodView>, now: int, i: nat, demand: map<string, int>)
    requires i <= |cal.reservations|
  {
    && (forall cls :: Get(demand, cls) == Sum(cal.reservations[..i], NeedAt(cal, occ, boundary, pods, now, cls)))
    && (forall cls <- demand :: demand[cls] > 0)
  }

  lemma DemandNext(
    cal: Calendar, occ: Occupied, boundary: int, pods: seq<PodView>, now: int, i: nat, demand: map<string, int>)
    requires i < |cal.reservations| && Demanded(cal, occ, boundary, pods, now, i, demand)
    ensures var r := cal.reservations[i];
      if Opens(cal, boundary, r) && Need(cal, occ, pods, now, r) > 0 then
        var cls := cal.EffectiveLabel(r).value;
        Demanded(cal, occ, boundary, pods, now, i + 1, demand[cls := Get(demand, cls) + Need(cal, occ, pods, now, r)])
      else
        Demanded(cal, occ, boundary, pods, now, i + 1, demand)
  {
    DemandStep(cal, occ, boundary, pods, now, i);
  }

  lemma DemandStep(cal: Calendar, occ: Occupied, boundary: int, pods: seq<PodView>, now: int, i: nat)
    requires i < |cal.reservations|
    ensures forall cls :: Sum(cal.reservations[..i + 1], NeedAt(cal, occ, boundary, pods, now, cls))
              == Sum(cal.reservations[..i], NeedAt(cal, occ, boundary, pods, now, cls))
                 + NeedAt(cal, occ, boundary, pods, now, cls)(cal.reservations[i])
  {
    forall cls ensures Sum(cal.reservations[..i + 1], NeedAt(cal, occ, boundary, pods, now, cls))
              == Sum(cal.reservations[..i], NeedAt(cal, occ, boundary, pods, now, cls))
                 + NeedAt(cal, occ, boundary, pods, now, cls)(cal.reservations[i])
    {
      assert cal.reservations[..i + 1] == cal.reservations[..i] + [cal.reservations[i]];
      SumConcat(cal.reservations[..i], [cal.reservations[i]], NeedAt(cal, occ, boundary, pods, now, cls));
    }
  }

  lemma ChainedNonNegative(cal: Calendar, pods: seq<PodView>, now: int, rid: int)
    ensures Chained(cal, pods, now, rid) >= 0
  {
    SumNonNegative(pods, ChainsOnto(cal, now, rid));
  }

  /** A class is wanted at a boundary exactly when some user's booking of it that starts
      there, no no-show, has more GPUs left than its own pods use and chained holders bring. */
  lemma WantedExactly(cal: Calendar, occ: Occupied, boundary: int, pods: seq<PodView>, now: int, cls: string)
    ensures Demand(cal, occ, boundary, pods, now, cls) >= 0
    ensures Demand(cal, occ, boundary, pods, now, cls) > 0 <==> exists r <- cal.reservations ::
      && r.kind.Booking? && r.user.Some? && r.start == boundary && r.id !in cal.noshow
      && cal.EffectiveLabel(r) == Some(cls)
      && r.gpuCount > Used(occ, r.id) + Chained(cal, pods, now, r.id)
  {
    var f := NeedAt(cal, occ, boundary, pods, now, cls);
    SumNonNegative(cal.reservations, f);
    PositiveTerm(cal.reservations, f);
    forall r <- cal.reservations
      ensures f(r) > 0 <==>
        && r.kind.Booking? && r.user.Some? && r.start == boundary && r.id !in cal.noshow
        && cal.EffectiveLabel(r) == Some(cls)
        && r.gpuCount > Used(occ, r.id) + Chained(cal, pods, now, r.id)
    {
      ChainedNonNegative(cal, pods, now, r.id);
    }
  }

  lemma {:induction false} PositiveTerm(rs: seq<Reservation>, f: Reservation -> int)
    requires forall r <- rs :: f(r) >= 0
    ensures Sum(rs, f) > 0 <==> exists r <- rs :: f(r) > 0
  {
    if rs != [] {
      SumNonNegative(rs[1..], f);
      PositiveTerm(rs[1..], f);
      assert forall r <- rs :: r == rs[0] || r in rs[1..];
    }
  }

  /** The booking's chain, not yet over, includes the reservation. */
  ghost predicate Reaches(cal: Calendar, a: Reservation, now: int, rid: int) {
    && a in cal.reservations && a.kind.Booking? && a.user.Some?
    && cal.WholeChain(a) != [] && cal.WholeChain(a)[0].end > now
    && exists i :: 0 <= i < |cal.WholeChain(a)| && cal.WholeChain(a)[i].id == rid
  }

  /** A live holder brings its GPUs to every link of its booking's chain. */
  lemma HolderBrings(cal: Calendar, pods: seq<PodView>, now: int, p: PodView, a: Reservation, rid: int)
    requires cal.WellFormed() && Reaches(cal, a, now, rid)
    requires p in pods && p.nodeResident && !p.terminating && p.reservationId == Some(a.id)
    ensures Chained(cal, pods, now, rid) >= p.gpuCount
  {
    ClaimedExactly(cal, a, now, rid);
    TermAtMostSum(pods, p, ChainsOnto(cal, now, rid));
  }

  lemma {:induction false} TermAtMostSum(pods: seq<PodView>, p: PodView, f: PodView -> int)
    requires p in pods && forall q <- pods :: f(q) >= 0
    ensures Sum(pods, f) >= f(p)
  {
    assert pods[0] in pods;
    if p == pods[0] {
      SumNonNegative(pods[1..], f);
    } else {
      TermAtMostSum(pods[1..], p, f);
    }
  }

  /** r continues the booking of a live holder whose GPUs cover what r has left. */
  ghost predicate Supplied(cal: Calendar, occ: Occupied, pods: seq<PodView>, now: int, r: Reservation) {
    exists p: PodView, a: Reservation ::
      && p in pods && p.nodeResident && !p.terminating && p.reservationId == Some(a.id)
      && Reaches(cal, a, now, r.id) && r.gpuCount <= Used(occ, r.id) + p.gpuCount
  }

  lemma SuppliedHasNoneLeft(cal: Calendar, occ: Occupied, pods: seq<PodView>, now: int, r: Reservation)
    requires cal.WellFormed() && Supplied(cal, occ, pods, now, r)
    ensures r.gpuCount <= Used(occ, r.id) + Chained(cal, pods, now, r.id)
  {
    var p: PodView, a: Reservation :|
      && p in pods && p.nodeResident && !p.terminating && p.reservationId == Some(a.id)
      && Reaches(cal, a, now, r.id) && r.gpuCount <= Used(occ, r.id) + p.gpuCount;
    HolderBrings(cal, pods, now, p, a, r.id);
  }

  /** So when holders chained onto the bookings that start at a boundary cover what is
      left of them, nothing is wanted there and no pod is killed for it. */
  lemma SuppliedWantsNothing(
    cal: Calendar, occ: Occupied, boundary: int, pods: seq<PodView>, now: int, cls: string)
    requires cal.WellFormed()
    requires forall r <- cal.reservations ::
      r.kind.Booking? && r.start == boundary && cal.EffectiveLabel(r) == Some(cls) ==> Supplied(cal, occ, pods, now, r)
    ensures Demand(cal, occ, boundary, pods, now, cls) == 0
  {
    WantedExactly(cal, occ, boundary, pods, now, cls);
    forall r <- cal.reservations | r.kind.Booking? && r.start == boundary && cal.EffectiveLabel(r) == Some(cls)
      ensures r.gpuCount <= Used(occ, r.id) + Chained(cal, pods, now, r.id)
    {
      SuppliedHasNoneLeft(cal, occ, pods, now, r);
    }
  }

  // -- free capacity and the victim pool ---------------------------------------------

  function Occupies(cls: string): PodView -> int {
    (p: PodView) => if Holding(p) && !p.nodeExcluded && p.gpuClass == cls then p.gpuCount else 0
  }

  /** Physical capacity minus node-resident use, for each class with known capacity. */
  function Free(capacity: map<string, int>, pods: seq<PodView>): map<string, int> {
    map cls | cls in capacity :: capacity[cls] - Sum(pods, Occupies(cls))
  }

  method FreeCapacityByClass(capacity: map<string, int>, pods: seq<PodView>) returns (free: map<string, int>)
    ensures free == Free(capacity, pods)
  {
    var used: map<string, int> := map[];
    for i := 0 to |pods|
      invariant forall cls <- capacity :: Get(used, cls) == Sum(pods[..i], Occupies(cls))
    {
      var p := pods[i];
      forall cls ensures Sum(pods[..i + 1], Occupies(cls)) == Sum(pods[..i], Occupies(cls)) + Occupies(cls)(p) {
        assert pods[..i + 1] == pods[..i] + [p];
        SumConcat(pods[..i], [p], Occupies(cls));
      }
      if !p.nodeResident || p.terminating || p.nodeExcluded {
        continue;
      }
      if p.gpuClass !in capacity {
        continue;
      }
      used := used[p.gpuClass := Get(used, p.gpuClass) + p.gpuCount];
    }
    assert pods[..|pods|] == pods;
    free := map cls | cls in capacity :: capacity[cls] - Get(used, cls);
  }

  /** A pod the controller may preempt for its class: admitted here, on a counted
      node, holding GPUs, and past its runtime guarantee. */
  predicate Preemptable(cal: Calendar, cls: string, p: PodView, now: int) {
    && p.gpuClass == cls && p.reservationId.Some? && Holding(p) && !p.nodeExcluded && p.gpuCount > 0
    && cal.PastGuarantee(p.reservationId, now)
  }

  function Pool(cal: Calendar, cls: string, pods: seq<PodView>, now: int): seq<PodView> {
    if pods == [] then [] else
    (if Preemptable(cal, cls, pods[0], now) then [pods[0]] else []) + Pool(cal, cls, pods[1..], now)
  }

  lemma {:induction false} PoolMember(cal: Calendar, cls: string, pods: seq<PodView>, now: int, p: PodView)
    ensures p in Pool(cal, cls, pods, now) <==> p in pods && Preemptable(cal, cls, p, now)
  {
    if pods != [] {
      PoolMember(cal, cls, pods[1..], now, p);
    }
  }

  lemma {:induction false} PoolDistinct(cal: Calendar, cls: string, pods: seq<PodView>, now: int)
    requires DistinctUids(pods)
    ensures DistinctUids(Pool(cal, cls, pods, now))
  {
    if pods != [] {
      PoolDistinct(cal, cls, pods[1..], now);
      var rest := Pool(cal, cls, pods[1..], now);
      forall i | 0 <= i < |rest| ensures rest[i].uid != pods[0].uid {
        PoolMember(cal, cls, pods[1..], now, rest[i]);
      }
    }
  }

  /** The two passes over a boundary; headroom, a standing goal, has no boundary. */
  datatype Phase = LeadTime | AtBoundary | Standing

  datatype BoundaryNeed = BoundaryNeed(
    boundary: int,
    phase: Phase,
    demand: map<string, int>,
    free: map<string, int>,
    classes: seq<string>,
    killsNeeded: map<string, int>,
    candidates: map<string, seq<PodView>>)

  function PhaseOf(boundary: int, now: int): Phase {
    if boundary <= now then AtBoundary else LeadTime
  }

  ghost function Shortfall(
    cal: Calendar, occ: Occupied, boundary: int, capacity: map<string, int>, pods: seq<PodView>, now: int, cls: string)
    : int
  {
    Max(0, Demand(cal, occ, boundary, pods, now, cls) - Get(Free(capacity, pods), cls))
  }

  /** What `need` must say about a boundary: exact shortfalls, and for each short
      class the whole eligible pool. */
  ghost predicate IsNeed(
    cal: Calendar, occ: Occupied, boundary: int, capacity: map<string, int>, pods: seq<PodView>, now: int,
    need: BoundaryNeed)
  {
    && need.boundary == boundary && need.phase == PhaseOf(boundary, now)
    && need.free == Free(capacity, pods)
    && (forall cls :: Get(need.demand, cls) == Demand(cal, occ, boundary, pods, now, cls))
    && (forall cls <- need.demand :: need.demand[cls] > 0)
    && (forall cls :: cls in need.killsNeeded <==>
      cls in need.demand && Shortfall(cal, occ, boundary, capacity, pods, now, cls) > 0)
    && (forall cls <- need.killsNeeded ::
      need.killsNeeded[cls] == Shortfall(cal, occ, boundary, capacity, pods, now, cls))
    && need.candidates.Keys == need.killsNeeded.Keys && Lists(need.classes, need.killsNeeded.Keys)
    && (forall cls <- need.candidates :: need.candidates[cls] == Pool(cal, cls, pods, now))
  }

  lemma ShortfallOf(
    cal: Calendar, occ: Occupied, boundary: int, capacity: map<string, int>, pods: seq<PodView>, now: int, cls: string,
    demand: map<string, int>)
    requires Get(demand, cls) == Demand(cal, occ, boundary, pods, now, cls)
    ensures cls in demand ==>
      Shortfall(cal, occ, boundary, capacity, pods, now, cls) == Max(0, demand[cls] - Get(Free(capacity, pods), cls))
  {
  }

  /** The shortfalls and pools a planner makes of exact demand. */
  lemma Assembled(
    cal: Calendar, occ: Occupied, boundary: int, capacity: map<string, int>, pods: seq<PodView>, now: int,
    need: BoundaryNeed)
    requires need.boundary == boundary && need.phase == PhaseOf(boundary, now) && need.free == Free(capacity, pods)
    requires forall cls :: Get(need.demand, cls) == Demand(cal, occ, boundary, pods, now, cls)
    requires forall cls <- need.demand :: need.demand[cls] > 0
    requires need.killsNeeded == Lacking(need.demand, need.free)
    requires Lists(need.classes, need.killsNeeded.Keys)
    requires need.candidates == map cls | cls in need.killsNeeded :: Pool(cal, cls, pods, now)
    ensures IsNeed(cal, occ, boundary, capacity, pods, now, need)
  {
    forall cls
      ensures cls in need.killsNeeded <==>
        cls in need.demand && Shortfall(cal, occ, boundary, capacity, pods, now, cls) > 0
      ensures cls in need.killsNeeded ==>
        need.killsNeeded[cls] == Shortfall(cal, occ, boundary, capacity, pods, now, cls)
    {
      ShortfallOf(cal, occ, boundary, capacity, pods, now, cls, need.demand);
    }
  }

  /** By how much what is wanted exceeds what is free, where it does. */
  function Lacking(demand: map<string, int>, free: map<string, int>): map<string, int> {
    map cls | cls in demand && demand[cls] - Get(free, cls) > 0 :: demand[cls] - Get(free, cls)
  }

  method PlanBoundaryCandidates(
    cal: Calendar, held: OccupancyMap, boundary: int, capacity: map<string, int>, pods: seq<PodView>, now: int)
    returns (need: BoundaryNeed)
    ensures IsNeed(cal, held.occupancy, boundary, capacity, pods, now, need)
  {
    var demand, order := BoundaryDemand(cal, held, boundary, pods, now);
    var free := FreeCapacityByClass(capacity, pods);
    var kills := Lacking(demand, free);
    var candidates := map cls | cls in kills :: Pool(cal, cls, pods, now);
    KeepLists(order, kills.Keys);
    need := BoundaryNeed(boundary, PhaseOf(boundary, now), demand, free, Keep(order, kills.Keys), kills, candidates);
    Assembled(cal, held.occupancy, boundary, capacity, pods, now, need);
  }

  /** The pods a plan offers, field by field: those of a short class that are admitted
      here, live on a counted node, hold GPUs, and whose reservation is not listed or has
      seen its first following window end. */
  lemma OfferedExactly(
    cal: Calendar, occ: Occupied, boundary: int, capacity: map<string, int>, pods: seq<PodView>, now: int,
    need: BoundaryNeed, p: PodView)
    requires cal.WellFormed() && IsNeed(cal, occ, boundary, capacity, pods, now, need)
    ensures p.gpuClass in need.candidates && p in need.candidates[p.gpuClass] <==>
      && p in pods && p.reservationId.Some? && p.gpuCount > 0
      && p.nodeResident && !p.terminating && !p.nodeExcluded
      && Demand(cal, occ, boundary, pods, now, p.gpuClass) > Max(0, Get(Free(capacity, pods), p.gpuClass))
      && (var booked := cal.Find(p.reservationId.value);
          booked.None? || FirstEnd(cal, booked.value) <= now)
  {
    PoolMember(cal, p.gpuClass, pods, now, p);
    if p.reservationId.Some? {
      PastGuaranteeExactly(cal, p.reservationId.value, now);
    }
  }

  // -- choosing victims ----------------------------------------------------------------

  function Gpus(): PodView -> int {
    (p: PodView) => p.gpuCount
  }

  predicate Offered(need: BoundaryNeed, p: PodView) {
    p.gpuClass in need.candidates && p in need.candidates[p.gpuClass]
  }

  /** Each class offers pods of its own, and a uid names one offered pod. */
  ghost predicate Offers(need: BoundaryNeed) {
    && need.candidates.Keys == need.killsNeeded.Keys && Lists(need.classes, need.killsNeeded.Keys)
    && (forall c <- need.candidates ::
      DistinctUids(need.candidates[c]) && forall p <- need.candidates[c] :: p.gpuClass == c)
    && (forall p, q :: Offered(need, p) && Offered(need, q) && p.uid == q.uid ==> p == q)
  }

  /** Only offered pods are chosen, each at most once. */
  ghost predicate Legal(need: BoundaryNeed, selected: map<string, seq<PodView>>) {
    && selected.Keys <= need.candidates.Keys
    && forall c <- selected :: DistinctUids(selected[c]) && forall p <- selected[c] :: p in need.candidates[c]
  }

  function Chosen(selected: map<string, seq<PodView>>, cls: string): seq<PodView> {
    if cls in selected then selected[cls] else []
  }

  predicate Picked(selected: map<string, seq<PodView>>, p: PodView) {
    p in Chosen(selected, p.gpuClass)
  }

  function OfferedPods(need: BoundaryNeed): set<PodView> {
    set c, p | c in need.candidates && p in need.candidates[c] :: p
  }

  /** The offered pods by uid. */
  function OfferedByUid(need: BoundaryNeed): map<string, PodView>
    requires Offers(need)
  {
    assert forall p <- OfferedPods(need) :: Offered(need, p);
    map p | p in OfferedPods(need) :: p.uid := p
  }

  lemma OfferedLookup(need: BoundaryNeed)
    requires Offers(need)
    ensures forall u <- OfferedByUid(need) :: OfferedByUid(need)[u].uid == u && Offered(need, OfferedByUid(need)[u])
    ensures forall p :: Offered(need, p) ==> p.uid in OfferedByUid(need) && OfferedByUid(need)[p.uid] == p
  {
    assert forall p <- OfferedPods(need) :: Offered(need, p);
    forall p | Offered(need, p) ensures p.uid in OfferedByUid(need) && OfferedByUid(need)[p.uid] == p {
      assert p in OfferedPods(need);
    }
  }

  /** `selected` holds exactly the pods named by the uids in `seen`, by class. */
  ghost predicate Resolved(byUid: map<string, PodView>, seen: set<string>, selected: map<string, seq<PodView>>) {
    && seen <= byUid.Keys
    && (forall c <- selected, p <- selected[c] :: p.gpuClass == c && p.uid in seen && byUid[p.uid] == p)
    && (forall c <- selected :: DistinctUids(selected[c]))
    && (forall u <- seen :: Picked(selected, byUid[u]))
  }

  lemma ResolvedStep(byUid: map<string, PodView>, seen: set<string>, selected: map<string, seq<PodView>>, uid: string)
    requires Resolved(byUid, seen, selected) && uid in byUid && uid !in seen
    requires forall u <- byUid :: byUid[u].uid == u
    ensures var view := byUid[uid];
      Resolved(byUid, seen + {uid}, selected[view.gpuClass := Chosen(selected, view.gpuClass) + [view]])
  {
    var view := byUid[uid];
    var before := Chosen(selected, view.gpuClass);
    var after := selected[view.gpuClass := before + [view]];
    forall i | 0 <= i < |before| ensures before[i].uid != uid {
      assert before[i] in selected[view.gpuClass];
    }
    forall u <- seen + {uid} ensures Picked(after, byUid[u]) {
      assert u != uid ==> Picked(selected, byUid[u]);
    }
  }

  /** The reservation app's answer, resolved: exactly the offered pods it names. */
  method MapSelectedVictims(need: BoundaryNeed, uids: seq<string>) returns (selected: map<string, seq<PodView>>)
    requires Offers(need)
    ensures Legal(need, selected)
    ensures forall p :: Offered(need, p) ==> (Picked(selected, p) <==> p.uid in uids)
  {
    var byUid := OfferedByUid(need);
    OfferedLookup(need);
    selected := map[];
    var seen: set<string> := {};
    for i := 0 to |uids|
      invariant Resolved(byUid, seen, selected)
      invariant seen == (set u | u in uids[..i] && u in byUid)
      invariant forall c <- selected :: selected[c] != []
    {
      var uid := uids[i];
      assert uids[..i + 1] == uids[..i] + [uid];
      if uid !in byUid || uid in seen {
        continue;
      }
      ResolvedStep(byUid, seen, selected, uid);
      seen := seen + {uid};
      var view := byUid[uid];
      selected := selected[view.gpuClass := Chosen(selected, view.gpuClass) + [view]];
    }
    assert uids[..|uids|] == uids;
    ResolvedIsLegal(need, seen, selected);
    PickedIfNamed(need, uids, seen, selected);
  }

  lemma PickedIfNamed(need: BoundaryNeed, uids: seq<string>, seen: set<string>, selected: map<string, seq<PodView>>)
    requires Offers(need) && Resolved(OfferedByUid(need), seen, selected)
    requires seen == set u | u in uids && u in OfferedByUid(need)
    ensures forall p :: Offered(need, p) ==> (Picked(selected, p) <==> p.uid in uids)
  {
    OfferedLookup(need);
    forall p | Offered(need, p) ensures Picked(selected, p) <==> p.uid in uids {
      assert p.uid in seen <==> p.uid in uids;
    }
  }

  lemma ResolvedIsLegal(need: BoundaryNeed, seen: set<string>, selected: map<string, seq<PodView>>)
    requires Offers(need) && Resolved(OfferedByUid(need), seen, selected)
    requires forall c <- selected :: selected[c] != []
    ensures Legal(need, selected)
  {
    OfferedLookup(need);
    forall c <- selected ensures c in need.candidates && forall p <- selected[c] :: p in need.candidates[c] {
      assert selected[c][0] in selected[c];
    }
  }

  /** Pods in order until their GPUs cover what is needed. */
  function TakeUntil(eligible: seq<PodView>, needed: int): seq<PodView> {
    if needed <= 0 || eligible == [] then []
    else [eligible[0]] + TakeUntil(eligible[1..], needed - eligible[0].gpuCount)
  }

  /** Enough is taken, or everything; and nothing is taken once it is enough. */
  lemma {:induction false} TakeUntilCovers(eligible: seq<PodView>, needed: int)
    ensures var picked := TakeUntil(eligible, needed);
      && picked <= eligible
      && (Sum(picked, Gpus()) >= needed || picked == eligible)
      && (picked != [] ==> Sum(picked[..|picked| - 1], Gpus()) < needed)
  {
    if needed > 0 && eligible != [] {
      var rest := TakeUntil(eligible[1..], needed - eligible[0].gpuCount);
      TakeUntilCovers(eligible[1..], needed - eligible[0].gpuCount);
      var picked := [eligible[0]] + rest;
      assert picked[1..] == rest;
      if rest != [] {
        assert picked[..|picked| - 1][1..] == rest[..|rest| - 1];
      }
    }
  }

  /** `shuffle` only reorders. */
  ghost predicate Shuffles(shuffle: seq<PodView> -> seq<PodView>) {
    forall s :: multiset(shuffle(s)) == multiset(s)
  }

  lemma ShuffleKeepsDistinct(s: seq<PodView>, t: seq<PodView>)
    requires DistinctUids(s) && multiset(t) == multiset(s)
    ensures DistinctUids(t) && forall p :: p in t <==> p in s
  {
    forall p ensures p in t <==> p in s {
      assert p in multiset(t) <==> p in multiset(s);
    }
    forall i, j | 0 <= i < j < |t| ensures t[i].uid != t[j].uid {
      if t[i].uid == t[j].uid {
        assert t[i] in s && t[j] in s;
        assert t[i] == t[j];
        TwiceInMultiset(t, i, j);
        OnceInMultiset(s, t[i]);
      }
    }
  }

  lemma TwiceInMultiset(t: seq<PodView>, i: nat, j: nat)
    requires i < j < |t| && t[i] == t[j]
    ensures multiset(t)[t[i]] >= 2
  {
    assert t == t[..j] + [t[j]] + t[j + 1..];
    assert t[i] in t[..j];
  }

  lemma {:induction false} OnceInMultiset(s: seq<PodView>, p: PodView)
    requires DistinctUids(s)
    ensures multiset(s)[p] <= 1
  {
    if s != [] {
      assert s == [s[0]] + s[1..];
      OnceInMultiset(s[1..], p);
    }
  }

  method SelectVictimsLocally(need: BoundaryNeed, shuffle: seq<PodView> -> seq<PodView>)
    returns (selected: map<string, seq<PodView>>)
    requires Offers(need) && Shuffles(shuffle)
    ensures Legal(need, selected)
    ensures selected.Keys == need.killsNeeded.Keys
    ensures forall c <- selected :: selected[c] == TakeUntil(shuffle(need.candidates[c]), need.killsNeeded[c])
  {
    selected := map[];
    for i := 0 to |need.classes|
      invariant forall c :: c in selected <==> c in need.classes[..i]
      invariant forall c <- selected ::
        c in need.classes && selected[c] == TakeUntil(shuffle(need.candidates[c]), need.killsNeeded[c])
    {
      var cls := need.classes[i];
      assert cls in need.classes;
      var picked := Accumulate(shuffle(need.candidates[cls]), need.killsNeeded[cls]);
      selected := selected[cls := picked];
    }
    forall c <- selected ensures DistinctUids(selected[c]) && forall p <- selected[c] :: p in need.candidates[c] {
      TakenIsLegal(need.candidates[c], shuffle(need.candidates[c]), need.killsNeeded[c]);
    }
  }

  lemma TakenIsLegal(pool: seq<PodView>, eligible: seq<PodView>, needed: int)
    requires DistinctUids(pool) && multiset(eligible) == multiset(pool)
    ensures DistinctUids(TakeUntil(eligible, needed)) && forall p <- TakeUntil(eligible, needed) :: p in pool
  {
    ShuffleKeepsDistinct(pool, eligible);
    TakeUntilCovers(eligible, needed);
    PrefixIsDistinct(TakeUntil(eligible, needed), eligible);
  }

  lemma PrefixIsDistinct(s: seq<PodView>, t: seq<PodView>)
    requires s <= t && DistinctUids(t)
    ensures DistinctUids(s) && forall p <- s :: p in t
  {
    forall i | 0 <= i < |s| ensures s[i] == t[i] {
    }
  }

  method Accumulate(eligible: seq<PodView>, needed: int) returns (picked: seq<PodView>)
    ensures picked == TakeUntil(eligible, needed)
  {
    picked := [];
    var killed := 0;
    for i := 0 to |eligible|
      invariant picked + TakeUntil(eligible[i..], needed - killed) == TakeUntil(eligible, needed)
    {
      if killed >= needed {
        break;
      }
      picked := picked + [eligible[i]];
      killed := killed + eligible[i].gpuCount;
    }
  }

  /** `selected` is what the selector does for this need: nothing when nothing is
      short, the app's answer if there is one, else the local choice. */
  ghost predicate ChosenBy(
    need: BoundaryNeed, answer: Option<seq<string>>, shuffle: seq<PodView> -> seq<PodView>,
    selected: map<string, seq<PodView>>)
    requires Offers(need)
  {
    if need.killsNeeded.Keys == {} then selected == map[]
    else if answer.Some? then
      Legal(need, selected) && forall p :: Offered(need, p) ==> (Picked(selected, p) <==> p.uid in answer.value)
    else
      && selected.Keys == need.killsNeeded.Keys
      && forall c <- selected :: selected[c] == TakeUntil(shuffle(need.candidates[c]), need.killsNeeded[c])
  }

  /** Victims for one need. */
  method SelectVictims(need: BoundaryNeed, answer: Option<seq<string>>, shuffle: seq<PodView> -> seq<PodView>)
    returns (selected: map<string, seq<PodView>>)
    requires Offers(need) && Shuffles(shuffle)
    ensures ChosenBy(need, answer, shuffle, selected) && Legal(need, selected)
    ensures answer.Some? && need.killsNeeded.Keys != {} ==>
      forall p :: Offered(need, p) ==> (Picked(selected, p) <==> p.uid in answer.value)
  {
    if need.killsNeeded.Keys == {} {
      selected := map[];
    } else if answer.Some? {
      selected := MapSelectedVictims(need, answer.value);
    } else {
      selected := SelectVictimsLocally(need, shuffle);
    }
  }

  /** The local choice leaves a class short only when its whole pool is taken. */
  lemma LocalChoiceExhausts(
    need: BoundaryNeed, shuffle: seq<PodView> -> seq<PodView>, selected: map<string, seq<PodView>>, cls: string)
    requires Offers(need) && Shuffles(shuffle) && ChosenBy(need, None, shuffle, selected) && cls in need.killsNeeded
    ensures cls in selected
    ensures Sum(selected[cls], Gpus()) < need.killsNeeded[cls] ==>
      multiset(selected[cls]) == multiset(need.candidates[cls])
  {
    TakeUntilCovers(shuffle(need.candidates[cls]), need.killsNeeded[cls]);
  }

  datatype Plan = Plan(victims: seq<PodView>, unmet: map<string, int>)

  function Uids(pods: seq<PodView>): set<string> {
    set p | p in pods :: p.uid
  }

  function Killed(selected: map<string, seq<PodView>>, cls: string): int {
    Sum(Chosen(selected, cls), Gpus())
  }

  /** The choices of the listed classes, one class after the other. */
  function Join(selected: map<string, seq<PodView>>, classes: seq<string>): seq<PodView> {
    if classes == [] then [] else Join(selected, classes[..|classes| - 1]) + Chosen(selected, classes[|classes| - 1])
  }

  /** What the choice leaves uncovered, for each listed class it leaves short. */
  function Unmet(kills: map<string, int>, selected: map<string, seq<PodView>>): map<string, int> {
    map c | c in kills && Killed(selected, c) < kills[c] :: kills[c] - Killed(selected, c)
  }

  method BuildPreemptionPlan(need: BoundaryNeed, selected: map<string, seq<PodView>>) returns (plan: Plan)
    ensures plan == Plan(Join(selected, need.classes), Unmet(need.killsNeeded, selected))
  {
    var victims: seq<PodView> := [];
    for i := 0 to |need.classes|
      invariant victims == Join(selected, need.classes[..i])
    {
      assert need.classes[..i + 1][..i] == need.classes[..i];
      victims := victims + Chosen(selected, need.classes[i]);
    }
    assert need.classes[..|need.classes|] == need.classes;
    plan := Plan(victims, Unmet(need.killsNeeded, selected));
  }

  /** Pods with one uid are one pod, across all the choices. */
  ghost predicate Distinct(selected: map<string, seq<PodView>>) {
    && (forall c <- selected :: DistinctUids(selected[c]) && forall p <- selected[c] :: p.gpuClass == c)
    && (forall p, q :: Picked(selected, p) && Picked(selected, q) && p.uid == q.uid ==> p == q)
  }

  lemma LegalIsDistinct(need: BoundaryNeed, selected: map<string, seq<PodView>>)
    requires Offers(need) && Legal(need, selected)
    ensures Distinct(selected)
  {
    forall p | Picked(selected, p) ensures Offered(need, p) {}
  }

  lemma DistinctConcat(a: seq<PodView>, b: seq<PodView>)
    requires DistinctUids(a) && DistinctUids(b)
    requires forall p <- a, q <- b :: p.uid != q.uid
    ensures DistinctUids(a + b)
  {}

  /** The victims are exactly the pods chosen, none twice, and per class they free
      what was chosen for the class. */
  lemma {:induction false} JoinedVictims(selected: map<string, seq<PodView>>, classes: seq<string>, cls: string)
    requires Distinct(selected) && forall i, j :: 0 <= i < j < |classes| ==> classes[i] != classes[j]
    ensures DistinctUids(Join(selected, classes))
    ensures forall p :: p in Join(selected, classes) <==> p.gpuClass in classes && Picked(selected, p)
    ensures Sum(Join(selected, classes), InClass(cls)) == if cls in classes then Killed(selected, cls) else 0
  {
    if classes != [] {
      var init, last := classes[..|classes| - 1], classes[|classes| - 1];
      assert classes == init + [last] && last !in init;
      JoinedVictims(selected, init, cls);
      JoinOneMore(selected, init, last, Join(selected, init));
      AppendChosen(selected, init, last, cls, Join(selected, init));
    }
  }

  /** What a plan reports unmet of a class is what its victims of that class lack. */
  lemma UnmetExactly(need: BoundaryNeed, selected: map<string, seq<PodView>>, cls: string)
    requires Offers(need) && Legal(need, selected)
    ensures var unmet, freed := Unmet(need.killsNeeded, selected), Sum(Join(selected, need.classes), InClass(cls));
      && (cls in unmet <==> cls in need.killsNeeded && freed < need.killsNeeded[cls])
      && (cls in unmet ==> freed + unmet[cls] == need.killsNeeded[cls])
  {
    LegalIsDistinct(need, selected);
    JoinedVictims(selected, need.classes, cls);
  }

  lemma AppendChosen(
    selected: map<string, seq<PodView>>, init: seq<string>, last: string, cls: string, before: seq<PodView>)
    requires Distinct(selected) && last !in init
    requires Sum(before, InClass(cls)) == if cls in init then Killed(selected, cls) else 0
    ensures Sum(before + Chosen(selected, last), InClass(cls))
         == if cls in init + [last] then Killed(selected, cls) else 0
  {
    AppendPicked(before, Chosen(selected, last), last, cls);
  }

  lemma ChosenPicked(selected: map<string, seq<PodView>>, c: string, p: PodView)
    requires Distinct(selected)
    ensures p in Chosen(selected, c) <==> p.gpuClass == c && Picked(selected, p)
  {
  }

  /** One more class's choice after the victims of the classes before it. */
  lemma JoinOneMore(selected: map<string, seq<PodView>>, init: seq<string>, last: string, before: seq<PodView>)
    requires Distinct(selected) && last !in init && DistinctUids(before)
    requires forall p :: p in before <==> p.gpuClass in init && Picked(selected, p)
    ensures DistinctUids(before + Chosen(selected, last))
    ensures forall p :: p in before + Chosen(selected, last) <==> p.gpuClass in init + [last] && Picked(selected, p)
  {
    var picked := Chosen(selected, last);
    forall p ensures p in picked <==> p.gpuClass == last && Picked(selected, p) {
      ChosenPicked(selected, last, p);
    }
    forall p <- before, q <- picked ensures p.uid != q.uid {
      assert Picked(selected, p) && Picked(selected, q);
    }
    DistinctConcat(before, picked);
  }

  function InClass(cls: string): PodView -> int {
    (p: PodView) => if p.gpuClass == cls then p.gpuCount else 0
  }

  lemma AppendPicked(victims: seq<PodView>, picked: seq<PodView>, last: string, cls: string)
    requires forall p <- picked :: p.gpuClass == last
    ensures Sum(victims + picked, InClass(cls))
         == Sum(victims, InClass(cls)) + if cls == last then Sum(picked, Gpus()) else 0
  {
    SumConcat(victims, picked, InClass(cls));
    if cls == last {
      SumSame(picked, InClass(cls), Gpus());
    } else {
      SumSame(picked, InClass(cls), Nothing());
      SumNothing(picked);
    }
  }

  function Nothing(): PodView -> int {
    (p: PodView) => 0
  }

  lemma {:induction false} SumNothing(pods: seq<PodView>)
    ensures Sum(pods, Nothing()) == 0
  {
    if pods != [] {
      SumNothing(pods[1..]);
    }
  }
}
