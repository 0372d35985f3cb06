/** The preemption-risk forecast, over the reals, and its agreement with what the
    sweep would plan (app/controller.py). Instants are seconds. */
module Forecast {
  import opened Sums
  import opened Pods
  import opened Reservations
  import opened Occupancy
  import opened Preemption

  // -- buckets and the combination of risks ------------------------------------------

  datatype Bucket = Bucket(start: int, end: int)

  const BUCKET_COUNT := 3
  const HOUR := 3600

  /** The rest of this wall-clock hour, then whole hours. */
  function Buckets(now: int): seq<Bucket> {
    var firstEnd := now / HOUR * HOUR + HOUR;
    [Bucket(now, firstEnd)]
    + seq(BUCKET_COUNT - 1, i requires 0 <= i => Bucket(firstEnd + i * HOUR, firstEnd + (i + 1) * HOUR))
  }

  /** The buckets are non-empty and tile the horizon without a gap; the first ends at the
      next full hour and the other two last an hour each. */
  lemma BucketsTile(now: int, t: int)
    ensures |Buckets(now)| == 3 && Buckets(now)[0].start == now
    ensures Buckets(now)[0].end <= now + 3600 && forall i :: 0 <= i < 3 ==> Buckets(now)[i].end % 3600 == 0
    ensures forall i :: 1 <= i < 3 ==> Buckets(now)[i].end == Buckets(now)[i].start + 3600
    ensures forall i :: 0 <= i < BUCKET_COUNT ==> Buckets(now)[i].start < Buckets(now)[i].end
    ensures now <= t < Buckets(now)[BUCKET_COUNT - 1].end <==>
            exists i :: 0 <= i < BUCKET_COUNT && Buckets(now)[i].start <= t < Buckets(now)[i].end
  {
    var bs := Buckets(now);
    assert bs[0].end == bs[1].start && bs[1].end == bs[2].start;
  }

  predicate Overlaps(from: int, to: int, b: Bucket) {
    from < b.end && to >= b.start
  }

  function Clamp(r: real): real {
    if r < 0.0 then 0.0 else if r > 1.0 then 1.0 else r
  }

  /** The chance that two independent things both happen. */
  function Both(x: real, y: real): (p: real)
    requires 0.0 <= x <= 1.0 && 0.0 <= y <= 1.0
    ensures p == x * y && 0.0 <= p <= x && p <= y
    ensures p == 1.0 <==> x == 1.0 && y == 1.0
  {
    var product := x * y;
    Shrinks(x, y, product);
    Shrinks(y, x, product);
    product
  }

  /** A product with a chance is smaller, and as large only when one factor is the
      whole or the other nothing. */
  lemma Shrinks(x: real, y: real, product: real)
    requires 0.0 <= x && 0.0 <= y <= 1.0 && product == x * y
    ensures 0.0 <= product <= x
    ensures y == 1.0 ==> product == x
  {
    NonNegativeProduct(x, y);
    NonNegativeProduct(x, 1.0 - y);
    assert x * (1.0 - y) == x - product;
  }

  lemma NonNegativeProduct(x: real, y: real)
    requires x >= 0.0 && y >= 0.0
    ensures x * y >= 0.0
  {
  }

  function Spared(r: real): (p: real)
    ensures 0.0 <= p <= 1.0
  {
    1.0 - Clamp(r)
  }

  /** The chance that none of the independent risks strikes. */
  function Survival(risks: seq<real>): (s: real)
    ensures 0.0 <= s <= 1.0
  {
    if risks == [] then 1.0 else Both(Survival(risks[..|risks| - 1]), Spared(risks[|risks| - 1]))
  }

  method CombineRisks(risks: seq<real>) returns (risk: real)
    ensures risk == 1.0 - Survival(risks)
  {
    var survival := 1.0;
    for i := 0 to |risks|
      invariant survival == Survival(risks[..i])
    {
      assert risks[..i + 1][..i] == risks[..i];
      survival := survival * (1.0 - Clamp(risks[i]));
    }
    assert risks[..|risks|] == risks;
    risk := Clamp(1.0 - survival);
  }

  /** The product, one factor at a time: one part more multiplies the chance of being
      spared by what that part spares, a part below 0 or above 1 counting as 0 or 1. */
  lemma SurvivalMultiplies(risks: seq<real>, r: real)
    ensures Survival([]) == 1.0
    ensures Survival(risks + [r])
         == Survival(risks) * (if r <= 0.0 then 1.0 else if r >= 1.0 then 0.0 else 1.0 - r)
  {
    assert (risks + [r])[..|risks|] == risks;
  }

  /** No combination is below any of its parts. */
  lemma {:induction false} CombinedCoversParts(risks: seq<real>, i: nat)
    requires i < |risks|
    ensures 1.0 - Survival(risks) >= Clamp(risks[i])
  {
    var init, last := risks[..|risks| - 1], risks[|risks| - 1];
    assert Survival(risks) == Both(Survival(init), Spared(last));
    if i < |init| {
      assert risks[i] == init[i];
      CombinedCoversParts(init, i);
    } else {
      assert risks[i] == last;
    }
  }

  /** The combined risk is nothing exactly when every part is. */
  lemma {:induction false} NoRiskExactly(risks: seq<real>)
    ensures Survival(risks) == 1.0 <==> forall r <- risks :: r <= 0.0
  {
    if risks != [] {
      var init, last := risks[..|risks| - 1], risks[|risks| - 1];
      NoRiskExactly(init);
      assert Survival(risks) == Both(Survival(init), Spared(last));
      assert last in risks && forall r <- init :: r in risks;
      assert forall r <- risks :: r in init || r == last;
    }
  }

  // -- one boundary ahead ------------------------------------------------------------------

  datatype ForecastNeed = ForecastNeed(
    boundary: int,
    demand: map<string, int>,
    kills: map<string, int>,
    eligible: map<string, seq<PodView>>)

  function EligibleOf(need: ForecastNeed, cls: string): seq<PodView> {
    if cls in need.eligible then need.eligible[cls] else []
  }

  function PoolGpus(need: ForecastNeed, cls: string): int {
    Sum(EligibleOf(need, cls), Gpus())
  }

  predicate Within(guarantee: Option<int>, t: int) {
    guarantee.Some? && guarantee.value > t
  }

  /** The pod will be past its guarantee by the boundary. */
  predicate AtRisk(cal: Calendar, p: PodView, boundary: int, now: int) {
    && p.reservationId.Some? && Holding(p) && !p.nodeExcluded && p.gpuCount > 0
    && !Within(cal.GuaranteeEnd(p.reservationId, now), boundary)
  }

  function RiskPool(cal: Calendar, cls: string, pods: seq<PodView>, boundary: int, now: int): seq<PodView> {
    if pods == [] then [] else
    var last := pods[|pods| - 1];
    RiskPool(cal, cls, pods[..|pods| - 1], boundary, now)
    + (if last.gpuClass == cls && AtRisk(cal, last, boundary, now) then [last] else [])
  }

  lemma {:induction false} RiskPoolMember(
    cal: Calendar, cls: string, pods: seq<PodView>, boundary: int, now: int, p: PodView)
    ensures p in RiskPool(cal, cls, pods, boundary, now) <==>
      p in pods && p.gpuClass == cls && AtRisk(cal, p, boundary, now)
  {
    if pods != [] {
      RiskPoolMember(cal, cls, pods[..|pods| - 1], boundary, now, p);
      assert p in pods <==> p in pods[..|pods| - 1] || p == pods[|pods| - 1];
    }
  }

  ghost predicate IsForecastNeed(
    cal: Calendar, occ: Occupied, boundary: int, free: map<string, int>, pods: seq<PodView>, now: int,
    need: ForecastNeed)
  {
    && need.boundary == boundary
    && (forall cls :: Get(need.demand, cls) == Demand(cal, occ, boundary, pods, now, cls))
    && (forall cls <- need.demand :: need.demand[cls] > 0)
    && need.kills == (map cls | cls in need.demand && need.demand[cls] - Get(free, cls) > 0
                              :: need.demand[cls] - Get(free, cls))
    && (forall cls :: EligibleOf(need, cls) == RiskPool(cal, cls, pods, boundary, now))
  }

  method ForecastBoundaryNeed(
    cal: Calendar, held: OccupancyMap, boundary: int, free: map<string, int>, pods: seq<PodView>, now: int)
    returns (need: ForecastNeed)
    ensures IsForecastNeed(cal, held.occupancy, boundary, free, pods, now, need)
  {
    var demand, order := BoundaryDemand(cal, held, boundary, pods, now);
    var kills := map cls | cls in demand && demand[cls] - Get(free, cls) > 0 :: demand[cls] - Get(free, cls);
    var eligible := EligibleByClass(cal, boundary, pods, now);
    need := ForecastNeed(boundary, demand, kills, eligible);
  }

  /** The pods a boundary ahead could cost their GPUs, field by field: those admitted
      here, live on a counted node and holding GPUs whose guarantee, as computed now, has
      ended by the boundary, or that have none. */
  lemma EligibleExactly(
    cal: Calendar, occ: Occupied, boundary: int, free: map<string, int>, pods: seq<PodView>, now: int,
    need: ForecastNeed, p: PodView)
    requires IsForecastNeed(cal, occ, boundary, free, pods, now, need)
    ensures p.gpuClass in need.eligible && p in need.eligible[p.gpuClass] <==>
      && p in pods && p.reservationId.Some? && p.gpuCount > 0
      && p.nodeResident && !p.terminating && !p.nodeExcluded
      && (var end := cal.GuaranteeEnd(p.reservationId, now); end.Some? ==> end.value <= boundary)
  {
    assert EligibleOf(need, p.gpuClass) == RiskPool(cal, p.gpuClass, pods, boundary, now);
    RiskPoolMember(cal, p.gpuClass, pods, boundary, now, p);
  }

  ghost predicate ByClass(
    cal: Calendar, eligible: map<string, seq<PodView>>, pods: seq<PodView>, boundary: int, now: int)
  {
    forall cls :: (if cls in eligible then eligible[cls] else []) == RiskPool(cal, cls, pods, boundary, now)
  }

  lemma RiskPoolNext(cal: Calendar, cls: string, pods: seq<PodView>, i: nat, boundary: int, now: int)
    requires i < |pods|
    ensures RiskPool(cal, cls, pods[..i + 1], boundary, now) == RiskPool(cal, cls, pods[..i], boundary, now)
         + if pods[i].gpuClass == cls && AtRisk(cal, pods[i], boundary, now) then [pods[i]] else []
  {
    assert pods[..i + 1][..i] == pods[..i];
  }

  lemma ByClassNext(
    cal: Calendar, eligible: map<string, seq<PodView>>, pods: seq<PodView>, i: nat, boundary: int, now: int)
    requires i < |pods| && ByClass(cal, eligible, pods[..i], boundary, now)
    ensures var p := pods[i];
      ByClass(cal, if AtRisk(cal, p, boundary, now)
                   then eligible[p.gpuClass := (if p.gpuClass in eligible then eligible[p.gpuClass] else []) + [p]]
                   else eligible, pods[..i + 1], boundary, now)
  {
    forall cls
      ensures RiskPool(cal, cls, pods[..i + 1], boundary, now) == RiskPool(cal, cls, pods[..i], boundary, now)
           + if pods[i].gpuClass == cls && AtRisk(cal, pods[i], boundary, now) then [pods[i]] else []
    {
      RiskPoolNext(cal, cls, pods, i, boundary, now);
    }
  }

  method EligibleByClass(cal: Calendar, boundary: int, pods: seq<PodView>, now: int)
    returns (eligible: map<string, seq<PodView>>)
    ensures forall cls :: (if cls in eligible then eligible[cls] else []) == RiskPool(cal, cls, pods, boundary, now)
  {
    eligible := map[];
    for i := 0 to |pods|
      invariant ByClass(cal, eligible, pods[..i], boundary, now)
    {
      var p := pods[i];
      ByClassNext(cal, eligible, pods, i, boundary, now);
      if AtRisk(cal, p, boundary, now) {
        eligible := eligible[p.gpuClass := (if p.gpuClass in eligible then eligible[p.gpuClass] else []) + [p]];
      }
    }
    assert pods[..|pods|] == pods;
  }

  /** At the same instant, for a boundary not yet past, the forecast needs exactly
      the kills the sweep would plan, and every pod the sweep could pick is in its
      pool; at the boundary itself the pools are the same. */
  lemma ForecastAgreesWithSweep(
    cal: Calendar, occ: Occupied, boundary: int, capacity: map<string, int>, pods: seq<PodView>, now: int,
    need: BoundaryNeed, forecast: ForecastNeed)
    requires now <= boundary
    requires IsNeed(cal, occ, boundary, capacity, pods, now, need)
    requires IsForecastNeed(cal, occ, boundary, Free(capacity, pods), pods, now, forecast)
    ensures forecast.kills == need.killsNeeded
    ensures forall cls, p :: cls in need.candidates && p in need.candidates[cls] ==> p in EligibleOf(forecast, cls)
    ensures forall cls, p :: boundary == now && cls in need.candidates && p in EligibleOf(forecast, cls) ==>
      p in need.candidates[cls]
  {
    SameKills(cal, occ, boundary, capacity, pods, now, need, forecast);
    forall cls, p: PodView | cls in need.candidates
      ensures p in need.candidates[cls] ==> p in EligibleOf(forecast, cls)
      ensures boundary == now && p in EligibleOf(forecast, cls) ==> p in need.candidates[cls]
    {
      assert need.candidates[cls] == Pool(cal, cls, pods, now);
      assert EligibleOf(forecast, cls) == RiskPool(cal, cls, pods, boundary, now);
      SamePool(cal, cls, pods, boundary, now, p);
    }
  }

  lemma SamePool(cal: Calendar, cls: string, pods: seq<PodView>, boundary: int, now: int, p: PodView)
    requires now <= boundary
    ensures p in Pool(cal, cls, pods, now) ==> p in RiskPool(cal, cls, pods, boundary, now)
    ensures boundary == now && p in RiskPool(cal, cls, pods, boundary, now) ==> p in Pool(cal, cls, pods, now)
  {
    PoolMember(cal, cls, pods, now, p);
    RiskPoolMember(cal, cls, pods, boundary, now, p);
  }

  lemma SameKills(
    cal: Calendar, occ: Occupied, boundary: int, capacity: map<string, int>, pods: seq<PodView>, now: int,
    need: BoundaryNeed, forecast: ForecastNeed)
    requires IsNeed(cal, occ, boundary, capacity, pods, now, need)
    requires IsForecastNeed(cal, occ, boundary, Free(capacity, pods), pods, now, forecast)
    ensures forecast.kills == need.killsNeeded
  {
    forall cls
      ensures cls in forecast.kills <==> cls in need.killsNeeded
      ensures cls in forecast.kills ==> forecast.kills[cls] == need.killsNeeded[cls]
    {
      SameKill(cal, occ, boundary, capacity, pods, now, need, forecast, cls);
    }
  }

  lemma SameKill(
    cal: Calendar, occ: Occupied, boundary: int, capacity: map<string, int>, pods: seq<PodView>, now: int,
    need: BoundaryNeed, forecast: ForecastNeed, cls: string)
    requires IsNeed(cal, occ, boundary, capacity, pods, now, need)
    requires IsForecastNeed(cal, occ, boundary, Free(capacity, pods), pods, now, forecast)
    ensures cls in forecast.kills <==> cls in need.killsNeeded
    ensures cls in forecast.kills ==> forecast.kills[cls] == need.killsNeeded[cls]
  {
    assert Get(need.demand, cls) == Demand(cal, occ, boundary, pods, now, cls) == Get(forecast.demand, cls);
  }

  // -- one pod's risk ----------------------------------------------------------------------

  function Later(a: int, b: Option<int>): int {
    if b.Some? && b.value > a then b.value else a
  }

  /** The boundary could cost the pod its GPUs somewhere in the bucket. */
  predicate Contributes(need: ForecastNeed, p: PodView, guarantee: Option<int>, lead: nat, b: Bucket) {
    && p.gpuCount > 0
    && Get(need.kills, p.gpuClass) > 0
    && !Within(guarantee, need.boundary)
    && PoolGpus(need, p.gpuClass) > 0
    && Overlaps(Later(need.boundary - lead, guarantee), need.boundary, b)
  }

  function SingleRisk(need: ForecastNeed, cls: string): real
    requires PoolGpus(need, cls) > 0
  {
    var r := Get(need.kills, cls) as real / PoolGpus(need, cls) as real;
    if r > 1.0 then 1.0 else r
  }

  function Parts(needs: seq<ForecastNeed>, p: PodView, guarantee: Option<int>, lead: nat, b: Bucket): seq<real> {
    if needs == [] then [] else
    var last := needs[|needs| - 1];
    Parts(needs[..|needs| - 1], p, guarantee, lead, b)
    + (if Contributes(last, p, guarantee, lead, b) then [SingleRisk(last, p.gpuClass)] else [])
  }

  function Risk(needs: seq<ForecastNeed>, p: PodView, guarantee: Option<int>, lead: nat, b: Bucket): real {
    1.0 - Survival(Parts(needs, p, guarantee, lead, b))
  }

  method RiskParts(needs: seq<ForecastNeed>, p: PodView, guarantee: Option<int>, lead: nat, bucket: Bucket)
    returns (parts: seq<real>)
    ensures parts == Parts(needs, p, guarantee, lead, bucket)
  {
    parts := [];
    for k := 0 to |needs|
      invariant parts == Parts(needs[..k], p, guarantee, lead, bucket)
    {
      assert needs[..k + 1][..k] == needs[..k];
      if Contributes(needs[k], p, guarantee, lead, bucket) {
        parts := parts + [SingleRisk(needs[k], p.gpuClass)];
      }
    }
    assert needs[..|needs|] == needs;
  }

  method BucketRisk(needs: seq<ForecastNeed>, p: PodView, guarantee: Option<int>, lead: nat, bucket: Bucket)
    returns (risk: real)
    ensures risk == Risk(needs, p, guarantee, lead, bucket)
  {
    var parts := RiskParts(needs, p, guarantee, lead, bucket);
    risk := CombineRisks(parts);
  }

  method PodRisks(needs: seq<ForecastNeed>, p: PodView, guarantee: Option<int>, lead: nat, buckets: seq<Bucket>)
    returns (risks: seq<real>)
    ensures |risks| == |buckets|
    ensures forall i :: 0 <= i < |buckets| ==> risks[i] == Risk(needs, p, guarantee, lead, buckets[i])
  {
    risks := [];
    for i := 0 to |buckets|
      invariant |risks| == i
      invariant forall j :: 0 <= j < i ==> risks[j] == Risk(needs, p, guarantee, lead, buckets[j])
    {
      var risk := BucketRisk(needs, p, guarantee, lead, buckets[i]);
      risks := risks + [risk];
    }
  }

  lemma {:induction false} PartsMember(
    needs: seq<ForecastNeed>, p: PodView, guarantee: Option<int>, lead: nat, b: Bucket)
    ensures forall need <- needs :: Contributes(need, p, guarantee, lead, b) ==>
              SingleRisk(need, p.gpuClass) in Parts(needs, p, guarantee, lead, b)
    ensures forall r <- Parts(needs, p, guarantee, lead, b) :: 0.0 < r <= 1.0
    ensures Parts(needs, p, guarantee, lead, b) == [] <==>
      forall need <- needs :: !Contributes(need, p, guarantee, lead, b)
  {
    if needs != [] {
      var init, last := needs[..|needs| - 1], needs[|needs| - 1];
      PartsMember(init, p, guarantee, lead, b);
      assert forall need :: need in needs <==> need in init || need == last;
      if Contributes(last, p, guarantee, lead, b) {
        PositiveQuotient(Get(last.kills, p.gpuClass), PoolGpus(last, p.gpuClass));
      }
    }
  }

  lemma PositiveQuotient(a: int, b: int)
    requires a > 0 && b > 0
    ensures a as real / b as real > 0.0
    ensures a >= b ==> a as real / b as real >= 1.0
  {
    var q := a as real / b as real;
    assert q * b as real == a as real;
  }

  /** Every risk is a probability, and it is nothing exactly when no boundary
      contributes. */
  lemma RiskExactly(needs: seq<ForecastNeed>, p: PodView, guarantee: Option<int>, lead: nat, b: Bucket)
    ensures 0.0 <= Risk(needs, p, guarantee, lead, b) <= 1.0
    ensures Risk(needs, p, guarantee, lead, b) == 0.0 <==>
      forall need <- needs :: !Contributes(need, p, guarantee, lead, b)
  {
    var parts := Parts(needs, p, guarantee, lead, b);
    PartsMember(needs, p, guarantee, lead, b);
    NoRiskExactly(parts);
    if parts != [] {
      assert parts[0] in parts;
    }
  }

  /** The boundary takes pods of the pod's class, and has some to take. */
  predicate Takes(need: ForecastNeed, p: PodView) {
    p.gpuCount > 0 && p.gpuClass in need.kills && need.kills[p.gpuClass] > 0 && PoolGpus(need, p.gpuClass) > 0
  }

  /** An instant of the bucket within the lead time before the boundary, at which the
      guarantee is over. */
  predicate Exposed(need: ForecastNeed, guarantee: Option<int>, lead: nat, b: Bucket, t: int) {
    && b.start <= t < b.end && need.boundary - lead <= t <= need.boundary
    && (guarantee.Some? ==> guarantee.value <= t)
  }

  lemma ContributesWhen(need: ForecastNeed, p: PodView, guarantee: Option<int>, lead: nat, b: Bucket)
    requires b.start < b.end
    ensures Contributes(need, p, guarantee, lead, b) <==>
      Takes(need, p) && exists t :: Exposed(need, guarantee, lead, b, t)
  {
    if Contributes(need, p, guarantee, lead, b) {
      var from := Later(need.boundary - lead, guarantee);
      assert Exposed(need, guarantee, lead, b, if from < b.start then b.start else from);
    }
  }

  /** When a pod is at risk in a bucket: exactly when some boundary takes pods of its class
      and some instant of the bucket is exposed to it. */
  lemma RiskWhen(needs: seq<ForecastNeed>, p: PodView, guarantee: Option<int>, lead: nat, b: Bucket)
    requires b.start < b.end
    ensures Risk(needs, p, guarantee, lead, b) > 0.0 <==>
      exists need <- needs :: Takes(need, p) && exists t :: Exposed(need, guarantee, lead, b, t)
  {
    RiskExactly(needs, p, guarantee, lead, b);
    forall need: ForecastNeed
      ensures Contributes(need, p, guarantee, lead, b) <==>
        Takes(need, p) && exists t :: Exposed(need, guarantee, lead, b, t)
    {
      ContributesWhen(need, p, guarantee, lead, b);
    }
  }

  lemma ProperQuotient(a: int, b: int)
    requires 0 < a && 0 < b
    ensures a < b ==> a as real / b as real < 1.0
  {
    var q := a as real / b as real;
    assert q * b as real == a as real;
  }

  /** A boundary's share: the GPUs it needs of those in its pool, at most the whole. */
  lemma ShareOfPool(need: ForecastNeed, cls: string)
    requires Get(need.kills, cls) > 0 && PoolGpus(need, cls) > 0
    ensures cls in need.kills && cls in need.eligible && Sum(need.eligible[cls], Gpus()) > 0
    ensures 0.0 < SingleRisk(need, cls) <= 1.0
    ensures SingleRisk(need, cls) ==
      if need.kills[cls] >= Sum(need.eligible[cls], Gpus()) then 1.0
      else need.kills[cls] as real / Sum(need.eligible[cls], Gpus()) as real
  {
    PositiveQuotient(need.kills[cls], PoolGpus(need, cls));
    ProperQuotient(need.kills[cls], PoolGpus(need, cls));
  }

  /** One boundary more adds its share to the risks combined, or nothing. */
  lemma OneMoreBoundary(
    needs: seq<ForecastNeed>, need: ForecastNeed, p: PodView, guarantee: Option<int>, lead: nat, b: Bucket)
    ensures var before, after := Parts(needs, p, guarantee, lead, b), Parts(needs + [need], p, guarantee, lead, b);
      after == if Contributes(need, p, guarantee, lead, b) then before + [SingleRisk(need, p.gpuClass)] else before
  {
    assert (needs + [need])[..|needs|] == needs;
  }

  /** A bucket the pod's guarantee covers to its end carries no risk at all. */
  lemma GuaranteedIsRiskFree(needs: seq<ForecastNeed>, p: PodView, guarantee: Option<int>, lead: nat, b: Bucket)
    requires guarantee.Some? && guarantee.value >= b.end
    ensures Risk(needs, p, guarantee, lead, b) == 0.0
  {
    RiskExactly(needs, p, guarantee, lead, b);
  }

  /** What a risk of zero is worth, exactly: no sweep at any instant of a bucket can
      take the pod if and only if the bucket ends by the end of its first link. */
  lemma RiskFreeHonouredIff(cal: Calendar, p: PodView, b: Bucket)
    requires cal.WellFormed() && p.reservationId.Some? && cal.Find(p.reservationId.value).Some?
    requires Holding(p) && !p.nodeExcluded && p.gpuCount > 0 && b.start < b.end
    ensures (forall pods, t :: b.start <= t < b.end ==> p !in Pool(cal, p.gpuClass, pods, t)) <==>
      b.end <= FirstEnd(cal, cal.Find(p.reservationId.value).value)
  {
    var end := FirstEnd(cal, cal.Find(p.reservationId.value).value);
    if b.end <= end {
      forall pods, t | b.start <= t < b.end ensures p !in Pool(cal, p.gpuClass, pods, t) {
        TakenFromFirstEnd(cal, p, pods, t);
      }
    } else {
      var t := if end <= b.start then b.start else end;
      TakenFromFirstEnd(cal, p, [p], t);
      assert b.start <= t < b.end && p in Pool(cal, p.gpuClass, [p], t);
    }
  }

  /** A live pod on a counted node may be taken exactly from its first link's end. */
  lemma TakenFromFirstEnd(cal: Calendar, p: PodView, pods: seq<PodView>, t: int)
    requires cal.WellFormed() && p.reservationId.Some? && cal.Find(p.reservationId.value).Some?
    requires Holding(p) && !p.nodeExcluded && p.gpuCount > 0
    ensures p in Pool(cal, p.gpuClass, pods, t) <==>
      p in pods && FirstEnd(cal, cal.Find(p.reservationId.value).value) <= t
  {
    PoolMember(cal, p.gpuClass, pods, t, p);
    PastGuaranteeExactly(cal, p.reservationId.value, t);
  }

  /** So the forecast's zero is honoured for a chain of at most one link: no sweep in
      a bucket the guarantee covers takes the pod. */
  lemma ShortChainIsHonoured(cal: Calendar, p: PodView, now: int, b: Bucket, pods: seq<PodView>, t: int)
    requires cal.WellFormed() && p.reservationId.Some? && cal.Find(p.reservationId.value).Some?
    requires |cal.WholeChain(cal.Find(p.reservationId.value).value)| <= 1
    requires b.end <= cal.GuaranteeEnd(p.reservationId, now).value && b.start <= t < b.end
    ensures p !in Pool(cal, p.gpuClass, pods, t)
  {
    var anchor := cal.Find(p.reservationId.value).value;
    PoolMember(cal, p.gpuClass, pods, t, p);
    PastGuaranteeExactly(cal, anchor.id, t);
    ChainOverTime(cal, anchor, now);
    if cal.WholeChain(anchor) != [] {
      WholeChainAscends(cal, anchor, 0);
    }
  }

  /** While the first link lasts the guarantee runs on to the end of the last. */
  lemma GuaranteeRunsOn(cal: Calendar, rid: int, now: int)
    requires cal.WellFormed() && cal.Find(rid).Some? && |cal.WholeChain(cal.Find(rid).value)| >= 2
    requires now < FirstEnd(cal, cal.Find(rid).value)
    ensures cal.GuaranteeEnd(Some(rid), now).Some?
    ensures FirstEnd(cal, cal.Find(rid).value) < cal.GuaranteeEnd(Some(rid), now).value
  {
    var anchor := cal.Find(rid).value;
    ChainOverTime(cal, anchor, now);
    WholeChainAscends(cal, anchor, |cal.WholeChain(anchor)| - 1);
  }

  /** With two or more links it is not: while the first link lasts the guarantee
      covers every bucket up to the last link's end, at risk zero, and a sweep after
      the first link's end may take the pod. */
  lemma LongChainIsNotHonoured(cal: Calendar, p: PodView, now: int, pods: seq<PodView>)
    requires cal.WellFormed() && p.reservationId.Some? && cal.Find(p.reservationId.value).Some?
    requires Holding(p) && !p.nodeExcluded && p.gpuCount > 0 && p in pods
    requires |cal.WholeChain(cal.Find(p.reservationId.value).value)| >= 2
    requires now < FirstEnd(cal, cal.Find(p.reservationId.value).value)
    ensures var end := FirstEnd(cal, cal.Find(p.reservationId.value).value);
      end < cal.GuaranteeEnd(p.reservationId, now).value && p in Pool(cal, p.gpuClass, pods, end)
  {
    GuaranteeRunsOn(cal, p.reservationId.value, now);
    TakenFromFirstEnd(cal, p, pods, FirstEnd(cal, cal.Find(p.reservationId.value).value));
  }

  /** A contributing boundary that needs the whole pool makes the risk certain; any
      other is a lower bound for it. */
  lemma WholePoolIsCertain(
    needs: seq<ForecastNeed>, need: ForecastNeed, p: PodView, guarantee: Option<int>, lead: nat, b: Bucket)
    requires need in needs && Contributes(need, p, guarantee, lead, b)
    ensures Risk(needs, p, guarantee, lead, b) >= SingleRisk(need, p.gpuClass) > 0.0
    ensures Get(need.kills, p.gpuClass) >= PoolGpus(need, p.gpuClass) ==> Risk(needs, p, guarantee, lead, b) == 1.0
  {
    var parts := Parts(needs, p, guarantee, lead, b);
    PartsMember(needs, p, guarantee, lead, b);
    var i :| 0 <= i < |parts| && parts[i] == SingleRisk(need, p.gpuClass);
    CombinedCoversParts(parts, i);
    PositiveQuotient(Get(need.kills, p.gpuClass), PoolGpus(need, p.gpuClass));
  }
}
