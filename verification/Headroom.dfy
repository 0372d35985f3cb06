/** Anticipatory headroom: the standing free-GPU goal per class, its victims, and
    the notice they are given first (app/controller.py, app/main.py). */
module Headroom {
  import opened Sums
  import opened Reservations
  import opened Pods
  import opened Preemption
  import Sweep

  // -- the goal ---------------------------------------------------------------------------

  /** The goal in GPUs, rounded up. */
  function Target(capacity: int, percent: nat): int {
    -((-capacity * percent) / 100)
  }

  lemma TargetIsLeast(capacity: int, percent: nat)
    ensures Target(capacity, percent) * 100 >= capacity * percent
    ensures forall t: int :: t * 100 >= capacity * percent ==> t >= Target(capacity, percent)
  {
  }

  function Short(capacity: map<string, int>, pods: seq<PodView>, percent: nat, cls: string): int
    requires cls in capacity
  {
    Max(0, Target(capacity[cls], percent) - Free(capacity, pods)[cls])
  }

  /** The goal as a function of a class's capacity. */
  function AtPercent(percent: nat): int -> int {
    (capacity: int) => Target(capacity, percent)
  }

  function Goals(capacity: map<string, int>, goal: int -> int, classes: seq<string>): map<string, int> {
    map cls | cls in capacity && cls in classes :: goal(capacity[cls])
  }

  /** The shortfall of each listed class that has one. */
  function Gaps(capacity: map<string, int>, free: map<string, int>, goal: int -> int, classes: seq<string>)
    : map<string, int>
  {
    map cls | cls in capacity && cls in classes && goal(capacity[cls]) > Get(free, cls)
            :: goal(capacity[cls]) - Get(free, cls)
  }

  function Shorts(capacity: map<string, int>, pods: seq<PodView>, percent: nat, classes: seq<string>)
    : map<string, int>
  {
    map cls | cls in capacity && cls in classes && Short(capacity, pods, percent, cls) > 0
            :: Short(capacity, pods, percent, cls)
  }

  lemma GapsAreShorts(capacity: map<string, int>, pods: seq<PodView>, percent: nat, classes: seq<string>)
    ensures Gaps(capacity, Free(capacity, pods), AtPercent(percent), classes)
         == Shorts(capacity, pods, percent, classes)
  {
    var gaps := Gaps(capacity, Free(capacity, pods), AtPercent(percent), classes);
    var shorts := Shorts(capacity, pods, percent, classes);
    forall cls ensures cls in gaps <==> cls in shorts {
      if cls in capacity {
        GapIsShort(capacity, pods, percent, cls);
      }
    }
    forall cls <- gaps ensures gaps[cls] == shorts[cls] {
      GapIsShort(capacity, pods, percent, cls);
    }
  }

  lemma GapIsShort(capacity: map<string, int>, pods: seq<PodView>, percent: nat, cls: string)
    requires cls in capacity
    ensures Short(capacity, pods, percent, cls)
         == Max(0, AtPercent(percent)(capacity[cls]) - Get(Free(capacity, pods), cls))
  {
  }

  lemma NextGoal(capacity: map<string, int>, goal: int -> int, order: seq<string>, i: nat)
    requires i < |order| && order[i] in capacity
    ensures Goals(capacity, goal, order[..i + 1])
         == Goals(capacity, goal, order[..i])[order[i] := goal(capacity[order[i]])]
  {
    assert order[..i + 1] == order[..i] + [order[i]];
  }

  lemma NextGap(capacity: map<string, int>, free: map<string, int>, goal: int -> int, order: seq<string>, i: nat)
    requires i < |order| && order[i] in capacity
    ensures var before, short := Gaps(capacity, free, goal, order[..i]), goal(capacity[order[i]]) - Get(free, order[i]);
      Gaps(capacity, free, goal, order[..i + 1]) == if short > 0 then before[order[i] := short] else before
  {
    assert order[..i + 1] == order[..i] + [order[i]];
  }

  method MeasureClasses(capacity: map<string, int>, free: map<string, int>, order: seq<string>, goal: int -> int)
    returns (target: map<string, int>, shortfall: map<string, int>)
    requires Lists(order, capacity.Keys)
    ensures target == Goals(capacity, goal, order) && shortfall == Gaps(capacity, free, goal, order)
  {
    target, shortfall := map[], map[];
    for i := 0 to |order|
      invariant target == Goals(capacity, goal, order[..i])
      invariant shortfall == Gaps(capacity, free, goal, order[..i])
    {
      NextGoal(capacity, goal, order, i);
      NextGap(capacity, free, goal, order, i);
      var want := goal(capacity[order[i]]);
      target := target[order[i] := want];
      var short := Max(0, want - Get(free, order[i]));
      if short != 0 {
        shortfall := shortfall[order[i] := short];
      }
    }
    assert order[..|order|] == order;
  }

  /** `order` lists the classes with known capacity. */
  method HeadroomShortfall(capacity: map<string, int>, order: seq<string>, pods: seq<PodView>, percent: nat)
    returns (target: map<string, int>, free: map<string, int>, shortfall: map<string, int>)
    requires Lists(order, capacity.Keys)
    ensures target == Goals(capacity, AtPercent(percent), order)
    ensures free == Free(capacity, pods) && shortfall == Shorts(capacity, pods, percent, order)
  {
    free := FreeCapacityByClass(capacity, pods);
    target, shortfall := MeasureClasses(capacity, free, order, AtPercent(percent));
    GapsAreShorts(capacity, pods, percent, order);
  }

  // -- the victims ---------------------------------------------------------------------------

  predicate Ripe(p: PodView, now: int) {
    p.warningAt.Some? && p.warningAt.value <= now
  }

  function RipeOf(pool: seq<PodView>, now: int): seq<PodView> {
    if pool == [] then [] else (if Ripe(pool[0], now) then [pool[0]] else []) + RipeOf(pool[1..], now)
  }

  lemma {:induction false} RipeMember(pool: seq<PodView>, now: int, p: PodView)
    ensures p in RipeOf(pool, now) <==> p in pool && Ripe(p, now)
  {
    if pool != [] {
      RipeMember(pool[1..], now, p);
    }
  }

  lemma {:induction false} RipeDistinct(pool: seq<PodView>, now: int)
    requires DistinctUids(pool)
    ensures DistinctUids(RipeOf(pool, now))
  {
    if pool != [] {
      RipeDistinct(pool[1..], now);
      var rest := RipeOf(pool[1..], now);
      forall i | 0 <= i < |rest| ensures rest[i].uid != pool[0].uid {
        RipeMember(pool[1..], now, rest[i]);
      }
    }
  }

  function Killable(cal: Calendar, cls: string, pods: seq<PodView>, now: int, requireNotice: bool): seq<PodView> {
    if requireNotice then RipeOf(Pool(cal, cls, pods, now), now) else Pool(cal, cls, pods, now)
  }

  ghost predicate IsHeadroomNeed(
    cal: Calendar, capacity: map<string, int>, order: seq<string>, pods: seq<PodView>, now: int, percent: nat,
    requireNotice: bool, need: BoundaryNeed)
  {
    && need.boundary == now && need.phase == Standing && need.free == Free(capacity, pods)
    && need.killsNeeded == Shorts(capacity, pods, percent, order)
    && need.demand == (map cls | cls in need.killsNeeded :: Goals(capacity, AtPercent(percent), order)[cls])
    && Lists(need.classes, need.killsNeeded.Keys)
    && need.candidates == map cls | cls in need.killsNeeded :: Killable(cal, cls, pods, now, requireNotice)
  }

  method PlanHeadroomCandidates(
    cal: Calendar, capacity: map<string, int>, order: seq<string>, pods: seq<PodView>, now: int, percent: nat,
    requireNotice: bool)
    returns (need: BoundaryNeed)
    requires Lists(order, capacity.Keys)
    ensures IsHeadroomNeed(cal, capacity, order, pods, now, percent, requireNotice, need)
  {
    var target, free, shortfall := HeadroomShortfall(capacity, order, pods, percent);
    var candidates := map cls | cls in shortfall :: Killable(cal, cls, pods, now, requireNotice);
    KeepLists(order, shortfall.Keys);
    need := BoundaryNeed(now, Standing, map cls | cls in shortfall :: target[cls], free,
                         Keep(order, shortfall.Keys), shortfall, candidates);
  }

  lemma KillableMember(cal: Calendar, cls: string, pods: seq<PodView>, now: int, requireNotice: bool, p: PodView)
    ensures p in Killable(cal, cls, pods, now, requireNotice) <==>
      p in pods && Preemptable(cal, cls, p, now) && (requireNotice ==> Ripe(p, now))
  {
    PoolMember(cal, cls, pods, now, p);
    RipeMember(Pool(cal, cls, pods, now), now, p);
  }

  lemma HeadroomOffers(
    cal: Calendar, capacity: map<string, int>, order: seq<string>, pods: seq<PodView>, now: int, percent: nat,
    requireNotice: bool, need: BoundaryNeed)
    requires DistinctUids(pods) && IsHeadroomNeed(cal, capacity, order, pods, now, percent, requireNotice, need)
    ensures Offers(need)
    ensures forall p :: Offered(need, p) ==>
      p in pods && Preemptable(cal, p.gpuClass, p, now) && (requireNotice ==> Ripe(p, now))
  {
    forall c <- need.candidates
      ensures DistinctUids(need.candidates[c]) && forall p <- need.candidates[c] :: p.gpuClass == c
    {
      PoolDistinct(cal, c, pods, now);
      RipeDistinct(Pool(cal, c, pods, now), now);
      forall p <- need.candidates[c] ensures p.gpuClass == c {
        KillableMember(cal, c, pods, now, requireNotice, p);
      }
    }
    forall p | Offered(need, p)
      ensures p in pods && Preemptable(cal, p.gpuClass, p, now) && (requireNotice ==> Ripe(p, now))
    {
      KillableMember(cal, p.gpuClass, pods, now, requireNotice, p);
    }
  }

  /** Whatever legal choice is made, every headroom victim is past its guarantee
      and, where notice is required, past the deadline it was given. */
  lemma HeadroomVictims(
    cal: Calendar, capacity: map<string, int>, order: seq<string>, pods: seq<PodView>, now: int, percent: nat,
    requireNotice: bool,
    need: BoundaryNeed, selected: map<string, seq<PodView>>)
    requires DistinctUids(pods) && IsHeadroomNeed(cal, capacity, order, pods, now, percent, requireNotice, need)
    requires Legal(need, selected)
    ensures Distinct(selected) && Sweep.AllVictims(cal, pods, Join(selected, need.classes), now)
    ensures requireNotice ==> forall v <- Join(selected, need.classes) :: Ripe(v, now)
  {
    HeadroomOffers(cal, capacity, order, pods, now, percent, requireNotice, need);
    LegalIsDistinct(need, selected);
    JoinedVictims(selected, need.classes, "");
    forall v <- Join(selected, need.classes)
      ensures v in pods && Preemptable(cal, v.gpuClass, v, now) && (requireNotice ==> Ripe(v, now))
    {
      assert Picked(selected, v) && Offered(need, v);
    }
  }

  /** And what is then free, with what is reported unmet, reaches every goal. */
  lemma HeadroomReached(
    cal: Calendar, capacity: map<string, int>, order: seq<string>, pods: seq<PodView>, now: int, percent: nat,
    requireNotice: bool,
    need: BoundaryNeed, selected: map<string, seq<PodView>>, cls: string)
    requires DistinctUids(pods) && IsHeadroomNeed(cal, capacity, order, pods, now, percent, requireNotice, need)
    requires Legal(need, selected) && cls in capacity && Lists(order, capacity.Keys)
    ensures var victims := Join(selected, need.classes);
      Target(capacity[cls], percent)
        <= Free(capacity, Sweep.Survivors(pods, Uids(victims)))[cls] + Get(Unmet(need.killsNeeded, selected), cls)
  {
    var victims := Join(selected, need.classes);
    HeadroomVictims(cal, capacity, order, pods, now, percent, requireNotice, need, selected);
    JoinedVictims(selected, need.classes, cls);
    Sweep.KillsFreeGpus(cal, capacity, pods, victims, now, cls);
    ShortIsMet(capacity, order, pods, percent, need, selected, cls);
  }

  lemma ShortIsMet(
    capacity: map<string, int>, order: seq<string>, pods: seq<PodView>, percent: nat, need: BoundaryNeed,
    selected: map<string, seq<PodView>>, cls: string)
    requires cls in capacity && Lists(order, capacity.Keys)
    requires need.killsNeeded == Shorts(capacity, pods, percent, order) && Lists(need.classes, need.killsNeeded.Keys)
    requires Killed(selected, cls) >= 0
    ensures Target(capacity[cls], percent) <= Free(capacity, pods)[cls]
              + (if cls in need.classes then Killed(selected, cls) else 0) + Get(Unmet(need.killsNeeded, selected), cls)
  {
    assert cls in need.killsNeeded <==> Short(capacity, pods, percent, cls) > 0;
  }

  // -- the warnings -------------------------------------------------------------------------------

  datatype Warning = Warning(at: int, risk: real)

  /** A pod of a short class that headroom may reclaim. */
  predicate Risky(cal: Calendar, capacity: map<string, int>, pods: seq<PodView>, now: int, percent: nat, p: PodView) {
    p.gpuClass in capacity && Short(capacity, pods, percent, p.gpuClass) > 0 && Preemptable(cal, p.gpuClass, p, now)
  }

  /** The deadline a pod carries stays; only a pod with none is given a new one. */
  function Deadline(stamp: Option<int>, now: int, notice: nat): int {
    if stamp.Some? then stamp.value else now + notice
  }

  /** The share of a pool's GPUs a class is short of, at most the whole. */
  function Share(short: int, pool: seq<PodView>): (risk: real)
    ensures 0.0 <= risk <= 1.0
    ensures short > 0 && Sum(pool, Gpus()) > 0 ==> risk > 0.0
  {
    var gpus := Sum(pool, Gpus());
    if short <= 0 || gpus <= 0 then 0.0
    else if short >= gpus then 1.0
    else
      Quotient(short, gpus);
      short as real / gpus as real
  }

  lemma Quotient(a: int, b: int)
    requires 0 < a < b
    ensures 0.0 < a as real / b as real < 1.0
  {
  }

  ghost predicate WarnsOf(warnings: map<string, Warning>, p: PodView, now: int, notice: nat, risk: real) {
    p.uid in warnings && warnings[p.uid] == Warning(Deadline(p.warningAt, now, notice), risk)
  }

  /** The risk a pod of a class is warned of. */
  function RiskIn(cal: Calendar, capacity: map<string, int>, pods: seq<PodView>, now: int, percent: nat, cls: string)
    : real
    requires cls in capacity
  {
    Share(Short(capacity, pods, percent, cls), Pool(cal, cls, pods, now))
  }

  /** The uid is a pod of one of these classes that headroom may reclaim. */
  ghost predicate RiskyIn(
    cal: Calendar, capacity: map<string, int>, pods: seq<PodView>, now: int, percent: nat, classes: seq<string>,
    uid: string)
  {
    exists p <- pods :: p.uid == uid && p.gpuClass in classes && Risky(cal, capacity, pods, now, percent, p)
  }

  ghost predicate Warned(
    cal: Calendar, capacity: map<string, int>, pods: seq<PodView>, now: int, percent: nat, notice: nat,
    classes: seq<string>, warnings: map<string, Warning>)
  {
    && (forall p <- pods :: p.gpuClass in classes && Risky(cal, capacity, pods, now, percent, p) ==>
          WarnsOf(warnings, p, now, notice, RiskIn(cal, capacity, pods, now, percent, p.gpuClass)))
    && (forall uid <- warnings :: RiskyIn(cal, capacity, pods, now, percent, classes, uid))
  }

  /** The pods are warned, and no other warning changes. */
  ghost predicate WarnsAll(
    before: map<string, Warning>, warnings: map<string, Warning>, pods: seq<PodView>, now: int, notice: nat,
    risk: real)
  {
    && (forall p <- pods :: WarnsOf(warnings, p, now, notice, risk))
    && (forall uid :: uid in warnings <==> uid in before || uid in Uids(pods))
    && (forall uid <- before :: uid !in Uids(pods) ==> warnings[uid] == before[uid])
  }

  lemma WarnsOneMore(
    before: map<string, Warning>, warnings: map<string, Warning>, pods: seq<PodView>, p: PodView, now: int,
    notice: nat, risk: real)
    requires WarnsAll(before, warnings, pods, now, notice, risk)
    requires forall q <- pods :: q.uid != p.uid
    ensures WarnsAll(before, warnings[p.uid := Warning(Deadline(p.warningAt, now, notice), risk)], pods + [p], now,
      notice, risk)
  {
    var after := warnings[p.uid := Warning(Deadline(p.warningAt, now, notice), risk)];
    assert Uids(pods + [p]) == Uids(pods) + {p.uid} by {
      assert forall q :: q in pods + [p] <==> q in pods || q == p;
    }
    forall q <- pods + [p] ensures WarnsOf(after, q, now, notice, risk) {
      if q in pods {
        assert WarnsOf(warnings, q, now, notice, risk);
      }
    }
  }

  method WarnPool(pool: seq<PodView>, short: int, now: int, notice: nat, before: map<string, Warning>)
    returns (warnings: map<string, Warning>)
    requires DistinctUids(pool) && short > 0 && forall p <- pool :: p.gpuCount > 0
    ensures WarnsAll(before, warnings, pool, now, notice, Share(short, pool))
  {
    warnings := before;
    var poolGpus := 0;
    for i := 0 to |pool|
      invariant poolGpus == Sum(pool[..i], Gpus()) && poolGpus >= i
    {
      assert pool[..i + 1] == pool[..i] + [pool[i]];
      SumConcat(pool[..i], [pool[i]], Gpus());
      poolGpus := poolGpus + pool[i].gpuCount;
    }
    assert pool[..|pool|] == pool;
    if poolGpus <= 0 {
      return;
    }
    var risk := if short >= poolGpus then 1.0 else short as real / poolGpus as real;
    for i := 0 to |pool|
      invariant WarnsAll(before, warnings, pool[..i], now, notice, risk)
    {
      var p := pool[i];
      WarnsOneMore(before, warnings, pool[..i], p, now, notice, risk);
      assert pool[..i + 1] == pool[..i] + [p];
      warnings := warnings[p.uid := Warning(Deadline(p.warningAt, now, notice), risk)];
    }
    assert pool[..|pool|] == pool;
  }

  method PlanHeadroomWarnings(
    cal: Calendar, capacity: map<string, int>, order: seq<string>, pods: seq<PodView>, now: int, percent: nat,
    notice: nat)
    returns (warnings: map<string, Warning>)
    requires DistinctUids(pods) && Lists(order, capacity.Keys)
    ensures Warned(cal, capacity, pods, now, percent, notice, order, warnings)
  {
    var _, _, shortfall := HeadroomShortfall(capacity, order, pods, percent);
    warnings := map[];
    for i := 0 to |order|
      invariant Warned(cal, capacity, pods, now, percent, notice, order[..i], warnings)
    {
      var cls := order[i];
      ShortsAt(capacity, pods, percent, order, cls);
      if cls in shortfall {
        var pool := Pool(cal, cls, pods, now);
        PoolDistinct(cal, cls, pods, now);
        PoolHoldsGpus(cal, cls, pods, now);
        var more := WarnPool(pool, shortfall[cls], now, notice, warnings);
        WarnedNext(cal, capacity, pods, now, percent, notice, order, i, warnings, more);
        warnings := more;
      } else {
        WarnedSkip(cal, capacity, pods, now, percent, notice, order, i, warnings);
      }
    }
    assert order[..|order|] == order;
  }

  lemma ShortsAt(capacity: map<string, int>, pods: seq<PodView>, percent: nat, order: seq<string>, cls: string)
    requires cls in capacity && cls in order
    ensures cls in Shorts(capacity, pods, percent, order) <==> Short(capacity, pods, percent, cls) > 0
    ensures cls in Shorts(capacity, pods, percent, order) ==>
      Shorts(capacity, pods, percent, order)[cls] == Short(capacity, pods, percent, cls)
  {
  }

  /** A class that is not short has no pod to warn. */
  lemma WarnedSkip(
    cal: Calendar, capacity: map<string, int>, pods: seq<PodView>, now: int, percent: nat, notice: nat,
    order: seq<string>, i: nat, warnings: map<string, Warning>)
    requires i < |order| && order[i] in capacity && Short(capacity, pods, percent, order[i]) <= 0
    requires Warned(cal, capacity, pods, now, percent, notice, order[..i], warnings)
    ensures Warned(cal, capacity, pods, now, percent, notice, order[..i + 1], warnings)
  {
    assert order[..i + 1] == order[..i] + [order[i]];
    forall uid <- warnings ensures RiskyIn(cal, capacity, pods, now, percent, order[..i + 1], uid) {
      RiskyInMore(cal, capacity, pods, now, percent, order, i, uid);
    }
  }

  lemma PoolHoldsGpus(cal: Calendar, cls: string, pods: seq<PodView>, now: int)
    ensures forall p <- Pool(cal, cls, pods, now) :: p.gpuCount > 0
  {
    forall p <- Pool(cal, cls, pods, now) ensures p.gpuCount > 0 {
      PoolMember(cal, cls, pods, now, p);
    }
  }

  lemma PoolOf(
    cal: Calendar, capacity: map<string, int>, pods: seq<PodView>, now: int, percent: nat, cls: string, p: PodView)
    requires cls in capacity && Short(capacity, pods, percent, cls) > 0
    ensures p in Pool(cal, cls, pods, now) <==>
      p in pods && p.gpuClass == cls && Risky(cal, capacity, pods, now, percent, p)
  {
    PoolMember(cal, cls, pods, now, p);
  }

  /** No pod of another class shares a uid with the pool. */
  lemma OutsidePool(cal: Calendar, cls: string, pods: seq<PodView>, now: int, p: PodView)
    requires DistinctUids(pods) && p in pods && p.gpuClass != cls
    ensures p.uid !in Uids(Pool(cal, cls, pods, now))
  {
    if p.uid in Uids(Pool(cal, cls, pods, now)) {
      var q :| q in Pool(cal, cls, pods, now) && q.uid == p.uid;
      PoolMember(cal, cls, pods, now, q);
    }
  }

  lemma WarnedNext(
    cal: Calendar, capacity: map<string, int>, pods: seq<PodView>, now: int, percent: nat, notice: nat,
    order: seq<string>, i: nat, before: map<string, Warning>, after: map<string, Warning>)
    requires DistinctUids(pods) && i < |order| && order[i] in capacity && Short(capacity, pods, percent, order[i]) > 0
    requires Warned(cal, capacity, pods, now, percent, notice, order[..i], before)
    requires WarnsAll(before, after, Pool(cal, order[i], pods, now), now, notice,
      RiskIn(cal, capacity, pods, now, percent, order[i]))
    ensures Warned(cal, capacity, pods, now, percent, notice, order[..i + 1], after)
  {
    assert order[..i + 1] == order[..i] + [order[i]];
    forall p <- pods | p.gpuClass in order[..i + 1] && Risky(cal, capacity, pods, now, percent, p)
      ensures WarnsOf(after, p, now, notice, RiskIn(cal, capacity, pods, now, percent, p.gpuClass))
    {
      PodWarned(cal, capacity, pods, now, percent, notice, order, i, before, after, p);
    }
    forall uid <- after ensures RiskyIn(cal, capacity, pods, now, percent, order[..i + 1], uid) {
      if uid in Uids(Pool(cal, order[i], pods, now)) {
        PooledIsRisky(cal, capacity, pods, now, percent, order, i, uid);
      } else {
        RiskyInMore(cal, capacity, pods, now, percent, order, i, uid);
      }
    }
  }

  lemma PodWarned(
    cal: Calendar, capacity: map<string, int>, pods: seq<PodView>, now: int, percent: nat, notice: nat,
    order: seq<string>, i: nat, before: map<string, Warning>, after: map<string, Warning>, p: PodView)
    requires DistinctUids(pods) && i < |order| && order[i] in capacity && Short(capacity, pods, percent, order[i]) > 0
    requires Warned(cal, capacity, pods, now, percent, notice, order[..i], before)
    requires WarnsAll(before, after, Pool(cal, order[i], pods, now), now, notice,
      RiskIn(cal, capacity, pods, now, percent, order[i]))
    requires p in pods && p.gpuClass in order[..i + 1] && Risky(cal, capacity, pods, now, percent, p)
    ensures WarnsOf(after, p, now, notice, RiskIn(cal, capacity, pods, now, percent, p.gpuClass))
  {
    var cls, pool := order[i], Pool(cal, order[i], pods, now);
    if p.gpuClass == cls {
      PoolOf(cal, capacity, pods, now, percent, cls, p);
      assert p in pool;
    } else {
      OutsidePool(cal, cls, pods, now, p);
      assert p.gpuClass in order[..i];
      assert WarnsOf(before, p, now, notice, RiskIn(cal, capacity, pods, now, percent, p.gpuClass));
    }
  }

  lemma PooledIsRisky(
    cal: Calendar, capacity: map<string, int>, pods: seq<PodView>, now: int, percent: nat, order: seq<string>, i: nat,
    uid: string)
    requires i < |order| && order[i] in capacity && Short(capacity, pods, percent, order[i]) > 0
    requires uid in Uids(Pool(cal, order[i], pods, now))
    ensures RiskyIn(cal, capacity, pods, now, percent, order[..i + 1], uid)
  {
    var p :| p in Pool(cal, order[i], pods, now) && p.uid == uid;
    PoolOf(cal, capacity, pods, now, percent, order[i], p);
    assert order[..i + 1][i] == order[i];
  }

  lemma RiskyInMore(
    cal: Calendar, capacity: map<string, int>, pods: seq<PodView>, now: int, percent: nat, order: seq<string>, i: nat,
    uid: string)
    requires i < |order| && RiskyIn(cal, capacity, pods, now, percent, order[..i], uid)
    ensures RiskyIn(cal, capacity, pods, now, percent, order[..i + 1], uid)
  {
    var p :| p in pods && p.uid == uid && p.gpuClass in order[..i] && Risky(cal, capacity, pods, now, percent, p);
    assert order[..i + 1] == order[..i] + [order[i]];
    assert p.gpuClass in order[..i + 1];
  }

  // -- merging with the boundary warnings -------------------------------------------------------------

  /** The sooner of a boundary warning and a headroom one. */
  function Sooner(boundary: Option<Warning>, headroom: Option<Warning>): Option<Warning> {
    if headroom.Some? && (boundary.None? || headroom.value.at < boundary.value.at) then headroom else boundary
  }

  function WarningOf(warnings: map<string, Warning>, uid: string): Option<Warning> {
    if uid in warnings then Some(warnings[uid]) else None
  }

  /** What is planned for a pod warned of twice: the warning with the earlier deadline, and
      the boundary's where they are equal; a pod warned of once keeps that warning. */
  lemma SoonerExactly(boundary: Option<Warning>, headroom: Option<Warning>)
    ensures var plan := Sooner(boundary, headroom);
      match (boundary, headroom)
      case (None, _) => plan == headroom
      case (_, None) => plan == boundary
      case (Some(b), Some(h)) =>
        plan.Some? && plan.value.at == (if h.at < b.at then h.at else b.at) &&
        plan.value.risk == (if h.at < b.at then h.risk else b.risk)
  {
  }

  method MergeWarnings(boundary: map<string, Warning>, headroom: map<string, Warning>)
    returns (plan: map<string, Warning>)
    ensures forall uid :: WarningOf(plan, uid) == Sooner(WarningOf(boundary, uid), WarningOf(headroom, uid))
  {
    plan := boundary;
    var todo := headroom.Keys;
    while todo != {}
      invariant todo <= headroom.Keys
      invariant forall uid ::
        WarningOf(plan, uid) == if uid in todo then WarningOf(boundary, uid)
                                else Sooner(WarningOf(boundary, uid), WarningOf(headroom, uid))
    {
      var uid :| uid in todo;
      assert WarningOf(plan, uid) == WarningOf(boundary, uid);
      if uid !in plan || headroom[uid].at < plan[uid].at {
        plan := plan[uid := headroom[uid]];
      }
      todo := todo - {uid};
    }
  }

  // -- a pod's deadline over a run of sweeps ------------------------------------------------------------

  /** One sweep: what it read, whom its boundaries and then its headroom doomed,
      what its boundaries warn of, and for which pods the annotation call failed. */
  datatype Tick = Tick(
    cal: Calendar,
    capacity: map<string, int>,
    order: seq<string>,
    pods: seq<PodView>,
    now: int,
    percent: nat,
    notice: nat,
    boundaryDoomed: set<string>,
    doomed: set<string>,
    boundary: map<string, Warning>,
    headroom: map<string, Warning>,
    failed: set<string>)

  ghost predicate ValidTick(t: Tick) {
    && DistinctUids(t.pods) && Lists(t.order, t.capacity.Keys) && t.boundaryDoomed <= t.doomed
    && Warned(t.cal, t.capacity, Sweep.Survivors(t.pods, t.doomed), t.now, t.percent, t.notice, t.order, t.headroom)
  }

  /** The pod survives the tick, past its guarantee, in a class short even after the kills. */
  ghost predicate StaysAtRisk(t: Tick, uid: string) {
    var after := Sweep.Survivors(t.pods, t.doomed);
    exists p <- after :: p.uid == uid && Risky(t.cal, t.capacity, after, t.now, t.percent, p)
  }

  /** The pod is among those the tick's headroom evaluation may kill. */
  ghost predicate IsCandidate(t: Tick, uid: string) {
    var available := Sweep.Survivors(t.pods, t.boundaryDoomed);
    exists p <- available :: p.uid == uid && Risky(t.cal, t.capacity, available, t.now, t.percent, p) && Ripe(p, t.now)
  }

  function PlannedAt(t: Tick, uid: string): Option<int> {
    var plan := Sooner(WarningOf(t.boundary, uid), WarningOf(t.headroom, uid));
    if plan.Some? then Some(plan.value.at) else None
  }

  /** The deadline planned for a pod is the sooner of those its boundary warning and its
      headroom warning name. */
  lemma PlannedExactly(t: Tick, uid: string)
    ensures PlannedAt(t, uid).Some? <==> uid in t.boundary || uid in t.headroom
    ensures uid in t.boundary ==> PlannedAt(t, uid).value <= t.boundary[uid].at
    ensures uid in t.headroom ==> PlannedAt(t, uid).value <= t.headroom[uid].at
    ensures PlannedAt(t, uid).Some? ==>
      || (uid in t.boundary && PlannedAt(t, uid).value == t.boundary[uid].at)
      || (uid in t.headroom && PlannedAt(t, uid).value == t.headroom[uid].at)
  {
    SoonerExactly(WarningOf(t.boundary, uid), WarningOf(t.headroom, uid));
  }

  /** The annotation after the tick: untouched on a doomed pod, what was planned
      otherwise; a call reported as failed may or may not have taken effect. */
  ghost predicate Restamped(t: Tick, uid: string, before: Option<int>, after: Option<int>) {
    if uid in t.doomed then after == before
    else if uid in t.failed then after == before || after == PlannedAt(t, uid)
    else after == PlannedAt(t, uid)
  }

  /** One tick as one pod sees it: the deadline it carries before and after. */
  ghost predicate Step(t: Tick, uid: string, before: Option<int>, after: Option<int>) {
    && ValidTick(t)
    && Carried(t, uid, before)
    && Restamped(t, uid, before, after)
  }

  /** `stamps[k]` is the deadline the pod carries as tick `k` begins. */
  ghost predicate Carries(run: seq<Tick>, uid: string, stamps: seq<Option<int>>) {
    |stamps| == |run| + 1 && forall k :: 0 <= k < |run| ==> Step(run[k], uid, stamps[k], stamps[k + 1])
  }

  ghost predicate Carried(t: Tick, uid: string, stamp: Option<int>) {
    forall p <- t.pods :: p.uid == uid ==> p.warningAt == stamp
  }

  /** A headroom warning keeps the deadline the pod carries, and gives one its notice away
      to a pod that carries none; every pod at risk has one. */
  lemma WarningKeepsDeadline(t: Tick, uid: string, stamp: Option<int>)
    requires ValidTick(t) && Carried(t, uid, stamp)
    ensures uid in t.headroom && stamp.Some? ==> t.headroom[uid].at == stamp.value
    ensures uid in t.headroom && stamp.None? ==> t.headroom[uid].at == t.now + t.notice
    ensures uid in t.headroom ==> t.headroom[uid].at == Deadline(stamp, t.now, t.notice)
    ensures StaysAtRisk(t, uid) ==> uid in t.headroom && uid !in t.doomed
  {
    var left := Sweep.Survivors(t.pods, t.doomed);
    if uid in t.headroom {
      var p :| p in left && p.uid == uid && p.gpuClass in t.order &&
        Risky(t.cal, t.capacity, left, t.now, t.percent, p);
      Sweep.SurvivorsMember(t.pods, t.doomed, p);
      assert WarnsOf(t.headroom, p, t.now, t.notice, RiskIn(t.cal, t.capacity, left, t.now, t.percent, p.gpuClass));
    }
    if StaysAtRisk(t, uid) {
      var p :| p in left && p.uid == uid && Risky(t.cal, t.capacity, left, t.now, t.percent, p);
      Sweep.SurvivorsMember(t.pods, t.doomed, p);
    }
  }

  /** A pod at risk is warned: no later than it already was, or than its notice. */
  lemma PlannedInTime(t: Tick, uid: string, before: Option<int>, after: Option<int>)
    requires Step(t, uid, before, after) && StaysAtRisk(t, uid)
    ensures uid !in t.doomed && PlannedAt(t, uid).Some? && PlannedAt(t, uid).value <= Deadline(before, t.now, t.notice)
  {
    WarningKeepsDeadline(t, uid, before);
    SoonerIsPlanned(t, uid, Deadline(before, t.now, t.notice));
  }

  lemma SoonerIsPlanned(t: Tick, uid: string, deadline: int)
    requires uid in t.headroom && t.headroom[uid].at == deadline
    ensures PlannedAt(t, uid).Some? && PlannedAt(t, uid).value <= deadline
  {
  }

  lemma OnlyHeadroomPlans(t: Tick, uid: string)
    requires uid !in t.boundary
    ensures PlannedAt(t, uid) == if uid in t.headroom then Some(t.headroom[uid].at) else None
  {
  }

  /** While a pod stays at risk, its deadline never recedes, whatever else is
      planned for it and whichever annotation calls fail. */
  lemma DeadlineNeverRecedes(run: seq<Tick>, uid: string, stamps: seq<Option<int>>, i: nat, j: nat)
    requires Carries(run, uid, stamps) && i <= j <= |run| && stamps[i].Some?
    requires forall k :: i <= k < j ==> StaysAtRisk(run[k], uid)
    ensures stamps[j].Some? && stamps[j].value <= stamps[i].value
  {
    forall k | i <= k < j ensures NoLater(stamps[k], stamps[k + 1]) {
      PlannedInTime(run[k], uid, stamps[k], stamps[k + 1]);
    }
    NeverLater(stamps, i, j);
  }

  predicate NoLater(before: Option<int>, after: Option<int>) {
    before.Some? ==> after.Some? && after.value <= before.value
  }

  lemma {:induction false} NeverLater(stamps: seq<Option<int>>, i: nat, j: nat)
    requires i <= j < |stamps| && forall k :: i <= k < j ==> NoLater(stamps[k], stamps[k + 1])
    ensures NoLater(stamps[i], stamps[j])
    decreases j - i
  {
    if i < j {
      NeverLater(stamps, i, j - 1);
    }
  }

  /** The pod is in the pool of a class short once the boundaries' kills are chosen. */
  ghost predicate StandsAtRisk(t: Tick, uid: string) {
    var available := Sweep.Survivors(t.pods, t.boundaryDoomed);
    exists p <- available :: p.uid == uid && Risky(t.cal, t.capacity, available, t.now, t.percent, p)
  }

  /** Fewer pods leave no less free, so a class short after the headroom kills was
      short before them. */
  lemma RiskBeforeKills(t: Tick, uid: string)
    requires t.boundaryDoomed <= t.doomed && StaysAtRisk(t, uid)
    ensures StandsAtRisk(t, uid)
  {
    var after, available := Sweep.Survivors(t.pods, t.doomed), Sweep.Survivors(t.pods, t.boundaryDoomed);
    var p :| p in after && p.uid == uid && Risky(t.cal, t.capacity, after, t.now, t.percent, p);
    Sweep.SurvivorsMember(t.pods, t.doomed, p);
    Sweep.SurvivorsMember(t.pods, t.boundaryDoomed, p);
    FewerHold(t.pods, t.boundaryDoomed, t.doomed, p.gpuClass);
    assert Free(t.capacity, after)[p.gpuClass] >= Free(t.capacity, available)[p.gpuClass];
  }

  lemma {:induction false} FewerHold(pods: seq<PodView>, less: set<string>, more: set<string>, cls: string)
    requires less <= more
    ensures Sum(Sweep.Survivors(pods, more), Occupies(cls)) <= Sum(Sweep.Survivors(pods, less), Occupies(cls))
  {
    if pods != [] {
      FewerHold(pods[1..], less, more, cls);
      var first := (doomed: set<string>) => if pods[0].uid in doomed then [] else [pods[0]];
      SumConcat(first(more), Sweep.Survivors(pods[1..], more), Occupies(cls));
      SumConcat(first(less), Sweep.Survivors(pods[1..], less), Occupies(cls));
    }
  }

  /** The notice ends: a pod warned at tick `i` and at risk up to tick `j`, its
      notice or more after, is a candidate at `j` if it is still in the pool of a
      short class there, whether `j` then kills it, ends the shortage or neither. */
  lemma NoticeRunsOut(run: seq<Tick>, uid: string, stamps: seq<Option<int>>, i: nat, j: nat)
    requires Carries(run, uid, stamps) && i < j < |run| && uid !in run[i].failed
    requires forall k :: i <= k < j ==> StaysAtRisk(run[k], uid)
    requires StandsAtRisk(run[j], uid)
    requires Deadline(stamps[i], run[i].now, run[i].notice) <= run[j].now
    ensures IsCandidate(run[j], uid)
  {
    assert Step(run[i], uid, stamps[i], stamps[i + 1]) && Step(run[j], uid, stamps[j], stamps[j + 1]);
    PlannedInTime(run[i], uid, stamps[i], stamps[i + 1]);
    DeadlineNeverRecedes(run, uid, stamps, i + 1, j);
    StampedIsCandidate(run[j], uid, stamps[j].value);
  }

  lemma StampedIsCandidate(t: Tick, uid: string, stamp: int)
    requires StandsAtRisk(t, uid) && stamp <= t.now
    requires forall p <- t.pods :: p.uid == uid ==> p.warningAt == Some(stamp)
    ensures IsCandidate(t, uid)
  {
    var available := Sweep.Survivors(t.pods, t.boundaryDoomed);
    var p :| p in available && p.uid == uid && Risky(t.cal, t.capacity, available, t.now, t.percent, p);
    Sweep.SurvivorsMember(t.pods, t.boundaryDoomed, p);
  }

  /** Candidates are what the planner offers from the pods the boundaries left. */
  lemma CandidatesAreOffered(t: Tick, need: BoundaryNeed, uid: string)
    requires Lists(t.order, t.capacity.Keys)
    requires IsHeadroomNeed(t.cal, t.capacity, t.order, Sweep.Survivors(t.pods, t.boundaryDoomed), t.now, t.percent,
      true, need)
    ensures IsCandidate(t, uid) <==> exists p :: Offered(need, p) && p.uid == uid
  {
    var available := Sweep.Survivors(t.pods, t.boundaryDoomed);
    forall p: PodView
      ensures Offered(need, p) <==>
        p in available && Risky(t.cal, t.capacity, available, t.now, t.percent, p) && Ripe(p, t.now)
    {
      KillableMember(t.cal, p.gpuClass, available, t.now, true, p);
    }
  }

  /** And not before: a candidate carries a deadline already past; so a pod no
      boundary warns of is a candidate only its notice or more after some earlier
      tick, however often it left and re-entered the pool since. */
  lemma NoticeIsGiven(run: seq<Tick>, uid: string, stamps: seq<Option<int>>, j: nat)
    requires Carries(run, uid, stamps) && j < |run| && IsCandidate(run[j], uid)
    ensures stamps[j].Some? && stamps[j].value <= run[j].now
    ensures stamps[0].None? && (forall k :: 0 <= k < j ==> uid !in run[k].boundary) ==>
      exists i :: 0 <= i < j && run[i].now + run[i].notice <= run[j].now
  {
    var available := Sweep.Survivors(run[j].pods, run[j].boundaryDoomed);
    var p :| p in available && p.uid == uid &&
      Risky(run[j].cal, run[j].capacity, available, run[j].now, run[j].percent, p) && Ripe(p, run[j].now);
    Sweep.SurvivorsMember(run[j].pods, run[j].boundaryDoomed, p);
    assert Step(run[j], uid, stamps[j], stamps[j + 1]);
    assert p.warningAt == stamps[j];
    if stamps[0].None? && forall k :: 0 <= k < j ==> uid !in run[k].boundary {
      var i := StampedByHeadroom(run, uid, stamps, j);
    }
  }

  lemma {:induction false} StampedByHeadroom(run: seq<Tick>, uid: string, stamps: seq<Option<int>>, j: nat)
    returns (i: nat)
    requires Carries(run, uid, stamps) && j <= |run| && stamps[0].None? && stamps[j].Some?
    requires forall k :: 0 <= k < j ==> uid !in run[k].boundary
    ensures i < j && stamps[j].value == run[i].now + run[i].notice
  {
    if stamps[j] == stamps[j - 1] {
      i := StampedByHeadroom(run, uid, stamps, j - 1);
    } else {
      FirstStamp(run[j - 1], uid, stamps[j - 1], stamps[j]);
      i := j - 1;
    }
  }

  lemma FirstStamp(t: Tick, uid: string, before: Option<int>, after: Option<int>)
    requires Step(t, uid, before, after) && uid !in t.boundary && after.Some? && after != before
    ensures after.value == t.now + t.notice
  {
    assert after == PlannedAt(t, uid);
    OnlyHeadroomPlans(t, uid);
    WarningKeepsDeadline(t, uid, before);
  }
}
