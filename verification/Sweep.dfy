/** The boundary loop of one preemption sweep: whatever selector picks the
    victims, every evaluated boundary ends up covered (app/main.py). */
module Sweep {
  import opened Sums
  import opened Pods
  import opened Reservations
  import opened Occupancy
  import opened Preemption

  function Survivors(pods: seq<PodView>, doomed: set<string>): seq<PodView> {
    if pods == [] then [] else
    (if pods[0].uid in doomed then [] else [pods[0]]) + Survivors(pods[1..], doomed)
  }

  lemma {:induction false} SurvivorsMember(pods: seq<PodView>, doomed: set<string>, p: PodView)
    ensures p in Survivors(pods, doomed) <==> p in pods && p.uid !in doomed
  {
    if pods != [] {
      SurvivorsMember(pods[1..], doomed, p);
    }
  }

  lemma {:induction false} SurvivorsDistinct(pods: seq<PodView>, doomed: set<string>)
    requires DistinctUids(pods)
    ensures DistinctUids(Survivors(pods, doomed))
  {
    if pods != [] {
      SurvivorsDistinct(pods[1..], doomed);
      var rest := Survivors(pods[1..], doomed);
      forall i | 0 <= i < |rest| ensures rest[i].uid != pods[0].uid {
        SurvivorsMember(pods[1..], doomed, rest[i]);
      }
    }
  }

  lemma {:induction false} SurvivorsTwice(pods: seq<PodView>, a: set<string>, b: set<string>)
    ensures Survivors(Survivors(pods, a), b) == Survivors(pods, a + b)
  {
    if pods != [] {
      SurvivorsTwice(pods[1..], a, b);
      var rest := Survivors(pods[1..], a);
      assert ([pods[0]] + rest)[1..] == rest && [] + rest == rest;
    }
  }

  lemma {:induction false} NoneDoomed(pods: seq<PodView>, doomed: set<string>)
    requires forall p <- pods :: p.uid !in doomed
    ensures Survivors(pods, doomed) == pods
  {
    if pods != [] {
      NoneDoomed(pods[1..], doomed);
    }
  }

  /** Dooming one pod takes exactly its own term out of any sum. */
  lemma {:induction false} DoomOne(pods: seq<PodView>, v: PodView, f: PodView -> int)
    requires DistinctUids(pods) && v in pods
    ensures Sum(Survivors(pods, {v.uid}), f) == Sum(pods, f) - f(v)
  {
    if v == pods[0] {
      NoneDoomed(pods[1..], {v.uid});
      assert [] + pods[1..] == pods[1..];
    } else {
      DoomOne(pods[1..], v, f);
      var rest := Survivors(pods[1..], {v.uid});
      assert ([pods[0]] + rest)[1..] == rest;
    }
  }

  lemma {:induction false} Doom(pods: seq<PodView>, victims: seq<PodView>, f: PodView -> int)
    requires DistinctUids(pods) && DistinctUids(victims) && forall v <- victims :: v in pods
    ensures Sum(Survivors(pods, Uids(victims)), f) == Sum(pods, f) - Sum(victims, f)
    decreases |victims|
  {
    if victims == [] {
      NoneDoomed(pods, Uids(victims));
    } else {
      var v, rest := victims[0], victims[1..];
      DoomOne(pods, v, f);
      var left := Survivors(pods, {v.uid});
      SurvivorsDistinct(pods, {v.uid});
      forall w <- rest ensures w in left {
        SurvivorsMember(pods, {v.uid}, w);
      }
      Doom(left, rest, f);
      SurvivorsTwice(pods, {v.uid}, Uids(rest));
      UidsCons(v, rest);
      assert victims == [v] + rest;
    }
  }

  lemma UidsCons(v: PodView, rest: seq<PodView>)
    ensures Uids([v] + rest) == {v.uid} + Uids(rest)
  {
    assert forall p :: p in [v] + rest <==> p == v || p in rest;
  }

  lemma UidsConcat(a: seq<PodView>, b: seq<PodView>)
    ensures Uids(a + b) == Uids(a) + Uids(b)
  {
    assert forall p :: p in a + b <==> p in a || p in b;
  }

  // -- removing victims never raises demand --------------------------------------------

  /** No booking that opens at the boundary with budget left is itself past its
      guarantee already. */
  ghost predicate Steady(cal: Calendar, occ: Occupied, boundary: int, now: int) {
    forall r <- cal.reservations :: Opens(cal, boundary, r) && Available(occ, r, None) > 0
      ==> !cal.PastGuarantee(Some(r.id), now)
  }

  ghost predicate AllVictims(cal: Calendar, pods: seq<PodView>, victims: seq<PodView>, now: int) {
    DistinctUids(victims) && forall v <- victims :: v in pods && Preemptable(cal, v.gpuClass, v, now)
  }

  lemma VictimsDoNotChain(cal: Calendar, pods: seq<PodView>, victims: seq<PodView>, now: int, rid: int)
    requires cal.WellFormed() && AllVictims(cal, pods, victims, now)
    requires !cal.PastGuarantee(Some(rid), now)
    ensures Sum(victims, ChainsOnto(cal, now, rid)) == 0
  {
    forall v <- victims ensures ChainsOnto(cal, now, rid)(v) == 0 {
      PastGuaranteeClaimsItself(cal, v.reservationId.value, now);
    }
    SumSame(victims, ChainsOnto(cal, now, rid), Nothing());
    SumNothing(victims);
  }

  lemma RemovalKeepsDemand(
    cal: Calendar, occ: Occupied, boundary: int, pods: seq<PodView>, victims: seq<PodView>, now: int, cls: string)
    requires cal.WellFormed() && DistinctUids(pods) && AllVictims(cal, pods, victims, now)
    requires Steady(cal, occ, boundary, now)
    ensures Demand(cal, occ, boundary, Survivors(pods, Uids(victims)), now, cls)
      == Demand(cal, occ, boundary, pods, now, cls)
  {
    var after := Survivors(pods, Uids(victims));
    forall r <- cal.reservations
      ensures NeedAt(cal, occ, boundary, after, now, cls)(r) == NeedAt(cal, occ, boundary, pods, now, cls)(r)
    {
      if Opens(cal, boundary, r) {
        if Available(occ, r, None) > 0 {
          VictimsDoNotChain(cal, pods, victims, now, r.id);
          Doom(pods, victims, ChainsOnto(cal, now, r.id));
        } else {
          SumNonNegative(after, ChainsOnto(cal, now, r.id));
          SumNonNegative(pods, ChainsOnto(cal, now, r.id));
        }
      }
    }
    SumSame(cal.reservations, NeedAt(cal, occ, boundary, after, now, cls), NeedAt(cal, occ, boundary, pods, now, cls));
  }

  ghost predicate NeverRaisesDemand(cal: Calendar, occ: Occupied, boundary: int, now: int) {
    forall pods: seq<PodView>, v: PodView, cls: string ::
      DistinctUids(pods) && v in pods && Preemptable(cal, v.gpuClass, v, now)
      ==> Demand(cal, occ, boundary, Survivors(pods, {v.uid}), now, cls) <= Demand(cal, occ, boundary, pods, now, cls)
  }

  /** The condition is exact: removing pods past their guarantee can never raise a
      boundary's demand if and only if the boundary is steady. */
  lemma SteadyExactly(cal: Calendar, occ: Occupied, boundary: int, now: int)
    requires cal.WellFormed()
    ensures Steady(cal, occ, boundary, now) <==> NeverRaisesDemand(cal, occ, boundary, now)
  {
    if Steady(cal, occ, boundary, now) {
      forall pods: seq<PodView>, v: PodView, cls: string
        | DistinctUids(pods) && v in pods && Preemptable(cal, v.gpuClass, v, now)
        ensures Demand(cal, occ, boundary, Survivors(pods, {v.uid}), now, cls)
          <= Demand(cal, occ, boundary, pods, now, cls)
      {
        assert Uids([v]) == {v.uid};
        RemovalKeepsDemand(cal, occ, boundary, pods, [v], now, cls);
      }
    } else {
      var r :| r in cal.reservations && Opens(cal, boundary, r) && Available(occ, r, None) > 0 &&
        cal.PastGuarantee(Some(r.id), now);
      OverstayingHolder(cal, occ, boundary, now, r);
    }
  }

  /** A holder that overstays a booking opening at this very boundary still counts
      towards it, so preempting the holder raises the demand. */
  lemma OverstayingHolder(cal: Calendar, occ: Occupied, boundary: int, now: int, r: Reservation)
    requires cal.WellFormed() && r in cal.reservations && Opens(cal, boundary, r)
    requires Available(occ, r, None) > 0 && cal.PastGuarantee(Some(r.id), now)
    ensures !NeverRaisesDemand(cal, occ, boundary, now)
  {
    var cls := cal.EffectiveLabel(r).value;
    var v := PodView("v", "", cls, 1, Some(r.id), true, false, None, None, None, false);
    forall x <- cal.reservations
      ensures Chained(cal, [v], now, x.id) == (if x == r then 1 else 0) && Chained(cal, [], now, x.id) == 0
    {
      LoneHolder(cal, now, r, v, x);
    }
    HolderLowersDemand(cal, occ, boundary, now, r, v, cls);
    OneVictimRefutes(cal, occ, boundary, now, v, cls);
  }

  lemma OneVictimRefutes(cal: Calendar, occ: Occupied, boundary: int, now: int, v: PodView, cls: string)
    requires Preemptable(cal, v.gpuClass, v, now)
    requires Demand(cal, occ, boundary, [v], now, cls) < Demand(cal, occ, boundary, [], now, cls)
    ensures !NeverRaisesDemand(cal, occ, boundary, now)
  {
    assert [v][1..] == [];
    assert Survivors([v], {v.uid}) == [];
    assert v in [v] && DistinctUids([v]);
  }

  lemma HolderLowersDemand(
    cal: Calendar, occ: Occupied, boundary: int, now: int, r: Reservation, v: PodView, cls: string)
    requires r in cal.reservations && Opens(cal, boundary, r) && Available(occ, r, None) > 0
    requires cal.EffectiveLabel(r) == Some(cls)
    requires forall x <- cal.reservations ::
      Chained(cal, [v], now, x.id) == (if x == r then 1 else 0) && Chained(cal, [], now, x.id) == 0
    ensures Demand(cal, occ, boundary, [v], now, cls) < Demand(cal, occ, boundary, [], now, cls)
  {
    SumStrict(cal.reservations, r, NeedAt(cal, occ, boundary, [v], now, cls), NeedAt(cal, occ, boundary, [], now, cls));
  }

  lemma LoneHolder(cal: Calendar, now: int, r: Reservation, v: PodView, x: Reservation)
    requires cal.WellFormed() && r in cal.reservations && x in cal.reservations
    requires cal.PastGuarantee(Some(r.id), now) && Holding(v) && v.gpuCount == 1 && v.reservationId == Some(r.id)
    ensures Chained(cal, [v], now, x.id) == if x == r then 1 else 0
    ensures Chained(cal, [], now, x.id) == 0
  {
    PastGuaranteeClaimsItself(cal, r.id, now);
    FoundById(cal, r);
    FoundById(cal, x);
    var f := ChainsOnto(cal, now, x.id);
    assert [v][1..] == [] && Sum([v], f) == f(v) + Sum([v][1..], f);
  }

  /** In particular when every booking that starts there is still running. */
  lemma RunningBookingsAreSteady(cal: Calendar, occ: Occupied, boundary: int, now: int)
    requires cal.WellFormed()
    requires forall r <- cal.reservations :: r.kind.Booking? && r.start == boundary ==> r.end > now
    ensures Steady(cal, occ, boundary, now)
  {
    forall r <- cal.reservations | Opens(cal, boundary, r) ensures !cal.PastGuarantee(Some(r.id), now) {
      FoundById(cal, r);
      PastGuaranteeExactly(cal, r.id, now);
      if cal.WholeChain(r) != [] {
        WholeChainAscends(cal, r, 0);
      }
    }
  }

  // -- coverage ------------------------------------------------------------------------

  /** Every class with known capacity that is wanted at the boundary has the GPUs
      free, but for what was reported unmet. */
  ghost predicate Covered(
    cal: Calendar, occ: Occupied, boundary: int, capacity: map<string, int>, pods: seq<PodView>, now: int,
    unmet: map<string, int>)
  {
    forall cls <- capacity :: CoveredFor(cal, occ, boundary, capacity, pods, now, unmet, cls)
  }

  ghost predicate CoveredFor(
    cal: Calendar, occ: Occupied, boundary: int, capacity: map<string, int>, pods: seq<PodView>, now: int,
    unmet: map<string, int>, cls: string)
    requires cls in capacity
  {
    var demand := Demand(cal, occ, boundary, pods, now, cls);
    demand > 0 ==> demand <= Free(capacity, pods)[cls] + Get(unmet, cls)
  }

  lemma NeedOffers(
    cal: Calendar, occ: Occupied, boundary: int, capacity: map<string, int>, pods: seq<PodView>, now: int,
    need: BoundaryNeed)
    requires DistinctUids(pods) && IsNeed(cal, occ, boundary, capacity, pods, now, need)
    ensures Offers(need)
    ensures forall p :: Offered(need, p) ==> p in pods && Preemptable(cal, p.gpuClass, p, now)
  {
    forall c <- need.candidates
      ensures DistinctUids(need.candidates[c]) && forall p <- need.candidates[c] :: p.gpuClass == c
    {
      PoolDistinct(cal, c, pods, now);
      forall p <- need.candidates[c] ensures p.gpuClass == c {
        PoolMember(cal, c, pods, now, p);
      }
    }
    forall p | Offered(need, p) ensures p in pods && Preemptable(cal, p.gpuClass, p, now) {
      PoolMember(cal, p.gpuClass, pods, now, p);
    }
  }

  /** The victims of any legal choice are distinct preemptable pods. */
  lemma ChoiceIsVictims(
    cal: Calendar, occ: Occupied, boundary: int, capacity: map<string, int>, pods: seq<PodView>, now: int,
    need: BoundaryNeed, selected: map<string, seq<PodView>>)
    requires DistinctUids(pods) && IsNeed(cal, occ, boundary, capacity, pods, now, need) && Legal(need, selected)
    ensures AllVictims(cal, pods, Join(selected, need.classes), now) && Distinct(selected)
  {
    NeedOffers(cal, occ, boundary, capacity, pods, now, need);
    LegalIsDistinct(need, selected);
    JoinedVictims(selected, need.classes, "");
    forall v <- Join(selected, need.classes) ensures v in pods && Preemptable(cal, v.gpuClass, v, now) {
      assert Picked(selected, v) && Offered(need, v);
    }
  }

  lemma KillsFreeGpus(
    cal: Calendar, capacity: map<string, int>, pods: seq<PodView>, victims: seq<PodView>, now: int, cls: string)
    requires DistinctUids(pods) && AllVictims(cal, pods, victims, now) && cls in capacity
    ensures Free(capacity, Survivors(pods, Uids(victims)))[cls]
      == Free(capacity, pods)[cls] + Sum(victims, InClass(cls))
    ensures Sum(victims, InClass(cls)) >= 0
  {
    Doom(pods, victims, Occupies(cls));
    SumSame(victims, Occupies(cls), InClass(cls));
    SumNonNegative(victims, InClass(cls));
  }

  /** Any legal choice covers the boundary it was made for. */
  lemma ChoiceCovers(
    cal: Calendar, occ: Occupied, boundary: int, capacity: map<string, int>, pods: seq<PodView>, now: int,
    need: BoundaryNeed, selected: map<string, seq<PodView>>)
    requires cal.WellFormed() && DistinctUids(pods) && Steady(cal, occ, boundary, now)
    requires IsNeed(cal, occ, boundary, capacity, pods, now, need) && Legal(need, selected)
    ensures Covered(cal, occ, boundary, capacity, Survivors(pods, Uids(Join(selected, need.classes))), now,
                    Unmet(need.killsNeeded, selected))
  {
    ChoiceIsVictims(cal, occ, boundary, capacity, pods, now, need, selected);
    forall cls <- capacity
      ensures CoveredFor(cal, occ, boundary, capacity, Survivors(pods, Uids(Join(selected, need.classes))), now,
        Unmet(need.killsNeeded, selected), cls)
    {
      ChoiceCoversClass(cal, occ, boundary, capacity, pods, now, need, selected, cls);
    }
  }

  lemma ChoiceCoversClass(
    cal: Calendar, occ: Occupied, boundary: int, capacity: map<string, int>, pods: seq<PodView>, now: int,
    need: BoundaryNeed, selected: map<string, seq<PodView>>, cls: string)
    requires cal.WellFormed() && DistinctUids(pods) && Steady(cal, occ, boundary, now) && cls in capacity
    requires IsNeed(cal, occ, boundary, capacity, pods, now, need) && Distinct(selected)
    requires AllVictims(cal, pods, Join(selected, need.classes), now)
    ensures CoveredFor(cal, occ, boundary, capacity, Survivors(pods, Uids(Join(selected, need.classes))), now,
      Unmet(need.killsNeeded, selected), cls)
  {
    var victims := Join(selected, need.classes);
    RemovalKeepsDemand(cal, occ, boundary, pods, victims, now, cls);
    if Demand(cal, occ, boundary, pods, now, cls) > 0 {
      NeedIsMet(cal, occ, boundary, capacity, pods, now, need, selected, cls);
      KillsFreeGpus(cal, capacity, pods, victims, now, cls);
      JoinedVictims(selected, need.classes, cls);
    }
  }

  /** What is free, chosen and reported unmet adds up to the demand. */
  lemma NeedIsMet(
    cal: Calendar, occ: Occupied, boundary: int, capacity: map<string, int>, pods: seq<PodView>, now: int,
    need: BoundaryNeed, selected: map<string, seq<PodView>>, cls: string)
    requires IsNeed(cal, occ, boundary, capacity, pods, now, need) && cls in capacity
    requires Demand(cal, occ, boundary, pods, now, cls) > 0
    ensures Demand(cal, occ, boundary, pods, now, cls) <= Free(capacity, pods)[cls]
              + (if cls in need.classes then Killed(selected, cls) else 0) + Get(Unmet(need.killsNeeded, selected), cls)
  {
    assert Get(need.demand, cls) == Demand(cal, occ, boundary, pods, now, cls);
    assert cls in need.demand;
  }

  /** And later kills of the sweep do not undo it. */
  lemma KillsKeepCovered(
    cal: Calendar, occ: Occupied, boundary: int, capacity: map<string, int>, pods: seq<PodView>, now: int,
    unmet: map<string, int>, victims: seq<PodView>)
    requires cal.WellFormed() && DistinctUids(pods) && Steady(cal, occ, boundary, now)
    requires AllVictims(cal, pods, victims, now)
    requires Covered(cal, occ, boundary, capacity, pods, now, unmet)
    ensures Covered(cal, occ, boundary, capacity, Survivors(pods, Uids(victims)), now, unmet)
  {
    forall cls <- capacity
      ensures var after := Survivors(pods, Uids(victims));
        Demand(cal, occ, boundary, after, now, cls) == Demand(cal, occ, boundary, pods, now, cls)
        && Free(capacity, after)[cls] >= Free(capacity, pods)[cls]
    {
      RemovalKeepsDemand(cal, occ, boundary, pods, victims, now, cls);
      KillsFreeGpus(cal, capacity, pods, victims, now, cls);
    }
  }

  // -- the loop --------------------------------------------------------------------------

  type Fired = map<int, set<Phase>>

  function FiredAt(fired: Fired, boundary: int): set<Phase> {
    if boundary in fired then fired[boundary] else {}
  }

  function MarkAll(fired: Fired, questions: seq<Question>, now: int): Fired {
    if questions == [] then fired else
    var b := questions[|questions| - 1].boundary;
    var before := MarkAll(fired, questions[..|questions| - 1], now);
    before[b := FiredAt(before, b) + {PhaseOf(b, now)}]
  }

  /** The marks left once those of boundaries gone out of scope are dropped. */
  function Pruned(fired: Fired, now: int, lead: nat): Fired {
    map b | b in fired && now - lead < b :: fired[b]
  }

  class PreemptionMarks {
    var fired: Fired

    constructor ()
      ensures fired == map[]
    {
      fired := map[];
    }

    method Prune(now: int, lead: nat)
      modifies this
      ensures fired == Pruned(old(fired), now, lead)
    {
      var stale := set b | b in fired && b <= now - lead;
      fired := fired - stale;
    }

    /** Marks the boundary's current phase, and says whether it was marked before. */
    method Fire(boundary: int, now: int) returns (already: bool)
      modifies this
      ensures already <==> PhaseOf(boundary, now) in FiredAt(old(fired), boundary)
      ensures fired == old(fired)[boundary := FiredAt(old(fired), boundary) + {PhaseOf(boundary, now)}]
    {
      already := PhaseOf(boundary, now) in FiredAt(fired, boundary);
      fired := fired[boundary := FiredAt(fired, boundary) + {PhaseOf(boundary, now)}];
    }
  }

  /** A boundary in scope, the app's answer if it gives one, and the occupancy map as
      admissions and releases leave it while the answer is awaited. */
  datatype Question = Question(boundary: int, answer: Option<seq<string>>, meanwhile: Option<Occupied>)

  /** One evaluated boundary: the occupancy it saw, and what was left unmet. */
  datatype Outcome = Outcome(question: Question, seen: Occupied, unmet: map<string, int>)

  /** Each boundary is covered, measured by the occupancy it was evaluated on. */
  ghost predicate AllCovered(
    cal: Calendar, capacity: map<string, int>, survivors: seq<PodView>, now: int, outcomes: seq<Outcome>)
  {
    forall o <- outcomes :: Steady(cal, o.seen, o.question.boundary, now) ==>
      Covered(cal, o.seen, o.question.boundary, capacity, survivors, now, o.unmet)
  }

  /** What holds between two boundaries of the loop. */
  ghost predicate Progress(
    cal: Calendar, capacity: map<string, int>, pods: seq<PodView>, now: int,
    victims: seq<PodView>, outcomes: seq<Outcome>)
  {
    && AllVictims(cal, pods, victims, now)
    && AllCovered(cal, capacity, Survivors(pods, Uids(victims)), now, outcomes)
  }

  /** How one boundary's victims and outcome come about. */
  ghost predicate Cleared(
    cal: Calendar, capacity: map<string, int>, pods: seq<PodView>, now: int,
    shuffle: seq<PodView> -> seq<PodView>, victims: seq<PodView>, outcome: Outcome)
  {
    exists need, selected ::
      && IsNeed(cal, outcome.seen, outcome.question.boundary, capacity, pods, now, need)
      && Offers(need) && ChosenBy(need, outcome.question.answer, shuffle, selected)
      && victims == Join(selected, need.classes)
      && outcome.unmet == Unmet(need.killsNeeded, selected)
  }

  /** One boundary against the pods not yet doomed. */
  method ClearBoundary(
    cal: Calendar, held: OccupancyMap, capacity: map<string, int>, pods: seq<PodView>, q: Question, now: int,
    shuffle: seq<PodView> -> seq<PodView>)
    returns (victims: seq<PodView>, outcome: Outcome)
    requires cal.WellFormed() && DistinctUids(pods) && Shuffles(shuffle)
    ensures outcome.question == q && outcome.seen == held.occupancy
    ensures Progress(cal, capacity, pods, now, victims, [outcome])
    ensures Cleared(cal, capacity, pods, now, shuffle, victims, outcome)
  {
    ghost var occ := held.occupancy;
    var need := PlanBoundaryCandidates(cal, held, q.boundary, capacity, pods, now);
    NeedOffers(cal, occ, q.boundary, capacity, pods, now, need);
    var selected := SelectVictims(need, q.answer, shuffle);
    var plan := BuildPreemptionPlan(need, selected);
    ChoiceIsVictims(cal, occ, q.boundary, capacity, pods, now, need, selected);
    if Steady(cal, occ, q.boundary, now) {
      ChoiceCovers(cal, occ, q.boundary, capacity, pods, now, need, selected);
    }
    victims, outcome := plan.victims, Outcome(q, held.occupancy, plan.unmet);
  }

  /** The victims are those of the outcomes in turn, each boundary cleared against
      the pods the earlier ones left. */
  ghost predicate Swept(
    cal: Calendar, capacity: map<string, int>, pods: seq<PodView>, now: int,
    shuffle: seq<PodView> -> seq<PodView>, victims: seq<PodView>, outcomes: seq<Outcome>)
    decreases |outcomes|
  {
    if outcomes == [] then victims == [] else
    exists k :: 0 <= k <= |victims|
      && Swept(cal, capacity, pods, now, shuffle, victims[..k], outcomes[..|outcomes| - 1])
      && Cleared(cal, capacity, Survivors(pods, Uids(victims[..k])), now, shuffle, victims[k..],
        outcomes[|outcomes| - 1])
  }

  lemma SweptStep(
    cal: Calendar, capacity: map<string, int>, pods: seq<PodView>, now: int,
    shuffle: seq<PodView> -> seq<PodView>, victims: seq<PodView>, outcomes: seq<Outcome>, more: seq<PodView>,
    outcome: Outcome)
    requires Swept(cal, capacity, pods, now, shuffle, victims, outcomes)
    requires Cleared(cal, capacity, Survivors(pods, Uids(victims)), now, shuffle, more, outcome)
    ensures Swept(cal, capacity, pods, now, shuffle, victims + more, outcomes + [outcome])
  {
    var all := victims + more;
    assert all[..|victims|] == victims && all[|victims|..] == more;
    assert (outcomes + [outcome])[..|outcomes|] == outcomes;
  }

  lemma Continue(
    cal: Calendar, capacity: map<string, int>, pods: seq<PodView>, victims: seq<PodView>,
    more: seq<PodView>,
    now: int)
    requires DistinctUids(pods) && AllVictims(cal, pods, victims, now)
    requires AllVictims(cal, Survivors(pods, Uids(victims)), more, now)
    ensures AllVictims(cal, pods, victims + more, now)
    ensures Survivors(Survivors(pods, Uids(victims)), Uids(more)) == Survivors(pods, Uids(victims + more))
  {
    UidsConcat(victims, more);
    SurvivorsTwice(pods, Uids(victims), Uids(more));
    forall v <- more ensures v in pods && v.uid !in Uids(victims) {
      SurvivorsMember(pods, Uids(victims), v);
    }
    DistinctConcat(victims, more);
  }

  lemma OneMoreBoundary(
    cal: Calendar, capacity: map<string, int>, pods: seq<PodView>, now: int,
    victims: seq<PodView>, outcomes: seq<Outcome>, outcome: Outcome, more: seq<PodView>)
    requires cal.WellFormed() && DistinctUids(pods) && Progress(cal, capacity, pods, now, victims, outcomes)
    requires Progress(cal, capacity, Survivors(pods, Uids(victims)), now, more, [outcome])
    ensures Progress(cal, capacity, pods, now, victims + more, outcomes + [outcome])
  {
    var available := Survivors(pods, Uids(victims));
    SurvivorsDistinct(pods, Uids(victims));
    Continue(cal, capacity, pods, victims, more, now);
    forall o <- outcomes + [outcome] | Steady(cal, o.seen, o.question.boundary, now)
      ensures Covered(cal, o.seen, o.question.boundary, capacity, Survivors(available, Uids(more)), now, o.unmet)
    {
      if o in outcomes {
        KillsKeepCovered(cal, o.seen, o.question.boundary, capacity, available, now, o.unmet, more);
      } else {
        assert o in [outcome];
      }
    }
  }

  /** What a sweep evaluates: the boundaries whose phase has not fired yet. */
  function Evaluated(fired: Fired, questions: seq<Question>, now: int): seq<Question> {
    if questions == [] then [] else
    var init, q := questions[..|questions| - 1], questions[|questions| - 1];
    var already := PhaseOf(q.boundary, now) in FiredAt(MarkAll(fired, init, now), q.boundary);
    Evaluated(fired, init, now) + (if already then [] else [q])
  }

  lemma {:induction false} EvaluatedExactly(fired: Fired, questions: seq<Question>, now: int, b: int)
    ensures (exists q :: q in Evaluated(fired, questions, now) && q.boundary == b) <==>
            (exists q :: q in questions && q.boundary == b) && PhaseOf(b, now) !in FiredAt(fired, b)
    ensures PhaseOf(b, now) in FiredAt(MarkAll(fired, questions, now), b) <==>
            PhaseOf(b, now) in FiredAt(fired, b) || exists q :: q in questions && q.boundary == b
  {
    if questions != [] {
      var init, last := questions[..|questions| - 1], questions[|questions| - 1];
      EvaluatedExactly(fired, init, now, b);
      assert forall q :: q in questions <==> q in init || q == last;
    }
  }

  // -- which sweeps look at a boundary ------------------------------------------------------

  /** One sweep of a run. */
  datatype Pass = Pass(questions: seq<Question>, now: int)

  function MarksAfter(passes: seq<Pass>, lead: nat): Fired {
    if passes == [] then map[] else
    var last := passes[|passes| - 1];
    MarkAll(Pruned(MarksAfter(passes[..|passes| - 1], lead), last.now, lead), last.questions, last.now)
  }

  ghost predicate Asks(pass: Pass, b: int) {
    exists q :: q in pass.questions && q.boundary == b
  }

  /** Sweeps follow one another, each asking about boundaries less than the lead time
      past and at most the lead time ahead. */
  ghost predicate PassesInOrder(passes: seq<Pass>, lead: nat) {
    && (forall i, j :: 0 <= i < j < |passes| ==> passes[i].now <= passes[j].now)
    && (forall i, b :: 0 <= i < |passes| && Asks(passes[i], b) ==> passes[i].now - lead < b <= passes[i].now + lead)
  }

  lemma {:induction false} MarkedExactly(fired: Fired, questions: seq<Question>, now: int, b: int, phase: Phase)
    ensures phase in FiredAt(MarkAll(fired, questions, now), b) <==>
      phase in FiredAt(fired, b) || (phase == PhaseOf(b, now) && exists q :: q in questions && q.boundary == b)
  {
    if questions != [] {
      var init, last := questions[..|questions| - 1], questions[|questions| - 1];
      MarkedExactly(fired, init, now, b, phase);
      assert forall q :: q in questions <==> q in init || q == last;
    }
  }

  /** While a boundary is in scope no mark of it is lost. */
  lemma {:induction false} MarksStay(passes: seq<Pass>, lead: nat, b: int, phase: Phase)
    requires PassesInOrder(passes, lead) && (passes != [] ==> passes[|passes| - 1].now - lead < b)
    ensures phase in FiredAt(MarksAfter(passes, lead), b) <==>
      exists i :: 0 <= i < |passes| && Asks(passes[i], b) && PhaseOf(b, passes[i].now) == phase
  {
    if passes != [] {
      var init, last := passes[..|passes| - 1], passes[|passes| - 1];
      MarksStay(init, lead, b, phase);
      MarkedExactly(Pruned(MarksAfter(init, lead), last.now, lead), last.questions, last.now, b, phase);
      assert forall i :: 0 <= i < |init| ==> passes[i] == init[i];
    }
  }

  /** Over any run of sweeps each boundary is looked at once before it comes and once
      from then on: a sweep asked about it looks at it exactly when every earlier sweep
      asked about it came before the boundary and this one does not. */
  lemma OncePerSide(passes: seq<Pass>, lead: nat, k: nat, b: int)
    requires PassesInOrder(passes, lead) && k < |passes| && Asks(passes[k], b)
    ensures var marks := Pruned(MarksAfter(passes[..k], lead), passes[k].now, lead);
      (exists q :: q in Evaluated(marks, passes[k].questions, passes[k].now) && q.boundary == b) <==>
      forall i :: 0 <= i < k && Asks(passes[i], b) ==> passes[i].now < b <= passes[k].now
  {
    var marks := Pruned(MarksAfter(passes[..k], lead), passes[k].now, lead);
    EvaluatedExactly(marks, passes[k].questions, passes[k].now, b);
    MarksStay(passes[..k], lead, b, PhaseOf(b, passes[k].now));
    assert forall i :: 0 <= i < k ==> passes[..k][i] == passes[i];
  }

  function AfterQuestion(occ: Occupied, q: Question): Occupied {
    if q.meanwhile.Some? then q.meanwhile.value else occ
  }

  /** The occupancy once these questions have been put and answered. */
  function AfterQuestions(occ: Occupied, questions: seq<Question>): Occupied {
    if questions == [] then occ else
    AfterQuestion(AfterQuestions(occ, questions[..|questions| - 1]), questions[|questions| - 1])
  }

  function Asked(outcomes: seq<Outcome>): seq<Question> {
    seq(|outcomes|, i requires 0 <= i < |outcomes| => outcomes[i].question)
  }

  /** Each outcome saw the occupancy the questions before it left. */
  ghost predicate SawInTurn(start: Occupied, outcomes: seq<Outcome>) {
    forall i :: 0 <= i < |outcomes| ==> outcomes[i].seen == AfterQuestions(start, Asked(outcomes)[..i])
  }

  ghost predicate SoFar(
    cal: Calendar, start: Occupied, capacity: map<string, int>, pods: seq<PodView>, now: int,
    shuffle: seq<PodView> -> seq<PodView>, victims: seq<PodView>, outcomes: seq<Outcome>)
  {
    && Progress(cal, capacity, pods, now, victims, outcomes)
    && Swept(cal, capacity, pods, now, shuffle, victims, outcomes)
    && SawInTurn(start, outcomes)
  }

  /** One turn of the loop, against the pods the victims so far leave; admissions and
      releases go on while the answer is awaited. */
  method SweepBoundary(
    cal: Calendar, held: OccupancyMap, ghost start: Occupied, capacity: map<string, int>, pods: seq<PodView>,
    victims: seq<PodView>, ghost outcomes: seq<Outcome>, q: Question, now: int, shuffle: seq<PodView> -> seq<PodView>)
    returns (more: seq<PodView>, outcome: Outcome)
    requires cal.WellFormed() && DistinctUids(pods) && Shuffles(shuffle)
    requires SoFar(cal, start, capacity, pods, now, shuffle, victims, outcomes)
    requires held.occupancy == AfterQuestions(start, Asked(outcomes))
    modifies held
    ensures SoFar(cal, start, capacity, pods, now, shuffle, victims + more, outcomes + [outcome])
    ensures outcome.question == q
    ensures held.occupancy == AfterQuestions(start, Asked(outcomes + [outcome]))
  {
    var available := Survivors(pods, Uids(victims));
    SurvivorsDistinct(pods, Uids(victims));
    more, outcome := ClearBoundary(cal, held, capacity, available, q, now, shuffle);
    OneMoreBoundary(cal, capacity, pods, now, victims, outcomes, outcome, more);
    SweptStep(cal, capacity, pods, now, shuffle, victims, outcomes, more, outcome);
    SawOneMore(start, outcomes, outcome);
    if q.meanwhile.Some? {
      held.occupancy := q.meanwhile.value;
    }
  }

  /** After the loop every evaluated boundary that is steady is covered by the surviving
      pods, measured by the occupancy it was evaluated on; no pod was chosen twice, and
      none inside its guarantee. */
  method ClearBoundaries(
    marks: PreemptionMarks, cal: Calendar, held: OccupancyMap, capacity: map<string, int>, pods: seq<PodView>,
    questions: seq<Question>, now: int, shuffle: seq<PodView> -> seq<PodView>)
    returns (victims: seq<PodView>, outcomes: seq<Outcome>)
    requires cal.WellFormed() && DistinctUids(pods) && Shuffles(shuffle)
    modifies marks, held
    ensures SoFar(cal, old(held.occupancy), capacity, pods, now, shuffle, victims, outcomes)
    ensures marks.fired == MarkAll(old(marks.fired), questions, now)
    ensures Asked(outcomes) == Evaluated(old(marks.fired), questions, now)
    ensures held.occupancy == AfterQuestions(old(held.occupancy), Asked(outcomes))
  {
    victims, outcomes := [], [];
    NoneDoomed(pods, Uids(victims));
    ghost var start, fired := held.occupancy, marks.fired;
    for i := 0 to |questions|
      invariant SoFar(cal, start, capacity, pods, now, shuffle, victims, outcomes)
      invariant held.occupancy == AfterQuestions(start, Asked(outcomes))
      invariant marks.fired == MarkAll(fired, questions[..i], now)
      invariant Asked(outcomes) == Evaluated(fired, questions[..i], now)
    {
      OneMoreQuestion(fired, questions, i, now);
      var q := questions[i];
      var already := marks.Fire(q.boundary, now);
      if already {
        continue;
      }
      var more, outcome := SweepBoundary(cal, held, start, capacity, pods, victims, outcomes, q, now, shuffle);
      OneMoreAsked(outcomes, outcome);
      victims, outcomes := victims + more, outcomes + [outcome];
    }
    assert questions[..|questions|] == questions;
  }

  lemma OneMoreQuestion(fired: Fired, questions: seq<Question>, i: nat, now: int)
    requires i < |questions|
    ensures var before, q := MarkAll(fired, questions[..i], now), questions[i];
      && MarkAll(fired, questions[..i + 1], now)
        == before[q.boundary := FiredAt(before, q.boundary) + {PhaseOf(q.boundary, now)}]
      && Evaluated(fired, questions[..i + 1], now) ==
           Evaluated(fired, questions[..i], now)
           + if PhaseOf(q.boundary, now) in FiredAt(before, q.boundary) then [] else [q]
  {
    assert questions[..i + 1][..i] == questions[..i];
  }

  lemma OneMoreAsked(outcomes: seq<Outcome>, outcome: Outcome)
    ensures Asked(outcomes + [outcome]) == Asked(outcomes) + [outcome.question]
  {}

  lemma SawOneMore(start: Occupied, outcomes: seq<Outcome>, outcome: Outcome)
    requires SawInTurn(start, outcomes) && outcome.seen == AfterQuestions(start, Asked(outcomes))
    ensures SawInTurn(start, outcomes + [outcome])
    ensures AfterQuestions(start, Asked(outcomes + [outcome])) == AfterQuestion(outcome.seen, outcome.question)
  {
    OneMoreAsked(outcomes, outcome);
    var asked := Asked(outcomes + [outcome]);
    assert asked[..|outcomes|] == Asked(outcomes);
    forall i | 0 <= i < |outcomes| ensures asked[..i] == Asked(outcomes)[..i] {
    }
  }

  /** What coverage is worth once occupancy has moved on: the boundary then wants more
      than is free or reported unmet only by what the moves added to its demand. */
  lemma CoveredLater(
    cal: Calendar, seen: Occupied, later: Occupied, boundary: int, capacity: map<string, int>, pods: seq<PodView>,
    now: int, unmet: map<string, int>, cls: string)
    requires cls in capacity && Covered(cal, seen, boundary, capacity, pods, now, unmet)
    ensures Demand(cal, later, boundary, pods, now, cls)
         <= Max(0, Free(capacity, pods)[cls] + Get(unmet, cls))
            + Max(0, Demand(cal, later, boundary, pods, now, cls) - Demand(cal, seen, boundary, pods, now, cls))
  {
    assert CoveredFor(cal, seen, boundary, capacity, pods, now, unmet, cls);
  }
}
