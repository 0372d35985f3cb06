/** The reservation calendar: class labels, back-to-back chains, and the runtime
    guarantee a pod draws from them (app/controller.py). Instants are integers. */
module Reservations {
  import opened Sums

  datatype Kind = Booking | OnDemand | BestEffort

  datatype Reservation = Reservation(
    id: int,
    user: Option<string>,
    groupId: Option<int>,
    groupName: Option<string>,
    classId: int,
    embeddedLabel: Option<string>,
    start: int,
    end: int,
    gpuCount: nat,
    kind: Kind,
    active: bool)

  /** The fields of the controller's state that the calendar arithmetic reads;
      the source replaces the reservation list wholesale. */
  datatype Calendar = Calendar(
    reservations: seq<Reservation>,
    classLabels: map<int, string>,
    groupRequired: bool,
    noshow: set<int>)
  {
    function EffectiveLabel(r: Reservation): Option<string> {
      if r.classId in classLabels then Some(classLabels[r.classId]) else r.embeddedLabel
    }

    /** The first listed reservation with this id. */
    function Find(rid: int): Option<Reservation> {
      FindIn(reservations, rid)
    }

    /** r may follow `anchor` in a chain, leaving aside whether it has ended. */
    predicate Follows(anchor: Reservation, r: Reservation) {
      && r.id != anchor.id
      && r.kind.Booking?
      && r.user.Some? && r.user == anchor.user
      && EffectiveLabel(r).Some? && EffectiveLabel(r) == EffectiveLabel(anchor)
      && r.gpuCount == anchor.gpuCount
      && (groupRequired ==> r.groupId == anchor.groupId)
      && r.id !in noshow
    }

    function Followers(anchor: Reservation): seq<Reservation> {
      FollowersIn(reservations, anchor)
    }

    function FollowersIn(rs: seq<Reservation>, anchor: Reservation): seq<Reservation> {
      if rs == [] then [] else
      (if Follows(anchor, rs[0]) then [rs[0]] else []) + FollowersIn(rs[1..], anchor)
    }

    /** Whether `anchor` can chain at all. */
    predicate Chains(anchor: Reservation) {
      anchor.user.Some? && EffectiveLabel(anchor).Some?
    }

    /** The chain the controller would see if no follower had ended yet. */
    function WholeChain(anchor: Reservation): seq<Reservation> {
      if Chains(anchor) then Links(Followers(anchor), anchor.end, {}) else []
    }

    /** The chain as the controller computes it at `now`. */
    function ChainAt(anchor: Reservation, now: int): seq<Reservation> {
      if Chains(anchor) then Links(Unended(Followers(anchor), now), anchor.end, {}) else []
    }

    function GuaranteedUntil(r: Reservation, now: int): int {
      LastEnd(ChainAt(r, now), r.end)
    }

    function GuaranteeEnd(rid: Option<int>, now: int): Option<int> {
      if rid.None? || Find(rid.value).None? then None
      else Some(GuaranteedUntil(Find(rid.value).value, now))
    }

    predicate PastGuarantee(rid: Option<int>, now: int) {
      var end := GuaranteeEnd(rid, now);
      end.None? || end.value <= now
    }

    /** What a holder booked under `rid` occupies. */
    function ClaimedBy(rid: int, now: int): set<int> {
      var found := Find(rid);
      {rid} + (if found.Some? && found.value.kind.Booking? && found.value.user.Some?
               then Ids(ChainAt(found.value, now)) else {})
    }

    /** Bookings are non-empty intervals and ids are not shared. */
    predicate WellFormed() {
      && (forall r <- reservations :: r.kind.Booking? ==> r.start < r.end)
      && (forall i, j :: 0 <= i < j < |reservations| ==> reservations[i].id != reservations[j].id)
    }
  }

  function FindIn(rs: seq<Reservation>, rid: int): (r: Option<Reservation>)
    ensures r.Some? <==> exists x :: x in rs && x.id == rid
    ensures r.Some? ==> r.value in rs && r.value.id == rid
  {
    if rs == [] then None
    else if rs[0].id == rid then Some(rs[0])
    else FindIn(rs[1..], rid)
  }

  function Ids(rs: seq<Reservation>): set<int> {
    set r | r in rs :: r.id
  }

  function Unended(rs: seq<Reservation>, now: int): seq<Reservation> {
    if rs == [] then [] else
    (if rs[0].end > now then [rs[0]] else []) + Unended(rs[1..], now)
  }

  function Abutting(rs: seq<Reservation>, at: int, visited: set<int>): seq<Reservation> {
    if rs == [] then [] else
    (if rs[0].id !in visited && rs[0].start == at then [rs[0]] else []) + Abutting(rs[1..], at, visited)
  }

  lemma {:induction false} AbuttingMember(rs: seq<Reservation>, at: int, visited: set<int>, r: Reservation)
    ensures r in Abutting(rs, at, visited) <==> r in rs && r.id !in visited && r.start == at
  {
    if rs != [] {
      AbuttingMember(rs[1..], at, visited, r);
    }
  }

  lemma {:induction false} UnendedMember(rs: seq<Reservation>, now: int, r: Reservation)
    ensures r in Unended(rs, now) <==> r in rs && r.end > now
  {
    if rs != [] {
      UnendedMember(rs[1..], now, r);
    }
  }

  lemma {:induction false} FollowersMember(cal: Calendar, rs: seq<Reservation>, anchor: Reservation, r: Reservation)
    ensures r in cal.FollowersIn(rs, anchor) <==> r in rs && cal.Follows(anchor, r)
  {
    if rs != [] {
      FollowersMember(cal, rs[1..], anchor, r);
    }
  }

  /** The first of the latest-ending reservations, as Python's `max` picks it. */
  function Longest(rs: seq<Reservation>): Reservation
    requires rs != []
  {
    if |rs| == 1 then rs[0] else
    var rest := Longest(rs[1..]);
    if rest.end > rs[0].end then rest else rs[0]
  }

  lemma {:induction false} LongestIsLast(rs: seq<Reservation>)
    requires rs != []
    ensures Longest(rs) in rs && forall r <- rs :: r.end <= Longest(rs).end
  {
    if |rs| > 1 {
      LongestIsLast(rs[1..]);
    }
  }

  /** Among the latest-ending it is the first listed. */
  lemma {:induction false} LongestIsFirst(rs: seq<Reservation>) returns (i: nat)
    requires rs != []
    ensures i < |rs| && rs[i] == Longest(rs)
    ensures forall j :: 0 <= j < i ==> rs[j].end < rs[i].end
    ensures forall j :: i <= j < |rs| ==> rs[j].end <= rs[i].end
  {
    if |rs| == 1 || Longest(rs[1..]).end <= rs[0].end {
      LongestIsLast(rs);
      i := 0;
    } else {
      var k := LongestIsFirst(rs[1..]);
      i := k + 1;
    }
  }

  /** The reservation that continues a chain ending at `at`, if any does. */
  function Next(rs: seq<Reservation>, at: int, visited: set<int>): (next: Option<Reservation>)
    ensures next.Some? ==> next.value in rs && next.value.id in Ids(rs) - visited && next.value.start == at
  {
    var abutting := Abutting(rs, at, visited);
    if abutting == [] then None else
    var longest := Longest(abutting);
    LongestIsLast(abutting);
    AbuttingMember(rs, at, visited, longest);
    Some(longest)
  }

  function Links(rs: seq<Reservation>, at: int, visited: set<int>): seq<Reservation>
    decreases Ids(rs) - visited
  {
    match Next(rs, at, visited)
    case None => []
    case Some(link) => [link] + Links(rs, link.end, visited + {link.id})
  }

  function LastEnd(chain: seq<Reservation>, otherwise: int): int {
    if chain == [] then otherwise else chain[|chain| - 1].end
  }

  // -- the walk itself ----------------------------------------------------------

  /** Insertion after every reservation that does not start later: a stable sort. */
  function InsertByStart(r: Reservation, rs: seq<Reservation>): seq<Reservation> {
    if rs == [] || r.start <= rs[0].start then [r] + rs else [rs[0]] + InsertByStart(r, rs[1..])
  }

  function SortByStart(rs: seq<Reservation>): seq<Reservation> {
    if rs == [] then [] else InsertByStart(rs[0], SortByStart(rs[1..]))
  }

  /** The sort never changes which reservations abut an instant, nor their order. */
  lemma {:induction false} AbuttingIgnoresSort(rs: seq<Reservation>, at: int, visited: set<int>)
    ensures Abutting(SortByStart(rs), at, visited) == Abutting(rs, at, visited)
  {
    if rs != [] {
      AbuttingIgnoresSort(rs[1..], at, visited);
      AbuttingInsert(rs[0], SortByStart(rs[1..]), at, visited);
    }
  }

  lemma {:induction false} AbuttingInsert(r: Reservation, rs: seq<Reservation>, at: int, visited: set<int>)
    ensures Abutting(InsertByStart(r, rs), at, visited) == Abutting([r] + rs, at, visited)
  {
    assert ([r] + rs)[1..] == rs;
    if rs != [] && r.start > rs[0].start {
      AbuttingInsert(r, rs[1..], at, visited);
      assert ([r] + rs[1..])[1..] == rs[1..];
      var out := InsertByStart(r, rs);
      assert out[1..] == InsertByStart(r, rs[1..]);
    }
  }

  method ChainFor(cal: Calendar, reservation: Reservation, now: int) returns (chain: seq<Reservation>)
    ensures chain == cal.ChainAt(reservation, now)
  {
    if reservation.user.None? || cal.EffectiveLabel(reservation).None? {
      return [];
    }
    var open := Unended(cal.Followers(reservation), now);
    var candidates := SortByStart(open);
    chain := [];
    var prevEnd := reservation.end;
    var visited: set<int> := {};
    while true
      invariant chain + Links(open, prevEnd, visited) == cal.ChainAt(reservation, now)
      decreases Ids(open) - visited
    {
      var abutting := Abutting(candidates, prevEnd, visited);
      AbuttingIgnoresSort(open, prevEnd, visited);
      if abutting == [] {
        break;
      }
      var next := Longest(abutting);
      assert Next(open, prevEnd, visited) == Some(next);
      chain := chain + [next];
      prevEnd, visited := next.end, visited + {next.id};
    }
  }

  // -- shape of a chain -----------------------------------------------------------

  /** `chain` runs back to back from `at` and repeats no id. */
  ghost predicate BackToBack(at: int, chain: seq<Reservation>) {
    && (forall i :: 0 <= i < |chain| ==> chain[i].start == if i == 0 then at else chain[i - 1].end)
    && (forall i, j :: 0 <= i < j < |chain| ==> chain[i].id != chain[j].id)
  }

  /** Nothing left over abuts the end of the chain. */
  ghost predicate Maximal(rs: seq<Reservation>, at: int, visited: set<int>, chain: seq<Reservation>) {
    forall r <- rs :: r.start == LastEnd(chain, at) ==> r.id in visited + Ids(chain)
  }

  /** No unused reservation would have continued the chain for longer. */
  ghost predicate Greedy(rs: seq<Reservation>, visited: set<int>, chain: seq<Reservation>) {
    forall i, r :: 0 <= i < |chain| && r in rs && r.start == chain[i].start && r.id !in visited + Ids(chain[..i])
      ==> r.end <= chain[i].end
  }

  lemma IdsCons(r: Reservation, rest: seq<Reservation>)
    ensures Ids([r] + rest) == {r.id} + Ids(rest)
  {
    forall x ensures x in [r] + rest <==> x == r || x in rest {}
  }

  lemma {:induction false} LinksBackToBack(rs: seq<Reservation>, at: int, visited: set<int>)
    ensures BackToBack(at, Links(rs, at, visited))
    ensures forall link <- Links(rs, at, visited) :: link in rs && link.id !in visited
    decreases Ids(rs) - visited
  {
    var next := Next(rs, at, visited);
    if next.Some? {
      LinksBackToBack(rs, next.value.end, visited + {next.value.id});
    }
  }

  lemma {:induction false} LinksMaximal(rs: seq<Reservation>, at: int, visited: set<int>)
    ensures Maximal(rs, at, visited, Links(rs, at, visited))
    decreases Ids(rs) - visited
  {
    var next := Next(rs, at, visited);
    if next.None? {
      forall r <- rs | r.start == at ensures r.id in visited {
        AbuttingMember(rs, at, visited, r);
      }
    } else {
      var link := next.value;
      LinksMaximal(rs, link.end, visited + {link.id});
      IdsCons(link, Links(rs, link.end, visited + {link.id}));
    }
  }

  lemma {:induction false} LinksGreedyAt(rs: seq<Reservation>, at: int, visited: set<int>, i: nat, r: Reservation)
    requires i < |Links(rs, at, visited)| && r in rs && r.start == Links(rs, at, visited)[i].start
    requires r.id !in visited + Ids(Links(rs, at, visited)[..i])
    ensures r.end <= Links(rs, at, visited)[i].end
    decreases i
  {
    var link := Next(rs, at, visited).value;
    var rest := Links(rs, link.end, visited + {link.id});
    if i == 0 {
      NextIsLongest(rs, at, visited, r);
    } else {
      IdsOfPrefix(link, rest, i);
      LinksGreedyAt(rs, link.end, visited + {link.id}, i - 1, r);
    }
  }

  lemma NextIsLongest(rs: seq<Reservation>, at: int, visited: set<int>, r: Reservation)
    requires r in rs && r.id !in visited && r.start == at
    ensures Next(rs, at, visited).Some? && r.end <= Next(rs, at, visited).value.end
  {
    AbuttingMember(rs, at, visited, r);
    LongestIsLast(Abutting(rs, at, visited));
  }

  lemma IdsOfPrefix(link: Reservation, rest: seq<Reservation>, i: nat)
    requires 0 < i <= |rest| + 1
    ensures Ids(([link] + rest)[..i]) == {link.id} + Ids(rest[..i - 1])
  {
    assert ([link] + rest)[..i] == [link] + rest[..i - 1];
    IdsCons(link, rest[..i - 1]);
  }

  /** At every instant the chain the controller computes is a back-to-back, greedy
      and maximal run of the followers that have not ended; it repeats no id and
      never returns to the reservation it starts from. */
  lemma ChainShape(cal: Calendar, anchor: Reservation, now: int)
    requires cal.Chains(anchor)
    ensures var chain := cal.ChainAt(anchor, now);
      var open := Unended(cal.Followers(anchor), now);
      && BackToBack(anchor.end, chain) && Maximal(open, anchor.end, {}, chain) && Greedy(open, {}, chain)
      && forall link <- chain :: cal.Follows(anchor, link) && link in cal.reservations && link.end > now
  {
    var open := Unended(cal.Followers(anchor), now);
    var chain := cal.ChainAt(anchor, now);
    LinksBackToBack(open, anchor.end, {});
    LinksMaximal(open, anchor.end, {});
    forall i, r | 0 <= i < |chain| && r in open && r.start == chain[i].start && r.id !in {} + Ids(chain[..i])
      ensures r.end <= chain[i].end
    {
      LinksGreedyAt(open, anchor.end, {}, i, r);
    }
    forall link <- chain ensures cal.Follows(anchor, link) && link in cal.reservations && link.end > now {
      UnendedMember(cal.Followers(anchor), now, link);
      FollowersMember(cal, cal.reservations, anchor, link);
    }
  }

  /** Who is in a chain, field by field: only live bookings of the anchor's user, class
      and size (and group, where groups count) that are no no-shows; and every such
      booking that starts where the chain ends. An anchor without user or class has no
      chain. */
  lemma ChainMembers(cal: Calendar, anchor: Reservation, now: int, r: Reservation)
    requires r in cal.reservations
    ensures var chain := cal.ChainAt(anchor, now);
      var continues :=
        && anchor.user.Some? && cal.EffectiveLabel(anchor).Some?
        && r.kind.Booking? && r.id != anchor.id && r.end > now && r.id !in cal.noshow
        && r.user == anchor.user && r.gpuCount == anchor.gpuCount
        && cal.EffectiveLabel(r) == cal.EffectiveLabel(anchor)
        && (cal.groupRequired ==> r.groupId == anchor.groupId);
      && (r in chain ==> continues)
      && (continues && r.start == LastEnd(chain, anchor.end) ==> r.id in Ids(chain))
  {
    if cal.Chains(anchor) {
      ChainShape(cal, anchor, now);
      UnendedMember(cal.Followers(anchor), now, r);
      FollowersMember(cal, cal.reservations, anchor, r);
    }
  }

  // -- the chain over time --------------------------------------------------------

  lemma {:induction false} AbuttingUnended(rs: seq<Reservation>, now: int, at: int, visited: set<int>)
    ensures Abutting(Unended(rs, now), at, visited) == Unended(Abutting(rs, at, visited), now)
  {
    if rs != [] {
      AbuttingUnended(rs[1..], now, at, visited);
      var head := if rs[0].end > now then [rs[0]] else [];
      var abut := if rs[0].id !in visited && rs[0].start == at then [rs[0]] else [];
      AbuttingConcat(head, Unended(rs[1..], now), at, visited);
      UnendedConcat(abut, Abutting(rs[1..], at, visited), now);
    }
  }

  lemma {:induction false} AbuttingConcat(a: seq<Reservation>, b: seq<Reservation>, at: int, visited: set<int>)
    ensures Abutting(a + b, at, visited) == Abutting(a, at, visited) + Abutting(b, at, visited)
  {
    if a == [] {
      assert a + b == b;
    } else {
      assert (a + b)[1..] == a[1..] + b;
      AbuttingConcat(a[1..], b, at, visited);
    }
  }

  lemma {:induction false} UnendedConcat(a: seq<Reservation>, b: seq<Reservation>, now: int)
    ensures Unended(a + b, now) == Unended(a, now) + Unended(b, now)
  {
    if a == [] {
      assert a + b == b;
    } else {
      assert (a + b)[1..] == a[1..] + b;
      UnendedConcat(a[1..], b, now);
    }
  }

  /** Dropping ended reservations keeps the longest one, if it has not ended. */
  lemma {:induction false} LongestUnended(rs: seq<Reservation>, now: int)
    requires rs != []
    ensures if Longest(rs).end > now then Unended(rs, now) != [] && Longest(Unended(rs, now)) == Longest(rs)
            else Unended(rs, now) == []
  {
    var rest := Unended(rs[1..], now);
    assert ([rs[0]] + rest)[1..] == rest;
    if |rs| == 1 {
      assert rest == [] && [rs[0]] + rest == rs;
    } else {
      LongestUnended(rs[1..], now);
      if rs[0].end > now {
        assert Unended(rs, now) == [rs[0]] + rest;
      } else {
        assert Unended(rs, now) == rest;
      }
    }
  }

  lemma {:induction false} UnendedAll(rs: seq<Reservation>, now: int)
    requires forall r <- rs :: r.end > now
    ensures Unended(rs, now) == rs
  {
    if rs != [] {
      UnendedAll(rs[1..], now);
    }
  }

  /** From an instant that is not past, no link of the chain has ended. */
  lemma {:induction false} LinksUnended(rs: seq<Reservation>, now: int, at: int, visited: set<int>)
    requires forall r <- rs :: r.start < r.end
    requires now <= at
    ensures Links(Unended(rs, now), at, visited) == Links(rs, at, visited)
    decreases Ids(rs) - visited
  {
    var abutting := Abutting(rs, at, visited);
    AbuttingUnended(rs, now, at, visited);
    forall r <- abutting ensures r.end > now {
      AbuttingMember(rs, at, visited, r);
    }
    UnendedAll(abutting, now);
    assert Next(Unended(rs, now), at, visited) == Next(rs, at, visited);
    if abutting != [] {
      var link := Next(rs, at, visited).value;
      LinksUnended(rs, now, link.end, visited + {link.id});
    }
  }

  lemma FollowersNonEmpty(cal: Calendar, anchor: Reservation)
    requires cal.WellFormed()
    ensures forall r <- cal.Followers(anchor) :: r.start < r.end
  {
    forall r <- cal.Followers(anchor) ensures r.start < r.end {
      FollowersMember(cal, cal.reservations, anchor, r);
    }
  }

  /** The exact behaviour of a chain over time: whole until its first link ends,
      empty from then on. */
  lemma ChainOverTime(cal: Calendar, anchor: Reservation, now: int)
    requires cal.WellFormed()
    ensures cal.ChainAt(anchor, now) ==
            var whole := cal.WholeChain(anchor);
            if whole != [] && whole[0].end > now then whole else []
  {
    if cal.Chains(anchor) {
      var rs := cal.Followers(anchor);
      var first := Abutting(rs, anchor.end, {});
      AbuttingUnended(rs, now, anchor.end, {});
      if first != [] {
        var link := Longest(first);
        assert Next(rs, anchor.end, {}) == Some(link);
        LongestUnended(first, now);
        if link.end > now {
          assert Next(Unended(rs, now), anchor.end, {}) == Some(link);
          FollowersNonEmpty(cal, anchor);
          LinksUnended(rs, now, link.end, {} + {link.id});
        }
      }
    }
  }

  /** So a chain seen later is the chain seen earlier, or nothing. */
  lemma ChainNeverChangesShape(cal: Calendar, anchor: Reservation, now1: int, now2: int)
    requires cal.WellFormed() && now1 <= now2
    ensures cal.ChainAt(anchor, now2) == cal.ChainAt(anchor, now1) || cal.ChainAt(anchor, now2) == []
    ensures cal.ChainAt(anchor, now2) == [] <==>
            (cal.WholeChain(anchor) == [] || cal.WholeChain(anchor)[0].end <= now2)
  {
    ChainOverTime(cal, anchor, now1);
    ChainOverTime(cal, anchor, now2);
  }

  /** The links of a chain end later and later. */
  lemma {:induction false} WholeChainAscends(cal: Calendar, anchor: Reservation, i: nat)
    requires cal.WellFormed() && i < |cal.WholeChain(anchor)|
    ensures var whole := cal.WholeChain(anchor);
      && whole[0].start == anchor.end && whole[0].end <= whole[i].end
      && (forall j :: 0 <= j < i ==> whole[j].end < whole[i].end)
      && anchor.end < whole[i].end
  {
    LinksBackToBack(cal.Followers(anchor), anchor.end, {});
    FollowersNonEmpty(cal, anchor);
    if i > 0 {
      WholeChainAscends(cal, anchor, i - 1);
    }
  }

  /** Until its reservation ends, a pod is promised the end of the whole chain. */
  lemma AdmissionPromise(cal: Calendar, anchor: Reservation, now: int)
    requires cal.WellFormed() && now < anchor.end
    ensures cal.GuaranteedUntil(anchor, now) == LastEnd(cal.WholeChain(anchor), anchor.end)
  {
    ChainOverTime(cal, anchor, now);
    if cal.WholeChain(anchor) != [] {
      WholeChainAscends(cal, anchor, 0);
    }
  }

  /** The end of the first link of a reservation's chain, or of the reservation
      itself when it has none: where its pods' guarantee really ends. */
  function FirstEnd(cal: Calendar, anchor: Reservation): int {
    var whole := cal.WholeChain(anchor);
    if whole == [] then anchor.end else whole[0].end
  }

  /** A pod is past its guarantee exactly when its own window and the first following
      window are over, however long the chain is; or when it has no reservation, or
      one that is not listed. */
  lemma PastGuaranteeExactly(cal: Calendar, rid: int, now: int)
    requires cal.WellFormed()
    ensures cal.PastGuarantee(Some(rid), now) <==>
      cal.Find(rid).None? || FirstEnd(cal, cal.Find(rid).value) <= now
    ensures cal.PastGuarantee(None, now)
  {
    if cal.Find(rid).Some? {
      GuaranteeOver(cal, cal.Find(rid).value, now);
    }
  }

  lemma GuaranteeOver(cal: Calendar, anchor: Reservation, now: int)
    requires cal.WellFormed()
    ensures cal.GuaranteedUntil(anchor, now) <= now <==> FirstEnd(cal, anchor) <= now
  {
    var whole := cal.WholeChain(anchor);
    ChainOverTime(cal, anchor, now);
    if whole != [] {
      WholeChainAscends(cal, anchor, |whole| - 1);
      WholeChainAscends(cal, anchor, 0);
    }
  }

  /** Hence the promise made at admission is kept at every instant up to its end
      if and only if the chain has at most one link. */
  lemma PromiseKeptIff(cal: Calendar, rid: int)
    requires cal.WellFormed() && cal.Find(rid).Some?
    ensures var anchor := cal.Find(rid).value;
      var whole := cal.WholeChain(anchor);
      (forall now :: now < LastEnd(whole, anchor.end) ==> !cal.PastGuarantee(Some(rid), now))
      <==> |whole| <= 1
  {
    var anchor := cal.Find(rid).value;
    var whole := cal.WholeChain(anchor);
    forall now ensures cal.PastGuarantee(Some(rid), now) <==> FirstEnd(cal, anchor) <= now {
      PastGuaranteeExactly(cal, rid, now);
    }
    if |whole| > 1 {
      WholeChainAscends(cal, anchor, |whole| - 1);
      var now := whole[0].end;
      assert now < LastEnd(whole, anchor.end);
      assert cal.PastGuarantee(Some(rid), now);
    }
  }

  lemma FoundById(cal: Calendar, r: Reservation)
    requires cal.WellFormed() && r in cal.reservations
    ensures cal.Find(r.id) == Some(r)
  {
    var i :| 0 <= i < |cal.reservations| && cal.reservations[i] == r;
    var found := cal.Find(r.id).value;
    var j :| 0 <= j < |cal.reservations| && cal.reservations[j] == found;
  }

  /** What a holder occupies: its own reservation, and, if that is a user's booking,
      every link of its whole chain until the first of them has ended. */
  lemma ClaimedExactly(cal: Calendar, a: Reservation, now: int, rid: int)
    requires cal.WellFormed() && a in cal.reservations
    ensures rid in cal.ClaimedBy(a.id, now) <==>
      rid == a.id ||
      (&& a.kind.Booking? && a.user.Some? && cal.WholeChain(a) != [] && cal.WholeChain(a)[0].end > now
       && exists i :: 0 <= i < |cal.WholeChain(a)| && cal.WholeChain(a)[i].id == rid)
  {
    FoundById(cal, a);
    ChainOverTime(cal, a, now);
    var chain := cal.ChainAt(a, now);
    if rid in Ids(chain) {
      var link :| link in chain && link.id == rid;
    }
    if i :| 0 <= i < |chain| && chain[i].id == rid {
      assert chain[i] in chain;
    }
  }

  /** A pod past its guarantee holds on to its own reservation only. */
  lemma PastGuaranteeClaimsItself(cal: Calendar, rid: int, now: int)
    requires cal.WellFormed() && cal.PastGuarantee(Some(rid), now)
    ensures cal.ClaimedBy(rid, now) == {rid}
  {
    if cal.Find(rid).Some? {
      var anchor := cal.Find(rid).value;
      PastGuaranteeExactly(cal, rid, now);
      ChainOverTime(cal, anchor, now);
      assert cal.ChainAt(anchor, now) == [];
      assert Ids([]) == {};
    }
  }

  function Slot(id: int): Reservation {
    Reservation(id, Some("ada"), None, None, 1, Some("H100"), 10 * id, 10 * id + 10, 1, Booking, true)
  }

  /** Three slots booked back to back, one after the other from 10 to 40. */
  const BACK_TO_BACK := Calendar([Slot(1), Slot(2), Slot(3)], map[], false, {})

  lemma AbuttingOfTwo(a: Reservation, b: Reservation, at: int, visited: set<int>)
    ensures Abutting([a, b], at, visited)
         == (if a.id !in visited && a.start == at then [a] else [])
            + (if b.id !in visited && b.start == at then [b] else [])
  {
    assert [a, b][1..] == [b] && [b][1..] == [];
    assert Abutting([b], at, visited) == (if b.id !in visited && b.start == at then [b] else []);
  }

  lemma LinksOfOne(rs: seq<Reservation>, at: int, visited: set<int>, link: Reservation)
    requires Abutting(rs, at, visited) == [link]
    ensures Links(rs, at, visited) == [link] + Links(rs, link.end, visited + {link.id})
  {
  }

  lemma BackToBackWalk()
    ensures Links([Slot(2), Slot(3)], 20, {}) == [Slot(2), Slot(3)]
  {
    var two, three := Slot(2), Slot(3);
    AbuttingOfTwo(two, three, 20, {});
    LinksOfOne([two, three], 20, {}, two);
    AbuttingOfTwo(two, three, 30, {2});
    LinksOfOne([two, three], 30, {2}, three);
    AbuttingOfTwo(two, three, 40, {2, 3});
    assert {} + {2} == {2} && {2} + {3} == {2, 3};
  }

  lemma BackToBackFollowers()
    ensures BACK_TO_BACK.Find(1) == Some(Slot(1))
    ensures BACK_TO_BACK.Followers(Slot(1)) == [Slot(2), Slot(3)]
    ensures Unended([Slot(2), Slot(3)], 10) == [Slot(2), Slot(3)]
  {
    var one, two, three := Slot(1), Slot(2), Slot(3);
    assert [one, two, three][1..] == [two, three] && [two, three][1..] == [three] && [three][1..] == [];
  }

  lemma BackToBackWellFormed()
    ensures BACK_TO_BACK.WellFormed()
  {
  }

  lemma BackToBackChain()
    ensures BACK_TO_BACK.WholeChain(Slot(1)) == [Slot(2), Slot(3)] == BACK_TO_BACK.ChainAt(Slot(1), 10)
  {
    BackToBackFollowers();
    BackToBackWalk();
  }

  lemma ChainDecides(cal: Calendar, rid: int, anchor: Reservation, now: int, chain: seq<Reservation>)
    requires cal.Find(rid) == Some(anchor) && cal.ChainAt(anchor, now) == chain
    ensures cal.GuaranteeEnd(Some(rid), now) == Some(LastEnd(chain, anchor.end))
  {
  }

  /** The promise broken: at admission the pod of the first slot is promised its
      GPUs to the end of the third, and it is past its guarantee when the second ends. */
  lemma PromiseBroken()
    ensures BACK_TO_BACK.WellFormed()
    ensures BACK_TO_BACK.GuaranteeEnd(Some(1), 10) == Some(40)
    ensures BACK_TO_BACK.PastGuarantee(Some(1), 30)
  {
    BackToBackWellFormed();
    BackToBackChain();
    BackToBackFollowers();
    ChainDecides(BACK_TO_BACK, 1, Slot(1), 10, [Slot(2), Slot(3)]);
    ChainOverTime(BACK_TO_BACK, Slot(1), 30);
    ChainDecides(BACK_TO_BACK, 1, Slot(1), 30, []);
  }
}
