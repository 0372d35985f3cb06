/** How many GPUs the calendar commits at an instant, the peak of that over a
    window, and guard 4, which sells a lease on an over-counted class only if it
    fits under the physical count throughout (app/controller.py, app/main.py). */
module Commitments {
  import opened Sums
  import opened Reservations

  /** r holds GPUs of class `cls` while its window is open. */
  predicate Counts(cal: Calendar, cls: string, r: Reservation) {
    (r.kind.Booking? || r.kind.OnDemand?) && r.id !in cal.noshow && cal.EffectiveLabel(r) == Some(cls)
  }

  /** The GPUs r holds at instant t. */
  function Open(r: Reservation, t: int): nat {
    if r.start <= t < r.end then r.gpuCount else 0
  }

  function OpenAt(t: int): Reservation -> int {
    (r: Reservation) => Open(r, t)
  }

  function CountsAt(cal: Calendar, cls: string, t: int): Reservation -> int {
    (r: Reservation) => if Counts(cal, cls, r) then Open(r, t) else 0
  }

  /** The GPUs of class `cls` that the whole calendar commits at instant t. */
  function Committed(cal: Calendar, cls: string, t: int): int {
    Sum(cal.reservations, CountsAt(cal, cls, t))
  }

  lemma CommittedNonNegative(cal: Calendar, cls: string, t: int)
    ensures 0 <= Committed(cal, cls, t)
  {
    SumNonNegative(cal.reservations, CountsAt(cal, cls, t));
  }

  // -- the peak over a window ---------------------------------------------------

  /** The rows of the class that overlap the window. */
  function Rows(cal: Calendar, rs: seq<Reservation>, cls: string, start: int, end: int): seq<Reservation> {
    if rs == [] then [] else
    (if Counts(cal, cls, rs[0]) && rs[0].start < end && rs[0].end > start then [rs[0]] else [])
    + Rows(cal, rs[1..], cls, start, end)
  }

  lemma {:induction false} RowsMember(
    cal: Calendar, rs: seq<Reservation>, cls: string, start: int, end: int, r: Reservation)
    ensures r in Rows(cal, rs, cls, start, end) <==> r in rs && Counts(cal, cls, r) && r.start < end && r.end > start
  {
    if rs != [] {
      RowsMember(cal, rs[1..], cls, start, end, r);
    }
  }

  /** Inside the window the overlapping rows carry the whole commitment. */
  lemma {:induction false} RowsSuffice(cal: Calendar, rs: seq<Reservation>, cls: string, start: int, end: int, t: int)
    requires start <= t < end
    ensures Sum(Rows(cal, rs, cls, start, end), OpenAt(t)) == Sum(rs, CountsAt(cal, cls, t))
  {
    if rs != [] {
      RowsSuffice(cal, rs[1..], cls, start, end, t);
      var rest := Rows(cal, rs[1..], cls, start, end);
      assert ([rs[0]] + rest)[1..] == rest && [] + rest == rest;
    }
  }

  predicate Ascending(ts: seq<int>) {
    forall i, j :: 0 <= i < j < |ts| ==> ts[i] < ts[j]
  }

  /** Adds an instant to an ascending list, once. */
  function AddInstant(t: int, ts: seq<int>): (out: seq<int>)
    requires Ascending(ts)
    ensures Ascending(out) && forall x :: x in out <==> x == t || x in ts
  {
    if ts == [] then [t]
    else if t == ts[0] then ts
    else if t < ts[0] then
      PrependsAscending(t, ts);
      [t] + ts
    else
      var rest := AddInstant(t, ts[1..]);
      AllLater(t, ts, rest);
      PrependsAscending(ts[0], rest);
      [ts[0]] + rest
  }

  lemma PrependsAscending(t: int, ts: seq<int>)
    requires Ascending(ts) && (ts != [] ==> t < ts[0])
    ensures Ascending([t] + ts)
    ensures forall x :: x in [t] + ts <==> x == t || x in ts
  {
    var all := [t] + ts;
    forall i, j | 0 <= i < j < |all| ensures all[i] < all[j] {
      assert ts[0] <= ts[j - 1];
    }
  }

  /** What adding a later instant to the tail leaves lies after the head. */
  lemma AllLater(t: int, ts: seq<int>, rest: seq<int>)
    requires Ascending(ts) && ts != [] && ts[0] < t
    requires forall x :: x in rest <==> x == t || x in ts[1..]
    ensures rest != [] ==> ts[0] < rest[0]
    ensures forall x :: x == ts[0] || x in rest <==> x == t || x in ts
  {
    assert ts == [ts[0]] + ts[1..];
    if rest != [] && rest[0] != t {
      assert rest[0] in rest && rest[0] in ts[1..];
      var j :| 0 <= j < |ts| - 1 && ts[1..][j] == rest[0];
      assert ts[0] < ts[j + 1];
    }
  }

  /** The window's start and every later start of a row, in order. */
  function Instants(rows: seq<Reservation>, start: int): (ts: seq<int>)
    ensures Ascending(ts) && start in ts && forall x <- ts :: x >= start
  {
    if rows == [] then [start]
    else if rows[0].start > start then AddInstant(rows[0].start, Instants(rows[1..], start))
    else Instants(rows[1..], start)
  }

  lemma {:induction false} InstantsMember(rows: seq<Reservation>, start: int, t: int)
    ensures t in Instants(rows, start) <==> t == start || (t > start && exists r :: r in rows && r.start == t)
  {
    if rows != [] {
      InstantsMember(rows[1..], start, t);
      if t > start && exists r :: r in rows && r.start == t {
        var r :| r in rows && r.start == t;
        assert r == rows[0] || r in rows[1..];
      }
    }
  }

  /** Where nothing counted starts, the commitment can only fall. */
  lemma FallsBetweenStarts(cal: Calendar, cls: string, s: int, t: int)
    requires s <= t
    requires forall r <- cal.reservations :: Counts(cal, cls, r) && s < r.start <= t ==> r.end <= t
    ensures Committed(cal, cls, t) <= Committed(cal, cls, s)
  {
    SumBounds(cal.reservations, CountsAt(cal, cls, t), CountsAt(cal, cls, s));
  }

  /** The latest listed instant at or before t. */
  function LatestUpTo(ts: seq<int>, t: int): (s: int)
    requires ts != [] && Ascending(ts) && ts[0] <= t
    ensures s in ts && s <= t && forall x <- ts :: x <= t ==> x <= s
  {
    if |ts| == 1 || ts[1] > t then ts[0] else
    assert ts[0] < ts[1] && ts == [ts[0]] + ts[1..];
    LatestUpTo(ts[1..], t)
  }

  /** Every instant of the window is dominated by a listed one at or before it. */
  lemma InstantsDominate(cal: Calendar, cls: string, start: int, end: int, t: int) returns (s: int)
    requires start <= t < end
    ensures s in Instants(Rows(cal, cal.reservations, cls, start, end), start) && start <= s <= t
    ensures Committed(cal, cls, t) <= Committed(cal, cls, s)
  {
    var rows := Rows(cal, cal.reservations, cls, start, end);
    var ts := Instants(rows, start);
    s := LatestUpTo(ts, t);
    forall r <- cal.reservations | Counts(cal, cls, r) && s < r.start <= t ensures r.end <= t {
      RowsMember(cal, cal.reservations, cls, start, end, r);
      InstantsMember(rows, start, r.start);
    }
    FallsBetweenStarts(cal, cls, s, t);
  }

  /** The peak is the supremum over the whole window, not only over the instants
      looked at, and `peakAt` is the earliest instant of the window that attains it. */
  method PeakCommitted(cal: Calendar, cls: string, start: int, end: int) returns (peak: int, peakAt: int)
    ensures start < end ==>
      && start <= peakAt < end
      && peak == Committed(cal, cls, peakAt)
      && (forall t :: start <= t < end ==> Committed(cal, cls, t) <= peak)
      && (forall t :: start <= t < peakAt ==> Committed(cal, cls, t) < peak)
    ensures start >= end ==> peakAt == start && peak == Sum(Rows(cal, cal.reservations, cls, start, end), OpenAt(start))
  {
    var rows := Rows(cal, cal.reservations, cls, start, end);
    var ts := Instants(rows, start);
    forall t <- ts ensures t == start || t < end {
      InstantsMember(rows, start, t);
      if t > start {
        var r :| r in rows && r.start == t;
        RowsMember(cal, cal.reservations, cls, start, end, r);
      }
    }
    CommittedNonNegative(cal, cls, start);
    SumNonNegative(rows, OpenAt(start));
    peak, peakAt := 0, start;
    for i := 0 to |ts|
      invariant start <= peakAt && (start < end ==> peakAt < end) && (start >= end ==> peakAt == start)
      invariant 0 <= peak && (peak == 0 ==> peakAt == start)
      invariant peak > 0 && start < end ==> peak == Committed(cal, cls, peakAt)
      invariant start < end ==> forall j :: 0 <= j < i ==> Committed(cal, cls, ts[j]) <= peak
      invariant start < end ==> forall j :: 0 <= j < i && ts[j] < peakAt ==> Committed(cal, cls, ts[j]) < peak
      invariant peakAt == start || peakAt in ts[..i]
      invariant start >= end ==> peak == if i == 0 then 0 else Sum(rows, OpenAt(start))
    {
      assert ts[i] in ts;
      var committed := Sum(rows, OpenAt(ts[i]));
      if start < end {
        RowsSuffice(cal, cal.reservations, cls, start, end, ts[i]);
      }
      if committed > peak {
        peak, peakAt := committed, ts[i];
      }
    }
    if start < end {
      forall t | start <= t < end
        ensures Committed(cal, cls, t) <= peak && (t < peakAt ==> Committed(cal, cls, t) < peak)
      {
        var s := InstantsDominate(cal, cls, start, end, t);
      }
    }
  }

  // -- the active list as a dict keyed by id --------------------------------------

  /** Assignment to a dict key: in place if the id is known, else appended. */
  function Put(rs: seq<Reservation>, r: Reservation): seq<Reservation> {
    if rs == [] then [r]
    else if rs[0].id == r.id then [r] + rs[1..]
    else [rs[0]] + Put(rs[1..], r)
  }

  function Pop(rs: seq<Reservation>, id: int): seq<Reservation> {
    if rs == [] then []
    else (if rs[0].id == id then [] else [rs[0]]) + Pop(rs[1..], id)
  }

  function ById(rs: seq<Reservation>): seq<Reservation> {
    if rs == [] then [] else Put(ById(rs[..|rs| - 1]), rs[|rs| - 1])
  }

  function PushAll(rs: seq<Reservation>, pushed: seq<Reservation>): seq<Reservation>
    decreases |pushed|
  {
    if pushed == [] then rs else
    PushAll(if pushed[0].active then Put(rs, pushed[0]) else Pop(rs, pushed[0].id), pushed[1..])
  }

  /** Merge a push into the active list. */
  function ApplyPush(current: seq<Reservation>, pushed: seq<Reservation>): seq<Reservation> {
    PushAll(ById(current), pushed)
  }

  lemma {:induction false} PutAddsAtMost(rs: seq<Reservation>, r: Reservation, f: Reservation -> int)
    requires forall x :: 0 <= f(x)
    ensures Sum(Put(rs, r), f) <= Sum(rs, f) + f(r)
  {
    if rs != [] && rs[0].id != r.id {
      PutAddsAtMost(rs[1..], r, f);
      assert ([rs[0]] + Put(rs[1..], r))[1..] == Put(rs[1..], r);
    }
  }

  lemma {:induction false} PopOnlyRemoves(rs: seq<Reservation>, id: int, f: Reservation -> int)
    requires forall x :: 0 <= f(x)
    ensures Sum(Pop(rs, id), f) <= Sum(rs, f)
  {
    if rs != [] {
      PopOnlyRemoves(rs[1..], id, f);
      assert [] + Pop(rs[1..], id) == Pop(rs[1..], id);
      assert ([rs[0]] + Pop(rs[1..], id))[1..] == Pop(rs[1..], id);
    }
  }

  lemma {:induction false} ByIdAddsNothing(rs: seq<Reservation>, f: Reservation -> int)
    requires forall x :: 0 <= f(x)
    ensures Sum(ById(rs), f) <= Sum(rs, f)
  {
    if rs != [] {
      var init, last := rs[..|rs| - 1], rs[|rs| - 1];
      ByIdAddsNothing(init, f);
      PutAddsAtMost(ById(init), last, f);
      assert rs == init + [last];
      SumConcat(init, [last], f);
    }
  }

  /** The last reservation listed under an id. */
  function LastWith(rs: seq<Reservation>, id: int): Option<Reservation> {
    if rs == [] then None else
    var later := LastWith(rs[1..], id);
    if later.Some? then later else if rs[0].id == id then Some(rs[0]) else None
  }

  ghost predicate DistinctIds(rs: seq<Reservation>) {
    forall i, j :: 0 <= i < j < |rs| ==> rs[i].id != rs[j].id
  }

  lemma {:induction false} LastWithOneMore(rs: seq<Reservation>, r: Reservation, id: int)
    ensures LastWith(rs + [r], id) == if r.id == id then Some(r) else LastWith(rs, id)
  {
    if rs == [] {
      assert rs + [r] == [r];
    } else {
      LastWithOneMore(rs[1..], r, id);
      assert (rs + [r])[1..] == rs[1..] + [r];
    }
  }

  lemma {:induction false} PutFinds(rs: seq<Reservation>, r: Reservation, id: int)
    ensures FindIn(Put(rs, r), id) == if r.id == id then Some(r) else FindIn(rs, id)
  {
    if rs != [] && rs[0].id != r.id {
      PutFinds(rs[1..], r, id);
      assert ([rs[0]] + Put(rs[1..], r))[1..] == Put(rs[1..], r);
    }
  }

  lemma {:induction false} PopFinds(rs: seq<Reservation>, gone: int, id: int)
    ensures FindIn(Pop(rs, gone), id) == if gone == id then None else FindIn(rs, id)
  {
    if rs != [] {
      PopFinds(rs[1..], gone, id);
      assert [] + Pop(rs[1..], gone) == Pop(rs[1..], gone);
      assert ([rs[0]] + Pop(rs[1..], gone))[1..] == Pop(rs[1..], gone);
    }
  }

  lemma {:induction false} PutDistinct(rs: seq<Reservation>, r: Reservation)
    requires DistinctIds(rs)
    ensures DistinctIds(Put(rs, r))
  {
    if rs != [] && rs[0].id != r.id {
      PutDistinct(rs[1..], r);
      PutFinds(rs[1..], r, rs[0].id);
      NotListed(rs[1..], rs[0].id);
      NotListed(Put(rs[1..], r), rs[0].id);
    }
  }

  lemma NotListed(rs: seq<Reservation>, id: int)
    ensures FindIn(rs, id).None? <==> forall i :: 0 <= i < |rs| ==> rs[i].id != id
  {
    if i :| 0 <= i < |rs| && rs[i].id == id {
      assert rs[i] in rs;
    }
  }

  lemma {:induction false} PopDistinct(rs: seq<Reservation>, gone: int)
    requires DistinctIds(rs)
    ensures DistinctIds(Pop(rs, gone))
  {
    if rs != [] {
      PopDistinct(rs[1..], gone);
      PopFinds(rs[1..], gone, rs[0].id);
      NotListed(rs[1..], rs[0].id);
      NotListed(Pop(rs[1..], gone), rs[0].id);
    }
  }

  lemma {:induction false} ByIdFinds(rs: seq<Reservation>, id: int)
    ensures FindIn(ById(rs), id) == LastWith(rs, id) && DistinctIds(ById(rs))
  {
    if rs != [] {
      var init, last := rs[..|rs| - 1], rs[|rs| - 1];
      ByIdFinds(init, id);
      PutFinds(ById(init), last, id);
      PutDistinct(ById(init), last);
      LastWithOneMore(init, last, id);
      assert rs == init + [last];
    }
  }

  lemma {:induction false} PushAllFinds(rs: seq<Reservation>, pushed: seq<Reservation>, id: int)
    requires DistinctIds(rs)
    ensures DistinctIds(PushAll(rs, pushed))
    ensures var last := LastWith(pushed, id);
      FindIn(PushAll(rs, pushed), id) ==
        if last.None? then FindIn(rs, id) else if last.value.active then last else None
    decreases |pushed|
  {
    if pushed != [] {
      var r := pushed[0];
      PutFinds(rs, r, id);
      PopFinds(rs, r.id, id);
      PutDistinct(rs, r);
      PopDistinct(rs, r.id);
      PushAllFinds(if r.active then Put(rs, r) else Pop(rs, r.id), pushed[1..], id);
    }
  }

  /** What a push leaves under an id: the last pushed if that is active, nothing if it is
      not, and what was listed last where nothing was pushed; no id is listed twice. */
  lemma PushedExactly(current: seq<Reservation>, pushed: seq<Reservation>, id: int)
    ensures DistinctIds(ApplyPush(current, pushed))
    ensures var last := LastWith(pushed, id);
      FindIn(ApplyPush(current, pushed), id) ==
        if last.None? then LastWith(current, id) else if last.value.active then last else None
  {
    ByIdFinds(current, id);
    PushAllFinds(ById(current), pushed, id);
  }

  // -- guard 4 ----------------------------------------------------------------------

  datatype Ask = Ask(classLabel: string, gpus: nat, duration: nat, bestEffort: bool)

  datatype Overcommit = Overcommit(classes: set<string>, fit: bool, physical: map<string, int>)
  {
    function Physical(cls: string): int {
      if cls in physical then physical[cls] else 0
    }
  }

  /** The ask fits under the physical count at every instant of its lease. */
  ghost predicate FitsThroughout(cal: Calendar, over: Overcommit, ask: Ask, now: int) {
    forall t :: now <= t < now + ask.duration ==>
      Committed(cal, ask.classLabel, t) + ask.gpus <= over.Physical(ask.classLabel)
  }

  /** Guard 4 holds the ask back. */
  ghost predicate Held(cal: Calendar, over: Overcommit, ask: Ask, now: int) {
    && !ask.bestEffort && ask.classLabel in over.classes
    && (|| !over.fit
        || (ask.duration > 0 && !FitsThroughout(cal, over, ask, now))
        || (ask.duration == 0 && ask.gpus + Sum(Rows(cal, cal.reservations, ask.classLabel, now, now), OpenAt(now))
                                 > over.Physical(ask.classLabel)))
  }

  method HoldOnOvercommit(cal: Calendar, over: Overcommit, ask: Ask, now: int) returns (held: bool)
    ensures held <==> Held(cal, over, ask, now)
  {
    if !ask.bestEffort && ask.classLabel in over.classes {
      if over.fit {
        var committed, peakAt := PeakCommitted(cal, ask.classLabel, now, now + ask.duration);
        held := committed + ask.gpus > over.Physical(ask.classLabel);
        assert ask.duration > 0 ==>
          (held <==> Committed(cal, ask.classLabel, peakAt) + ask.gpus > over.Physical(ask.classLabel));
      } else {
        held := true;
      }
    } else {
      held := false;
    }
  }

  /** An ask is held exactly when its class is overcommitted and, with the fit check on, at
      some instant of its lease it would take the class beyond its physical count, 0 where
      none is known. */
  lemma HeldExactly(cal: Calendar, over: Overcommit, ask: Ask, now: int)
    requires ask.duration > 0
    ensures var cls := ask.classLabel;
      var physical := if cls in over.physical then over.physical[cls] else 0;
      Held(cal, over, ask, now) <==>
        && !ask.bestEffort && cls in over.classes
        && (over.fit ==>
              exists t :: now <= t < now + ask.duration && Committed(cal, cls, t) + ask.gpus > physical)
  {
  }

  /** The app granted what was asked, inside the window guard 4 judged. */
  predicate Honours(cal: Calendar, ask: Ask, now: int, lease: Reservation) {
    && lease.active && lease.gpuCount == ask.gpus
    && cal.EffectiveLabel(lease) == Some(ask.classLabel)
    && (if ask.bestEffort then lease.kind.BestEffort?
        else lease.kind.OnDemand? && now <= lease.start && lease.end <= now + ask.duration)
  }

  /** What guard 4 keeps for every class it protects: at no instant are more GPUs
      committed than physically exist or were committed before. */
  ghost predicate NoWorse(over: Overcommit, before: Calendar, after: Calendar) {
    forall cls, t :: cls in over.classes && over.fit ==>
      Committed(after, cls, t) <= Max(Committed(before, cls, t), over.Physical(cls))
  }

  function WithReservations(cal: Calendar, rs: seq<Reservation>): Calendar {
    cal.(reservations := rs)
  }

  lemma CommittedOver(cal: Calendar, rs: seq<Reservation>, cls: string, t: int)
    ensures Committed(WithReservations(cal, rs), cls, t) == Sum(rs, CountsAt(cal, cls, t))
  {
    SumSame(rs, CountsAt(WithReservations(cal, rs), cls, t), CountsAt(cal, cls, t));
  }

  /** What is committed, one reservation at a time: a booking or an on-demand lease that is
      no no-show holds its GPUs, for the class the registry gives it (its own label where
      that knows none), from its start up to its end. */
  lemma CommittedOneMore(cal: Calendar, r: Reservation, cls: string, t: int)
    ensures Committed(WithReservations(cal, []), cls, t) == 0
    ensures var named := if r.classId in cal.classLabels then Some(cal.classLabels[r.classId]) else r.embeddedLabel;
      var holds := (r.kind.Booking? || r.kind.OnDemand?) && r.id !in cal.noshow && named == Some(cls);
      Committed(WithReservations(cal, cal.reservations + [r]), cls, t)
        == Committed(cal, cls, t) + if holds && r.start <= t < r.end then r.gpuCount else 0
  {
    CommittedOver(cal, cal.reservations + [r], cls, t);
    SumConcat(cal.reservations, [r], CountsAt(cal, cls, t));
  }

  lemma PushedLease(cal: Calendar, lease: Reservation, cls: string, t: int)
    requires lease.active
    ensures Committed(WithReservations(cal, ApplyPush(cal.reservations, [lease])), cls, t)
            <= Committed(cal, cls, t) + CountsAt(cal, cls, t)(lease)
  {
    var f := CountsAt(cal, cls, t);
    CommittedOver(cal, ApplyPush(cal.reservations, [lease]), cls, t);
    ByIdAddsNothing(cal.reservations, f);
    PutAddsAtMost(ById(cal.reservations), lease, f);
    assert PushAll(ById(cal.reservations), [lease]) == Put(ById(cal.reservations), lease);
  }

  lemma RemovalNoWorse(cal: Calendar, id: int, cls: string, t: int)
    ensures Committed(WithReservations(cal, Pop(cal.reservations, id)), cls, t) <= Committed(cal, cls, t)
  {
    CommittedOver(cal, Pop(cal.reservations, id), cls, t);
    PopOnlyRemoves(cal.reservations, id, CountsAt(cal, cls, t));
  }

  /** What became of one selected ask: the app's answer, the reservations as some
      push or refresh left them while the answer was awaited, and whether the pod
      was then admitted under the lease. */
  datatype Attempt = Attempt(
    ask: Ask,
    now: int,
    answer: Option<Reservation>,
    meanwhile: Option<seq<Reservation>>,
    admitted: bool)

  function Meanwhile(cal: Calendar, a: Attempt): Calendar {
    if a.meanwhile.Some? then WithReservations(cal, a.meanwhile.value) else cal
  }

  ghost function AfterAttempt(cal: Calendar, over: Overcommit, a: Attempt): Calendar {
    var found := Meanwhile(cal, a);
    if Held(cal, over, a.ask, a.now) || a.answer.None? then found else
    var pushed := WithReservations(found, ApplyPush(found.reservations, [a.answer.value]));
    if a.admitted then pushed else WithReservations(pushed, Pop(pushed.reservations, a.answer.value.id))
  }

  /** Each ask is judged against the calendar that already holds the leases
      granted before it. */
  ghost function AfterAttempts(cal: Calendar, over: Overcommit, attempts: seq<Attempt>): Calendar {
    if attempts == [] then cal
    else AfterAttempt(AfterAttempts(cal, over, attempts[..|attempts| - 1]), over, attempts[|attempts| - 1])
  }

  /** The grant loop of one admission batch. A lease whose pod could not be
      admitted is cancelled again. */
  method GrantBatch(cal: Calendar, over: Overcommit, attempts: seq<Attempt>) returns (after: Calendar)
    ensures after == AfterAttempts(cal, over, attempts)
  {
    after := cal;
    for i := 0 to |attempts|
      invariant after == AfterAttempts(cal, over, attempts[..i])
    {
      var a := attempts[i];
      assert attempts[..i + 1][..i] == attempts[..i];
      var held := HoldOnOvercommit(after, over, a.ask, a.now);
      after := Meanwhile(after, a);
      if !held && a.answer.Some? {
        var lease := a.answer.value;
        after := WithReservations(after, ApplyPush(after.reservations, [lease]));
        if !a.admitted {
          after := WithReservations(after, Pop(after.reservations, lease.id));
        }
      }
    }
    assert attempts[..|attempts|] == attempts;
  }

  // -- what a run of grants keeps ----------------------------------------------------------

  /** By how much a change from outside raises what is committed at an instant. */
  ghost function Rise(before: Calendar, after: Calendar, cls: string, t: int): nat {
    Max(0, Committed(after, cls, t) - Committed(before, cls, t))
  }

  /** The rises while the answers of a batch were awaited. */
  ghost function BatchRise(cal: Calendar, over: Overcommit, attempts: seq<Attempt>, cls: string, t: int): nat {
    if attempts == [] then 0 else
    var mid := AfterAttempts(cal, over, attempts[..|attempts| - 1]);
    BatchRise(cal, over, attempts[..|attempts| - 1], cls, t)
    + Rise(mid, Meanwhile(mid, attempts[|attempts| - 1]), cls, t)
  }

  ghost predicate Honest(cal: Calendar, attempts: seq<Attempt>) {
    forall a <- attempts :: a.answer.Some? ==> Honours(cal, a.ask, a.now, a.answer.value)
  }

  lemma {:induction false} SameLabels(cal: Calendar, over: Overcommit, attempts: seq<Attempt>, r: Reservation)
    ensures AfterAttempts(cal, over, attempts).EffectiveLabel(r) == cal.EffectiveLabel(r)
  {
    if attempts != [] {
      SameLabels(cal, over, attempts[..|attempts| - 1], r);
    }
  }

  /** One grant guard 4 let through, upserted into whatever calendar it then finds. */
  lemma LateGrant(cal: Calendar, over: Overcommit, a: Attempt, cls: string, t: int)
    requires cls in over.classes && over.fit && !Held(cal, over, a.ask, a.now)
    requires a.answer.Some? && Honours(cal, a.ask, a.now, a.answer.value)
    ensures Committed(AfterAttempt(cal, over, a), cls, t)
         <= Max(Committed(cal, cls, t), over.Physical(cls)) + Rise(cal, Meanwhile(cal, a), cls, t)
  {
    var found, lease := Meanwhile(cal, a), a.answer.value;
    var pushed := WithReservations(found, ApplyPush(found.reservations, [lease]));
    PushedLease(found, lease, cls, t);
    RemovalNoWorse(pushed, lease.id, cls, t);
    if CountsAt(found, cls, t)(lease) != 0 {
      assert cls == a.ask.classLabel && a.now <= t < a.now + a.ask.duration;
    }
  }

  /** A grant that guard 4 let through, with nothing in between. */
  lemma CheckedGrantNoWorse(cal: Calendar, over: Overcommit, ask: Ask, now: int, lease: Reservation)
    requires Honours(cal, ask, now, lease) && !Held(cal, over, ask, now)
    ensures NoWorse(over, cal, WithReservations(cal, ApplyPush(cal.reservations, [lease])))
  {
    forall cls, t | cls in over.classes && over.fit
      ensures Committed(WithReservations(cal, ApplyPush(cal.reservations, [lease])), cls, t)
           <= Max(Committed(cal, cls, t), over.Physical(cls))
    {
      LateGrant(cal, over, Attempt(ask, now, Some(lease), None, true), cls, t);
    }
  }

  lemma AttemptBound(cal: Calendar, over: Overcommit, a: Attempt, cls: string, t: int)
    requires cls in over.classes && over.fit
    requires a.answer.Some? ==> Honours(cal, a.ask, a.now, a.answer.value)
    ensures Committed(AfterAttempt(cal, over, a), cls, t)
         <= Max(Committed(cal, cls, t), over.Physical(cls)) + Rise(cal, Meanwhile(cal, a), cls, t)
  {
    if !Held(cal, over, a.ask, a.now) && a.answer.Some? {
      LateGrant(cal, over, a, cls, t);
    }
  }

  /** A whole batch: at every instant what is committed is at most the larger of
      what was committed and the physical count, plus what pushes and refreshes
      added at that instant while answers were awaited. */
  lemma {:induction false} BatchBound(cal: Calendar, over: Overcommit, attempts: seq<Attempt>, cls: string, t: int)
    requires cls in over.classes && over.fit && Honest(cal, attempts)
    ensures Committed(AfterAttempts(cal, over, attempts), cls, t)
         <= Max(Committed(cal, cls, t), over.Physical(cls)) + BatchRise(cal, over, attempts, cls, t)
  {
    if attempts != [] {
      var init, a := attempts[..|attempts| - 1], attempts[|attempts| - 1];
      assert a in attempts;
      BatchBound(cal, over, init, cls, t);
      var mid := AfterAttempts(cal, over, init);
      if a.answer.Some? {
        SameLabels(cal, over, init, a.answer.value);
      }
      AttemptBound(mid, over, a, cls, t);
    }
  }

  lemma {:induction false} UndisturbedRise(cal: Calendar, over: Overcommit, attempts: seq<Attempt>, cls: string, t: int)
    requires forall a <- attempts :: a.meanwhile.None?
    ensures BatchRise(cal, over, attempts, cls, t) == 0
  {
    if attempts != [] {
      assert attempts[|attempts| - 1] in attempts;
      UndisturbedRise(cal, over, attempts[..|attempts| - 1], cls, t);
    }
  }

  /** So a batch that nothing interrupts leaves no instant worse than it was or
      than what physically exists. */
  lemma BatchNoWorse(cal: Calendar, over: Overcommit, attempts: seq<Attempt>)
    requires Honest(cal, attempts) && forall a <- attempts :: a.meanwhile.None?
    ensures NoWorse(over, cal, AfterAttempts(cal, over, attempts))
  {
    forall cls, t | cls in over.classes && over.fit
      ensures Committed(AfterAttempts(cal, over, attempts), cls, t) <= Max(Committed(cal, cls, t), over.Physical(cls))
    {
      BatchBound(cal, over, attempts, cls, t);
      UndisturbedRise(cal, over, attempts, cls, t);
    }
  }

  /** One change of the reservation list: a cancellation, an admission batch, or a
      push or refresh that replaces it. */
  datatype Change = Cancel(id: int) | Batch(attempts: seq<Attempt>) | Refresh(reservations: seq<Reservation>)

  ghost function AfterChange(cal: Calendar, over: Overcommit, c: Change): Calendar {
    match c
    case Cancel(id) => WithReservations(cal, Pop(cal.reservations, id))
    case Batch(attempts) => AfterAttempts(cal, over, attempts)
    case Refresh(reservations) => WithReservations(cal, reservations)
  }

  /** A cancelled reservation is no longer listed, and the others are as they were; a
      refresh lists what it brings. */
  lemma ChangesExactly(cal: Calendar, over: Overcommit, gone: int, id: int, reservations: seq<Reservation>)
    ensures AfterChange(cal, over, Cancel(gone)).Find(id) == if id == gone then None else cal.Find(id)
    ensures AfterChange(cal, over, Refresh(reservations)) == cal.(reservations := reservations)
  {
    PopFinds(cal.reservations, gone, id);
  }

  ghost function AfterChanges(cal: Calendar, over: Overcommit, run: seq<Change>): Calendar {
    if run == [] then cal else AfterChange(AfterChanges(cal, over, run[..|run| - 1]), over, run[|run| - 1])
  }

  ghost function ChangeRise(cal: Calendar, over: Overcommit, c: Change, cls: string, t: int): nat {
    match c
    case Cancel(_) => 0
    case Batch(attempts) => BatchRise(cal, over, attempts, cls, t)
    case Refresh(reservations) => Rise(cal, WithReservations(cal, reservations), cls, t)
  }

  /** What the changes from outside have added over a run, at one instant. */
  ghost function RunRise(cal: Calendar, over: Overcommit, run: seq<Change>, cls: string, t: int): nat {
    if run == [] then 0 else
    var mid := AfterChanges(cal, over, run[..|run| - 1]);
    RunRise(cal, over, run[..|run| - 1], cls, t) + ChangeRise(mid, over, run[|run| - 1], cls, t)
  }

  ghost predicate HonestRun(cal: Calendar, run: seq<Change>) {
    forall c <- run :: c.Batch? ==> Honest(cal, c.attempts)
  }

  lemma {:induction false} SameLabelsAfter(cal: Calendar, over: Overcommit, run: seq<Change>, r: Reservation)
    ensures AfterChanges(cal, over, run).EffectiveLabel(r) == cal.EffectiveLabel(r)
  {
    if run != [] {
      SameLabelsAfter(cal, over, run[..|run| - 1], r);
      var mid := AfterChanges(cal, over, run[..|run| - 1]);
      if run[|run| - 1].Batch? {
        SameLabels(mid, over, run[|run| - 1].attempts, r);
      }
    }
  }

  lemma ChangeBound(cal: Calendar, over: Overcommit, c: Change, cls: string, t: int)
    requires cls in over.classes && over.fit && (c.Batch? ==> Honest(cal, c.attempts))
    ensures Committed(AfterChange(cal, over, c), cls, t)
         <= Max(Committed(cal, cls, t), over.Physical(cls)) + ChangeRise(cal, over, c, cls, t)
  {
    match c
    case Cancel(id) => RemovalNoWorse(cal, id, cls, t);
    case Batch(attempts) => BatchBound(cal, over, attempts, cls, t);
    case Refresh(_) =>
  }

  /** Over any run of batches, cancellations, pushes and refreshes, however they
      interleave with the grants: only what comes from outside can push an instant
      beyond the larger of what it was and the physical count. */
  lemma {:induction false} RunBound(cal: Calendar, over: Overcommit, run: seq<Change>, cls: string, t: int)
    requires cls in over.classes && over.fit && HonestRun(cal, run)
    ensures Committed(AfterChanges(cal, over, run), cls, t)
         <= Max(Committed(cal, cls, t), over.Physical(cls)) + RunRise(cal, over, run, cls, t)
  {
    if run != [] {
      var init, c := run[..|run| - 1], run[|run| - 1];
      RunBound(cal, over, init, cls, t);
      var mid := AfterChanges(cal, over, init);
      assert c in run;
      if c.Batch? {
        forall a <- c.attempts | a.answer.Some? ensures Honours(mid, a.ask, a.now, a.answer.value) {
          SameLabelsAfter(cal, over, init, a.answer.value);
        }
      }
      ChangeBound(mid, over, c, cls, t);
    }
  }

  /** A change that nothing outside has a part in. */
  predicate Undisturbed(c: Change) {
    c.Cancel? || (c.Batch? && forall a <- c.attempts :: a.meanwhile.None?)
  }

  lemma {:induction false} UndisturbedRun(cal: Calendar, over: Overcommit, run: seq<Change>, cls: string, t: int)
    requires forall c <- run :: Undisturbed(c)
    ensures RunRise(cal, over, run, cls, t) == 0
  {
    if run != [] {
      var init, c := run[..|run| - 1], run[|run| - 1];
      assert c in run;
      UndisturbedRun(cal, over, init, cls, t);
      if c.Batch? {
        UndisturbedRise(AfterChanges(cal, over, init), over, c.attempts, cls, t);
      }
    }
  }

  /** Over any run of batches and cancellations that nothing interrupts. */
  lemma GuardedRunNoWorse(cal: Calendar, over: Overcommit, run: seq<Change>)
    requires HonestRun(cal, run) && forall c <- run :: Undisturbed(c)
    ensures NoWorse(over, cal, AfterChanges(cal, over, run))
  {
    forall cls, t | cls in over.classes && over.fit
      ensures Committed(AfterChanges(cal, over, run), cls, t) <= Max(Committed(cal, cls, t), over.Physical(cls))
    {
      RunBound(cal, over, run, cls, t);
      UndisturbedRun(cal, over, run, cls, t);
    }
  }

  // -- a lease upserted late, exactly ----------------------------------------------------------

  lemma {:induction false} PutFresh(rs: seq<Reservation>, r: Reservation)
    requires forall x <- rs :: x.id != r.id
    ensures Put(rs, r) == rs + [r]
  {
    if rs != [] {
      assert rs[0] in rs;
      PutFresh(rs[1..], r);
    }
  }

  lemma {:induction false} ByIdDistinct(rs: seq<Reservation>)
    requires DistinctIds(rs)
    ensures ById(rs) == rs
  {
    if rs != [] {
      ByIdDistinct(rs[..|rs| - 1]);
      PutFresh(rs[..|rs| - 1], rs[|rs| - 1]);
    }
  }

  lemma FreshLeaseAdds(cal: Calendar, lease: Reservation, cls: string, t: int)
    requires lease.active && forall r <- cal.reservations :: r.id != lease.id
    requires DistinctIds(cal.reservations)
    ensures Committed(WithReservations(cal, ApplyPush(cal.reservations, [lease])), cls, t)
         == Committed(cal, cls, t) + CountsAt(cal, cls, t)(lease)
  {
    ByIdDistinct(cal.reservations);
    PutFresh(cal.reservations, lease);
    assert PushAll(cal.reservations, [lease]) == Put(cal.reservations, lease);
    CommittedOver(cal, ApplyPush(cal.reservations, [lease]), cls, t);
    SumConcat(cal.reservations, [lease], CountsAt(cal, cls, t));
  }

  /** Guard 4 judged the calendar before the answer was awaited. A new lease leaves
      the calendar it is upserted into no worse exactly when it still fits there,
      throughout its own window. */
  lemma LateGrantExactly(cal: Calendar, over: Overcommit, lease: Reservation)
    requires lease.active && lease.kind.OnDemand? && lease.gpuCount > 0 && cal.EffectiveLabel(lease).Some?
    requires cal.EffectiveLabel(lease).value in over.classes && over.fit
    requires lease.id !in cal.noshow && forall r <- cal.reservations :: r.id != lease.id
    requires DistinctIds(cal.reservations)
    ensures NoWorse(over, cal, WithReservations(cal, ApplyPush(cal.reservations, [lease]))) <==>
      forall t :: lease.start <= t < lease.end ==>
        Committed(cal, cal.EffectiveLabel(lease).value, t) + lease.gpuCount
          <= over.Physical(cal.EffectiveLabel(lease).value)
  {
    var own, after := cal.EffectiveLabel(lease).value, WithReservations(cal, ApplyPush(cal.reservations, [lease]));
    forall cls, t ensures Committed(after, cls, t) == Committed(cal, cls, t) + CountsAt(cal, cls, t)(lease) {
      FreshLeaseAdds(cal, lease, cls, t);
    }
    if NoWorse(over, cal, after) {
      forall t | lease.start <= t < lease.end ensures Committed(cal, own, t) + lease.gpuCount <= over.Physical(own) {
        assert Committed(after, own, t) <= Max(Committed(cal, own, t), over.Physical(own));
      }
    }
  }

  /** An instant beyond both bounds: an ask fits the one physical GPU of an empty
      calendar for its minute; a booking of the later half arrives while the answer
      is awaited; and the lease upserted then makes two GPUs committed at 30. */
  lemma PushBetweenOvercommits(cal: Calendar, lease: Reservation, booking: Reservation)
    requires cal.reservations == [] && cal.noshow == {} && lease.id != booking.id
    requires lease.active && lease.kind.OnDemand? && lease.gpuCount == 1 && lease.start == 0 && lease.end == 60
    requires booking.kind.Booking? && booking.gpuCount == 1 && booking.start == 30 && booking.end == 90
    requires cal.EffectiveLabel(lease) == cal.EffectiveLabel(booking) == Some("H100")
    ensures var over := Overcommit({"H100"}, true, map["H100" := 1]);
      var ask := Ask("H100", 1, 60, false);
      && !Held(cal, over, ask, 0) && Honours(cal, ask, 0, lease)
      && Committed(cal, "H100", 30) == 0
      && Committed(AfterAttempt(cal, over, Attempt(ask, 0, Some(lease), Some([booking]), true)), "H100", 30) == 2
  {
    var found := WithReservations(cal, [booking]);
    FreshLeaseAdds(found, lease, "H100", 30);
    var f := CountsAt(found, "H100", 30);
    assert [booking][1..] == [] && Sum([booking], f) == f(booking) + Sum([booking][1..], f);
    assert forall t :: Committed(cal, "H100", t) == 0;
  }
}
