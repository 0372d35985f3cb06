/** The singleton Lease: any number of controller instances reading the one Lease
    record, deciding, and writing it back by compare-and-swap on its version
    (app/k8s_client.py, app/main.py). */
module SingletonLease {
  import opened Sums

  const LEASE_DURATION_SECONDS: nat := 60
  const MICROSECONDS := 1_000_000

  // -- the record and what an instance decides from it -----------------------------------------

  datatype Lease = Lease(
    holder: Option<string>,
    duration: Option<nat>,
    renewedAt: Option<int>,
    transitions: Option<nat>,
    version: nat)

  function OrElse(n: Option<nat>, otherwise: nat): nat {
    if n.Some? && n.value != 0 then n.value else otherwise
  }

  /** Whole seconds, the fraction dropped whichever the sign. */
  function Seconds(micros: int): int {
    if micros >= 0 then micros / MICROSECONDS else -((-micros) / MICROSECONDS)
  }

  function Age(l: Lease, now: int): Option<int> {
    if l.renewedAt.None? then None else Some(Seconds(now - l.renewedAt.value))
  }

  function Expiry(l: Lease): nat {
    OrElse(l.duration, LEASE_DURATION_SECONDS)
  }

  predicate Expired(l: Lease, now: int) {
    var age := Age(l, now);
    age.None? || age.value > Expiry(l)
  }

  /** A claim on the record: who writes, over which version, and as of when. */
  datatype Write = Write(writer: string, basis: Option<nat>, at: int, transitions: nat)

  datatype Decision = Send(write: Write) | Duplicate | Absent

  function DecideAcquire(l: Option<Lease>, id: string, at: int): Decision {
    if l.None? then Send(Write(id, None, at, 0))
    else
      var transitions := OrElse(l.value.transitions, 0);
      if l.value.holder == Some(id) then Send(Write(id, Some(l.value.version), at, transitions))
      else if Expired(l.value, at) then Send(Write(id, Some(l.value.version), at, transitions + 1))
      else Duplicate
  }

  function DecideRenew(l: Option<Lease>, id: string, at: int): Decision {
    if l.None? then Absent
    else if l.value.holder.Some? && l.value.holder != Some(id) && !Expired(l.value, at) then Duplicate
    else Send(Write(id, Some(l.value.version), at, OrElse(l.value.transitions, 0)))
  }

  // -- instances, the API server, and the steps they take ------------------------------------------

  /** Guarding with the lease held, or not (startup failed open). */
  datatype Mode = Starting | Guarding(held: bool) | Gone

  datatype Stage = Idle | Reading(at: int) | Writing(write: Write)

  datatype Instance = Instance(mode: Mode, stage: Stage)

  /** `sent` are the writes on their way or answered; `landed` those the server
      applied. A write may land after its sender gave up on it. */
  datatype World = World(
    now: int,
    lease: Option<Lease>,
    instances: map<string, Instance>,
    sent: set<Write>,
    landed: set<Write>)

  datatype Event =
    | Tick(elapsed: nat)
    | Start(id: string)               // a process starts, or starts again after one with its identity ended
    | Crash(id: string)
    | Begin(id: string)               // the clock is read, then the record asked for
    | Read(id: string)                // the record arrives, and decides what is sent
    | Land(write: Write)              // the server applies a write it was sent
    | Return(id: string, ok: bool)    // the call returns; it may fail although the write landed

  predicate Live(w: World, id: string) {
    id in w.instances && !w.instances[id].mode.Gone?
  }

  predicate Held(w: World, id: string) {
    id in w.instances && w.instances[id].mode == Guarding(true)
  }

  predicate Enabled(w: World, e: Event) {
    match e
    case Tick(_) => true
    case Start(id) => !Live(w, id)
    case Crash(id) => Live(w, id)
    case Begin(id) => Live(w, id) && w.instances[id].stage.Idle?
    case Read(id) => Live(w, id) && w.instances[id].stage.Reading?
    case Land(write) => write in w.sent && write.basis == VersionOf(w.lease)
    case Return(id, ok) => Live(w, id) && if ok then Answered(w, id) else !w.instances[id].stage.Idle?
  }

  function VersionOf(l: Option<Lease>): Option<nat> {
    if l.Some? then Some(l.value.version) else None
  }

  predicate Answered(w: World, id: string) {
    id in w.instances && w.instances[id].stage.Writing? && w.instances[id].stage.write in w.landed
  }

  /** Errors fail open: the instance goes on, guarded or not. */
  function OnError(i: Instance): Instance {
    Instance(if i.mode.Starting? then Guarding(false) else i.mode, Idle)
  }

  function Decide(w: World, id: string): Decision
    requires id in w.instances && w.instances[id].stage.Reading?
  {
    var i := w.instances[id];
    if i.mode == Guarding(true) then DecideRenew(w.lease, id, i.stage.at) else DecideAcquire(w.lease, id, i.stage.at)
  }

  function AfterRead(w: World, id: string): World
    requires id in w.instances && w.instances[id].stage.Reading?
  {
    var i := w.instances[id];
    match Decide(w, id)
    case Duplicate => w.(instances := w.instances[id := Instance(Gone, Idle)])
    case Absent => w.(instances := w.instances[id := OnError(i)])
    case Send(write) => w.(instances := w.instances[id := Instance(i.mode, Writing(write))], sent := w.sent + {write})
  }

  function AfterLand(w: World, write: Write): World {
    var version := if w.lease.Some? then w.lease.value.version + 1 else 1;
    var next := Lease(
      Some(write.writer), Some(LEASE_DURATION_SECONDS), Some(write.at), Some(write.transitions), version);
    w.(lease := Some(next), landed := w.landed + {write})
  }

  function Next(w: World, e: Event): World
    requires Enabled(w, e)
  {
    match e
    case Tick(elapsed) => w.(now := w.now + elapsed)
    case Start(id) => w.(instances := w.instances[id := Instance(Starting, Idle)])
    case Crash(id) => w.(instances := w.instances[id := Instance(Gone, Idle)])
    case Begin(id) => w.(instances := w.instances[id := Instance(w.instances[id].mode, Reading(w.now))])
    case Read(id) => AfterRead(w, id)
    case Land(write) => AfterLand(w, write)
    case Return(id, ok) =>
      w.(instances := w.instances[id := if ok then Instance(Guarding(true), Idle) else OnError(w.instances[id])])
  }

  // -- what every run keeps ----------------------------------------------------------------------------

  /** Someone may write over a record only if they hold it, nobody does, or it
      had expired by the time they read the clock. */
  predicate MayWriteOver(write: Write, l: Lease) {
    l.holder == Some(write.writer) || l.holder.None? || Expired(l, write.at)
  }

  ghost predicate Authorised(w: World, write: Write) {
    && write.at <= w.now
    && (write.basis.Some? ==>
          && w.lease.Some? && write.basis.value <= w.lease.value.version
          && (write.basis.value == w.lease.value.version ==> MayWriteOver(write, w.lease.value)))
  }

  ghost predicate Settled(w: World, write: Write) {
    write in w.sent && w.lease.Some? && (write.basis.Some? ==> write.basis.value < w.lease.value.version)
  }

  ghost predicate Inv(w: World) {
    && (forall write <- w.sent :: Authorised(w, write))
    && (forall write <- w.landed :: Settled(w, write))
    && (forall id <- w.instances :: w.instances[id].stage.Reading? ==> w.instances[id].stage.at <= w.now)
    && (forall id <- w.instances :: w.instances[id].stage.Writing? ==>
          w.instances[id].stage.write in w.sent && w.instances[id].stage.write.writer == id)
  }

  /** Any record may be there when the first instance starts. */
  predicate ColdStart(w: World) {
    w.instances == map[] && w.sent == {} && w.landed == {}
  }

  lemma DecisionIsAuthorised(w: World, id: string)
    requires Inv(w) && Enabled(w, Read(id)) && Decide(w, id).Send?
    ensures Authorised(w, Decide(w, id).write) && Decide(w, id).write !in w.landed
    ensures Decide(w, id).write.writer == id && Decide(w, id).write.basis == VersionOf(w.lease)
  {
  }

  lemma StepKeepsInv(w: World, e: Event)
    requires Inv(w) && Enabled(w, e)
    ensures Inv(Next(w, e))
  {
    if e.Read? && Decide(w, e.id).Send? {
      DecisionIsAuthorised(w, e.id);
    }
  }

  predicate Run(w: World, events: seq<Event>)
    decreases |events|
  {
    events == [] || (Enabled(w, events[0]) && Run(Next(w, events[0]), events[1..]))
  }

  function After(w: World, events: seq<Event>): World
    requires Run(w, events)
    decreases |events|
  {
    if events == [] then w else After(Next(w, events[0]), events[1..])
  }

  lemma {:induction false} RunKeepsInv(w: World, events: seq<Event>)
    requires Inv(w) && Run(w, events)
    ensures Inv(After(w, events))
    decreases |events|
  {
    if events != [] {
      StepKeepsInv(w, events[0]);
      RunKeepsInv(Next(w, events[0]), events[1..]);
    }
  }

  lemma SecondsGrow(a: int, b: int)
    requires a <= b
    ensures Seconds(a) <= Seconds(b)
  {
  }

  lemma ExpiredStays(l: Lease, at: int, now: int)
    requires at <= now && Expired(l, at)
    ensures Expired(l, now)
  {
    if l.renewedAt.Some? {
      SecondsGrow(at - l.renewedAt.value, now - l.renewedAt.value);
    }
  }

  /** In any run from a cold start, a holder loses the record only to a write
      decided on the holder's latest record, when that record's age was beyond
      its duration (or it was never renewed). */
  lemma DisplacedOnlyWhenExpired(start: World, events: seq<Event>, e: Event)
    requires ColdStart(start) && Run(start, events) && Enabled(After(start, events), e)
    ensures var w := After(start, events);
      w.lease.Some? && w.lease.value.holder.Some? && Next(w, e).lease.value.holder != w.lease.value.holder ==>
        && e.Land? && e.write.basis == Some(w.lease.value.version)
        && e.write.at <= w.now && Expired(w.lease.value, e.write.at) && Expired(w.lease.value, w.now)
  {
    RunKeepsInv(start, events);
    var w := After(start, events);
    if w.lease.Some? && e.Land? && w.lease.value.holder.Some? && w.lease.value.holder != Some(e.write.writer) {
      ExpiredStays(w.lease.value, e.write.at, w.now);
    }
  }

  // -- exclusion while live holders stay fresh ---------------------------------------------------------

  /** A live instance that holds the lease, or will on the answer to a write that
      has landed. An instance started over its own old record does not count. */
  predicate Holds(w: World, id: string) {
    Live(w, id) && (Held(w, id) || Answered(w, id))
  }

  /** The record of an instance that holds the lease has not aged past its duration. */
  predicate HolderIsFresh(w: World) {
    w.lease.Some? && w.lease.value.holder.Some? && Holds(w, w.lease.value.holder.value) ==>
      !Expired(w.lease.value, w.now)
  }

  predicate Names(w: World, id: string) {
    w.lease.Some? && w.lease.value.holder == Some(id)
  }

  /** An instance that holds the lease is the one the record names. */
  ghost predicate Exclusive(w: World) {
    forall id :: Holds(w, id) ==> Names(w, id)
  }

  lemma FreshHolderStays(w: World, write: Write, id: string)
    requires Inv(w) && HolderIsFresh(w) && Enabled(w, Land(write)) && Holds(w, id) && Names(w, id)
    ensures Names(Next(w, Land(write)), id)
  {
    if write.writer != id {
      ExpiredStays(w.lease.value, write.at, w.now);
    }
  }

  lemma StepKeepsExclusive(w: World, e: Event)
    requires Inv(w) && Exclusive(w) && HolderIsFresh(w) && Enabled(w, e)
    ensures Exclusive(Next(w, e))
  {
    var w' := Next(w, e);
    if e.Read? && Decide(w, e.id).Send? {
      DecisionIsAuthorised(w, e.id);
    }
    forall id | Holds(w', id) ensures Names(w', id) {
      match e {
        case Land(write) =>
          if Holds(w, id) {
            FreshHolderStays(w, write, id);
          } else {
            assert w.instances[id].stage.write == write;
          }
        case Return(r, ok) => assert Holds(w, id);
        case _ => assert Holds(w, id);
      }
    }
  }

  predicate FreshRun(w: World, events: seq<Event>)
    requires Run(w, events)
    decreases |events|
  {
    HolderIsFresh(w) && (events == [] || FreshRun(Next(w, events[0]), events[1..]))
  }

  lemma {:induction false} RunKeepsExclusive(w: World, events: seq<Event>)
    requires Inv(w) && Exclusive(w) && Run(w, events) && FreshRun(w, events)
    ensures Inv(After(w, events)) && Exclusive(After(w, events))
    decreases |events|
  {
    if events != [] {
      StepKeepsInv(w, events[0]);
      StepKeepsExclusive(w, events[0]);
      RunKeepsExclusive(Next(w, events[0]), events[1..]);
    }
  }

  /** If the record of an instance holding the lease never ages past its duration,
      at most one live instance holds the lease in every reachable state. */
  lemma AtMostOneHolder(start: World, events: seq<Event>, a: string, b: string)
    requires ColdStart(start) && Run(start, events) && FreshRun(start, events)
    requires Held(After(start, events), a) && Held(After(start, events), b)
    ensures a == b
  {
    RunKeepsExclusive(start, events);
    assert Holds(After(start, events), a) && Holds(After(start, events), b);
  }

  /** The record's age counts in whole seconds: it is expired from the first second beyond
      its duration (60 where it names none), or if it was never renewed. */
  lemma ExpiredExactly(l: Lease, now: int)
    ensures var limit := if l.duration.Some? && l.duration.value > 0 then l.duration.value else 60;
      Expired(l, now) <==> l.renewedAt.None? || now - l.renewedAt.value >= (limit + 1) * 1_000_000
  {
  }

  /** Which readers end, exactly. An instance holding the lease ends when the record names
      another and is not expired by its own clock; one not holding it ends when the record
      does not name it and is not expired. */
  lemma ReaderEndsExactly(w: World, id: string)
    requires Enabled(w, Read(id))
    ensures !Live(Next(w, Read(id)), id) <==>
      && w.lease.Some? && w.lease.value.holder != Some(id) && !Expired(w.lease.value, w.instances[id].stage.at)
      && (Held(w, id) ==> w.lease.value.holder.Some?)
    ensures forall other :: other != id ==> (Live(Next(w, Read(id)), other) <==> Live(w, other))
  {
  }

  /** And one that stays sends a claim over the version it read, in its own name and as of
      its own clock, counting a change of holder when it takes the record over; only a
      holder that finds no record sends none, and goes on as it was. */
  lemma StayingReaderClaims(w: World, id: string)
    requires Enabled(w, Read(id)) && Live(Next(w, Read(id)), id)
    ensures var i, next := w.instances[id], Next(w, Read(id));
      if w.lease.None? && Held(w, id) then next == w.(instances := w.instances[id := Instance(i.mode, Idle)])
      else
        var counted := if w.lease.Some? && w.lease.value.transitions.Some? then w.lease.value.transitions.value else 0;
        var taken := w.lease.Some? && !Held(w, id) && w.lease.value.holder != Some(id);
        var basis := if w.lease.Some? then Some(w.lease.value.version) else None;
        var write := Write(id, basis, i.stage.at, counted + if taken then 1 else 0);
        next == w.(instances := w.instances[id := Instance(i.mode, Writing(write))], sent := w.sent + {write})
  {
  }

  /** A call in flight may always fail, and that ends nobody: an instance goes on with
      the lease if it held it, and without it if not. */
  lemma ErrorFailsOpen(w: World, id: string)
    requires Live(w, id) && !w.instances[id].stage.Idle?
    ensures Enabled(w, Return(id, false))
    ensures var next := Next(w, Return(id, false));
      && Live(next, id) && (Held(next, id) <==> Held(w, id))
      && next.instances[id].stage.Idle? && !next.instances[id].mode.Starting?
      && next.lease == w.lease && next.sent == w.sent && next.landed == w.landed
  {
  }

  /** A claim that lands names its writer, is fresh for just over its minute from the
      writer's clock on, and is a version of its own. */
  lemma LandedIsFresh(w: World, write: Write, now: int)
    requires Enabled(w, Land(write))
    ensures var next := Next(w, Land(write));
      && Names(next, write.writer) && write in next.landed
      && next.lease.value.transitions == Some(write.transitions)
      && (w.lease.Some? ==> next.lease.value.version > w.lease.value.version)
      && (Expired(next.lease.value, now) <==> now - write.at >= 61_000_000)
      && next.instances == w.instances && next.now == w.now
  {
    ExpiredExactly(Next(w, Land(write)).lease.value, now);
  }

  /** So a holder that renews goes on holding: from any state in which the record names it,
      however long its read, its write and its answer take, it then holds the lease, under a
      record that is fresh exactly if that took less than 61 seconds in all. */
  lemma RenewalKeepsLease(w: World, id: string, toRead: nat, toWrite: nat, toReturn: nat)
    requires Inv(w) && Names(w, id) && Held(w, id) && w.instances[id].stage.Idle?
    ensures var renewal := Renewal(w, id, toRead, toWrite, toReturn);
      && Run(w, renewal) && Held(After(w, renewal), id) && Names(After(w, renewal), id)
      && (HolderIsFresh(After(w, renewal)) <==> toRead + toWrite + toReturn < 61_000_000)
  {
    var write := Renewing(w, id);
    var w1 := Next(Next(w, Begin(id)), Tick(toRead));
    assert Decide(w1, id) == Send(write);
    var w2 := Next(Next(w1, Read(id)), Tick(toWrite));
    RenewalEnds(w2, id, write, toReturn);
    RunNext(Next(w1, Read(id)), Tick(toWrite), [Land(write), Tick(toReturn), Return(id, true)]);
    RunNext(w1, Read(id), [Tick(toWrite), Land(write), Tick(toReturn), Return(id, true)]);
    RenewalStarts(w, id, toRead, [Read(id), Tick(toWrite), Land(write), Tick(toReturn), Return(id, true)]);
  }

  function Renewing(w: World, id: string): Write
    requires w.lease.Some?
  {
    Write(id, Some(w.lease.value.version), w.now, OrElse(w.lease.value.transitions, 0))
  }

  function Renewal(w: World, id: string, toRead: nat, toWrite: nat, toReturn: nat): seq<Event>
    requires w.lease.Some?
  {
    [Begin(id), Tick(toRead)]
    + [Read(id), Tick(toWrite), Land(Renewing(w, id)), Tick(toReturn), Return(id, true)]
  }

  /** The second half: the write lands and is answered. */
  lemma RenewalEnds(w: World, id: string, write: Write, toReturn: nat)
    requires Enabled(w, Land(write)) && write.writer == id
    requires Live(w, id) && w.instances[id].stage == Writing(write)
    ensures var rest := [Land(write), Tick(toReturn), Return(id, true)];
      && Run(w, rest) && Held(After(w, rest), id) && Names(After(w, rest), id)
      && (HolderIsFresh(After(w, rest)) <==> w.now + toReturn - write.at < 61_000_000)
  {
    var w1 := Next(Next(w, Land(write)), Tick(toReturn));
    LandedIsFresh(w, write, w1.now);
    RunNext(w1, Return(id, true), []);
    RunNext(Next(w, Land(write)), Tick(toReturn), [Return(id, true)]);
    RunNext(w, Land(write), [Tick(toReturn), Return(id, true)]);
  }

  lemma RenewalStarts(w: World, id: string, toRead: nat, rest: seq<Event>)
    requires Enabled(w, Begin(id)) && Run(Next(Next(w, Begin(id)), Tick(toRead)), rest)
    ensures Run(w, [Begin(id), Tick(toRead)] + rest)
    ensures After(w, [Begin(id), Tick(toRead)] + rest) == After(Next(Next(w, Begin(id)), Tick(toRead)), rest)
  {
    RunNext(Next(w, Begin(id)), Tick(toRead), rest);
    RunNext(w, Begin(id), [Tick(toRead)] + rest);
    assert [Begin(id)] + ([Tick(toRead)] + rest) == [Begin(id), Tick(toRead)] + rest;
  }

  /** While holders stay fresh nothing but a crash takes the lease from one: in every
      reachable state an instance that holds it holds it after any other step, its own
      reads and failed calls included. */
  lemma OnlyCrashEndsHolder(start: World, events: seq<Event>, id: string, e: Event)
    requires ColdStart(start) && Run(start, events) && FreshRun(start, events)
    requires Held(After(start, events), id) && Enabled(After(start, events), e)
    ensures Held(Next(After(start, events), e), id) <==> e != Crash(id)
  {
    RunKeepsExclusive(start, events);
    var w := After(start, events);
    assert Holds(w, id) && Names(w, id);
    if e == Read(id) {
      ReaderEndsExactly(w, id);
    }
  }

  /** An instance that reads another's record while it is fresh ends. */
  lemma FreshRecordEndsReader(w: World, id: string)
    requires Inv(w) && Enabled(w, Read(id))
    requires w.lease.Some? && w.lease.value.holder.Some? && w.lease.value.holder.value != id &&
      !Expired(w.lease.value, w.now)
    ensures !Live(Next(w, Read(id)), id)
  {
    if Expired(w.lease.value, w.instances[id].stage.at) {
      ExpiredStays(w.lease.value, w.instances[id].stage.at, w.now);
    }
  }

  // -- and not otherwise ------------------------------------------------------------------------------------

  function Takeover(w: World, id: string): seq<Event> {
    var transitions := if w.lease.Some? then OrElse(w.lease.value.transitions, 0) + 1 else 0;
    [Start(id), Begin(id), Read(id), Land(Write(id, VersionOf(w.lease), w.now, transitions)), Return(id, true)]
  }

  /** Whoever starts over an expired record of another can come to hold the lease,
      and no other instance notices. */
  lemma TakeoverRuns(w: World, a: string, b: string)
    requires Names(w, a) && a != b && Expired(w.lease.value, w.now) && !Live(w, b)
    ensures Run(w, Takeover(w, b))
    ensures var next := After(w, Takeover(w, b));
      Held(next, b) && w.landed <= next.landed && forall id <- w.instances :: id != b ==>
        id in next.instances && next.instances[id] == w.instances[id]
  {
    var write := Write(b, VersionOf(w.lease), w.now, OrElse(w.lease.value.transitions, 0) + 1);
    var w1 := Next(w, Start(b));
    var w2 := Next(w1, Begin(b));
    assert Decide(w2, b) == Send(write);
    var w3 := Next(w2, Read(b));
    var w4 := Next(w3, Land(write));
    var w5 := Next(w4, Return(b, true));
    assert Takeover(w, b) == [Start(b), Begin(b), Read(b), Land(write), Return(b, true)];
    RunOfFive(w, Start(b), Begin(b), Read(b), Land(write), Return(b, true));
  }

  /** The freshness is needed, in every state that lacks it: the next instance to
      start can come to hold the lease beside the one that holds it already. */
  lemma StaleHolderCanBeJoined(w: World, b: string) returns (a: string, events: seq<Event>)
    requires !HolderIsFresh(w) && !Live(w, b)
    ensures a != b && Run(w, events) && Held(After(w, events), a) && Held(After(w, events), b)
  {
    a := w.lease.value.holder.value;
    events := Takeover(w, b);
    TakeoverRuns(w, a, b);
    if !Held(w, a) {
      OneMoreStep(w, events, Return(a, true));
      events := events + [Return(a, true)];
    }
  }

  lemma {:induction false} OneMoreStep(w: World, events: seq<Event>, e: Event)
    requires Run(w, events) && Enabled(After(w, events), e)
    ensures Run(w, events + [e]) && After(w, events + [e]) == Next(After(w, events), e)
    decreases |events|
  {
    if events == [] {
      assert Run(Next(w, e), []);
      assert [e][1..] == [];
      assert events + [e] == [e];
    } else {
      OneMoreStep(Next(w, events[0]), events[1..], e);
      assert (events + [e])[1..] == events[1..] + [e];
    }
  }

  lemma RunOfFive(w: World, e1: Event, e2: Event, e3: Event, e4: Event, e5: Event)
    requires Enabled(w, e1) && Enabled(Next(w, e1), e2)
    requires Enabled(Next(Next(w, e1), e2), e3)
    requires Enabled(Next(Next(Next(w, e1), e2), e3), e4)
    requires Enabled(Next(Next(Next(Next(w, e1), e2), e3), e4), e5)
    ensures Run(w, [e1, e2, e3, e4, e5])
    ensures After(w, [e1, e2, e3, e4, e5]) == Next(Next(Next(Next(Next(w, e1), e2), e3), e4), e5)
  {
    var w1 := Next(w, e1);
    var w2 := Next(w1, e2);
    var w3 := Next(w2, e3);
    RunNext(Next(w3, e4), e5, []);
    RunNext(w3, e4, [e5]);
    RunNext(w2, e3, [e4, e5]);
    RunNext(w1, e2, [e3, e4, e5]);
    RunNext(w, e1, [e2, e3, e4, e5]);
    assert [e1] + [e2, e3, e4, e5] == [e1, e2, e3, e4, e5];
    assert [e2] + [e3, e4, e5] == [e2, e3, e4, e5];
    assert [e3] + [e4, e5] == [e3, e4, e5];
    assert [e4] + [e5] == [e4, e5];
    assert [e5] + [] == [e5];
  }

  lemma RunNext(w: World, e: Event, events: seq<Event>)
    requires Enabled(w, e) && Run(Next(w, e), events)
    ensures Run(w, [e] + events) && After(w, [e] + events) == After(Next(w, e), events)
  {
    assert ([e] + events)[1..] == events;
  }
}
