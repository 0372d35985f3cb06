/** The on-demand admission runner: a lock and a rerun flag that collapse a burst of
    triggers into the pass in flight and one more (app/main.py). */
module CoalescingRunner {

  datatype State = State(locked: bool, rerun: bool)

  const IDLE := State(false, false)

  /** A trigger arrives, or the pass in flight ends, possibly by raising. Nothing
      runs between a step's test of the lock or the flag and what it then does. */
  datatype Event = Trigger | PassEnds(raised: bool)

  predicate Enabled(s: State, e: Event) {
    e.PassEnds? ==> s.locked
  }

  function Next(s: State, e: Event): State {
    match e
    case Trigger => if s.locked then State(true, true) else State(true, false)
    case PassEnds(raised) =>
      if raised then State(false, s.rerun)
      else if s.rerun then State(true, false)
      else State(false, false)
  }

  /** Whether the step starts a pass. */
  predicate Starts(s: State, e: Event) {
    match e
    case Trigger => !s.locked
    case PassEnds(raised) => !raised && s.rerun
  }

  function After(s: State, events: seq<Event>): State {
    if events == [] then s else Next(After(s, events[..|events| - 1]), events[|events| - 1])
  }

  predicate Run(s: State, events: seq<Event>) {
    events == [] || (Run(s, events[..|events| - 1]) && Enabled(After(s, events[..|events| - 1]), events[|events| - 1]))
  }

  function Passes(s: State, events: seq<Event>): nat {
    if events == [] then 0 else
    Passes(s, events[..|events| - 1]) + if Starts(After(s, events[..|events| - 1]), events[|events| - 1]) then 1 else 0
  }

  function Ended(events: seq<Event>): nat {
    if events == [] then 0 else
    Ended(events[..|events| - 1]) + if events[|events| - 1].PassEnds? then 1 else 0
  }

  function Triggers(events: seq<Event>): nat {
    if events == [] then 0 else
    Triggers(events[..|events| - 1]) + if events[|events| - 1].Trigger? then 1 else 0
  }

  /** At most one pass is in flight: exactly one while the lock is held. */
  lemma {:induction false} OnePassAtATime(events: seq<Event>)
    requires Run(IDLE, events)
    ensures Passes(IDLE, events) - Ended(events) == if After(IDLE, events).locked then 1 else 0
  {
    if events != [] {
      OnePassAtATime(events[..|events| - 1]);
    }
  }

  /** A burst costs no more passes than it has triggers. */
  lemma {:induction false} NoMorePassesThanTriggers(events: seq<Event>)
    requires Run(IDLE, events)
    ensures Passes(IDLE, events) + (if After(IDLE, events).locked && After(IDLE, events).rerun then 1 else 0)
      <= Triggers(events)
  {
    if events != [] {
      NoMorePassesThanTriggers(events[..|events| - 1]);
    }
  }

  /** A pass starts at or after step `i`. */
  ghost predicate Answered(events: seq<Event>, i: nat) {
    exists j :: i <= j < |events| && Starts(After(IDLE, events[..j]), events[j])
  }

  lemma AnsweredEarlier(events: seq<Event>, i: nat)
    requires events != [] && Answered(events[..|events| - 1], i)
    ensures Answered(events, i)
  {
    var rest := events[..|events| - 1];
    var j :| i <= j < |rest| && Starts(After(IDLE, rest[..j]), rest[j]);
    assert rest[..j] == events[..j] && rest[j] == events[j];
  }

  /** No wake-up is lost but to a pass that raises: every trigger is followed by
      the start of a pass, or one is owed when the pass in flight ends, or a pass
      has raised since. */
  lemma {:induction false} TriggerIsAnswered(events: seq<Event>, i: nat)
    requires Run(IDLE, events) && i < |events| && events[i].Trigger?
    ensures Answered(events, i) || (After(IDLE, events).locked && After(IDLE, events).rerun) ||
      exists j :: i < j < |events| && events[j] == PassEnds(true)
  {
    var n := |events| - 1;
    var rest := events[..n];
    if i == n {
      if !After(IDLE, rest).locked {
        assert Starts(After(IDLE, events[..n]), events[n]);
      }
    } else {
      TriggerIsAnswered(rest, i);
      if Answered(rest, i) {
        AnsweredEarlier(events, i);
      } else if j :| i < j < |rest| && rest[j] == PassEnds(true) {
        assert events[j] == PassEnds(true);
      } else if events[n] == PassEnds(false) {
        assert Starts(After(IDLE, events[..n]), events[n]);
      }
    }
  }

  /** So when passes end without raising and the runner is idle, every trigger has
      had a pass start after it. */
  lemma NoLostWakeUp(events: seq<Event>, i: nat)
    requires Run(IDLE, events) && PassEnds(true) !in events
    requires i < |events| && events[i].Trigger? && !After(IDLE, events).locked
    ensures Answered(events, i)
  {
    TriggerIsAnswered(events, i);
    assert forall j :: 0 <= j < |events| ==> events[j] in events;
  }

  /** Some trigger has had no pass start since. */
  ghost predicate Unanswered(events: seq<Event>) {
    exists i :: 0 <= i < |events| && events[i].Trigger? && !Answered(events, i)
  }

  lemma AnsweredByLast(events: seq<Event>, e: Event)
    requires Starts(After(IDLE, events), e)
    ensures !Unanswered(events + [e])
  {
    var all := events + [e];
    assert all[..|events|] == events;
    forall i | 0 <= i < |all| ensures Answered(all, i) {
      assert Starts(After(IDLE, all[..|events|]), all[|events|]);
    }
  }

  lemma AnswersStay(events: seq<Event>, e: Event, i: nat)
    requires i < |events| && !Starts(After(IDLE, events), e)
    ensures Answered(events + [e], i) <==> Answered(events, i)
  {
    var all := events + [e];
    assert all[..|events|] == events;
    if Answered(events, i) {
      AnsweredEarlier(all, i);
    }
    if Answered(all, i) {
      var j :| i <= j < |all| && Starts(After(IDLE, all[..j]), all[j]);
      assert j < |events| && events[..j] == all[..j] && events[j] == all[j];
    }
  }

  lemma UnansweredNext(events: seq<Event>, e: Event)
    requires !Starts(After(IDLE, events), e)
    ensures Unanswered(events + [e]) <==> e.Trigger? || Unanswered(events)
  {
    var all := events + [e];
    if e.Trigger? {
      assert all[..|events|] == events && all[|events|] == e;
      assert !Answered(all, |events|);
    }
    if Unanswered(events) {
      var i :| 0 <= i < |events| && events[i].Trigger? && !Answered(events, i);
      AnswersStay(events, e, i);
      assert all[i] == events[i];
    }
    if Unanswered(all) && !e.Trigger? {
      var i :| 0 <= i < |all| && all[i].Trigger? && !Answered(all, i);
      AnswersStay(events, e, i);
      assert events[i] == all[i];
    }
  }

  /** The flag is exact: in every run, passes raising or not, it is set exactly
      while some trigger has had no pass start since. So an idle runner has lost a
      trigger exactly when its flag is still set. */
  lemma {:induction false} FlagIsExact(events: seq<Event>)
    requires Run(IDLE, events)
    ensures After(IDLE, events).rerun <==> Unanswered(events)
  {
    if events != [] {
      var rest, e := events[..|events| - 1], events[|events| - 1];
      FlagIsExact(rest);
      assert events == rest + [e];
      if Starts(After(IDLE, rest), e) {
        AnsweredByLast(rest, e);
      } else {
        UnansweredNext(rest, e);
      }
    }
  }

  /** And the end of a pass leaves the runner idle with a trigger unanswered if and
      only if the pass raises while the flag is set. */
  lemma EndStrandsExactly(events: seq<Event>, raised: bool)
    requires Run(IDLE, events) && After(IDLE, events).locked
    ensures !After(IDLE, events + [PassEnds(raised)]).locked && Unanswered(events + [PassEnds(raised)]) <==>
      raised && After(IDLE, events).rerun
  {
    OneMoreEvent(IDLE, events, PassEnds(raised));
    FlagIsExact(events + [PassEnds(raised)]);
  }

  /** A pass that raises does lose the trigger that came while it ran. */
  lemma RaisingLosesTrigger()
    ensures var events := [Trigger, Trigger, PassEnds(true)];
      Run(IDLE, events) && !After(IDLE, events).locked && !Answered(events, 1)
  {
    var events := [Trigger, Trigger, PassEnds(true)];
    assert events[..0] == [];
    assert events[..1] == [Trigger] && [Trigger][..0] == [];
    assert events[..2] == [Trigger, Trigger] && [Trigger, Trigger][..1] == [Trigger];
    assert After(IDLE, events[..1]) == State(true, false);
    assert After(IDLE, events[..2]) == State(true, true);
  }

  // -- the runner itself ---------------------------------------------------------------------

  lemma OneMoreEvent(s: State, events: seq<Event>, e: Event)
    ensures After(s, events + [e]) == Next(After(s, events), e)
    ensures Run(s, events + [e]) == (Run(s, events) && Enabled(After(s, events), e))
    ensures Passes(s, events + [e]) == Passes(s, events) + if Starts(After(s, events), e) then 1 else 0
  {
    assert (events + [e])[..|events|] == events;
  }

  class AdmissionRunner {
    var locked: bool
    var rerunRequested: bool

    ghost function Now(): State
      reads this
    {
      State(locked, rerunRequested)
    }

    constructor ()
      ensures Now() == IDLE
    {
      locked, rerunRequested := false, false;
    }

    /** A trigger that finds a pass in flight. */
    method Request()
      requires locked
      modifies this
      ensures Now() == Next(old(Now()), Trigger) && !Starts(old(Now()), Trigger)
    {
      rerunRequested := true;
    }

    /** A trigger. `arrivals` says how many more arrive during its first pass, its
        second, and so on; the trace is what then happened, in order. */
    method RunOndemandAdmission(arrivals: seq<nat>) returns (passes: nat, ghost trace: seq<Event>)
      modifies this
      ensures Run(old(Now()), trace) && Now() == After(old(Now()), trace) && passes == Passes(old(Now()), trace)
      ensures trace != [] && trace[0] == Trigger && PassEnds(true) !in trace
      ensures old(locked) ==> trace == [Trigger]
      ensures !old(locked) ==> !locked
    {
      ghost var start := Now();
      trace, passes := [], 0;
      OneMoreEvent(start, trace, Trigger);
      trace := trace + [Trigger];
      if locked {
        Request();
        return;
      }
      locked := true;
      var k := 0;
      while true
        invariant locked && Run(start, trace) && After(start, trace) == State(true, false)
        invariant passes + 1 == Passes(start, trace)
        invariant trace != [] && trace[0] == Trigger && PassEnds(true) !in trace
        decreases |arrivals| - k
      {
        rerunRequested := false;
        passes := passes + 1;
        var n := if k < |arrivals| then arrivals[k] else 0;
        for i := 0 to n
          invariant Now() == After(start, trace) && locked && (k >= |arrivals| ==> !rerunRequested)
          invariant Run(start, trace) && passes == Passes(start, trace)
          invariant trace != [] && trace[0] == Trigger && PassEnds(true) !in trace
        {
          OneMoreEvent(start, trace, Trigger);
          Request();
          trace := trace + [Trigger];
        }
        OneMoreEvent(start, trace, PassEnds(false));
        trace := trace + [PassEnds(false)];
        if !rerunRequested {
          break;
        }
        k := k + 1;
      }
      locked := false;
    }
  }
}
