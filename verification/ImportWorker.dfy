/** The agent-usage import worker: one thread, a wake event, a stop event and a fixed deadline grid.
    A run is any interleaving of triggers, stops, clock ticks and single steps of the worker. */
module ImportWorker {

  datatype Pass = Initial | Browser | Scheduled

  /** Where the worker thread stands in `_run`. */
  datatype Place =
    | Boot                                  // before reading the clock for the first deadline
    | Starting                              // before the first stop check
    | Acting(pass: Pass)                    // inside `_run_once`
    | Bumping                               // after a scheduled pass
    | Looping                               // at the head of the loop
    | Waiting(until: int)                   // in `_wake.wait(timeout)`
    | Woken(triggered: bool)                // before the stop check after the wait
    | Checked(triggered: bool)              // before reading the clock
    | Read(triggered: bool, now: int)       // before the clear of a browser wake-up
    | Deciding(triggered: bool, now: int)   // before choosing the pass
    | Clearing                              // before the clear of a scheduled pass
    | Launching                             // before a scheduled pass
    | Exited

  /** `checking` counts triggers between their check and their `set`; `unserved` holds from an accepted
      trigger to the next start of an action. */
  datatype State = State(
    place: Place, wake: bool, stop: bool,
    clock: int, started: int, interval: int, deadline: int,
    checking: nat, unserved: bool)

  datatype Event =
    | Work(triggered: bool)   // the worker's next step; `triggered` is what the wait returns
    | Tick(passed: nat)
    | TriggerCheck            // `trigger` finds the worker alive and not stopping
    | TriggerSet              // ... and sets the wake event: the trigger is accepted
    | StopSet
    | StopWake

  /** The wait may report the wake event once it is set, and a time-out once the time is up. */
  predicate Enabled(s: State, e: Event) {
    match e
    case Work(triggered) =>
      !s.place.Exited?
      && (s.place.Waiting? ==> if triggered then s.wake else s.clock >= s.place.until)
    case TriggerCheck => !s.stop && !s.place.Exited?
    case TriggerSet => s.checking > 0
    case _ => true
  }

  function Max(a: int, b: int): int { if a < b then b else a }

  /** The first grid point after `now`. */
  function Bumped(deadline: int, interval: int, now: int): int
    requires interval > 0
    decreases now - deadline
  {
    if deadline <= now then Bumped(deadline + interval, interval, now) else deadline
  }

  /** `while next_deadline <= now: next_deadline += interval` */
  method BumpDeadline(before: int, interval: int, now: int) returns (deadline: int)
    requires interval > 0
    ensures deadline == Bumped(before, interval, now)
    ensures deadline > now && (deadline == before || deadline - interval <= now)
  {
    deadline := before;
    while deadline <= now
      invariant Bumped(before, interval, now) == Bumped(deadline, interval, now)
      invariant deadline == before || deadline - interval <= now
      decreases now - deadline
    {
      deadline := deadline + interval;
    }
  }

  function StartPass(s: State, pass: Pass): State {
    s.(place := Acting(pass), unserved := false)
  }

  function WorkStep(s: State, triggered: bool): State
    requires Enabled(s, Work(triggered)) && s.interval > 0
  {
    match s.place
    case Boot => s.(deadline := s.clock + s.interval, started := s.clock, place := Starting)
    case Starting => if s.stop then s.(place := Exited) else StartPass(s, Initial)
    case Acting(pass) => s.(place := if pass == Scheduled then Bumping else Looping)
    case Bumping => s.(deadline := Bumped(s.deadline, s.interval, s.clock), place := Looping)
    case Looping => s.(place := if s.stop then Exited else Waiting(Max(s.clock, s.deadline)))
    case Waiting(_) => s.(place := Woken(triggered))
    case Woken(t) => s.(place := if s.stop then Exited else Checked(t))
    case Checked(t) => s.(place := Read(t, s.clock))
    case Read(t, now) => s.(wake := if t then false else s.wake, place := Deciding(t, now))
    case Deciding(t, now) => if t && now < s.deadline then StartPass(s, Browser) else s.(place := Clearing)
    case Clearing => s.(wake := false, place := Launching)
    case Launching => StartPass(s, Scheduled)
    case Exited => s
  }

  function Step(s: State, e: Event): State
    requires Enabled(s, e) && s.interval > 0
  {
    match e
    case Work(triggered) => WorkStep(s, triggered)
    case Tick(passed) => s.(clock := s.clock + passed)
    case TriggerCheck => s.(checking := s.checking + 1)
    case TriggerSet => s.(checking := s.checking - 1, wake := true, unserved := true)
    case StopSet => s.(stop := true)
    case StopWake => s.(wake := true)
  }

  /** The step starts an action. */
  predicate Starts(s: State, e: Event) {
    e.Work? && (s.place.Starting? || s.place.Deciding? || s.place.Launching?) && Enabled(s, e) && s.interval > 0
      && Step(s, e).place.Acting?
  }

  predicate Possible(s: State, events: seq<Event>)
    decreases |events|
  {
    s.interval > 0 && (events == [] || (Enabled(s, events[0]) && Possible(Step(s, events[0]), events[1..])))
  }

  function Execute(s: State, events: seq<Event>): State
    requires Possible(s, events)
    decreases |events|
  {
    if events == [] then s else Execute(Step(s, events[0]), events[1..])
  }

  function Initially(clock: int, interval: int): State {
    State(Boot, false, false, clock, clock, interval, clock, 0, false)
  }

  // ----- what every interleaving keeps -----

  /** From here the worker starts an action before it clears the wake event or looks at stop again. */
  predicate Committed(place: Place) {
    place.Deciding? || place.Clearing? || place.Launching?
  }

  ghost predicate OnGrid(s: State, k: int) {
    k >= 1 && s.deadline == s.started + k * s.interval
  }

  ghost predicate Sound(s: State) {
    && s.interval > 0
    && (s.unserved ==> s.wake || Committed(s.place))
    && (s.place.Exited? ==> s.stop)
    && (s.place.Waiting? ==> s.place.until >= s.deadline)
    && (!s.place.Boot? ==> exists k :: OnGrid(s, k))
  }

  lemma {:induction false} BumpStaysOnGrid(started: int, interval: int, deadline: int, now: int, k: int)
    returns (l: int)
    requires interval > 0 && k >= 1 && deadline == started + k * interval
    ensures l >= k && Bumped(deadline, interval, now) == started + l * interval
    ensures Bumped(deadline, interval, now) > now
    ensures l == k || Bumped(deadline, interval, now) - interval <= now
    decreases now - deadline
  {
    l := k;
    if deadline <= now {
      assert deadline + interval == started + (k + 1) * interval;
      l := BumpStaysOnGrid(started, interval, deadline + interval, now, k + 1);
    }
  }

  lemma StepIsSound(s: State, e: Event)
    requires Sound(s) && Enabled(s, e)
    ensures Sound(Step(s, e))
  {
    var t := Step(s, e);
    if s.place.Boot? && e.Work? {
      assert OnGrid(t, 1);
    } else if !s.place.Boot? {
      var k :| OnGrid(s, k);
      if s.place.Bumping? && e.Work? {
        var l := BumpStaysOnGrid(s.started, s.interval, s.deadline, s.clock, k);
        assert OnGrid(t, l);
      } else {
        assert OnGrid(t, k);
      }
    }
  }

  /** In every interleaving an accepted and unserved trigger has the wake event set or an action about
      to start, the worker exits only on stop, and the deadline lies on the grid from its start. */
  lemma {:induction false} RunsAreSound(s: State, events: seq<Event>)
    requires Sound(s) && Possible(s, events)
    ensures Sound(Execute(s, events))
    decreases |events|
  {
    if events != [] {
      StepIsSound(s, events[0]);
      RunsAreSound(Step(s, events[0]), events[1..]);
    }
  }

  /** So is every run of a worker just started. */
  lemma StartedWorkerIsSound(clock: int, interval: int, events: seq<Event>)
    requires interval > 0 && Possible(Initially(clock, interval), events)
    ensures Sound(Execute(Initially(clock, interval), events))
  {
    RunsAreSound(Initially(clock, interval), events);
  }

  // ----- no wake is lost -----

  /** The worker steps from a place to the next start of an action. */
  function Distance(place: Place): nat {
    match place
    case Launching => 1
    case Clearing => 2
    case Deciding(_, _) => 3
    case Read(_, _) => 4
    case Checked(_) => 5
    case Woken(_) => 6
    case Waiting(_) => 7
    case Looping => 8
    case Bumping => 9
    case Acting(_) => 10
    case Starting => 1
    case Boot => 2
    case Exited => 0
  }

  function WorkCount(events: seq<Event>): nat {
    if events == [] then 0 else (if events[0].Work? then 1 else 0) + WorkCount(events[1..])
  }

  /** Some step of the run starts an action. */
  ghost predicate StartsSomewhere(s: State, events: seq<Event>)
    requires Possible(s, events)
    decreases |events|
  {
    events != [] && (Starts(s, events[0]) || StartsSomewhere(Step(s, events[0]), events[1..]))
  }

  lemma {:induction false} StopIsForever(s: State, events: seq<Event>)
    requires Possible(s, events) && s.stop
    ensures Execute(s, events).stop
    decreases |events|
  {
    if events != [] {
      StopIsForever(Step(s, events[0]), events[1..]);
    }
  }

  /** While a trigger waits to be served the worker is never stuck. */
  lemma UnservedIsNeverStuck(s: State)
    requires Sound(s) && s.unserved && !s.stop
    ensures Enabled(s, Work(true))
  {
  }

  /** Unless stop is set, an action starts after an accepted trigger: within the ten worker steps that
      follow it, whatever triggers, ticks and time-outs come between them. */
  lemma TriggerIsServed(s: State, events: seq<Event>)
    requires Sound(s) && Possible(s, events) && s.unserved && !Execute(s, events).stop
    requires WorkCount(events) >= 10
    ensures StartsSomewhere(s, events)
  {
    ServedInTime(s, events);
  }

  lemma {:induction false} ServedInTime(s: State, events: seq<Event>)
    requires Sound(s) && Possible(s, events) && s.unserved && !Execute(s, events).stop
    requires WorkCount(events) >= Distance(s.place)
    ensures StartsSomewhere(s, events)
    decreases |events|
  {
    if s.stop {
      StopIsForever(s, events);
    } else if events != [] && !Starts(s, events[0]) {
      var mid := Step(s, events[0]);
      StepIsSound(s, events[0]);
      if mid.stop {
        StopIsForever(mid, events[1..]);
      } else {
        ServedInTime(mid, events[1..]);
      }
    }
  }

  /** An accepted trigger is unserved until an action starts, and then the next one is not lost. */
  lemma AcceptedIsUnserved(s: State, e: Event)
    requires s.interval > 0 && Enabled(s, e)
    ensures e.TriggerSet? ==> Step(s, e).unserved && Step(s, e).wake
    ensures s.unserved && !Starts(s, e) ==> Step(s, e).unserved
  {
  }

  // ----- the deadline grid -----

  /** Only the end of a scheduled pass moves the deadline, and then to the first grid point past the
      clock reading; browser passes and triggers leave it alone. */
  lemma DeadlineMovesOnlyAfterScheduledPass(s: State, e: Event)
    requires Sound(s) && Enabled(s, e) && !s.place.Boot?
    ensures var t := Step(s, e);
            (!(s.place.Bumping? && e.Work?) ==> t.deadline == s.deadline)
            && (s.place.Bumping? && e.Work? ==>
                  t.deadline > t.clock && t.deadline >= s.deadline
                    && (t.deadline == s.deadline || t.deadline - s.interval <= t.clock))
  {
    if s.place.Bumping? && e.Work? {
      var k :| OnGrid(s, k);
      var l := BumpStaysOnGrid(s.started, s.interval, s.deadline, s.clock, k);
      assert l * s.interval >= k * s.interval by {
        MulKeepsOrder(k, l, s.interval);
      }
    }
  }

  lemma MulKeepsOrder(a: int, b: int, c: int)
    requires a <= b && c > 0
    ensures a * c <= b * c
  {
    assert (b - a) * c >= 0;
  }

  /** The deadline has passed and the worker has not yet read an earlier clock. */
  predicate Due(s: State) {
    match s.place
    case Looping => s.clock >= s.deadline
    case Waiting(_) => s.clock >= s.deadline
    case Woken(_) => s.clock >= s.deadline
    case Checked(_) => s.clock >= s.deadline
    case Read(_, now) => now >= s.deadline
    case Deciding(_, now) => now >= s.deadline
    case Clearing => true
    case Launching => true
    case _ => false
  }

  /** The first action the run starts is a scheduled pass. */
  ghost predicate FirstStartIsScheduled(s: State, events: seq<Event>)
    requires Possible(s, events)
    decreases |events|
  {
    events != [] ==>
      if Starts(s, events[0]) then Step(s, events[0]).place == Acting(Scheduled)
      else FirstStartIsScheduled(Step(s, events[0]), events[1..])
  }

  /** Browser triggers cannot postpone a scheduled pass: once the deadline has passed, the next action
      is the scheduled one, whatever triggers arrive. */
  lemma {:induction false} DuePassIsNotPostponed(s: State, events: seq<Event>)
    requires Possible(s, events) && (Due(s) || s.place.Exited?)
    ensures FirstStartIsScheduled(s, events)
    decreases |events|
  {
    if events != [] && !Starts(s, events[0]) {
      DuePassIsNotPostponed(Step(s, events[0]), events[1..]);
    }
  }

  lemma TimeoutIsDue(s: State)
    requires Sound(s) && s.place.Waiting? && Enabled(s, Work(false))
    ensures Due(Step(s, Work(false)))
  {
  }

  /** A wait that times out is followed by the scheduled pass, whatever triggers arrive meanwhile. */
  lemma TimeoutStartsScheduledPass(s: State, events: seq<Event>)
    requires Sound(s) && s.place.Waiting? && Enabled(s, Work(false)) && Possible(Step(s, Work(false)), events)
    ensures FirstStartIsScheduled(Step(s, Work(false)), events)
  {
    TimeoutIsDue(s);
    DuePassIsNotPostponed(Step(s, Work(false)), events);
  }

  // ----- no pass without a cause -----

  /** How many passes of the kind a run starts. */
  ghost function PassCount(s: State, events: seq<Event>, pass: Pass): nat
    requires Possible(s, events)
    decreases |events|
  {
    if events == [] then 0
    else
      (if Starts(s, events[0]) && Step(s, events[0]).place == Acting(pass) then 1 else 0)
      + PassCount(Step(s, events[0]), events[1..], pass)
  }

  /** How often a run sets the wake event. */
  ghost function WakeCount(events: seq<Event>): nat {
    if events == [] then 0
    else (if events[0].TriggerSet? || events[0].StopWake? then 1 else 0) + WakeCount(events[1..])
  }

  /** A reported wake-up is still set until the worker clears it. */
  ghost predicate Carried(s: State) {
    match s.place
    case Woken(t) => t ==> s.wake
    case Checked(t) => t ==> s.wake
    case Read(t, _) => t ==> s.wake
    case _ => true
  }

  /** The browser passes still to come without another wake-up. */
  ghost function Owed(s: State): nat {
    (if s.wake then 1 else 0) + if s.place.Deciding? && s.place.triggered then 1 else 0
  }

  lemma OwedStep(s: State, e: Event)
    requires Carried(s) && Enabled(s, e) && s.interval > 0
    ensures Carried(Step(s, e))
    ensures Owed(Step(s, e)) + (if Starts(s, e) && Step(s, e).place == Acting(Browser) then 1 else 0)
            <= Owed(s) + if e.TriggerSet? || e.StopWake? then 1 else 0
  {
  }

  lemma {:induction false} OwedRun(s: State, events: seq<Event>)
    requires Carried(s) && Possible(s, events)
    ensures PassCount(s, events, Browser) <= Owed(s) + WakeCount(events)
    decreases |events|
  {
    if events != [] {
      OwedStep(s, events[0]);
      OwedRun(Step(s, events[0]), events[1..]);
    }
  }

  /** Triggers coalesce and none is served twice: a worker never starts more browser passes than the wake
      event was set. */
  lemma BrowserPassesAreTriggered(clock: int, interval: int, events: seq<Event>)
    requires interval > 0 && Possible(Initially(clock, interval), events)
    ensures PassCount(Initially(clock, interval), events, Browser) <= WakeCount(events)
  {
    OwedRun(Initially(clock, interval), events);
  }

  /** Triggers that come before a scheduled pass starts are satisfied by it: unless the wake event is set
      again, no browser pass follows. */
  lemma ScheduledPassServesTriggers(s: State, events: seq<Event>)
    requires s.place.Clearing? && s.interval > 0 && Possible(Step(s, Work(false)), events) && WakeCount(events) == 0
    ensures PassCount(Step(s, Work(false)), events, Browser) == 0
  {
    OwedRun(Step(s, Work(false)), events);
  }

  // ----- the cadence -----

  /** `due` is the instant by which the scheduled passes so far were due: a start plus an interval for
      each; the deadline is an interval further, except while a scheduled pass runs. */
  ghost predicate Paced(s: State, due: int) {
    && s.interval > 0 && s.started <= s.clock
    && (s.place.Boot? ==> due == s.started)
    && due <= s.clock
    && (match s.place
        case Boot => true
        case Acting(pass) => if pass == Scheduled then due <= s.deadline <= s.clock else due + s.interval <= s.deadline
        case Bumping => due <= s.deadline <= s.clock
        case Waiting(until) => due + s.interval <= s.deadline <= until
        case Woken(t) => due + s.interval <= s.deadline && (t || s.deadline <= s.clock)
        case Checked(t) => due + s.interval <= s.deadline && (t || s.deadline <= s.clock)
        case Read(t, now) => due + s.interval <= s.deadline && now <= s.clock && (t || s.deadline <= now)
        case Deciding(t, now) => due + s.interval <= s.deadline && now <= s.clock && (t || s.deadline <= now)
        case Clearing => due + s.interval <= s.deadline <= s.clock
        case Launching => due + s.interval <= s.deadline <= s.clock
        case _ => due + s.interval <= s.deadline)
  }

  lemma {:induction false} BumpReaches(deadline: int, interval: int, now: int)
    requires interval > 0 && deadline <= now
    ensures Bumped(deadline, interval, now) >= deadline + interval
    decreases now - deadline
  {
    if deadline + interval <= now {
      BumpReaches(deadline + interval, interval, now);
    }
  }

  ghost function DueAfter(s: State, e: Event, due: int): int
    requires Enabled(s, e) && s.interval > 0
  {
    if Starts(s, e) && Step(s, e).place == Acting(Scheduled) then due + s.interval
    else if s.place.Boot? then Step(s, e).started else due
  }

  lemma PacedWait(s: State, triggered: bool, due: int)
    requires Paced(s, due) && Enabled(s, Work(triggered))
    requires s.place.Waiting? || s.place.Woken? || s.place.Checked? || s.place.Read?
    ensures Paced(Step(s, Work(triggered)), due)
  {
  }

  lemma PacedStart(s: State, triggered: bool, due: int)
    requires Paced(s, due) && Enabled(s, Work(triggered))
    requires s.place.Starting? || s.place.Deciding? || s.place.Clearing? || s.place.Launching?
    ensures Paced(Step(s, Work(triggered)), DueAfter(s, Work(triggered), due))
  {
  }

  lemma PacedTurn(s: State, triggered: bool, due: int)
    requires Paced(s, due) && Enabled(s, Work(triggered))
    requires s.place.Boot? || s.place.Acting? || s.place.Bumping? || s.place.Looping?
    ensures Paced(Step(s, Work(triggered)), DueAfter(s, Work(triggered), due))
  {
    if s.place.Bumping? {
      BumpReaches(s.deadline, s.interval, s.clock);
    }
  }

  lemma PacedWork(s: State, triggered: bool, due: int)
    requires Paced(s, due) && Enabled(s, Work(triggered))
    ensures Paced(Step(s, Work(triggered)), DueAfter(s, Work(triggered), due))
  {
    if s.place.Waiting? || s.place.Woken? || s.place.Checked? || s.place.Read? {
      PacedWait(s, triggered, due);
    } else if s.place.Boot? || s.place.Acting? || s.place.Bumping? || s.place.Looping? {
      PacedTurn(s, triggered, due);
    } else {
      PacedStart(s, triggered, due);
    }
  }

  lemma PacedOther(s: State, e: Event, due: int)
    requires Paced(s, due) && Enabled(s, e) && !e.Work?
    ensures s.place.Boot? || Paced(Step(s, e), due)
    ensures s.place.Boot? ==> Paced(Step(s, e), DueAfter(s, e, due))
  {
  }

  lemma PacedStep(s: State, e: Event, due: int)
    requires Paced(s, due) && Enabled(s, e)
    ensures Paced(Step(s, e), DueAfter(s, e, due))
  {
    if e.Work? {
      PacedWork(s, e.triggered, due);
    } else {
      PacedOther(s, e, due);
    }
  }

  lemma StepKeepsAnchor(s: State, e: Event)
    requires Enabled(s, e) && s.interval > 0
    ensures Step(s, e).interval == s.interval
    ensures !s.place.Boot? ==> Step(s, e).started == s.started && !Step(s, e).place.Boot?
  {
  }

  lemma {:induction false} PacedRun(s: State, events: seq<Event>, due: int)
    requires Possible(s, events) && Paced(s, due)
    ensures var t, n := Execute(s, events), PassCount(s, events, Scheduled);
            (if s.place.Boot? then t.started else due) + n * s.interval <= t.clock
    ensures !s.place.Boot? ==> Execute(s, events).started == s.started
    decreases |events|
  {
    if events != [] {
      var mid, n := Step(s, events[0]), PassCount(s, events, Scheduled);
      PacedStep(s, events[0], due);
      StepKeepsAnchor(s, events[0]);
      PacedRun(mid, events[1..], DueAfter(s, events[0], due));
      assert n * s.interval == PassCount(mid, events[1..], Scheduled) * s.interval
                               + if Starts(s, events[0]) && mid.place == Acting(Scheduled) then s.interval else 0 by {
        assert (PassCount(mid, events[1..], Scheduled) + 1) * s.interval
            == PassCount(mid, events[1..], Scheduled) * s.interval + s.interval;
      }
    }
  }

  /** The scheduled passes never outrun the clock: after `n` of them, `n` intervals have passed since the
      worker read its first deadline. */
  lemma ScheduledPassesKeepCadence(clock: int, interval: int, events: seq<Event>)
    requires interval > 0 && Possible(Initially(clock, interval), events)
    ensures var t := Execute(Initially(clock, interval), events);
            PassCount(Initially(clock, interval), events, Scheduled) * interval <= t.clock - t.started
  {
    PacedRun(Initially(clock, interval), events, clock);
  }

  // ----- triggers in flight -----

  ghost function CheckCount(events: seq<Event>): nat {
    if events == [] then 0 else (if events[0].TriggerCheck? then 1 else 0) + CheckCount(events[1..])
  }

  ghost function SetCount(events: seq<Event>): nat {
    if events == [] then 0 else (if events[0].TriggerSet? then 1 else 0) + SetCount(events[1..])
  }

  lemma {:induction false} ChecksAreCounted(s: State, events: seq<Event>)
    requires Possible(s, events)
    ensures Execute(s, events).checking + SetCount(events) == s.checking + CheckCount(events)
    decreases |events|
  {
    if events != [] {
      ChecksAreCounted(Step(s, events[0]), events[1..]);
    }
  }

  /** Every accepted trigger had found the worker alive and not stopping, and one that did can still be
      accepted. */
  lemma AcceptedWereChecked(clock: int, interval: int, events: seq<Event>)
    requires interval > 0 && Possible(Initially(clock, interval), events)
    ensures SetCount(events) <= CheckCount(events)
    ensures Enabled(Execute(Initially(clock, interval), events), TriggerSet) <==> SetCount(events) < CheckCount(events)
  {
    ChecksAreCounted(Initially(clock, interval), events);
  }
}
