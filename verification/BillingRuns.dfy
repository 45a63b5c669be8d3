/** Whole runs of the billing system: polls, materializations, price and rate changes and edits of the
    units, in any order at nondecreasing moments. */
module BillingRuns {
  import opened Prelude
  import opened UsageSnapshot
  import opened BillingUnits
  import opened FxRates
  import opened Ledger
  import opened LedgerLaws

  datatype System = System(rows: seq<Charge>, prices: Prices, snapshots: map<string, Snapshot>, clock: int)

  /** A materialization names the units' own columns as they are at that moment, so that anchor edits,
      scheduled ends and added or removed units are all part of a run. */
  datatype Event =
    | PollDone(uuid: string, outcome: Outcome)
    | Run(at: int, configs: seq<Config>)
    | PriceSet(event: RateEvent)
    | FxStored(row: FxRow)

  function SnapshotOf(snapshots: map<string, Snapshot>, uuid: string): Snapshot {
    if uuid in snapshots then snapshots[uuid] else Missing
  }

  /** A per-account unit has no credential and follows no snapshot. */
  function UnitNow(config: Config, snapshots: map<string, Snapshot>): Unit {
    UnitOf(config, if config.owner.credential.Some? then SnapshotOf(snapshots, config.owner.credential.value)
      else Missing)
  }

  function UnitsNow(configs: seq<Config>, snapshots: map<string, Snapshot>): (units: seq<Unit>)
    ensures |units| == |configs|
    ensures forall i :: 0 <= i < |configs| ==> units[i] == UnitNow(configs[i], snapshots)
  {
    if configs == [] then []
    else UnitsNow(configs[..|configs| - 1], snapshots) + [UnitNow(configs[|configs| - 1], snapshots)]
  }

  /** `INSERT ... ON CONFLICT DO UPDATE SET rate=excluded.rate` */
  function StoreFx(rows: seq<FxRow>, row: FxRow): seq<FxRow> {
    if rows == [] then [row]
    else
      var last := |rows| - 1;
      if rows[last].base == row.base && rows[last].day == row.day then rows[last := row]
      else StoreFx(rows[..last], row) + [rows[last]]
  }

  ghost predicate Enabled(s: System, e: Event) {
    match e
    case PollDone(_, outcome) => s.clock <= outcome.at && WellFormedReply(outcome.reply)
    case Run(at, _) => s.clock <= at
    case PriceSet(_) => true
    case FxStored(_) => true
  }

  function Step(s: System, e: Event): System
    requires Enabled(s, e)
  {
    match e
    case PollDone(uuid, outcome) =>
      s.(snapshots := s.snapshots[uuid := Poll(SnapshotOf(s.snapshots, uuid), outcome)], clock := outcome.at)
    case Run(at, configs) =>
      s.(rows := Materialize(s.rows, UnitsNow(configs, s.snapshots), at, s.prices), clock := at)
    case PriceSet(event) => s.(prices := s.prices.(rates := s.prices.rates + [event]))
    case FxStored(row) => s.(prices := s.prices.(fx := StoreFx(s.prices.fx, row)))
  }

  ghost predicate Possible(s: System, events: seq<Event>)
    decreases |events|
  {
    events == [] || (Enabled(s, events[0]) && Possible(Step(s, events[0]), events[1..]))
  }

  function Execute(s: System, events: seq<Event>): System
    requires Possible(s, events)
    decreases |events|
  {
    if events == [] then s else Execute(Step(s, events[0]), events[1..])
  }

  // ----- safety of the ledger over every run -----

  lemma StepIsSafe(s: System, e: Event)
    requires Enabled(s, e) && TidyAll(s.rows, s.clock)
    ensures var t := Step(s, e);
            s.clock <= t.clock && TidyAll(t.rows, t.clock) && Extends(s.rows, t.rows)
  {
    var t := Step(s, e);
    if e.Run? {
      var units := UnitsNow(e.configs, s.snapshots);
      MaterializeStaysTidyAll(s.rows, units, e.at, s.prices, s.clock);
      MaterializeKeepsFacts(s.rows, units, e.at, s.prices);
    } else {
      forall owner
        ensures Tidy(t.rows, owner, t.clock)
      {
        assert Tidy(s.rows, owner, s.clock);
      }
    }
  }

  /** Over every run the recorded periods of each owner stay nonempty, begun when written and pairwise
      disjoint, and no recorded fact is ever altered: a frozen charge keeps all its fields. */
  lemma {:induction false} RunsAreSafe(s: System, events: seq<Event>)
    requires Possible(s, events) && TidyAll(s.rows, s.clock)
    ensures var t := Execute(s, events);
            s.clock <= t.clock && TidyAll(t.rows, t.clock) && Extends(s.rows, t.rows)
    decreases |events|
  {
    if events != [] {
      var mid := Step(s, events[0]);
      StepIsSafe(s, events[0]);
      RunsAreSafe(mid, events[1..]);
      ExtendsIsTransitive(s.rows, mid.rows, Execute(s, events).rows);
    }
  }

  /** From an empty ledger no moment is ever charged twice to one owner. */
  lemma NothingIsChargedTwice(s: System, events: seq<Event>, owner: Owner)
    requires Possible(s, events) && s.rows == []
    ensures Disjoint(Execute(s, events).rows, owner)
  {
    forall o
      ensures Tidy(s.rows, o, s.clock)
    {
    }
    RunsAreSafe(s, events);
    TidyIsDisjoint(Execute(s, events).rows, owner, Execute(s, events).clock);
  }

  // ----- rows added by a run -----

  predicate Bills(row: Charge, uuid: string) {
    row.owner.credential == Some(uuid)
  }

  /** A row that a step adds was opened by a unit built from the snapshots of that moment. */
  lemma NewRowHasUnit(s: System, e: Event, j: int) returns (u: Unit)
    requires Enabled(s, e) && TidyAll(s.rows, s.clock) && |s.rows| <= j < |Step(s, e).rows|
    ensures e.Run? && Opens(u, e.at, s.prices, Step(s, e).rows[j])
    ensures u == UnitNow(u.config, s.snapshots) && u.config in e.configs
  {
    var units := UnitsNow(e.configs, s.snapshots);
    MaterializeOpens(s.rows, units, e.at, s.prices, s.clock, j);
    u :| u in units && Opens(u, e.at, s.prices, Step(s, e).rows[j]);
    var i :| 0 <= i < |units| && units[i] == u;
    assert e.configs[i] == u.config;
  }

  // ----- unpaid gaps -----

  /** The credential's snapshot resumes no earlier than `at`. */
  ghost predicate ResumedSince(s: System, uuid: string, at: int) {
    var snapshot := SnapshotOf(s.snapshots, uuid);
    snapshot.Stored? && snapshot.resumedAt.Some? && at <= snapshot.resumedAt.value
  }

  lemma ResumeIsKept(s: System, e: Event, uuid: string, at: int)
    requires Enabled(s, e) && ResumedSince(s, uuid, at) && at <= s.clock
    ensures ResumedSince(Step(s, e), uuid, at)
  {
  }

  /** After a success at `at` has ended a lapse, no period of that credential that is ever opened
      again starts before `at`: the unpaid gap is never billed. */
  lemma {:induction false} GapIsNeverBilled(s: System, events: seq<Event>, uuid: string, at: int, j: int)
    requires Possible(s, events) && TidyAll(s.rows, s.clock) && ResumedSince(s, uuid, at) && at <= s.clock
    requires |s.rows| <= j < |Execute(s, events).rows| && Bills(Execute(s, events).rows[j], uuid)
    ensures at <= Execute(s, events).rows[j].start
    decreases |events|
  {
    if events != [] {
      var mid, after := Step(s, events[0]), Execute(s, events);
      StepIsSafe(s, events[0]);
      ResumeIsKept(s, events[0], uuid, at);
      if j < |mid.rows| {
        RunsAreSafe(mid, events[1..]);
        assert SameFact(mid.rows[j], after.rows[j]);
        var u := NewRowHasUnit(s, events[0], j);
      } else {
        GapIsNeverBilled(mid, events[1..], uuid, at, j);
      }
    }
  }

  /** The poll that ends a lapse stamps its own moment. */
  lemma RecoveryStamps(s: System, uuid: string, outcome: Outcome)
    requires Enabled(s, PollDone(uuid, outcome)) && outcome.reply.Complete?
    requires PriorSubscription(SnapshotOf(s.snapshots, uuid)) == Some(Inactive)
    ensures ResumedSince(Step(s, PollDone(uuid, outcome)), uuid, outcome.at)
  {
  }

  // ----- a lapse suspends billing -----

  /** The stored verdict is lapsed, with evidence no older than `since`. */
  ghost predicate LapsedSince(s: System, uuid: string, since: int) {
    var snapshot := SnapshotOf(s.snapshots, uuid);
    snapshot.Stored? && snapshot.subscription.Inactive?
    && snapshot.errorAt.Some? && since <= snapshot.errorAt.value <= s.clock
  }

  predicate Succeeds(e: Event, uuid: string) {
    e.PollDone? && e.uuid == uuid && e.outcome.reply.Complete?
  }

  lemma LapseIsKept(s: System, e: Event, uuid: string, since: int)
    requires Enabled(s, e) && LapsedSince(s, uuid, since) && !Succeeds(e, uuid) && since <= s.clock
    ensures LapsedSince(Step(s, e), uuid, since)
  {
  }

  /** From an entitlement refusal on, and for 48 hours, no period of the credential opens as long as
      no poll of it succeeds. */
  lemma {:induction false} LapseOpensNothing(s: System, events: seq<Event>, uuid: string, since: int, j: int)
    requires Possible(s, events) && TidyAll(s.rows, s.clock) && LapsedSince(s, uuid, since) && since <= s.clock
    requires forall i :: 0 <= i < |events| ==> !Succeeds(events[i], uuid)
    requires Execute(s, events).clock <= since + OBSERVED_PERIOD_MAX_AGE_SECONDS
    requires |s.rows| <= j < |Execute(s, events).rows|
    ensures !Bills(Execute(s, events).rows[j], uuid)
    decreases |events|
  {
    if events != [] {
      var e, mid, after := events[0], Step(s, events[0]), Execute(s, events);
      StepIsSafe(s, e);
      LapseIsKept(s, e, uuid, since);
      RunsAreSafe(mid, events[1..]);
      if j < |mid.rows| {
        assert SameFact(mid.rows[j], after.rows[j]);
        var u := NewRowHasUnit(s, e, j);
        assert !u.LapseVerdictFresh(e.at);
      } else {
        LapseOpensNothing(mid, events[1..], uuid, since, j);
      }
    }
  }

  /** An entitlement refusal is such a lapse. */
  lemma RefusalLapses(s: System, uuid: string, outcome: Outcome)
    requires Enabled(s, PollDone(uuid, outcome)) && EntitlementLapse(outcome.reply)
    ensures LapsedSince(Step(s, PollDone(uuid, outcome)), uuid, outcome.at)
  {
  }

  /** A bare 403 followed by a time-out suspends a new credential just the same, with no entitlement
      refusal at all. */
  lemma BareForbiddenSuspends(s: System, uuid: string, at: int, later: int)
    requires uuid !in s.snapshots && s.clock <= at <= later
    ensures var events := [PollDone(uuid, Outcome(at, Http(403, false))), PollDone(uuid, Outcome(later, NetworkError))];
            Possible(s, events) && LapsedSince(Execute(s, events), uuid, later)
  {
    var first, second := Outcome(at, Http(403, false)), Outcome(later, NetworkError);
    var events := [PollDone(uuid, first), PollDone(uuid, second)];
    ForbiddenReply(first.reply);
    var mid := Step(s, events[0]);
    assert events[1..] == [events[1]] && [events[1]][1..] == [];
    assert Possible(Step(mid, events[1]), []);
    assert Possible(mid, [events[1]]);
    assert Execute(s, events) == Execute(mid, [events[1]]) == Execute(Step(mid, events[1]), []) == Step(mid, events[1]);
  }

  // ----- scheduled ends -----

  /** Every materialization that still names the owner gives it an end no later than `end`. */
  predicate EndsBy(e: Event, owner: Owner, end: int) {
    e.Run? ==> forall i :: 0 <= i < |e.configs| && e.configs[i].owner == owner ==>
      e.configs[i].endsAt.Some? && e.configs[i].endsAt.value <= end
  }

  ghost predicate RecordedPast(rows: seq<Charge>, owner: Owner, end: int) {
    exists i :: 0 <= i < |rows| && rows[i].owner == owner && end < rows[i].end
  }

  lemma EndedUnitOpensNothing(s: System, e: Event, owner: Owner, end: int, j: int)
    requires Enabled(s, e) && TidyAll(s.rows, s.clock) && EndsBy(e, owner, end) && RecordedPast(s.rows, owner, end)
    requires |s.rows| <= j < |Step(s, e).rows|
    ensures Step(s, e).rows[j].owner != owner
  {
    var u := NewRowHasUnit(s, e, j);
    var i :| 0 <= i < |s.rows| && s.rows[i].owner == owner && end < s.rows[i].end;
    StepIsSafe(s, e);
    var after := Step(s, e).rows;
    assert Tidy(after, owner, e.at) && SameFact(s.rows[i], after[i]);
  }

  /** Once an owner's recorded period reaches past its scheduled end, no run ever opens another. */
  lemma {:induction false} EndedOwnerOpensNothing(s: System, events: seq<Event>, owner: Owner, end: int, j: int)
    requires Possible(s, events) && TidyAll(s.rows, s.clock) && RecordedPast(s.rows, owner, end)
    requires forall i :: 0 <= i < |events| ==> EndsBy(events[i], owner, end)
    requires |s.rows| <= j < |Execute(s, events).rows|
    ensures Execute(s, events).rows[j].owner != owner
    decreases |events|
  {
    if events != [] {
      var e, mid, after := events[0], Step(s, events[0]), Execute(s, events);
      StepIsSafe(s, e);
      RunsAreSafe(mid, events[1..]);
      if j < |mid.rows| {
        assert SameFact(mid.rows[j], after.rows[j]);
        EndedUnitOpensNothing(s, e, owner, end, j);
      } else {
        PastIsKept(s.rows, mid.rows, owner, end);
        EndedOwnerOpensNothing(mid, events[1..], owner, end, j);
      }
    }
  }

  lemma PastIsKept(before: seq<Charge>, after: seq<Charge>, owner: Owner, end: int)
    requires Extends(before, after) && RecordedPast(before, owner, end)
    ensures RecordedPast(after, owner, end)
  {
    var i :| 0 <= i < |before| && before[i].owner == owner && end < before[i].end;
    assert SameFact(before[i], after[i]);
  }

  // ----- what a run's parts hold -----

  /** A stored rate replaces the one of its currency and day, and no other. */
  lemma {:induction false} RateReplacesItsDay(rows: seq<FxRow>, row: FxRow)
    requires UniqueDays(rows)
    ensures UniqueDays(StoreFx(rows, row))
    ensures forall r :: r in StoreFx(rows, row) <==> r == row || (r in rows && (r.base != row.base || r.day != row.day))
  {
    if rows != [] {
      var n := |rows| - 1;
      RateReplacesItsDay(rows[..n], row);
      assert rows == rows[..n] + [rows[n]];
      forall r | r in rows[..n]
        ensures r.base != rows[n].base || r.day != rows[n].day
      {
      }
      if rows[n].base == row.base && rows[n].day == row.day {
        assert StoreFx(rows, row) == rows[..n] + [row];
      } else {
        var front := StoreFx(rows[..n], row);
        forall k | 0 <= k < |front|
          ensures front[k].base != rows[n].base || front[k].day != rows[n].day
        {
          assert front[k] in front;
        }
      }
    }
  }

  ghost function OutcomesOf(events: seq<Event>, uuid: string): seq<Outcome>
    decreases |events|
  {
    if events == [] then []
    else
      (if events[0].PollDone? && events[0].uuid == uuid then [events[0].outcome] else [])
      + OutcomesOf(events[1..], uuid)
  }

  lemma {:induction false} OutcomesAreWellFormed(s: System, events: seq<Event>, uuid: string)
    requires Possible(s, events)
    ensures WellFormed(OutcomesOf(events, uuid))
    decreases |events|
  {
    if events != [] {
      OutcomesAreWellFormed(Step(s, events[0]), events[1..], uuid);
    }
  }

  lemma {:induction false} PollFirst(prior: Snapshot, first: Outcome, later: seq<Outcome>)
    requires WellFormedReply(first.reply) && WellFormed(later)
    ensures WellFormed([first] + later) && PollAll(prior, [first] + later) == PollAll(Poll(prior, first), later)
    decreases |later|
  {
    var all := [first] + later;
    if later == [] {
      assert all[..0] == [];
    } else {
      assert all[..|all| - 1] == [first] + later[..|later| - 1];
      PollFirst(prior, first, later[..|later| - 1]);
    }
  }

  /** A credential's snapshot is that of its own polls, in their order. */
  lemma {:induction false} SnapshotsFollowTheirPolls(s: System, events: seq<Event>, uuid: string)
    requires Possible(s, events)
    ensures WellFormed(OutcomesOf(events, uuid))
    ensures SnapshotOf(Execute(s, events).snapshots, uuid) ==
            PollAll(SnapshotOf(s.snapshots, uuid), OutcomesOf(events, uuid))
    decreases |events|
  {
    OutcomesAreWellFormed(s, events, uuid);
    if events != [] {
      var e, mid := events[0], Step(s, events[0]);
      SnapshotsFollowTheirPolls(mid, events[1..], uuid);
      if e.PollDone? && e.uuid == uuid {
        PollFirst(SnapshotOf(s.snapshots, uuid), e.outcome, OutcomesOf(events[1..], uuid));
      } else {
        assert OutcomesOf(events, uuid) == OutcomesOf(events[1..], uuid);
      }
    }
  }

  ghost function PricesSet(events: seq<Event>): seq<RateEvent>
    decreases |events|
  {
    if events == [] then [] else (if events[0].PriceSet? then [events[0].event] else []) + PricesSet(events[1..])
  }

  /** The price events are those of the run, in their order. */
  lemma {:induction false} PricesAreSet(s: System, events: seq<Event>)
    requires Possible(s, events)
    ensures Execute(s, events).prices.rates == s.prices.rates + PricesSet(events)
    decreases |events|
  {
    if events != [] {
      PricesAreSet(Step(s, events[0]), events[1..]);
      PricesOneMore(s, events[0], PricesSet(events[1..]));
    }
  }

  lemma PricesOneMore(s: System, e: Event, later: seq<RateEvent>)
    requires Enabled(s, e)
    ensures Step(s, e).prices.rates + later == s.prices.rates + ((if e.PriceSet? then [e.event] else []) + later)
  {
    if e.PriceSet? {
      assert (s.prices.rates + [e.event]) + later == s.prices.rates + ([e.event] + later);
    } else {
      assert [] + later == later;
    }
  }
}
