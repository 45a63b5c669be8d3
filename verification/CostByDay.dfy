/** The per-day form of the actual cost, accumulated query by query, and its agreement with the total. */
module CostByDay {
  import opened CostReport

  // ----- GROUP BY date -----

  datatype Group = Group(day: int, cost: real)

  function AddToGroups(groups: seq<Group>, f: Fact): seq<Group> {
    if groups == [] then [Group(DayOf(f.at), f.cost)]
    else
      var init, last := groups[..|groups| - 1], groups[|groups| - 1];
      if last.day == DayOf(f.at) then init + [Group(last.day, last.cost + f.cost)] else AddToGroups(init, f) + [last]
  }

  function GroupByDay(facts: seq<Fact>): seq<Group> {
    if facts == [] then [] else AddToGroups(GroupByDay(facts[..|facts| - 1]), facts[|facts| - 1])
  }

  function GroupAt(groups: seq<Group>, day: int): real {
    if groups == [] then 0.0
    else
      GroupAt(groups[..|groups| - 1], day)
      + if groups[|groups| - 1].day == day then groups[|groups| - 1].cost else 0.0
  }

  predicate HasGroup(groups: seq<Group>, day: int) {
    groups != [] && (groups[|groups| - 1].day == day || HasGroup(groups[..|groups| - 1], day))
  }

  predicate UniqueDays(groups: seq<Group>) {
    groups == [] || (UniqueDays(groups[..|groups| - 1]) && !HasGroup(groups[..|groups| - 1], groups[|groups| - 1].day))
  }

  predicate HasDay(facts: seq<Fact>, day: int) {
    facts != [] && (DayOf(facts[|facts| - 1].at) == day || HasDay(facts[..|facts| - 1], day))
  }

  lemma {:induction false} AddingToGroups(groups: seq<Group>, f: Fact, day: int)
    ensures GroupAt(AddToGroups(groups, f), day) == GroupAt(groups, day) + if DayOf(f.at) == day then f.cost else 0.0
    ensures HasGroup(AddToGroups(groups, f), day) <==> HasGroup(groups, day) || DayOf(f.at) == day
  {
    var after := AddToGroups(groups, f);
    if groups == [] {
      assert after[..0] == [];
    } else {
      var init, last := groups[..|groups| - 1], groups[|groups| - 1];
      AddingToGroups(init, f, day);
      assert after[..|after| - 1] == if last.day == DayOf(f.at) then init else AddToGroups(init, f);
    }
  }

  lemma {:induction false} AddingKeepsUniqueDays(groups: seq<Group>, f: Fact)
    requires UniqueDays(groups)
    ensures UniqueDays(AddToGroups(groups, f))
  {
    var after := AddToGroups(groups, f);
    if groups == [] {
      assert after[..0] == [];
    } else {
      var init, last := groups[..|groups| - 1], groups[|groups| - 1];
      AddingKeepsUniqueDays(init, f);
      AddingToGroups(init, f, last.day);
      assert after[..|after| - 1] == if last.day == DayOf(f.at) then init else AddToGroups(init, f);
    }
  }

  /** The groups are the days of the facts, each once, with the day's sum. */
  lemma {:induction false} GroupsAreDays(facts: seq<Fact>, day: int)
    ensures GroupAt(GroupByDay(facts), day) == OnDay(facts, day)
    ensures HasGroup(GroupByDay(facts), day) <==> HasDay(facts, day)
    ensures UniqueDays(GroupByDay(facts))
  {
    if facts != [] {
      var init, last := facts[..|facts| - 1], facts[|facts| - 1];
      GroupsAreDays(init, day);
      AddingToGroups(GroupByDay(init), last, day);
      AddingKeepsUniqueDays(GroupByDay(init), last);
    }
  }

  lemma {:induction false} AbsentDayIsZero(groups: seq<Group>, day: int)
    requires !HasGroup(groups, day)
    ensures GroupAt(groups, day) == 0.0
  {
    if groups != [] {
      AbsentDayIsZero(groups[..|groups| - 1], day);
    }
  }

  // ----- the days of a window sum to its total -----

  function SumDays(facts: seq<Fact>, lo: int, hi: int): real
    decreases hi - lo
  {
    if hi <= lo then 0.0 else SumDays(facts, lo, hi - 1) + OnDay(facts, hi - 1)
  }

  lemma {:induction false} SumDaysOneMore(facts: seq<Fact>, lo: int, hi: int)
    requires facts != []
    ensures var last := facts[|facts| - 1];
            SumDays(facts, lo, hi) == SumDays(facts[..|facts| - 1], lo, hi)
              + if lo <= DayOf(last.at) < hi then last.cost else 0.0
    decreases hi - lo
  {
    if lo < hi {
      SumDaysOneMore(facts, lo, hi - 1);
    }
  }

  lemma {:induction false} NothingSums(lo: int, hi: int)
    ensures SumDays([], lo, hi) == 0.0
    decreases hi - lo
  {
    if lo < hi {
      NothingSums(lo, hi - 1);
    }
  }

  ghost predicate Within(facts: seq<Fact>, w: Window) {
    forall i :: 0 <= i < |facts| ==> w.Has(facts[i].at)
  }

  lemma {:induction false} DaysSumToTotal(facts: seq<Fact>, w: Window)
    requires Within(facts, w)
    ensures SumDays(facts, DayOf(w.start), DayOf(w.end) + 1) == Total(facts)
  {
    var lo, hi := DayOf(w.start), DayOf(w.end) + 1;
    if facts == [] {
      NothingSums(lo, hi);
    } else {
      DaysSumToTotal(facts[..|facts| - 1], w);
      SumDaysOneMore(facts, lo, hi);
    }
  }

  lemma {:induction false} MeteredWithin(requests: seq<Request>, identities: map<nat, Kind>, w: Window)
    ensures Within(MeteredFacts(requests, identities, w), w)
  {
    if requests != [] {
      MeteredWithin(requests[..|requests| - 1], identities, w);
    }
  }

  lemma {:induction false} ProxyWithin(charges: seq<Charge>, identities: map<nat, Kind>, contracts: map<nat, nat>,
          w: Window)
    ensures Within(ProxyFacts(charges, identities, contracts, w), w)
  {
    if charges != [] {
      ProxyWithin(charges[..|charges| - 1], identities, contracts, w);
    }
  }

  lemma {:induction false} AgentWithin(charges: seq<AgentCharge>, identities: map<nat, Kind>, w: Window)
    ensures Within(AgentFacts(charges, identities, w), w)
  {
    if charges != [] {
      AgentWithin(charges[..|charges| - 1], identities, w);
    }
  }

  lemma {:induction false} LegacyWithin(allocations: seq<Allocation>, charges: seq<AgentCharge>,
          identities: map<nat, Kind>, w: Window)
    ensures Within(LegacyFacts(allocations, charges, identities, w), w)
  {
    if allocations != [] {
      LegacyWithin(allocations[..|allocations| - 1], charges, identities, w);
    }
  }

  lemma FiguresSumOverDays(db: Database, w: Window)
    ensures SumDays(Metered(db, w), DayOf(w.start), DayOf(w.end) + 1) == ActualCost(db, w).metered
    ensures SumDays(Recurring(db, w), DayOf(w.start), DayOf(w.end) + 1) == ActualCost(db, w).recurring
  {
    MeteredWithin(db.requests, db.identities, w);
    ProxyWithin(db.charges, db.identities, db.live.contracts, w);
    AgentWithin(db.agentCharges, db.identities, w);
    LegacyWithin(db.allocations, db.agentCharges, db.identities, w);
    DaysSumToTotal(Metered(db, w), w);
    DaysSumToTotal(Recurring(db, w), w);
  }

  // ----- the accumulated dictionary -----

  datatype Day = Day(metered: real, recurring: real)

  function At(result: map<int, Day>, day: int): Day {
    if day in result then result[day] else Day(0.0, 0.0)
  }

  /** The sum of the `cost` entries of the days from `lo` up to `hi`. */
  function ListedTotal(result: map<int, Day>, lo: int, hi: int): real
    decreases hi - lo
  {
    if hi <= lo then 0.0
    else
      ListedTotal(result, lo, hi - 1) + At(result, hi - 1).metered
      + At(result, hi - 1).recurring
  }

  lemma {:induction false} ListedDaysSum(result: map<int, Day>, metered: seq<Fact>, recurring: seq<Fact>, lo: int,
          hi: int)
    requires forall d :: At(result, d) == Day(OnDay(metered, d), OnDay(recurring, d))
    ensures ListedTotal(result, lo, hi) == SumDays(metered, lo, hi) + SumDays(recurring, lo, hi)
    decreases hi - lo
  {
    if lo < hi {
      ListedDaysSum(result, metered, recurring, lo, hi - 1);
      assert At(result, hi - 1) == Day(OnDay(metered, hi - 1), OnDay(recurring, hi - 1));
    }
  }

  lemma GroupOneMore(groups: seq<Group>, i: nat, day: int)
    requires i < |groups|
    ensures GroupAt(groups[..i + 1], day) == GroupAt(groups[..i], day)
            + if groups[i].day == day then groups[i].cost else 0.0
    ensures HasGroup(groups[..i + 1], day) <==> HasGroup(groups[..i], day) || groups[i].day == day
    ensures UniqueDays(groups[..i + 1]) <==> UniqueDays(groups[..i]) && !HasGroup(groups[..i], groups[i].day)
  {
    assert groups[..i + 1][..i] == groups[..i];
  }

  lemma {:induction false} PrefixIsUnique(groups: seq<Group>, i: nat)
    requires i <= |groups| && UniqueDays(groups)
    ensures UniqueDays(groups[..i])
    decreases |groups| - i
  {
    if i < |groups| {
      PrefixIsUnique(groups, i + 1);
      GroupOneMore(groups, i, 0);
    } else {
      assert groups[..i] == groups;
    }
  }

  /** The metered query: each of its days is entered by assignment. */
  method EnterMetered(groups: seq<Group>) returns (result: map<int, Day>)
    requires UniqueDays(groups)
    ensures forall d :: d in result <==> HasGroup(groups, d)
    ensures forall d :: At(result, d) == Day(GroupAt(groups, d), 0.0)
  {
    result := map[];
    for i := 0 to |groups|
      invariant forall d :: d in result <==> HasGroup(groups[..i], d)
      invariant forall d :: At(result, d) == Day(GroupAt(groups[..i], d), 0.0)
    {
      PrefixIsUnique(groups, i + 1);
      AbsentAt(groups, i);
      forall d
        ensures GroupAt(groups[..i + 1], d) == GroupAt(groups[..i], d)
                + if groups[i].day == d then groups[i].cost else 0.0
        ensures HasGroup(groups[..i + 1], d) <==> HasGroup(groups[..i], d) || groups[i].day == d
      {
        GroupOneMore(groups, i, d);
      }
      ghost var before := result;
      result := result[groups[i].day := Day(groups[i].cost, 0.0)];
      assert forall d :: At(result, d) == if d == groups[i].day then Day(groups[i].cost, 0.0) else At(before, d);
    }
    assert groups[..|groups|] == groups;
  }

  lemma AbsentAt(groups: seq<Group>, i: nat)
    requires i < |groups| && UniqueDays(groups[..i + 1])
    ensures GroupAt(groups[..i], groups[i].day) == 0.0
  {
    GroupOneMore(groups, i, 0);
    AbsentDayIsZero(groups[..i], groups[i].day);
  }

  /** One recurring query: its days are entered with `setdefault` and added to. */
  method AddRecurring(entered: map<int, Day>, groups: seq<Group>) returns (result: map<int, Day>)
    ensures forall d :: d in result <==> d in entered || HasGroup(groups, d)
    ensures forall d :: At(result, d) == Day(At(entered, d).metered, At(entered, d).recurring + GroupAt(groups, d))
  {
    result := entered;
    for i := 0 to |groups|
      invariant forall d :: d in result <==> d in entered || HasGroup(groups[..i], d)
      invariant forall d ::
                  At(result, d) == Day(At(entered, d).metered, At(entered, d).recurring + GroupAt(groups[..i], d))
    {
      forall d
        ensures GroupAt(groups[..i + 1], d) == GroupAt(groups[..i], d)
                + if groups[i].day == d then groups[i].cost else 0.0
        ensures HasGroup(groups[..i + 1], d) <==> HasGroup(groups[..i], d) || groups[i].day == d
      {
        GroupOneMore(groups, i, d);
      }
      ghost var before := result;
      var day := groups[i].day;
      var item := if day in result then result[day] else Day(0.0, 0.0);
      result := result[day := item.(recurring := item.recurring + groups[i].cost)];
      assert forall d ::
        At(result, d) == if d == day then item.(recurring := item.recurring + groups[i].cost) else At(before, d);
    }
    assert groups[..|groups|] == groups;
  }

  lemma RecurringOnDay(db: Database, w: Window, day: int)
    ensures OnDay(Recurring(db, w), day) ==
            OnDay(ProxyFacts(db.charges, db.identities, db.live.contracts, w), day)
            + OnDay(AgentFacts(db.agentCharges, db.identities, w), day)
            + OnDay(LegacyFacts(db.allocations, db.agentCharges, db.identities, w), day)
  {
    var proxy, agent := ProxyFacts(db.charges, db.identities, db.live.contracts, w),
      AgentFacts(db.agentCharges, db.identities, w);
    TotalsAppend(proxy, agent, day);
    TotalsAppend(proxy + agent, LegacyFacts(db.allocations, db.agentCharges, db.identities, w), day);
  }

  lemma {:induction false} DaysAppend(a: seq<Fact>, b: seq<Fact>, day: int)
    ensures HasDay(a + b, day) <==> HasDay(a, day) || HasDay(b, day)
  {
    if b == [] {
      assert a + [] == a;
    } else {
      DaysAppend(a, b[..|b| - 1], day);
      assert (a + b)[..|a + b| - 1] == a + b[..|b| - 1];
    }
  }

  /** `actual_cost_by_day`: an entry for exactly the days with an attributed row, with that day's
      figures; the entries sum to the total of `actual_cost`. */
  method ActualCostByDay(db: Database, w: Window) returns (result: map<int, Day>)
    ensures forall d :: d in result <==> HasDay(Metered(db, w), d) || HasDay(Recurring(db, w), d)
    ensures forall d :: At(result, d) == Day(OnDay(Metered(db, w), d), OnDay(Recurring(db, w), d))
    ensures ListedTotal(result, DayOf(w.start), DayOf(w.end) + 1) == ActualCost(db, w).total
  {
    var metered, proxy := Metered(db, w), ProxyFacts(db.charges, db.identities, db.live.contracts, w);
    var agent, legacy := AgentFacts(db.agentCharges, db.identities, w),
      LegacyFacts(db.allocations, db.agentCharges, db.identities, w);
    forall d, facts: seq<Fact>
      ensures GroupAt(GroupByDay(facts), d) == OnDay(facts, d)
      ensures HasGroup(GroupByDay(facts), d) <==> HasDay(facts, d)
    {
      GroupsAreDays(facts, d);
    }
    GroupsAreDays(metered, 0);
    result := EnterMetered(GroupByDay(metered));
    result := AddRecurring(result, GroupByDay(proxy));
    result := AddRecurring(result, GroupByDay(agent));
    result := AddRecurring(result, GroupByDay(legacy));
    forall d
      ensures At(result, d) == Day(OnDay(metered, d), OnDay(Recurring(db, w), d))
      ensures HasDay(Recurring(db, w), d) <==> HasDay(proxy, d) || HasDay(agent, d) || HasDay(legacy, d)
    {
      RecurringOnDay(db, w, d);
      DaysAppend(proxy, agent, d);
      DaysAppend(proxy + agent, legacy, d);
    }
    FiguresSumOverDays(db, w);
    ListedDaysSum(result, metered, Recurring(db, w), DayOf(w.start), DayOf(w.end) + 1);
  }
}
