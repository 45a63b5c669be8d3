/** What a single account is shown: its own rows and nobody else's, through any run of exports. */
module AccountUsage {
  import opened Prelude
  import opened UsageArchive
  import opened UsageExport

  /** Token, request and money sums of one account, day and model. */
  datatype Tally = Tally(input: int, cache: int, output: int, requests: int, cost: real, billed: real)

  const ZERO_TALLY := Tally(0, 0, 0, 0, 0.0, 0.0)

  function Join(a: Tally, b: Tally): Tally {
    Tally(a.input + b.input, a.cache + b.cache, a.output + b.output, a.requests + b.requests, a.cost + b.cost,
          a.billed + b.billed)
  }

  function LogTally(rows: seq<LogRow>, account: int, day: int, model: string): Tally {
    if rows == [] then ZERO_TALLY
    else
      var rest, r := LogTally(rows[..|rows| - 1], account, day, model), rows[|rows| - 1];
      if r.account == account && r.day == day && r.model == model
      then Join(rest, Tally(r.prompt, r.cacheRead, r.completion, 1, r.cost, r.billed))
      else rest
  }

  function GroupTally(groups: seq<UsageRow>, account: int, day: int, model: string): Tally {
    if groups == [] then ZERO_TALLY
    else
      var rest, g := GroupTally(groups[..|groups| - 1], account, day, model), groups[|groups| - 1];
      if g.user == account && g.day == day && g.model == model
      then Join(rest, Tally(g.input, g.cache, g.output, g.requests, g.cost, g.billed))
      else rest
  }

  lemma JoinRegroups(a: Tally, b: Tally, c: Tally)
    ensures Join(Join(a, b), c) == Join(a, Join(b, c)) && Join(Join(a, b), c) == Join(Join(a, c), b)
    ensures Join(a, ZERO_TALLY) == a
  {
  }

  // ----- grouping -----

  /** No two groups share account, day and model. */
  ghost predicate DistinctGroups(groups: seq<UsageRow>) {
    forall i, j :: 0 <= i < j < |groups| ==>
      !(groups[i].user == groups[j].user && groups[i].day == groups[j].day && groups[i].model == groups[j].model)
  }

  lemma {:induction false} GroupRowTallies(groups: seq<UsageRow>, r: LogRow, account: int, day: int, model: string)
    ensures GroupTally(GroupRow(groups, r), account, day, model) ==
            if r.account == account && r.day == day && r.model == model
            then Join(GroupTally(groups, account, day, model),
                      Tally(r.prompt, r.cacheRead, r.completion, 1, r.cost, r.billed))
            else GroupTally(groups, account, day, model)
  {
    var after := GroupRow(groups, r);
    if groups == [] {
      assert after[..0] == [];
    } else {
      var init, last := groups[..|groups| - 1], groups[|groups| - 1];
      GroupRowTallies(init, r, account, day, model);
      assert after[..|after| - 1] == if InGroup(last, r.account, r.day, r.model) then init else GroupRow(init, r);
    }
  }

  lemma {:induction false} GroupRowKeys(groups: seq<UsageRow>, r: LogRow, i: nat)
    requires i < |GroupRow(groups, r)|
    ensures var g := GroupRow(groups, r)[i];
            || (g.user == r.account && g.day == r.day && g.model == r.model)
            || exists j :: 0 <= j < |groups| && groups[j].user == g.user && groups[j].day == g.day
                           && groups[j].model == g.model
  {
    if groups != [] && i < |GroupRow(groups, r)| - 1 {
      var init, last := groups[..|groups| - 1], groups[|groups| - 1];
      if !InGroup(last, r.account, r.day, r.model) {
        GroupRowKeys(init, r, i);
      } else {
        assert GroupRow(groups, r)[i] == groups[i];
      }
    }
  }

  lemma {:induction false} GroupRowKeepsDistinct(groups: seq<UsageRow>, r: LogRow)
    requires DistinctGroups(groups)
    ensures DistinctGroups(GroupRow(groups, r))
  {
    if groups != [] {
      var init, last := groups[..|groups| - 1], groups[|groups| - 1];
      if !InGroup(last, r.account, r.day, r.model) {
        GroupRowKeepsDistinct(init, r);
        forall i | 0 <= i < |GroupRow(init, r)|
          ensures var g := GroupRow(init, r)[i];
                  !(g.user == last.user && g.day == last.day && g.model == last.model)
        {
          GroupRowKeys(init, r, i);
        }
      }
    }
  }

  /** Each group is one account's, day's and model's, with the sums of exactly their rows, and there is one for
      each. */
  lemma {:induction false} GroupingByAccount(rows: seq<LogRow>, account: int, day: int, model: string)
    ensures GroupTally(Grouped(rows), account, day, model) == LogTally(rows, account, day, model)
    ensures DistinctGroups(Grouped(rows))
  {
    if rows != [] {
      var init := rows[..|rows| - 1];
      GroupingByAccount(init, account, day, model);
      GroupRowTallies(Grouped(init), rows[|rows| - 1], account, day, model);
      GroupRowKeepsDistinct(Grouped(init), rows[|rows| - 1]);
    }
  }

  // ----- windows -----

  lemma TallyOfWindow(log: seq<LogRow>, lo: int, hi: int, account: int, day: int, model: string)
    requires log != []
    ensures var init, r := log[..|log| - 1], log[|log| - 1];
            LogTally(Selected(log, lo, hi), account, day, model) ==
            if lo < r.id <= hi && Counted(r) && r.account == account && r.day == day && r.model == model
            then Join(LogTally(Selected(init, lo, hi), account, day, model),
                      Tally(r.prompt, r.cacheRead, r.completion, 1, r.cost, r.billed))
            else LogTally(Selected(init, lo, hi), account, day, model)
  {
    var last, whole := log[|log| - 1], Selected(log, lo, hi);
    if lo < last.id <= hi && Counted(last) {
      assert whole[..|whole| - 1] == Selected(log[..|log| - 1], lo, hi);
    }
  }

  lemma {:induction false} TallyWindowsAdd(log: seq<LogRow>, lo: int, mid: int, hi: int, account: int, day: int,
          model: string)
    requires lo <= mid <= hi
    ensures LogTally(Selected(log, lo, hi), account, day, model) ==
            Join(LogTally(Selected(log, lo, mid), account, day, model),
                 LogTally(Selected(log, mid, hi), account, day, model))
  {
    if log != [] {
      var init, r := log[..|log| - 1], log[|log| - 1];
      TallyWindowsAdd(init, lo, mid, hi, account, day, model);
      JoinRegroups(LogTally(Selected(init, lo, mid), account, day, model),
        LogTally(Selected(init, mid, hi), account, day, model),
        Tally(r.prompt, r.cacheRead, r.completion, 1, r.cost, r.billed));
      TallyOfWindow(log, lo, hi, account, day, model);
      TallyOfWindow(log, lo, mid, account, day, model);
      TallyOfWindow(log, mid, hi, account, day, model);
    }
  }

  lemma TallyOneMore(groups: seq<UsageRow>, g: UsageRow, account: int, day: int, model: string)
    ensures GroupTally(groups + [g], account, day, model) ==
            if g.user == account && g.day == day && g.model == model
            then Join(GroupTally(groups, account, day, model),
                      Tally(g.input, g.cache, g.output, g.requests, g.cost, g.billed))
            else GroupTally(groups, account, day, model)
  {
    assert (groups + [g])[..|groups|] == groups;
  }

  lemma {:induction false} TalliesAppend(groups: seq<UsageRow>, more: seq<UsageRow>, account: int, day: int,
          model: string)
    ensures GroupTally(groups + more, account, day, model) ==
            Join(GroupTally(groups, account, day, model), GroupTally(more, account, day, model))
  {
    if more == [] {
      assert groups + [] == groups;
    } else {
      var init, g := more[..|more| - 1], more[|more| - 1];
      TalliesAppend(groups, init, account, day, model);
      TallyOneMore(groups + init, g, account, day, model);
      TallyOneMore(init, g, account, day, model);
      assert groups + more == (groups + init) + [g];
      assert more == init + [g];
      JoinOneMore(GroupTally(groups, account, day, model), GroupTally(init, account, day, model),
        Tally(g.input, g.cache, g.output, g.requests, g.cost, g.billed), GroupTally(more, account, day, model));
    }
  }

  lemma JoinOneMore(a: Tally, b: Tally, c: Tally, more: Tally)
    requires more == b || more == Join(b, c)
    ensures more == Join(b, c) ==> Join(a, more) == Join(Join(a, b), c)
    ensures more == b ==> Join(a, more) == Join(a, b)
  {
    JoinRegroups(a, b, c);
  }

  lemma {:induction false} RehomingLeavesOthers(groups: seq<UsageRow>, id: int, account: int, day: int, model: string)
    requires id != account && account != 0
    ensures GroupTally(Rehomed(groups, id), account, day, model) == GroupTally(groups, account, day, model)
  {
    if groups != [] {
      var after := Rehomed(groups, id);
      RehomingLeavesOthers(groups[..|groups| - 1], id, account, day, model);
      assert after[..|after| - 1] == Rehomed(groups[..|groups| - 1], id);
    }
  }

  // ----- through a run -----

  ghost predicate NeverArchived(events: seq<Event>, account: int) {
    forall i :: 0 <= i < |events| ==> events[i] != Archived(account)
  }

  /** The groups booked for the account sum to its counted rows at or below the greatest acknowledged bound. */
  ghost predicate TalliesMatch(s: System, account: int) {
    forall day, model ::
      GroupTally(s.booked, account, day, model) == LogTally(Selected(s.history, 0, s.done), account, day, model)
  }

  lemma BookingKeepsTally(booked: seq<UsageRow>, rows: seq<LogRow>, history: seq<LogRow>, done: int, hi: int,
          account: int, day: int, model: string)
    requires 0 <= done <= hi && rows == Selected(history, done, hi)
    requires GroupTally(booked, account, day, model) == LogTally(Selected(history, 0, done), account, day, model)
    ensures GroupTally(booked + Grouped(rows), account, day, model) ==
            LogTally(Selected(history, 0, hi), account, day, model)
  {
    GroupingByAccount(rows, account, day, model);
    TalliesAppend(booked, Grouped(rows), account, day, model);
    TallyWindowsAdd(history, 0, done, hi, account, day, model);
  }

  lemma ExportKeepsTallies(s: System, bound: int, account: int)
    requires Consistent(s) && s.bound == Some(bound) && TalliesMatch(s, account)
    ensures TalliesMatch(Export(s, bound), account)
  {
    var rows, hi := Selected(s.log, s.mark, bound), Max(s.done, bound);
    WindowIsFresh(s, bound);
    if AllOrdinary(Grouped(rows)) {
      forall day, model
        ensures GroupTally(s.booked + Grouped(rows), account, day, model) ==
                LogTally(Selected(s.history, 0, hi), account, day, model)
      {
        BookingKeepsTally(s.booked, rows, s.history, s.done, hi, account, day, model);
      }
    }
  }

  lemma StepKeepsTallies(s: System, e: Event, account: int)
    requires Consistent(s) && Enabled(s, e) && e != Archived(account) && account > 0 && TalliesMatch(s, account)
    ensures TalliesMatch(Step(s, e), account)
  {
    match e
    case Logged(row) => SelectedOneMore(s.history, row, 0, s.done);
    case Exported => ExportKeepsTallies(s, s.bound.value, account);
    case Archived(id) =>
      forall day, model
        ensures GroupTally(Rehomed(s.booked, id), account, day, model) == GroupTally(s.booked, account, day, model)
      {
        RehomingLeavesOthers(s.booked, id, account, day, model);
      }
    case _ =>
  }

  lemma {:induction false} RunsKeepTallies(s: System, events: seq<Event>, account: int)
    requires Consistent(s) && Possible(s, events) && NeverArchived(events, account) && account > 0
    requires TalliesMatch(s, account)
    ensures Consistent(Execute(s, events)) && TalliesMatch(Execute(s, events), account)
    decreases |events|
  {
    if events != [] {
      StepKeepsBooks(s, events[0]);
      StepKeepsTallies(s, events[0], account);
      RunsKeepTallies(Step(s, events[0]), events[1..], account);
    }
  }

  // ----- what the account's cells show -----

  lemma {:induction false} BookedIsTallied(groups: seq<UsageRow>, account: int, day: int, model: string)
    ensures var held, tally := Booked(groups, account, day, model), GroupTally(groups, account, day, model);
            && held.input == tally.input && held.cache == tally.cache && held.output == tally.output
            && held.requests == tally.requests
    ensures Parts(groups, account, day, model).1 == GroupTally(groups, account, day, model).cost * 1_000_000.0
  {
    if groups != [] {
      BookedIsTallied(groups[..|groups| - 1], account, day, model);
    }
  }

  /** A fresh start with these users keeps all books. */
  lemma FreshIsConsistent(users: seq<User>, account: int)
    ensures Consistent(Fresh(users)) && TalliesMatch(Fresh(users), account)
  {
    var start := Fresh(users);
    assert forall hi :: SameWindow(start.log, start.history, start.done, hi);
  }

  /** The row has been counted by an acknowledged export: it is a named model's successful request of a known
      account, at or below the greatest acknowledged id. */
  ghost predicate Acknowledged(r: LogRow, done: int) {
    0 < r.id <= done && r.attributed && r.named && 200 <= r.status <= 299
  }

  /** The account's own acknowledged rows of a day and model, summed. */
  ghost function OwnTally(history: seq<LogRow>, done: int, account: int, day: int, model: string): Tally {
    if history == [] then ZERO_TALLY
    else
      var rest, r := OwnTally(history[..|history| - 1], done, account, day, model), history[|history| - 1];
      if Acknowledged(r, done) && r.account == account && r.day == day && r.model == model
      then Join(rest, Tally(r.prompt, r.cacheRead, r.completion, 1, r.cost, r.billed))
      else rest
  }

  ghost function OwnBill(history: seq<LogRow>, done: int, account: int): real {
    if history == [] then 0.0
    else
      var r := history[|history| - 1];
      OwnBill(history[..|history| - 1], done, account)
      + if Acknowledged(r, done) && r.account == account then r.billed else 0.0
  }

  lemma {:induction false} OwnTallyIsSelected(history: seq<LogRow>, done: int, account: int, day: int, model: string)
    ensures OwnTally(history, done, account, day, model) == LogTally(Selected(history, 0, done), account, day, model)
  {
    if history != [] {
      OwnTallyIsSelected(history[..|history| - 1], done, account, day, model);
      TallyOfWindow(history, 0, done, account, day, model);
    }
  }

  lemma {:induction false} OwnBillIsSelected(history: seq<LogRow>, done: int, account: int)
    ensures OwnBill(history, done, account) == BilledFor(Selected(history, 0, done), account)
  {
    if history != [] {
      OwnBillIsSelected(history[..|history| - 1], done, account);
      BillsOfWindow(history, 0, done, account);
    }
  }

  ghost function LoggedRows(events: seq<Event>): seq<LogRow>
    decreases |events|
  {
    if events == [] then []
    else (if events[0].Logged? then [events[0].row] else []) + LoggedRows(events[1..])
  }

  /** The history is every row the run logged. */
  lemma {:induction false} HistoryIsLogged(s: System, events: seq<Event>)
    requires Possible(s, events)
    ensures Execute(s, events).history == s.history + LoggedRows(events)
    decreases |events|
  {
    if events != [] {
      HistoryIsLogged(Step(s, events[0]), events[1..]);
      HistoryOneMore(s, events[0], LoggedRows(events[1..]));
    }
  }

  lemma HistoryOneMore(s: System, e: Event, later: seq<LogRow>)
    requires Enabled(s, e)
    ensures Step(s, e).history + later == s.history + ((if e.Logged? then [e.row] else []) + later)
  {
    if e.Logged? {
      assert (s.history + [e.row]) + later == s.history + ([e.row] + later);
    } else {
      assert [] + later == later;
    }
  }

  lemma {:induction false} GroupsHaveAccounts(rows: seq<LogRow>)
    ensures AllOrdinary(Grouped(rows)) <==> forall i :: 0 <= i < |rows| ==> rows[i].account >= 1
  {
    if rows != [] {
      GroupsHaveAccounts(rows[..|rows| - 1]);
      GroupingOneIsOrdinary(Grouped(rows[..|rows| - 1]), rows[|rows| - 1]);
    }
  }

  lemma {:induction false} GroupingOneIsOrdinary(groups: seq<UsageRow>, r: LogRow)
    ensures AllOrdinary(GroupRow(groups, r)) <==> AllOrdinary(groups) && r.account >= 1
  {
    if groups != [] {
      var init, last := groups[..|groups| - 1], groups[|groups| - 1];
      GroupingOneIsOrdinary(init, r);
      assert AllOrdinary(groups) <==> AllOrdinary(init) && last.user >= 1;
      var after := GroupRow(groups, r);
      assert after[|after| - 1].user == last.user || InGroup(last, r.account, r.day, r.model);
      assert AllOrdinary(after) <==> AllOrdinary(after[..|after| - 1]) && after[|after| - 1].user >= 1;
      assert after[..|after| - 1] == if InGroup(last, r.account, r.day, r.model) then init else GroupRow(init, r);
    } else {
      assert AllOrdinary(GroupRow(groups, r)) <==> GroupRow(groups, r)[0].user >= 1;
    }
  }

  lemma {:induction false} SelectedAreCounted(log: seq<LogRow>, lo: int, hi: int, r: LogRow)
    ensures r in Selected(log, lo, hi) <==>
            r in log && lo < r.id <= hi && r.attributed && r.named && 200 <= r.status <= 299
  {
    if log != [] {
      SelectedAreCounted(log[..|log| - 1], lo, hi, r);
      assert log == log[..|log| - 1] + [log[|log| - 1]];
    }
  }

  /** Some row an export would count has no ordinary account. */
  ghost predicate Nobodys(log: seq<LogRow>, mark: int, bound: int, r: LogRow) {
    r in log && mark < r.id <= bound && r.attributed && r.named && 200 <= r.status <= 299 && r.account < 1
  }

  /** An export acknowledges its bound unless it would count a row of no ordinary account; then nothing moves. */
  lemma ExportAcknowledgesIff(s: System, bound: int)
    requires s.bound == Some(bound)
    ensures var t := Step(s, Exported);
            if exists r :: Nobodys(s.log, s.mark, bound, r) then t == s.(bound := None)
            else t.mark == bound && bound <= t.done && s.done <= t.done && (t.done == bound || t.done == s.done)
                 && t.log == s.log && t.history == s.history && t.bound == None
  {
    var rows := Selected(s.log, s.mark, bound);
    GroupsHaveAccounts(rows);
    forall r
      ensures r in rows && r.account < 1 <==> Nobodys(s.log, s.mark, bound, r)
    {
      SelectedAreCounted(s.log, s.mark, bound, r);
    }
    if r :| Nobodys(s.log, s.mark, bound, r) {
      assert r in rows;
      var i :| 0 <= i < |rows| && rows[i] == r;
      assert rows[i].account < 1;
    } else {
      forall i | 0 <= i < |rows|
        ensures rows[i].account >= 1
      {
        assert !Nobodys(s.log, s.mark, bound, rows[i]) && rows[i] in rows;
      }
    }
  }

  /** The cell shows the tokens and requests of the account's own acknowledged rows among those logged, and their
      cost within half a micro for each group booked. */
  ghost predicate ShowsOwn(s: System, logged: seq<LogRow>, account: int, day: int, model: string) {
    var held, own := Held(s.tables.cells, account, day, model), OwnTally(logged, s.done, account, day, model);
    var k := Parts(s.booked, account, day, model).0;
    && held.input == own.input && held.cache == own.cache && held.output == own.output
    && held.requests == own.requests
    && Abs(held.micro as real - own.cost * 1_000_000.0) <= k as real * 0.5
  }

  /** However logging, exports, failures, clean-ups and archivings of others alternate, the cell of an account that is
      not archived shows the tokens and requests of its own acknowledged rows, and their cost within half a micro
      for each group booked. */
  lemma RunsShowTheAccount(users: seq<User>, events: seq<Event>, account: int, day: int, model: string)
    requires Possible(Fresh(users), events) && NeverArchived(events, account) && account > 0
    ensures ShowsOwn(Execute(Fresh(users), events), LoggedRows(events), account, day, model)
  {
    var start := Fresh(users);
    FreshIsConsistent(users, account);
    RunsKeepTallies(start, events, account);
    HistoryIsLogged(start, events);
    assert Execute(start, events).history == LoggedRows(events);
    CellsShowOwn(Execute(start, events), account, day, model);
  }

  lemma CellsShowOwn(s: System, account: int, day: int, model: string)
    requires Consistent(s) && TalliesMatch(s, account)
    ensures ShowsOwn(s, s.history, account, day, model)
  {
    BookedIsTallied(s.booked, account, day, model);
    CellErrorIsBounded(s.booked, account, day, model);
    OwnTallyIsSelected(s.history, s.done, account, day, model);
  }

  // ----- what the account has spent -----

  /** What an account was billed for some log rows, and the number of groups booked for it, over all days and models. */
  function BilledFor(rows: seq<LogRow>, account: int): real {
    if rows == [] then 0.0
    else
      var r := rows[|rows| - 1];
      BilledFor(rows[..|rows| - 1], account) + if r.account == account then r.billed else 0.0
  }

  function BilledIn(groups: seq<UsageRow>, account: int): real {
    if groups == [] then 0.0
    else
      var g := groups[|groups| - 1];
      BilledIn(groups[..|groups| - 1], account) + if g.user == account then g.billed else 0.0
  }

  function GroupsOf(groups: seq<UsageRow>, account: int): nat {
    if groups == [] then 0
    else GroupsOf(groups[..|groups| - 1], account) + if groups[|groups| - 1].user == account then 1 else 0
  }

  lemma {:induction false} GroupRowBills(groups: seq<UsageRow>, r: LogRow, account: int)
    ensures BilledIn(GroupRow(groups, r), account) ==
            BilledIn(groups, account) + if r.account == account then r.billed else 0.0
  {
    var after := GroupRow(groups, r);
    if groups == [] {
      assert after[..0] == [];
    } else {
      var init, last := groups[..|groups| - 1], groups[|groups| - 1];
      GroupRowBills(init, r, account);
      assert after[..|after| - 1] == if InGroup(last, r.account, r.day, r.model) then init else GroupRow(init, r);
    }
  }

  lemma {:induction false} GroupingBills(rows: seq<LogRow>, account: int)
    ensures BilledIn(Grouped(rows), account) == BilledFor(rows, account)
  {
    if rows != [] {
      GroupingBills(rows[..|rows| - 1], account);
      GroupRowBills(Grouped(rows[..|rows| - 1]), rows[|rows| - 1], account);
    }
  }

  lemma {:induction false} BillsAppend(groups: seq<UsageRow>, more: seq<UsageRow>, account: int)
    ensures BilledIn(groups + more, account) == BilledIn(groups, account) + BilledIn(more, account)
    ensures PaidFor(groups + more, account) == PaidFor(groups, account) + PaidFor(more, account)
  {
    if more == [] {
      assert groups + [] == groups;
    } else {
      BillsAppend(groups, more[..|more| - 1], account);
      assert (groups + more)[..|groups + more| - 1] == groups + more[..|more| - 1];
    }
  }

  lemma {:induction false} RehomingLeavesBills(groups: seq<UsageRow>, id: int, account: int)
    requires id != account && account != 0
    ensures BilledIn(Rehomed(groups, id), account) == BilledIn(groups, account)
    ensures PaidFor(Rehomed(groups, id), account) == PaidFor(groups, account)
  {
    if groups != [] {
      var after := Rehomed(groups, id);
      RehomingLeavesBills(groups[..|groups| - 1], id, account);
      assert after[..|after| - 1] == Rehomed(groups[..|groups| - 1], id);
    }
  }

  lemma {:induction false} BillsOfWindow(log: seq<LogRow>, lo: int, hi: int, account: int)
    requires log != []
    ensures var init, r := log[..|log| - 1], log[|log| - 1];
            BilledFor(Selected(log, lo, hi), account) ==
            BilledFor(Selected(init, lo, hi), account)
            + if lo < r.id <= hi && Counted(r) && r.account == account then r.billed else 0.0
  {
    var last, whole := log[|log| - 1], Selected(log, lo, hi);
    if lo < last.id <= hi && Counted(last) {
      assert whole[..|whole| - 1] == Selected(log[..|log| - 1], lo, hi);
    }
  }

  lemma {:induction false} BillsOfWindowsAdd(log: seq<LogRow>, lo: int, mid: int, hi: int, account: int)
    requires lo <= mid <= hi
    ensures BilledFor(Selected(log, lo, hi), account) ==
            BilledFor(Selected(log, lo, mid), account) + BilledFor(Selected(log, mid, hi), account)
  {
    if log != [] {
      BillsOfWindowsAdd(log[..|log| - 1], lo, mid, hi, account);
      BillsOfWindow(log, lo, hi, account);
      BillsOfWindow(log, lo, mid, account);
      BillsOfWindow(log, mid, hi, account);
    }
  }

  /** What an account pays for some groups, each bill rounded by itself. */
  function PaidFor(groups: seq<UsageRow>, account: int): int {
    if groups == [] then 0
    else
      var g := groups[|groups| - 1];
      PaidFor(groups[..|groups| - 1], account) + if g.user == account then Micro(g.billed) else 0
  }

  lemma {:induction false} PaidWithin(groups: seq<UsageRow>, account: int)
    ensures Abs(PaidFor(groups, account) as real - BilledIn(groups, account) * 1_000_000.0)
            <= GroupsOf(groups, account) as real * 0.5
  {
    if groups != [] {
      PaidWithin(groups[..|groups| - 1], account);
      RoundingIsHalfUp(groups[|groups| - 1].billed * 1_000_000.0);
    }
  }

  lemma BookingOnePays(t: Tables, g: UsageRow, account: int)
    ensures CostOf(BookRow(t, g).users, account) ==
            CostOf(t.users, account) + if g.user == account then Micro(g.billed) else 0
  {
    EnsuringCostsNothing(t.users, g.user, account);
    AddCostPays(EnsureUser(t.users, g.user), g.user, Micro(g.billed));
    AddCostKeepsUsers(EnsureUser(t.users, g.user), g.user, Micro(g.billed), account);
  }

  /** Booking a batch brings an account's spending up by its rounded bills. */
  lemma {:induction false} BookingPays(t: Tables, groups: seq<UsageRow>, account: int)
    ensures CostOf(BookRows(t, groups).users, account) == CostOf(t.users, account) + PaidFor(groups, account)
  {
    if groups != [] {
      BookingPays(t, groups[..|groups| - 1], account);
      BookingOnePays(BookRows(t, groups[..|groups| - 1]), groups[|groups| - 1], account);
    }
  }

  /** The account has spent what it started with and its rounded bills, which are for its acknowledged rows. */
  ghost predicate SpendingMatches(s: System, account: int, before: int) {
    && BilledIn(s.booked, account) == BilledFor(Selected(s.history, 0, s.done), account)
    && CostOf(s.tables.users, account) == before + PaidFor(s.booked, account)
  }

  lemma ExportKeepsSpending(s: System, bound: int, account: int, before: int)
    requires Consistent(s) && s.bound == Some(bound) && SpendingMatches(s, account, before)
    ensures SpendingMatches(Export(s, bound), account, before)
  {
    var t, rows := Export(s, bound), Selected(s.log, s.mark, bound);
    WindowIsFresh(s, bound);
    if AllOrdinary(Grouped(rows)) {
      GroupingBills(rows, account);
      BillsAppend(s.booked, Grouped(rows), account);
      BillsOfWindowsAdd(s.history, 0, s.done, t.done, account);
      BookingPays(s.tables, Grouped(rows), account);
    }
  }

  lemma StepKeepsSpending(s: System, e: Event, account: int, before: int)
    requires Consistent(s) && Enabled(s, e) && e != Archived(account) && account > 0
    requires SpendingMatches(s, account, before)
    ensures SpendingMatches(Step(s, e), account, before)
  {
    match e
    case Logged(row) => SelectedOneMore(s.history, row, 0, s.done);
    case Exported => ExportKeepsSpending(s, s.bound.value, account, before);
    case Archived(id) =>
      RehomingLeavesBills(s.booked, id, account);
      AddCostKeepsUsers(s.tables.users, 0, CostOf(s.tables.users, id), account);
      RemovingOthersCostsNothing(AddCost(s.tables.users, 0, CostOf(s.tables.users, id)), id, account);
    case _ =>
  }

  lemma {:induction false} RunsKeepSpending(s: System, events: seq<Event>, account: int, before: int)
    requires Consistent(s) && Possible(s, events) && NeverArchived(events, account) && account > 0
    requires SpendingMatches(s, account, before)
    ensures SpendingMatches(Execute(s, events), account, before)
    decreases |events|
  {
    if events != [] {
      StepKeepsBooks(s, events[0]);
      StepKeepsSpending(s, events[0], account, before);
      RunsKeepSpending(Step(s, events[0]), events[1..], account, before);
    }
  }

  /** The account's cost has grown by what its own acknowledged rows were billed, within half a micro per group. */
  ghost predicate SpentOwn(s: System, logged: seq<LogRow>, account: int, before: int) {
    var grown := CostOf(s.tables.users, account) - before;
    Abs(grown as real - OwnBill(logged, s.done, account) * 1_000_000.0) <= GroupsOf(s.booked, account) as real * 0.5
  }

  /** ... and its actual cost has grown by what it was billed for these rows, within half a micro for each group. */
  lemma RunsBillTheAccount(users: seq<User>, events: seq<Event>, account: int)
    requires Possible(Fresh(users), events) && NeverArchived(events, account) && account > 0
    ensures SpentOwn(Execute(Fresh(users), events), LoggedRows(events), account, CostOf(users, account))
  {
    FreshIsConsistent(users, account);
    RunsKeepSpending(Fresh(users), events, account, CostOf(users, account));
    HistoryIsLogged(Fresh(users), events);
    assert Execute(Fresh(users), events).history == LoggedRows(events);
    SpendingIsOwn(Execute(Fresh(users), events), account, CostOf(users, account));
  }

  lemma SpendingIsOwn(s: System, account: int, before: int)
    requires SpendingMatches(s, account, before)
    ensures SpentOwn(s, s.history, account, before)
  {
    PaidWithin(s.booked, account);
    OwnBillIsSelected(s.history, s.done, account);
  }

  // ----- what becomes of an archived account -----

  /** The user's cells and spending have gone to the archive user, when there is one, and nobody else's moved. */
  ghost predicate Moved(before: Tables, after: Tables, id: int, other: int, day: int, model: string) {
    && Held(after.cells, id, day, model) == NOTHING && !HasUser(after.users, id)
    && Held(after.cells, 0, day, model) == Add(Held(before.cells, 0, day, model), Held(before.cells, id, day, model))
    && (HasUser(before.users, 0) ==> CostOf(after.users, 0) == CostOf(before.users, 0) + CostOf(before.users, id))
    && (other != 0 && other != id ==>
          Held(after.cells, other, day, model) == Held(before.cells, other, day, model)
          && CostOf(after.users, other) == CostOf(before.users, other))
  }

  lemma ArchiveMoves(t: Tables, id: int, other: int, day: int, model: string)
    requires id > 0 && HasUser(t.users, id)
    ensures Moved(t, ArchiveUser(t, id), id, other, day, model)
  {
    ArchiveMovesCounts(t, id, id, day, model);
    ArchiveMovesCounts(t, id, 0, day, model);
    ArchiveMovesCounts(t, id, other, day, model);
    ArchiveMovesSpending(t, id, id);
    ArchiveMovesSpending(t, id, 0);
    ArchiveMovesSpending(t, id, other);
  }

  lemma ArchivedStep(s: System, id: int)
    requires id > 0
    ensures Step(s, Archived(id)) == s || HasUser(s.tables.users, id)
    ensures HasUser(s.tables.users, id) ==> Step(s, Archived(id)).tables == ArchiveUser(s.tables, id)
  {
  }

  /** Archiving a stored account moves its cells and its spending. */
  lemma ArchivingMovesTheAccount(s: System, id: int, other: int, day: int, model: string, after: Tables)
    requires id > 0 && HasUser(s.tables.users, id) && after == Step(s, Archived(id)).tables
    ensures Moved(s.tables, after, id, other, day, model)
  {
    ArchivedStep(s, id);
    ArchiveMoves(s.tables, id, other, day, model);
  }

  /** Archiving an unknown account does nothing. */
  lemma ArchivingNobody(s: System, id: int)
    requires id > 0 && !HasUser(s.tables.users, id)
    ensures Step(s, Archived(id)) == s
  {
    ArchivedStep(s, id);
  }
}
