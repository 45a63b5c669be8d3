/** Exporting the request log to the dashboard in mark windows: whatever the windows, the clean-ups and
    the archivings between them, every row is counted exactly once. */
module UsageExport {
  import opened Prelude
  import opened UsageArchive

  /** A row of `request_log`. `attributed` is whether its account or identity is a proxy or an agent,
      and `named` whether its model is neither blank nor "unknown". */
  datatype LogRow = LogRow(
    id: int, day: int, account: int, model: string,
    prompt: nat, completion: nat, cacheRead: nat, cost: real, billed: real,
    status: int, attributed: bool, named: bool)

  predicate Counted(r: LogRow) {
    r.attributed && r.named && 200 <= r.status <= 299
  }

  /** `WHERE r.id > mark AND r.id <= max_id AND ...` */
  function Selected(log: seq<LogRow>, mark: int, maxId: int): seq<LogRow> {
    if log == [] then []
    else
      var rest, last := Selected(log[..|log| - 1], mark, maxId), log[|log| - 1];
      if mark < last.id <= maxId && Counted(last) then rest + [last] else rest
  }

  // ----- grouping -----

  predicate InGroup(g: UsageRow, account: int, day: int, model: string) {
    g.user == account && g.day == day && g.model == model
  }

  function AddToGroup(g: UsageRow, r: LogRow): UsageRow {
    g.(input := g.input + r.prompt, cache := g.cache + r.cacheRead, output := g.output + r.completion,
       requests := g.requests + 1, cost := g.cost + r.cost, billed := g.billed + r.billed)
  }

  function GroupRow(groups: seq<UsageRow>, r: LogRow): seq<UsageRow> {
    if groups == [] then [AddToGroup(UsageRow(r.account, r.day, r.model, 0, 0, 0, 0, 0.0, 0.0, false), r)]
    else
      var init, last := groups[..|groups| - 1], groups[|groups| - 1];
      if InGroup(last, r.account, r.day, r.model) then init + [AddToGroup(last, r)] else GroupRow(init, r) + [last]
  }

  /** `GROUP BY date, account, model` with the sums of each group. */
  function Grouped(rows: seq<LogRow>): seq<UsageRow> {
    if rows == [] then [] else GroupRow(Grouped(rows[..|rows| - 1]), rows[|rows| - 1])
  }

  // ----- sums per day and model -----

  /** Token and request sums, and the exact cost. */
  datatype Sums = Sums(input: int, cache: int, output: int, requests: int, cost: real)

  const ZERO := Sums(0, 0, 0, 0, 0.0)

  function Plus(a: Sums, b: Sums): Sums {
    Sums(a.input + b.input, a.cache + b.cache, a.output + b.output, a.requests + b.requests, a.cost + b.cost)
  }

  function RowSums(r: LogRow): Sums { Sums(r.prompt, r.cacheRead, r.completion, 1, r.cost) }

  function GroupSums(g: UsageRow): Sums { Sums(g.input, g.cache, g.output, g.requests, g.cost) }

  /** The exact totals of some log rows for a day and model, over all accounts. */
  function LogTotal(rows: seq<LogRow>, day: int, model: string): Sums {
    if rows == [] then ZERO
    else
      var rest, last := LogTotal(rows[..|rows| - 1], day, model), rows[|rows| - 1];
      if last.day == day && last.model == model then Plus(rest, RowSums(last)) else rest
  }

  function GroupTotal(groups: seq<UsageRow>, day: int, model: string): Sums {
    if groups == [] then ZERO
    else
      var rest, last := GroupTotal(groups[..|groups| - 1], day, model), groups[|groups| - 1];
      if last.day == day && last.model == model then Plus(rest, GroupSums(last)) else rest
  }

  lemma {:induction false} GroupRowAdds(groups: seq<UsageRow>, r: LogRow, day: int, model: string)
    ensures GroupTotal(GroupRow(groups, r), day, model) ==
            if r.day == day && r.model == model then Plus(GroupTotal(groups, day, model), RowSums(r))
              else GroupTotal(groups, day, model)
  {
    var after := GroupRow(groups, r);
    if groups == [] {
      assert after[..0] == [];
    } else {
      var init, last := groups[..|groups| - 1], groups[|groups| - 1];
      GroupRowAdds(init, r, day, model);
      assert after[..|after| - 1] == if InGroup(last, r.account, r.day, r.model) then init else GroupRow(init, r);
    }
  }

  /** Grouping loses and invents nothing. */
  lemma {:induction false} GroupingConserves(rows: seq<LogRow>, day: int, model: string)
    ensures GroupTotal(Grouped(rows), day, model) == LogTotal(rows, day, model)
  {
    if rows != [] {
      GroupingConserves(rows[..|rows| - 1], day, model);
      GroupRowAdds(Grouped(rows[..|rows| - 1]), rows[|rows| - 1], day, model);
    }
  }

  // ----- what the archive holds of the groups booked so far -----

  /** A booked group, whose `user` follows it into the archive user when its account is archived. */
  function Rehomed(groups: seq<UsageRow>, id: int): seq<UsageRow> {
    if groups == [] then []
    else
      var last := groups[|groups| - 1];
      Rehomed(groups[..|groups| - 1], id) + [if last.user == id then last.(user := 0) else last]
  }

  /** The counts the groups give one user, day and model. */
  function Booked(groups: seq<UsageRow>, user: int, day: int, model: string): Counts {
    if groups == [] then NOTHING
    else
      var rest, last := Booked(groups[..|groups| - 1], user, day, model), groups[|groups| - 1];
      if InGroup(last, user, day, model) then Add(rest, CountsOf(last)) else rest
  }

  /** The number of groups, and their exact cost in micro-CNY, behind one cell. */
  function Parts(groups: seq<UsageRow>, user: int, day: int, model: string): (nat, real) {
    if groups == [] then (0, 0.0)
    else
      var (k, exact) := Parts(groups[..|groups| - 1], user, day, model);
      var last := groups[|groups| - 1];
      if InGroup(last, user, day, model) then (k + 1, exact + last.cost * 1_000_000.0) else (k, exact)
  }

  lemma {:induction false} BookingsAppend(groups: seq<UsageRow>, more: seq<UsageRow>, user: int, day: int,
          model: string)
    ensures Booked(groups + more, user, day, model) ==
            Add(Booked(groups, user, day, model), Booked(more, user, day, model))
  {
    if more == [] {
      assert groups + [] == groups;
    } else {
      var init := more[..|more| - 1];
      BookingsAppend(groups, init, user, day, model);
      assert (groups + more)[..|groups + more| - 1] == groups + init;
    }
  }

  /** After `k` contributing windows a cell's rounded cost is within k/2 micro of the exact sum. */
  lemma {:induction false} CellErrorIsBounded(groups: seq<UsageRow>, user: int, day: int, model: string)
    ensures var (k, exact) := Parts(groups, user, day, model);
            Abs(Booked(groups, user, day, model).micro as real - exact) <= k as real * 0.5
  {
    if groups != [] {
      var last := groups[|groups| - 1];
      CellErrorIsBounded(groups[..|groups| - 1], user, day, model);
      RoundingIsHalfUp(last.cost * 1_000_000.0);
    }
  }

  /** What one group gives a cell. */
  function Share(g: UsageRow, user: int, day: int, model: string): Counts {
    if InGroup(g, user, day, model) then CountsOf(g) else NOTHING
  }

  lemma BookedOneMore(groups: seq<UsageRow>, g: UsageRow, user: int, day: int, model: string)
    ensures Booked(groups + [g], user, day, model) == Add(Booked(groups, user, day, model), Share(g, user, day, model))
  {
    assert (groups + [g])[..|groups|] == groups;
    AddingRegroups(Booked(groups, user, day, model), NOTHING, NOTHING);
  }

  lemma SharesMove(g: UsageRow, id: int, u: int, d: int, m: string)
    requires id != 0
    ensures Share(if g.user == id then g.(user := 0) else g, u, d, m) ==
            if u == id then NOTHING else if u == 0 then Add(Share(g, 0, d, m), Share(g, id, d, m))
              else Share(g, u, d, m)
  {
    AddingRegroups(CountsOf(g), NOTHING, NOTHING);
  }

  lemma AddingPairs(a: Counts, b: Counts, x: Counts, y: Counts)
    ensures Add(Add(a, b), Add(x, y)) == Add(Add(a, x), Add(b, y))
    ensures Add(NOTHING, NOTHING) == NOTHING
  {
  }

  lemma {:induction false} RehomingMovesBookings(groups: seq<UsageRow>, id: int, u: int, d: int, m: string)
    requires id != 0
    ensures Booked(Rehomed(groups, id), u, d, m) ==
            if u == id then NOTHING
            else if u == 0 then Add(Booked(groups, 0, d, m), Booked(groups, id, d, m))
            else Booked(groups, u, d, m)
  {
    if groups == [] {
      AddingPairs(NOTHING, NOTHING, NOTHING, NOTHING);
    } else {
      var init, last := groups[..|groups| - 1], groups[|groups| - 1];
      RehomingMovesBookings(init, id, u, d, m);
      assert groups == init + [last];
      BookedOneMore(Rehomed(init, id), if last.user == id then last.(user := 0) else last, u, d, m);
      SharesMove(last, id, u, d, m);
      BookedOneMore(init, last, u, d, m);
      if u == 0 {
        BookedOneMore(init, last, id, d, m);
        AddingPairs(Booked(init, 0, d, m), Booked(init, id, d, m), Share(last, 0, d, m), Share(last, id, d, m));
      } else if u == id {
        AddingPairs(NOTHING, NOTHING, NOTHING, NOTHING);
      }
    }
  }

  lemma {:induction false} RehomingKeepsTotals(groups: seq<UsageRow>, id: int, day: int, model: string)
    ensures GroupTotal(Rehomed(groups, id), day, model) == GroupTotal(groups, day, model)
  {
    if groups != [] {
      var after := Rehomed(groups, id);
      RehomingKeepsTotals(groups[..|groups| - 1], id, day, model);
      assert after[..|after| - 1] == Rehomed(groups[..|groups| - 1], id);
    }
  }

  /** Booking rows adds exactly their bookings to every cell. */
  lemma {:induction false} BookingAdds(t: Tables, rows: seq<UsageRow>, u: int, d: int, m: string)
    ensures Held(BookRows(t, rows).cells, u, d, m) == Add(Held(t.cells, u, d, m), Booked(rows, u, d, m))
  {
    if rows != [] {
      var last, mid := rows[|rows| - 1], BookRows(t, rows[..|rows| - 1]);
      BookingAdds(t, rows[..|rows| - 1], u, d, m);
      UpsertAdds(mid.cells, last.user, last.day, last.model, CountsOf(last), u, d, m);
    }
  }

  /** ... and to the totals of every day and model. */
  lemma {:induction false} BookingAddsToDay(t: Tables, rows: seq<UsageRow>, d: int, m: string)
    ensures DayTotal(BookRows(t, rows).cells, d, m) == Add(DayTotal(t.cells, d, m), Shown(rows, d, m))
  {
    if rows != [] {
      var last, mid := rows[|rows| - 1], BookRows(t, rows[..|rows| - 1]);
      BookingAddsToDay(t, rows[..|rows| - 1], d, m);
      UpsertAddsToDay(mid.cells, last.user, last.day, last.model, CountsOf(last), d, m);
    }
  }

  /** The counts some groups give a day and model, each group's cost rounded by itself. */
  function Shown(groups: seq<UsageRow>, day: int, model: string): Counts {
    if groups == [] then NOTHING
    else
      var rest, last := Shown(groups[..|groups| - 1], day, model), groups[|groups| - 1];
      if last.day == day && last.model == model then Add(rest, CountsOf(last)) else rest
  }

  function Windows(groups: seq<UsageRow>, day: int, model: string): nat {
    if groups == [] then 0
    else
      var last := groups[|groups| - 1];
      Windows(groups[..|groups| - 1], day, model) + if last.day == day && last.model == model then 1 else 0
  }

  lemma PlusRegroups(a: Sums, b: Sums, c: Sums)
    ensures Plus(Plus(a, b), c) == Plus(a, Plus(b, c)) && Plus(Plus(a, b), c) == Plus(Plus(a, c), b)
            && Plus(a, ZERO) == a
  {
  }

  lemma ShownOneMore(groups: seq<UsageRow>, last: UsageRow, day: int, model: string)
    ensures Shown(groups + [last], day, model) ==
            if last.day == day && last.model == model then Add(Shown(groups, day, model), CountsOf(last))
              else Shown(groups, day, model)
  {
    assert (groups + [last])[..|groups|] == groups;
  }

  lemma {:induction false} ShownAppends(groups: seq<UsageRow>, more: seq<UsageRow>, day: int, model: string)
    ensures Shown(groups + more, day, model) == Add(Shown(groups, day, model), Shown(more, day, model))
  {
    if more == [] {
      assert groups + [] == groups;
    } else {
      var init, last := more[..|more| - 1], more[|more| - 1];
      ShownAppends(groups, init, day, model);
      ShownOneMore(groups + init, last, day, model);
      ShownOneMore(init, last, day, model);
      assert groups + more == (groups + init) + [last] && more == init + [last];
      AddingRegroups(Shown(groups, day, model), Shown(init, day, model), CountsOf(last));
    }
  }

  lemma GroupTotalOneMore(groups: seq<UsageRow>, last: UsageRow, day: int, model: string)
    ensures GroupTotal(groups + [last], day, model) ==
            if last.day == day && last.model == model then Plus(GroupTotal(groups, day, model), GroupSums(last))
              else GroupTotal(groups, day, model)
  {
    assert (groups + [last])[..|groups|] == groups;
  }

  lemma {:induction false} GroupTotalsAppend(groups: seq<UsageRow>, more: seq<UsageRow>, day: int, model: string)
    ensures GroupTotal(groups + more, day, model) == Plus(GroupTotal(groups, day, model), GroupTotal(more, day, model))
  {
    if more == [] {
      assert groups + [] == groups;
    } else {
      var init, last := more[..|more| - 1], more[|more| - 1];
      GroupTotalsAppend(groups, init, day, model);
      GroupTotalOneMore(groups + init, last, day, model);
      GroupTotalOneMore(init, last, day, model);
      assert groups + more == (groups + init) + [last] && more == init + [last];
      if last.day == day && last.model == model {
        PlusRegroups(GroupTotal(groups, day, model), GroupTotal(init, day, model), GroupSums(last));
      }
    }
  }

  lemma {:induction false} RehomingKeepsShown(groups: seq<UsageRow>, id: int, day: int, model: string)
    ensures Shown(Rehomed(groups, id), day, model) == Shown(groups, day, model)
  {
    if groups != [] {
      var after := Rehomed(groups, id);
      RehomingKeepsShown(groups[..|groups| - 1], id, day, model);
      assert after[..|after| - 1] == Rehomed(groups[..|groups| - 1], id);
    }
  }

  /** The exact tokens and requests, and a cost within half a micro for each of `k` roundings. */
  predicate Shows(shown: Counts, exact: Sums, k: nat) {
    && shown.input == exact.input && shown.cache == exact.cache
    && shown.output == exact.output && shown.requests == exact.requests
    && Abs(shown.micro as real - exact.cost * 1_000_000.0) <= k as real * 0.5
  }

  /** What a day shows is exact, but for half a micro per group. */
  lemma {:induction false} ShownIsExact(groups: seq<UsageRow>, day: int, model: string)
    ensures Shows(Shown(groups, day, model), GroupTotal(groups, day, model), Windows(groups, day, model))
  {
    if groups != [] {
      ShownIsExact(groups[..|groups| - 1], day, model);
      RoundingIsHalfUp(groups[|groups| - 1].cost * 1_000_000.0);
    }
  }

  // ----- windows of the log -----

  /** No row of the log has an id in (lo, hi]. */
  predicate NoneBetween(log: seq<LogRow>, lo: int, hi: int) {
    forall i :: 0 <= i < |log| ==> !(lo < log[i].id <= hi)
  }

  lemma {:induction false} EmptyWindow(log: seq<LogRow>, lo: int, hi: int)
    requires NoneBetween(log, lo, hi)
    ensures Selected(log, lo, hi) == []
  {
    if log != [] {
      EmptyWindow(log[..|log| - 1], lo, hi);
    }
  }

  /** A window that starts in a gap of the log may start at the gap's end. */
  lemma {:induction false} WindowSkipsGap(log: seq<LogRow>, lo: int, mid: int, hi: int)
    requires lo <= mid && NoneBetween(log, lo, mid)
    ensures Selected(log, lo, hi) == Selected(log, mid, hi)
  {
    if log != [] {
      WindowSkipsGap(log[..|log| - 1], lo, mid, hi);
    }
  }

  /** Narrowing a selection gives the selection of the narrower window. */
  lemma {:induction false} WindowNarrows(log: seq<LogRow>, lo: int, mid: int, hi: int)
    requires lo <= mid
    ensures Selected(Selected(log, lo, hi), mid, hi) == Selected(log, mid, hi)
  {
    if log != [] {
      var init, whole := log[..|log| - 1], Selected(log, lo, hi);
      WindowNarrows(init, lo, mid, hi);
      if lo < log[|log| - 1].id <= hi && Counted(log[|log| - 1]) {
        assert whole[..|whole| - 1] == Selected(init, lo, hi);
      }
    }
  }

  /** Consecutive windows partition what one window counts. */
  lemma {:induction false} WindowsAdd(log: seq<LogRow>, lo: int, mid: int, hi: int, day: int, model: string)
    requires lo <= mid <= hi
    ensures LogTotal(Selected(log, lo, hi), day, model) ==
            Plus(LogTotal(Selected(log, lo, mid), day, model), LogTotal(Selected(log, mid, hi), day, model))
  {
    if log != [] {
      var init := log[..|log| - 1];
      WindowsAdd(init, lo, mid, hi, day, model);
      PlusRegroups(LogTotal(Selected(init, lo, mid), day, model), LogTotal(Selected(init, mid, hi), day, model),
        RowSums(log[|log| - 1]));
      TotalOfWindow(log, lo, hi, day, model);
      TotalOfWindow(log, lo, mid, day, model);
      TotalOfWindow(log, mid, hi, day, model);
    }
  }

  lemma TotalOfWindow(log: seq<LogRow>, lo: int, hi: int, day: int, model: string)
    requires log != []
    ensures var init, last := log[..|log| - 1], log[|log| - 1];
            LogTotal(Selected(log, lo, hi), day, model) ==
            if lo < last.id <= hi && Counted(last) && last.day == day && last.model == model
            then Plus(LogTotal(Selected(init, lo, hi), day, model), RowSums(last))
            else LogTotal(Selected(init, lo, hi), day, model)
  {
    var last, whole := log[|log| - 1], Selected(log, lo, hi);
    if lo < last.id <= hi && Counted(last) {
      assert whole[..|whole| - 1] == Selected(log[..|log| - 1], lo, hi);
    }
  }

  lemma {:induction false} CleaningKeepsWindow(log: seq<LogRow>, mark: int, kept: set<int>, lo: int, hi: int)
    requires mark <= lo
    ensures Selected(Cleaned(log, mark, kept), lo, hi) == Selected(log, lo, hi)
  {
    if log != [] {
      var init, last, after := log[..|log| - 1], log[|log| - 1], Cleaned(log, mark, kept);
      CleaningKeepsWindow(init, mark, kept, lo, hi);
      if !(last.id <= mark && last.id !in kept) {
        assert after[..|after| - 1] == Cleaned(init, mark, kept);
      }
    }
  }

  lemma {:induction false} CleaningAddsNothing(log: seq<LogRow>, mark: int, kept: set<int>)
    ensures forall r :: r in Cleaned(log, mark, kept) ==> r in log
  {
    if log != [] {
      CleaningAddsNothing(log[..|log| - 1], mark, kept);
    }
  }

  /** `COALESCE(MAX(id),0)` over the rows still in the log. */
  function MaxId(log: seq<LogRow>): (m: int)
    ensures m >= 0 && forall i :: 0 <= i < |log| ==> log[i].id <= m
    ensures m == 0 || exists i :: 0 <= i < |log| && log[i].id == m
  {
    if log == [] then 0
    else
      var rest, last := MaxId(log[..|log| - 1]), log[|log| - 1];
      if last.id > rest then last.id else rest
  }

  // ----- a life of exports -----

  /** The request log, the stored mark, the upper bound a running export has read, the archive, and three
      histories: every row ever logged, the greatest bound ever acknowledged, and every group ever
      booked, under the user that holds it now. */
  datatype System = System(
    log: seq<LogRow>, mark: int, bound: Option<int>, tables: Tables,
    history: seq<LogRow>, done: int, booked: seq<UsageRow>)

  datatype Event =
    | Logged(row: LogRow)             // a new row, with a larger id than any before
    | Bounded                         // an export reads the largest id still in the log
    | Exported                        // its successful end: the archive is installed, the mark set
    | Abandoned                       // an export that failed before its archive was installed
    | CleanedUp(kept: set<int>)       // rows at or below the mark are deleted, but for those kept
    | Archived(id: int)
    | ZeroCellsPurged                 // the all-zero cells are deleted

  predicate Enabled(s: System, e: Event) {
    match e
    case Logged(row) => row.id > MaxId(s.history)
    case Exported => s.bound.Some?
    case Archived(id) => id > 0
    case _ => true
  }

  /** `DELETE FROM request_log WHERE id <= mark AND requested_at < ...` */
  function Cleaned(log: seq<LogRow>, mark: int, kept: set<int>): seq<LogRow> {
    if log == [] then []
    else
      var rest, last := Cleaned(log[..|log| - 1], mark, kept), log[|log| - 1];
      if last.id <= mark && last.id !in kept then rest else rest + [last]
  }

  function Max(a: int, b: int): int { if a < b then b else a }

  predicate AllOrdinary(groups: seq<UsageRow>) {
    forall i :: 0 <= i < |groups| ==> groups[i].user >= 1
  }

  /** An export whose batch names no ordinary user raises, and nothing moves. */
  function Export(s: System, bound: int): System {
    var groups := Grouped(Selected(s.log, s.mark, bound));
    if AllOrdinary(groups)
    then s.(tables := BookRows(s.tables, groups), mark := bound, bound := None, done := Max(s.done, bound),
      booked := s.booked + groups)
    else s.(bound := None)
  }

  function ArchiveIn(s: System, id: int): System {
    if id != 0 && HasUser(s.tables.users, id)
    then s.(tables := ArchiveUser(s.tables, id), booked := Rehomed(s.booked, id))
    else s
  }

  function Step(s: System, e: Event): System
    requires Enabled(s, e)
  {
    match e
    case Logged(row) => s.(log := s.log + [row], history := s.history + [row])
    case Bounded => s.(bound := Some(MaxId(s.log)))
    case Exported => Export(s, s.bound.value)
    case Abandoned => s.(bound := None)
    case CleanedUp(kept) => s.(log := Cleaned(s.log, s.mark, kept))
    case Archived(id) => ArchiveIn(s, id)
    case ZeroCellsPurged => s.(tables := s.tables.(cells := WithoutZeroCells(s.tables.cells)))
  }

  ghost predicate Possible(s: System, events: seq<Event>)
    decreases |events|
  {
    events == [] || (Enabled(s, events[0]) && Possible(Step(s, events[0]), events[1..]))
  }

  function Execute(s: System, events: seq<Event>): System
    requires Possible(s, events)
    decreases |events|
  {
    if events == [] then s else Execute(Step(s, events[0]), events[1..])
  }

  ghost predicate SameWindow(log: seq<LogRow>, history: seq<LogRow>, lo: int, hi: int) {
    Selected(log, lo, hi) == Selected(history, lo, hi)
  }

  /** Every row beyond the greatest acknowledged bound is still in the log; no row between the stored
      mark, or a bound an export has read, and the greatest acknowledged bound is. */
  ghost predicate NothingLost(s: System) {
    && (forall hi :: SameWindow(s.log, s.history, s.done, hi))
    && NoneBetween(s.log, s.mark, s.done)
    && (s.bound.Some? ==> NoneBetween(s.log, s.bound.value, s.done))
  }

  ghost predicate BoundsAreKnown(s: System) {
    && s.mark <= s.done <= MaxId(s.history) && 0 <= s.done
    && (s.bound.Some? ==> s.bound.value <= MaxId(s.history))
    && (forall r :: r in s.log ==> r.id <= MaxId(s.history))
  }

  /** Every cell holds exactly its booked groups. */
  ghost predicate CellsAreBooked(s: System) {
    forall u, d, m :: Held(s.tables.cells, u, d, m) == Booked(s.booked, u, d, m)
  }

  ghost predicate DaysAreShown(s: System) {
    forall d, m :: DayTotal(s.tables.cells, d, m) == Shown(s.booked, d, m)
  }

  /** The booked groups sum to the counted rows at or below the greatest acknowledged bound. */
  ghost predicate TotalsMatch(s: System) {
    forall d, m :: GroupTotal(s.booked, d, m) == LogTotal(Selected(s.history, 0, s.done), d, m)
  }

  ghost predicate Consistent(s: System) {
    NothingLost(s) && BoundsAreKnown(s) && CellsAreBooked(s) && DaysAreShown(s) && TotalsMatch(s)
  }

  // ----- every step keeps the books -----

  lemma MaxIdGrows(rows: seq<LogRow>, row: LogRow)
    requires row.id > MaxId(rows)
    ensures MaxId(rows + [row]) == row.id
  {
    assert (rows + [row])[..|rows|] == rows;
  }

  lemma SelectedOneMore(rows: seq<LogRow>, row: LogRow, lo: int, hi: int)
    ensures Selected(rows + [row], lo, hi) ==
            if lo < row.id <= hi && Counted(row) then Selected(rows, lo, hi) + [row] else Selected(rows, lo, hi)
  {
    assert (rows + [row])[..|rows|] == rows;
  }

  lemma LoggingKeepsWindows(s: System, row: LogRow)
    requires NothingLost(s) && BoundsAreKnown(s) && Enabled(s, Logged(row))
    ensures NothingLost(Step(s, Logged(row)))
  {
    var t := Step(s, Logged(row));
    forall hi ensures SameWindow(t.log, t.history, t.done, hi) {
      assert SameWindow(s.log, s.history, s.done, hi);
      SelectedOneMore(s.log, row, s.done, hi);
      SelectedOneMore(s.history, row, s.done, hi);
    }
  }

  lemma LoggingKeepsBounds(s: System, row: LogRow)
    requires BoundsAreKnown(s) && Enabled(s, Logged(row))
    ensures BoundsAreKnown(Step(s, Logged(row)))
  {
    MaxIdGrows(s.history, row);
  }

  lemma LoggingKeepsBooks(s: System, row: LogRow)
    requires Consistent(s) && Enabled(s, Logged(row))
    ensures Consistent(Step(s, Logged(row)))
  {
    LoggingKeepsWindows(s, row);
    LoggingKeepsBounds(s, row);
    SelectedOneMore(s.history, row, 0, s.done);
    assert Selected(s.history + [row], 0, s.done) == Selected(s.history, 0, s.done);
    assert TotalsMatch(Step(s, Logged(row)));
  }

  lemma CleaningKeepsBooks(s: System, kept: set<int>)
    requires Consistent(s)
    ensures Consistent(Step(s, CleanedUp(kept)))
  {
    var t := Step(s, CleanedUp(kept));
    CleaningAddsNothing(s.log, s.mark, kept);
    forall i | 0 <= i < |t.log| ensures t.log[i] in s.log {
      assert t.log[i] in t.log;
    }
    forall hi ensures SameWindow(t.log, t.history, t.done, hi) {
      assert SameWindow(s.log, s.history, s.done, hi);
      CleaningKeepsWindow(s.log, s.mark, kept, s.done, hi);
    }
  }

  lemma BoundingKeepsBooks(s: System)
    requires Consistent(s)
    ensures Consistent(Step(s, Bounded))
  {
    var t := Step(s, Bounded);
    assert forall hi :: SameWindow(t.log, t.history, t.done, hi) <==> SameWindow(s.log, s.history, s.done, hi);
    assert MaxId(s.log) == 0 || exists i :: 0 <= i < |s.log| && s.log[i].id == MaxId(s.log) && s.log[i] in s.log;
  }

  lemma ArchivingKeepsBooks(s: System, id: int)
    requires Consistent(s) && id > 0
    ensures Consistent(Step(s, Archived(id)))
  {
    var t := ArchiveIn(s, id);
    assert forall hi :: SameWindow(t.log, t.history, t.done, hi) <==> SameWindow(s.log, s.history, s.done, hi);
    if HasUser(s.tables.users, id) {
      forall u, d, m ensures Held(t.tables.cells, u, d, m) == Booked(t.booked, u, d, m) {
        ArchiveMovesCounts(s.tables, id, u, d, m);
        RehomingMovesBookings(s.booked, id, u, d, m);
      }
      forall d, m
        ensures DayTotal(t.tables.cells, d, m) == Shown(t.booked, d, m)
        ensures GroupTotal(t.booked, d, m) == GroupTotal(s.booked, d, m)
      {
        ArchiveConservesDays(s.tables, id, d, m);
        RehomingKeepsShown(s.booked, id, d, m);
        RehomingKeepsTotals(s.booked, id, d, m);
      }
    }
  }

  /** The rows an export counts are those between the greatest acknowledged bound and its own: nothing
      twice, even when the stored mark has moved back. */
  lemma WindowIsFresh(s: System, bound: int)
    requires NothingLost(s) && s.mark <= s.done && NoneBetween(s.log, bound, s.done)
    ensures Selected(s.log, s.mark, bound) == Selected(s.history, s.done, Max(s.done, bound))
  {
    if s.done < bound {
      WindowSkipsGap(s.log, s.mark, s.done, bound);
      assert SameWindow(s.log, s.history, s.done, bound);
    } else {
      EmptyWindow(s.log, s.mark, bound);
      NothingInEmptyWindow(s.history, s.done);
    }
  }

  lemma {:induction false} NothingInEmptyWindow(log: seq<LogRow>, at: int)
    ensures Selected(log, at, at) == []
  {
    if log != [] {
      NothingInEmptyWindow(log[..|log| - 1], at);
    }
  }

  lemma ExportKeepsWindows(s: System, bound: int)
    requires Consistent(s) && s.bound == Some(bound)
    ensures NothingLost(Export(s, bound)) && BoundsAreKnown(Export(s, bound))
  {
    var t := Export(s, bound);
    forall hi ensures SameWindow(t.log, t.history, t.done, hi) {
      assert SameWindow(s.log, s.history, s.done, hi);
      WindowNarrows(s.log, s.done, t.done, hi);
      WindowNarrows(s.history, s.done, t.done, hi);
    }
  }

  /** Booking the next window of a history brings its groups up to the window's end. */
  lemma TotalGrows(booked: seq<UsageRow>, history: seq<LogRow>, lo: int, hi: int, d: int, m: string)
    requires 0 <= lo <= hi && GroupTotal(booked, d, m) == LogTotal(Selected(history, 0, lo), d, m)
    ensures GroupTotal(booked + Grouped(Selected(history, lo, hi)), d, m) == LogTotal(Selected(history, 0, hi), d, m)
  {
    var rows := Selected(history, lo, hi);
    GroupingConserves(rows, d, m);
    GroupTotalsAppend(booked, Grouped(rows), d, m);
    WindowsAdd(history, 0, lo, hi, d, m);
  }

  lemma ExportKeepsTotals(s: System, bound: int)
    requires Consistent(s) && s.bound == Some(bound)
    ensures TotalsMatch(Export(s, bound))
  {
    var t := Export(s, bound);
    WindowIsFresh(s, bound);
    if AllOrdinary(Grouped(Selected(s.log, s.mark, bound))) {
      forall d, m ensures GroupTotal(t.booked, d, m) == LogTotal(Selected(t.history, 0, t.done), d, m) {
        TotalGrows(s.booked, s.history, s.done, t.done, d, m);
      }
    }
  }

  lemma ExportKeepsCells(s: System, bound: int)
    requires CellsAreBooked(s)
    ensures CellsAreBooked(Export(s, bound))
  {
    var t, groups := Export(s, bound), Grouped(Selected(s.log, s.mark, bound));
    if AllOrdinary(groups) {
      forall u, d, m ensures Held(t.tables.cells, u, d, m) == Booked(t.booked, u, d, m) {
        BookingAdds(s.tables, groups, u, d, m);
        BookingsAppend(s.booked, groups, u, d, m);
      }
    }
  }

  lemma ExportKeepsDays(s: System, bound: int)
    requires DaysAreShown(s)
    ensures DaysAreShown(Export(s, bound))
  {
    var t, groups := Export(s, bound), Grouped(Selected(s.log, s.mark, bound));
    if AllOrdinary(groups) {
      forall d, m ensures DayTotal(t.tables.cells, d, m) == Shown(t.booked, d, m) {
        BookingAddsToDay(s.tables, groups, d, m);
        ShownAppends(s.booked, groups, d, m);
      }
    }
  }

  lemma PurgingKeepsBooks(s: System)
    requires Consistent(s)
    ensures Consistent(Step(s, ZeroCellsPurged))
  {
    var t := Step(s, ZeroCellsPurged);
    assert forall hi :: SameWindow(t.log, t.history, t.done, hi) <==> SameWindow(s.log, s.history, s.done, hi);
    forall u, d, m ensures Held(t.tables.cells, u, d, m) == Booked(t.booked, u, d, m) {
      ZeroCellsHoldNothing(s.tables.cells, u, d, m);
    }
    forall d, m ensures DayTotal(t.tables.cells, d, m) == Shown(t.booked, d, m) {
      ZeroCellsHoldNothing(s.tables.cells, 0, d, m);
    }
  }

  lemma StepKeepsBooks(s: System, e: Event)
    requires Consistent(s) && Enabled(s, e)
    ensures Consistent(Step(s, e))
  {
    match e
    case Logged(row) => LoggingKeepsBooks(s, row);
    case Bounded => BoundingKeepsBooks(s);
    case Exported =>
      ExportKeepsWindows(s, s.bound.value);
      ExportKeepsTotals(s, s.bound.value);
      ExportKeepsCells(s, s.bound.value);
      ExportKeepsDays(s, s.bound.value);
    case Abandoned =>
      assert forall hi ::
        SameWindow(Step(s, e).log, Step(s, e).history, Step(s, e).done, hi)
        <==> SameWindow(s.log, s.history, s.done, hi);
    case CleanedUp(kept) => CleaningKeepsBooks(s, kept);
    case Archived(id) => ArchivingKeepsBooks(s, id);
    case ZeroCellsPurged => PurgingKeepsBooks(s);
  }

  lemma {:induction false} RunsKeepBooks(s: System, events: seq<Event>)
    requires Consistent(s) && Possible(s, events)
    ensures Consistent(Execute(s, events))
    decreases |events|
  {
    if events != [] {
      StepKeepsBooks(s, events[0]);
      RunsKeepBooks(Step(s, events[0]), events[1..]);
    }
  }

  /** Nothing logged, exported or archived yet. */
  function Fresh(users: seq<User>): System {
    System([], 0, None, Tables([], users), [], 0, [])
  }

  /** However logging, exports, failed exports, clean-ups and archivings alternate, every day and model
      shows the tokens and requests of one export of all rows ever acknowledged, and a cost within half
      a micro for each group booked. */
  lemma RunsShowOneExport(users: seq<User>, events: seq<Event>, day: int, model: string)
    requires Possible(Fresh(users), events)
    ensures var s := Execute(Fresh(users), events);
            Shows(DayTotal(s.tables.cells, day, model), LogTotal(Selected(s.history, 0, s.done), day, model),
              Windows(s.booked, day, model))
  {
    var start := Fresh(users);
    assert forall hi :: SameWindow(start.log, start.history, start.done, hi);
    RunsKeepBooks(start, events);
    var s := Execute(start, events);
    ShownIsExact(s.booked, day, model);
  }

  /** ... and each single cell is within half a micro for each group booked to it. */
  lemma RunsKeepCellsExact(users: seq<User>, events: seq<Event>, user: int, day: int, model: string)
    requires Possible(Fresh(users), events)
    ensures var s := Execute(Fresh(users), events);
            var (k, exact) := Parts(s.booked, user, day, model);
            Abs(Held(s.tables.cells, user, day, model).micro as real - exact) <= k as real * 0.5
  {
    var start := Fresh(users);
    assert forall hi :: SameWindow(start.log, start.history, start.done, hi);
    RunsKeepBooks(start, events);
    CellErrorIsBounded(Execute(start, events).booked, user, day, model);
  }

  lemma {:induction false} CleaningCanEmpty(log: seq<LogRow>, mark: int)
    requires forall r :: r in log ==> r.id <= mark
    ensures Cleaned(log, mark, {}) == []
  {
    if log != [] {
      assert log[|log| - 1] in log;
      CleaningCanEmpty(log[..|log| - 1], mark);
    }
  }

  /** An export moves the stored mark back exactly when every row still in the log has an id below it. */
  lemma MarkMovesBackIff(s: System)
    ensures Step(Step(s, Bounded), Exported).mark < s.mark <==>
            s.mark > 0 && forall i :: 0 <= i < |s.log| ==> s.log[i].id < s.mark
  {
    var bound := MaxId(s.log);
    if bound < s.mark {
      EmptyWindow(s.log, s.mark, bound);
    }
  }

  /** Two ways there: a clean-up that empties the log, and one that keeps an older row. */
  lemma MarkCanMoveBack(s: System)
    requires s.mark > 0 && forall r :: r in s.log ==> r.id <= s.mark
    ensures Step(Step(Step(s, CleanedUp({})), Bounded), Exported).mark == 0
    ensures forall a, b :: s.log == [a, b] && 0 < a.id < b.id == s.mark ==>
              Step(Step(Step(s, CleanedUp({a.id})), Bounded), Exported).mark == a.id
  {
    CleaningCanEmpty(s.log, s.mark);
    assert Step(s, CleanedUp({})).log == [];
    forall a, b | s.log == [a, b] && 0 < a.id < b.id == s.mark
      ensures Step(Step(Step(s, CleanedUp({a.id})), Bounded), Exported).mark == a.id
    {
      KeepingTheOlder(s, a, b);
    }
  }

  lemma KeepingTheOlder(s: System, a: LogRow, b: LogRow)
    requires s.log == [a, b] && 0 < a.id < b.id == s.mark
    ensures Step(Step(Step(s, CleanedUp({a.id})), Bounded), Exported).mark == a.id
  {
    assert [a, b][..1] == [a] && [a][..0] == [];
    assert Cleaned([a], s.mark, {a.id}) == [a];
    var t := Step(s, CleanedUp({a.id}));
    assert t.log == [a] && MaxId([a]) == a.id;
    EmptyWindow(t.log, t.mark, a.id);
  }

  // ----- the proxy database's side -----

  lemma {:induction false} GroupingNames(groups: seq<UsageRow>, r: LogRow)
    requires forall i :: 0 <= i < |groups| ==> !groups[i].unnamed
    ensures forall i :: 0 <= i < |GroupRow(groups, r)| ==> !GroupRow(groups, r)[i].unnamed
  {
    if groups != [] {
      GroupingNames(groups[..|groups| - 1], r);
    }
  }

  /** The exporter names every group. */
  lemma {:induction false} GroupsAreNamed(rows: seq<LogRow>)
    ensures forall i :: 0 <= i < |Grouped(rows)| ==> !Grouped(rows)[i].unnamed
  {
    if rows != [] {
      GroupsAreNamed(rows[..|rows| - 1]);
      GroupingNames(Grouped(rows[..|rows| - 1]), rows[|rows| - 1]);
    }
  }

  class Exporter {
    var log: seq<LogRow>
    var mark: int

    /** The usage part of `export_to_dashboard`. */
    method ExportToDashboard(archive: Archive, since: int, maxId: int) returns (result: Result<nat>)
      modifies archive
      ensures var groups := Grouped(Selected(log, since, maxId));
              && (result.Ok? <==> AllOrdinary(groups))
              && archive.View() == if result.Ok? then BookRows(old(archive.View()), groups) else old(archive.View())
    {
      var groups := Grouped(Selected(log, since, maxId));
      GroupsAreNamed(Selected(log, since, maxId));
      assert AllAccepted(archive.users, groups) <==> AllOrdinary(groups) by {
        assert forall i :: 0 <= i < |groups| ==> (Accepted(archive.users, groups[i]) <==> groups[i].user >= 1);
      }
      result := archive.UpsertUsageRows(groups);
    }

    /** A whole undisturbed export: bound, booking, removal of empty cells, mark, clean-up; nothing moves
        when it raises. */
    method Sync(archive: Archive, kept: set<int>, ghost s: System) returns (ok: bool)
      requires s.log == log && s.mark == mark && s.tables == archive.View() && s.bound == None
      modifies this, archive
      ensures var t := Step(Step(s, Bounded), Exported);
              var u := if ok then Step(Step(t, ZeroCellsPurged), CleanedUp(kept)) else t;
              u.log == log && u.mark == mark && u.tables == archive.View()
    {
      var maxId := MaxId(log);
      var result := ExportToDashboard(archive, mark, maxId);
      ok := result.Ok?;
      if ok {
        archive.PurgeZeroUsageRows();
        mark := maxId;
        log := Cleaned(log, maxId, kept);
      }
    }
  }
}
