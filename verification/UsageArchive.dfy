/** The two-table dashboard archive: additive upserts, half-up rounding to micro-CNY, and the merge of
    ordinary users into the archive user 0. */
module UsageArchive {
  import opened Prelude

  // ----- rounding -----

  /** Decimal quantisation with ROUND_HALF_UP: ties go away from zero. */
  function HalfUp(x: real): int {
    if x >= 0.0 then (x + 0.5).Floor else -((-x + 0.5).Floor)
  }

  /** `_micro` */
  function Micro(cost: real): int { HalfUp(cost * 1_000_000.0) }

  function Abs(x: real): (r: real)
    ensures r >= 0.0 && (r == x || r == -x)
  {
    if x < 0.0 then -x else x
  }

  /** Rounding moves an amount by at most half a micro, a tie away from zero, and keeps its sign. */
  lemma RoundingIsHalfUp(x: real)
    ensures Abs(HalfUp(x) as real - x) <= 0.5
    ensures HalfUp(-x) == -HalfUp(x) && (x >= 0.0 ==> HalfUp(x) >= 0)
    ensures x >= 0.0 ==> HalfUp(x) as real - 0.5 <= x < HalfUp(x) as real + 0.5
  {
  }

  // ----- daily_model_usage -----

  datatype Counts = Counts(input: int, cache: int, output: int, requests: int, micro: int)

  const NOTHING := Counts(0, 0, 0, 0, 0)

  function Add(a: Counts, b: Counts): Counts {
    Counts(a.input + b.input, a.cache + b.cache, a.output + b.output, a.requests + b.requests, a.micro + b.micro)
  }

  lemma AddingRegroups(a: Counts, b: Counts, c: Counts)
    ensures Add(Add(a, b), c) == Add(a, Add(b, c)) && Add(Add(a, b), c) == Add(Add(a, c), b) && Add(a, NOTHING) == a
  {
  }

  datatype Cell = Cell(user: int, day: int, model: string, counts: Counts)

  predicate IsCell(cell: Cell, user: int, day: int, model: string) {
    cell.user == user && cell.day == day && cell.model == model
  }

  /** `INSERT ... ON CONFLICT(user_id,usage_date,model) DO UPDATE SET x = x + excluded.x` */
  function Upsert(cells: seq<Cell>, user: int, day: int, model: string, counts: Counts): seq<Cell> {
    if cells == [] then [Cell(user, day, model, counts)]
    else
      var init, last := cells[..|cells| - 1], cells[|cells| - 1];
      if IsCell(last, user, day, model) then init + [last.(counts := Add(last.counts, counts))]
      else Upsert(init, user, day, model, counts) + [last]
  }

  predicate HasCell(cells: seq<Cell>, user: int, day: int, model: string) {
    cells != [] && (IsCell(cells[|cells| - 1], user, day, model) || HasCell(cells[..|cells| - 1], user, day, model))
  }

  /** The primary key (user, day, model). */
  predicate UniqueCells(cells: seq<Cell>) {
    cells == []
    || (UniqueCells(cells[..|cells| - 1])
        && !HasCell(cells[..|cells| - 1], cells[|cells| - 1].user, cells[|cells| - 1].day, cells[|cells| - 1].model))
  }

  /** What the archive holds for one user, day and model. */
  function Held(cells: seq<Cell>, user: int, day: int, model: string): Counts {
    if cells == [] then NOTHING
    else
      var rest, last := Held(cells[..|cells| - 1], user, day, model), cells[|cells| - 1];
      if IsCell(last, user, day, model) then Add(rest, last.counts) else rest
  }

  lemma {:induction false} UpsertAdds(cells: seq<Cell>, user: int, day: int, model: string, counts: Counts, u: int,
          d: int, m: string)
    ensures Held(Upsert(cells, user, day, model, counts), u, d, m) ==
            if u == user && d == day && m == model then Add(Held(cells, u, d, m), counts) else Held(cells, u, d, m)
  {
    if cells == [] {
      assert [Cell(user, day, model, counts)][..0] == [];
    } else {
      var init, last := cells[..|cells| - 1], cells[|cells| - 1];
      var after := Upsert(cells, user, day, model, counts);
      UpsertAdds(init, user, day, model, counts, u, d, m);
      assert after[..|after| - 1] ==
        if IsCell(last, user, day, model) then init else Upsert(init, user, day, model, counts);
    }
  }

  lemma {:induction false} UpsertKeepsKeys(cells: seq<Cell>, user: int, day: int, model: string, counts: Counts, u: int,
          d: int, m: string)
    ensures HasCell(Upsert(cells, user, day, model, counts), u, d, m)
            <==> HasCell(cells, u, d, m) || (u == user && d == day && m == model)
  {
    var after := Upsert(cells, user, day, model, counts);
    if cells == [] {
      assert after[..0] == [];
    } else {
      var init, last := cells[..|cells| - 1], cells[|cells| - 1];
      UpsertKeepsKeys(init, user, day, model, counts, u, d, m);
      assert after[..|after| - 1] ==
        if IsCell(last, user, day, model) then init else Upsert(init, user, day, model, counts);
    }
  }

  lemma {:induction false} UpsertKeepsUnique(cells: seq<Cell>, user: int, day: int, model: string, counts: Counts)
    requires UniqueCells(cells)
    ensures UniqueCells(Upsert(cells, user, day, model, counts))
  {
    var after := Upsert(cells, user, day, model, counts);
    if cells == [] {
      assert after[..0] == [];
    } else {
      var init, last := cells[..|cells| - 1], cells[|cells| - 1];
      UpsertKeepsUnique(init, user, day, model, counts);
      UpsertKeepsKeys(init, user, day, model, counts, last.user, last.day, last.model);
      assert after[..|after| - 1] ==
        if IsCell(last, user, day, model) then init else Upsert(init, user, day, model, counts);
    }
  }

  /** `purge_zero_usage_rows` */
  function WithoutZeroCells(cells: seq<Cell>): seq<Cell> {
    if cells == [] then []
    else
      var rest, last := WithoutZeroCells(cells[..|cells| - 1]), cells[|cells| - 1];
      if last.counts == NOTHING then rest else rest + [last]
  }

  /** Deleting the empty cells changes nothing that is held or shown. */
  lemma {:induction false} ZeroCellsHoldNothing(cells: seq<Cell>, user: int, day: int, model: string)
    ensures Held(WithoutZeroCells(cells), user, day, model) == Held(cells, user, day, model)
    ensures DayTotal(WithoutZeroCells(cells), day, model) == DayTotal(cells, day, model)
  {
    if cells != [] {
      var init, last, after := cells[..|cells| - 1], cells[|cells| - 1], WithoutZeroCells(cells);
      ZeroCellsHoldNothing(init, user, day, model);
      if last.counts == NOTHING {
        AddingRegroups(Held(init, user, day, model), NOTHING, NOTHING);
        AddingRegroups(DayTotal(init, day, model), NOTHING, NOTHING);
      } else {
        assert after[..|after| - 1] == WithoutZeroCells(init);
      }
    }
  }

  // ----- users -----

  /** A row of `users`: its accumulated actual cost in micro-CNY. */
  datatype User = User(id: int, micro: int)

  predicate HasUser(users: seq<User>, id: int) {
    exists i :: 0 <= i < |users| && users[i].id == id
  }

  function ActualTotal(users: seq<User>): int {
    if users == [] then 0 else ActualTotal(users[..|users| - 1]) + users[|users| - 1].micro
  }

  /** `UPDATE users SET actual_cost_micro_cny = actual_cost_micro_cny + ? WHERE id = ?` */
  function AddCost(users: seq<User>, id: int, micro: int): seq<User> {
    if users == [] then []
    else
      var init, last := users[..|users| - 1], users[|users| - 1];
      if last.id == id then init + [last.(micro := last.micro + micro)] else AddCost(init, id, micro) + [last]
  }

  /** `_ensure_user` for a valid id. */
  function EnsureUser(users: seq<User>, id: int): seq<User> {
    if HasUser(users, id) then users else users + [User(id, 0)]
  }

  function RemoveUser(users: seq<User>, id: int): seq<User> {
    if users == [] then []
    else
      var rest, last := RemoveUser(users[..|users| - 1], id), users[|users| - 1];
      if last.id == id then rest else rest + [last]
  }

  function CostOf(users: seq<User>, id: int): int {
    if users == [] then 0
    else CostOf(users[..|users| - 1], id) + if users[|users| - 1].id == id then users[|users| - 1].micro else 0
  }

  lemma {:induction false} AddCostAdds(users: seq<User>, id: int, micro: int)
    ensures ActualTotal(AddCost(users, id, micro)) == ActualTotal(users) + if HasUser(users, id) then micro else 0
    ensures HasUser(AddCost(users, id, micro), id) <==> HasUser(users, id)
  {
    if users != [] {
      var init, last, after := users[..|users| - 1], users[|users| - 1], AddCost(users, id, micro);
      AddCostAdds(init, id, micro);
      assert users == init + [last];
      HasUserAppend(init, last, id);
      if last.id == id {
        assert after[..|after| - 1] == init;
        HasUserAppend(init, last.(micro := last.micro + micro), id);
      } else {
        assert after[..|after| - 1] == AddCost(init, id, micro);
        HasUserAppend(AddCost(init, id, micro), last, id);
      }
    }
  }

  lemma {:induction false} AddCostKeepsUsers(users: seq<User>, id: int, micro: int, other: int)
    ensures HasUser(AddCost(users, id, micro), other) <==> HasUser(users, other)
    ensures other != id ==> CostOf(AddCost(users, id, micro), other) == CostOf(users, other)
  {
    if users != [] {
      var init, last, after := users[..|users| - 1], users[|users| - 1], AddCost(users, id, micro);
      AddCostKeepsUsers(init, id, micro, other);
      assert users == init + [last];
      HasUserAppend(init, last, other);
      if last.id == id {
        assert after[..|after| - 1] == init;
        HasUserAppend(init, last.(micro := last.micro + micro), other);
      } else {
        assert after[..|after| - 1] == AddCost(init, id, micro);
        HasUserAppend(AddCost(init, id, micro), last, other);
      }
    }
  }

  lemma {:induction false} RemoveUserTakesCost(users: seq<User>, id: int)
    ensures ActualTotal(RemoveUser(users, id)) == ActualTotal(users) - CostOf(users, id)
  {
    if users != [] {
      var after := RemoveUser(users, id);
      RemoveUserTakesCost(users[..|users| - 1], id);
      if users[|users| - 1].id != id {
        assert after[..|after| - 1] == RemoveUser(users[..|users| - 1], id);
      }
    }
  }

  lemma {:induction false} RemoveUserRemoves(users: seq<User>, id: int, other: int)
    ensures HasUser(RemoveUser(users, id), other) <==> HasUser(users, other) && other != id
  {
    if users != [] {
      var n := |users| - 1;
      RemoveUserRemoves(users[..n], id, other);
      assert users == users[..n] + [users[n]];
      HasUserAppend(users[..n], users[n], other);
      HasUserAppend(RemoveUser(users[..n], id), users[n], other);
    }
  }

  lemma HasUserAppend(users: seq<User>, u: User, id: int)
    ensures HasUser(users + [u], id) <==> HasUser(users, id) || u.id == id
  {
    var longer := users + [u];
    if HasUser(users, id) {
      var i :| 0 <= i < |users| && users[i].id == id;
      assert longer[i].id == id;
    }
    if u.id == id {
      assert longer[|users|].id == id;
    }
    if HasUser(longer, id) {
      var i :| 0 <= i < |longer| && longer[i].id == id;
      assert i < |users| ==> users[i].id == id;
    }
  }

  lemma {:induction false} AddCostPays(users: seq<User>, id: int, micro: int)
    requires HasUser(users, id)
    ensures CostOf(AddCost(users, id, micro), id) == CostOf(users, id) + micro
  {
    var init, last, after := users[..|users| - 1], users[|users| - 1], AddCost(users, id, micro);
    assert users == init + [last];
    HasUserAppend(init, last, id);
    if last.id == id {
      assert after[..|after| - 1] == init;
    } else {
      AddCostPays(init, id, micro);
      assert after[..|after| - 1] == AddCost(init, id, micro);
    }
  }

  lemma EnsuringCostsNothing(users: seq<User>, id: int, other: int)
    ensures CostOf(EnsureUser(users, id), other) == CostOf(users, other) && HasUser(EnsureUser(users, id), id)
  {
    if !HasUser(users, id) {
      assert (users + [User(id, 0)])[..|users|] == users;
      HasUserAppend(users, User(id, 0), id);
    }
  }

  lemma {:induction false} RemovingOthersCostsNothing(users: seq<User>, id: int, account: int)
    requires id != account
    ensures CostOf(RemoveUser(users, id), account) == CostOf(users, account)
  {
    if users != [] {
      var after := RemoveUser(users, id);
      RemovingOthersCostsNothing(users[..|users| - 1], id, account);
      if users[|users| - 1].id != id {
        assert after[..|after| - 1] == RemoveUser(users[..|users| - 1], id);
      }
    }
  }

  // ----- archiving one user -----

  /** Add every cell of `user` to the archive user's cell of the same day and model. */
  function MergeInto(cells: seq<Cell>, source: seq<Cell>, user: int): seq<Cell> {
    if source == [] then cells
    else
      var merged, last := MergeInto(cells, source[..|source| - 1], user), source[|source| - 1];
      if last.user == user then Upsert(merged, 0, last.day, last.model, last.counts) else merged
  }

  function WithoutUser(cells: seq<Cell>, user: int): seq<Cell> {
    if cells == [] then []
    else
      var rest, last := WithoutUser(cells[..|cells| - 1], user), cells[|cells| - 1];
      if last.user == user then rest else rest + [last]
  }

  function CellCount(cells: seq<Cell>, user: int): nat {
    if cells == [] then 0
    else CellCount(cells[..|cells| - 1], user) + if cells[|cells| - 1].user == user then 1 else 0
  }

  lemma {:induction false} MergeAdds(cells: seq<Cell>, source: seq<Cell>, user: int, u: int, d: int, m: string)
    ensures Held(MergeInto(cells, source, user), u, d, m) ==
            if u == 0 then Add(Held(cells, u, d, m), Held(source, user, d, m)) else Held(cells, u, d, m)
  {
    if source == [] {
      AddingRegroups(Held(cells, u, d, m), NOTHING, NOTHING);
    } else {
      var init, last := source[..|source| - 1], source[|source| - 1];
      MergeAdds(cells, init, user, u, d, m);
      AddingRegroups(Held(cells, u, d, m), Held(init, user, d, m), last.counts);
      if last.user == user {
        UpsertAdds(MergeInto(cells, init, user), 0, last.day, last.model, last.counts, u, d, m);
      }
    }
  }

  lemma {:induction false} WithoutUserKeepsOthers(cells: seq<Cell>, user: int, u: int, d: int, m: string)
    ensures Held(WithoutUser(cells, user), u, d, m) == if u == user then NOTHING else Held(cells, u, d, m)
  {
    if cells != [] {
      var last := cells[|cells| - 1];
      WithoutUserKeepsOthers(cells[..|cells| - 1], user, u, d, m);
      if last.user != user {
        var after := WithoutUser(cells, user);
        assert after[..|after| - 1] == WithoutUser(cells[..|cells| - 1], user);
      }
    }
  }

  lemma {:induction false} MergeKeepsUnique(cells: seq<Cell>, source: seq<Cell>, user: int)
    requires UniqueCells(cells)
    ensures UniqueCells(MergeInto(cells, source, user))
  {
    if source != [] {
      var last := source[|source| - 1];
      MergeKeepsUnique(cells, source[..|source| - 1], user);
      UpsertKeepsUnique(MergeInto(cells, source[..|source| - 1], user), 0, last.day, last.model, last.counts);
    }
  }

  lemma {:induction false} WithoutUserAddsNoKey(cells: seq<Cell>, user: int, u: int, d: int, m: string)
    ensures HasCell(WithoutUser(cells, user), u, d, m) ==> HasCell(cells, u, d, m)
  {
    if cells != [] {
      WithoutUserAddsNoKey(cells[..|cells| - 1], user, u, d, m);
      var after := WithoutUser(cells, user);
      if cells[|cells| - 1].user != user {
        assert after[..|after| - 1] == WithoutUser(cells[..|cells| - 1], user);
      }
    }
  }

  lemma {:induction false} WithoutUserKeepsUnique(cells: seq<Cell>, user: int)
    requires UniqueCells(cells)
    ensures UniqueCells(WithoutUser(cells, user))
  {
    if cells != [] {
      var last, after := cells[|cells| - 1], WithoutUser(cells, user);
      WithoutUserKeepsUnique(cells[..|cells| - 1], user);
      if last.user != user {
        WithoutUserAddsNoKey(cells[..|cells| - 1], user, last.user, last.day, last.model);
        assert after[..|after| - 1] == WithoutUser(cells[..|cells| - 1], user);
      }
    }
  }

  /** The two tables. */
  datatype Tables = Tables(cells: seq<Cell>, users: seq<User>)

  /** One turn of `archive_users`: an id without a user row is skipped. */
  function ArchiveUser(t: Tables, id: int): Tables {
    if id == 0 || !HasUser(t.users, id) then t
    else Tables(WithoutUser(MergeInto(t.cells, t.cells, id), id),
                RemoveUser(AddCost(t.users, 0, CostOf(t.users, id)), id))
  }

  /** Archiving moves a user's counts to user 0 and touches no other user's. */
  lemma ArchiveMovesCounts(t: Tables, id: int, u: int, d: int, m: string)
    ensures Held(ArchiveUser(t, id).cells, u, d, m) ==
            if id == 0 || !HasUser(t.users, id) then Held(t.cells, u, d, m)
            else if u == id then NOTHING
            else if u == 0 then Add(Held(t.cells, 0, d, m), Held(t.cells, id, d, m))
            else Held(t.cells, u, d, m)
  {
    if id != 0 && HasUser(t.users, id) {
      MergeAdds(t.cells, t.cells, id, u, d, m);
      WithoutUserKeepsOthers(MergeInto(t.cells, t.cells, id), id, u, d, m);
    }
  }

  /** ... and what it has spent to user 0, when there is one; the user itself is gone. */
  lemma ArchiveMovesSpending(t: Tables, id: int, u: int)
    requires id != 0 && HasUser(t.users, id)
    ensures var users := ArchiveUser(t, id).users;
            && (HasUser(users, u) <==> HasUser(t.users, u) && u != id)
            && (u == 0 && HasUser(t.users, 0) ==> CostOf(users, 0) == CostOf(t.users, 0) + CostOf(t.users, id))
            && (u != 0 && u != id ==> CostOf(users, u) == CostOf(t.users, u))
  {
    var spent := CostOf(t.users, id);
    var paid := AddCost(t.users, 0, spent);
    AddCostKeepsUsers(t.users, 0, spent, u);
    AddCostKeepsUsers(t.users, 0, spent, id);
    RemoveUserRemoves(paid, id, u);
    if HasUser(t.users, 0) {
      AddCostPays(t.users, 0, spent);
    }
    if u != id {
      RemovingOthersCostsNothing(paid, id, u);
    }
  }

  lemma ArchiveKeepsUnique(t: Tables, id: int)
    requires UniqueCells(t.cells)
    ensures UniqueCells(ArchiveUser(t, id).cells)
  {
    MergeKeepsUnique(t.cells, t.cells, id);
    WithoutUserKeepsUnique(MergeInto(t.cells, t.cells, id), id);
  }

  // ----- totals per day and model -----

  /** What the archive shows for a day and model, over all users. */
  function DayTotal(cells: seq<Cell>, day: int, model: string): Counts {
    if cells == [] then NOTHING
    else
      var rest, last := DayTotal(cells[..|cells| - 1], day, model), cells[|cells| - 1];
      if last.day == day && last.model == model then Add(rest, last.counts) else rest
  }

  lemma {:induction false} UpsertAddsToDay(cells: seq<Cell>, user: int, day: int, model: string, counts: Counts, d: int,
          m: string)
    ensures DayTotal(Upsert(cells, user, day, model, counts), d, m) ==
            if d == day && m == model then Add(DayTotal(cells, d, m), counts) else DayTotal(cells, d, m)
  {
    if cells == [] {
      assert [Cell(user, day, model, counts)][..0] == [];
    } else {
      var init, last := cells[..|cells| - 1], cells[|cells| - 1];
      var after := Upsert(cells, user, day, model, counts);
      UpsertAddsToDay(init, user, day, model, counts, d, m);
      assert after[..|after| - 1] ==
        if IsCell(last, user, day, model) then init else Upsert(init, user, day, model, counts);
    }
  }

  lemma AddingCancels(a: Counts, b: Counts, c: Counts)
    requires Add(a, c) == Add(b, c)
    ensures a == b
  {
  }

  /** One more source cell, and what it adds to the day and to the archived user's share of it. */
  lemma MergingOneMore(cells: seq<Cell>, source: seq<Cell>, user: int, d: int, m: string)
    requires source != []
    ensures var init, last := source[..|source| - 1], source[|source| - 1];
            var share := if last.user == user && last.day == d && last.model == m then last.counts else NOTHING;
            && DayTotal(MergeInto(cells, source, user), d, m) ==
               Add(DayTotal(MergeInto(cells, init, user), d, m), share)
            && Held(source, user, d, m) == Add(Held(init, user, d, m), share)
  {
    var init, last := source[..|source| - 1], source[|source| - 1];
    var merged := MergeInto(cells, init, user);
    AddingRegroups(DayTotal(merged, d, m), NOTHING, NOTHING);
    AddingRegroups(Held(init, user, d, m), NOTHING, NOTHING);
    if last.user == user {
      UpsertAddsToDay(merged, 0, last.day, last.model, last.counts, d, m);
    }
  }

  lemma {:induction false} MergeAddsToDay(cells: seq<Cell>, source: seq<Cell>, user: int, d: int, m: string)
    ensures DayTotal(MergeInto(cells, source, user), d, m) == Add(DayTotal(cells, d, m), Held(source, user, d, m))
  {
    if source == [] {
      AddingRegroups(DayTotal(cells, d, m), NOTHING, NOTHING);
    } else {
      var init, last := source[..|source| - 1], source[|source| - 1];
      var share := if last.user == user && last.day == d && last.model == m then last.counts else NOTHING;
      MergeAddsToDay(cells, init, user, d, m);
      MergingOneMore(cells, source, user, d, m);
      AddingRegroups(DayTotal(cells, d, m), Held(init, user, d, m), share);
    }
  }

  lemma {:induction false} WithoutUserLeavesDay(cells: seq<Cell>, user: int, d: int, m: string)
    ensures Add(DayTotal(WithoutUser(cells, user), d, m), Held(cells, user, d, m)) == DayTotal(cells, d, m)
  {
    if cells != [] {
      var last := cells[|cells| - 1];
      WithoutUserLeavesDay(cells[..|cells| - 1], user, d, m);
      if last.user != user {
        var after := WithoutUser(cells, user);
        assert after[..|after| - 1] == WithoutUser(cells[..|cells| - 1], user);
      }
    }
  }

  /** Archiving a user changes no total of any day and model. */
  lemma ArchiveConservesDays(t: Tables, id: int, d: int, m: string)
    ensures DayTotal(ArchiveUser(t, id).cells, d, m) == DayTotal(t.cells, d, m)
  {
    if id != 0 && HasUser(t.users, id) {
      var merged := MergeInto(t.cells, t.cells, id);
      MergeAddsToDay(t.cells, t.cells, id, d, m);
      MergeAdds(t.cells, t.cells, id, id, d, m);
      WithoutUserLeavesDay(merged, id, d, m);
      AddingCancels(DayTotal(WithoutUser(merged, id), d, m), DayTotal(t.cells, d, m), Held(t.cells, id, d, m));
    }
  }

  /** Archiving conserves the total actual cost exactly when the archive user exists or the archived
      user has spent nothing; the seeded user 0 is never removed. */
  lemma ArchiveConservesCost(t: Tables, id: int)
    ensures ActualTotal(ArchiveUser(t, id).users) == ActualTotal(t.users)
            <==> id == 0 || !HasUser(t.users, id) || HasUser(t.users, 0) || CostOf(t.users, id) == 0
    ensures HasUser(t.users, 0) ==> HasUser(ArchiveUser(t, id).users, 0)
  {
    if id != 0 && HasUser(t.users, id) {
      var paid := AddCost(t.users, 0, CostOf(t.users, id));
      AddCostAdds(t.users, 0, CostOf(t.users, id));
      AddCostKeepsUsers(t.users, 0, CostOf(t.users, id), id);
      RemoveUserTakesCost(paid, id);
      RemoveUserRemoves(paid, id, 0);
    }
  }

  /** The cells of the listed users, each counted when its turn comes. */
  function CellsArchived(t: Tables, ids: seq<int>): nat {
    if ids == [] then 0
    else
      var mid, last := ArchiveAll(t, ids[..|ids| - 1]), ids[|ids| - 1];
      CellsArchived(t, ids[..|ids| - 1]) + if HasUser(mid.users, last) then CellCount(mid.cells, last) else 0
  }

  lemma {:induction false} CellsAreCounted(cells: seq<Cell>, user: int)
    ensures CellCount(cells, user) == |set i | 0 <= i < |cells| && cells[i].user == user|
  {
    if cells != [] {
      CellsAreCounted(cells[..|cells| - 1], user);
      OneMoreCell(cells, user);
    }
  }

  lemma OneMoreCell(cells: seq<Cell>, user: int)
    requires cells != []
    ensures var n := |cells| - 1;
            |set i | 0 <= i < |cells| && cells[i].user == user| ==
            |set i | 0 <= i < n && cells[..n][i].user == user| + if cells[n].user == user then 1 else 0
  {
    var n := |cells| - 1;
    var before, after := set i | 0 <= i < n && cells[..n][i].user == user,
      set i | 0 <= i < |cells| && cells[i].user == user;
    forall i
      ensures i in after <==> i in before || (i == n && cells[n].user == user)
    {
    }
    if cells[n].user == user {
      assert after == before + {n};
    } else {
      assert after == before;
    }
  }

  lemma NextArchived(t: Tables, ids: seq<int>, i: nat)
    requires i < |ids|
    ensures ArchiveAll(t, ids[..i + 1]) == ArchiveUser(ArchiveAll(t, ids[..i]), ids[i])
    ensures CellsArchived(t, ids[..i + 1]) ==
            CellsArchived(t, ids[..i])
            + if HasUser(ArchiveAll(t, ids[..i]).users, ids[i]) then CellCount(ArchiveAll(t, ids[..i]).cells, ids[i])
              else 0
  {
    assert ids[..i + 1][..i] == ids[..i];
  }

  function ArchiveAll(t: Tables, ids: seq<int>): Tables {
    if ids == [] then t else ArchiveUser(ArchiveAll(t, ids[..|ids| - 1]), ids[|ids| - 1])
  }

  /** A usage row as the exporter hands it over; `unnamed` rows have a blank name. */
  datatype UsageRow = UsageRow(
    user: int, day: int, model: string, input: int, cache: int, output: int, requests: int, cost: real, billed: real,
    unnamed: bool)

  function CountsOf(row: UsageRow): Counts {
    Counts(row.input, row.cache, row.output, row.requests, Micro(row.cost))
  }

  /** One accepted row of `_upsert_usage_rows`. */
  function BookRow(t: Tables, row: UsageRow): Tables {
    Tables(Upsert(t.cells, row.user, row.day, row.model, CountsOf(row)),
           AddCost(EnsureUser(t.users, row.user), row.user, Micro(row.billed)))
  }

  function BookRows(t: Tables, rows: seq<UsageRow>): Tables {
    if rows == [] then t else BookRow(BookRows(t, rows[..|rows| - 1]), rows[|rows| - 1])
  }

  lemma {:induction false} AddingNothing(users: seq<User>, id: int)
    ensures AddCost(users, id, 0) == users
  {
    if users != [] {
      AddingNothing(users[..|users| - 1], id);
    }
  }

  /** A row that names its user needs an ordinary id; an unnamed one may also belong to any stored user. */
  predicate Accepted(users: seq<User>, row: UsageRow) {
    row.user >= 1 || (row.unnamed && HasUser(users, row.user))
  }

  predicate AllAccepted(users: seq<User>, rows: seq<UsageRow>) {
    forall i :: 0 <= i < |rows| ==> Accepted(users, rows[i])
  }

  lemma AllAcceptedOneMore(users: seq<User>, rows: seq<UsageRow>, i: nat)
    requires i < |rows| && AllAccepted(users, rows[..i])
    ensures AllAccepted(users, rows[..i + 1]) <==> Accepted(users, rows[i])
    ensures AllAccepted(users, rows) ==> Accepted(users, rows[i])
  {
    assert rows[..i + 1] == rows[..i] + [rows[i]];
  }

  /** Which stored users could take an unnamed row of no ordinary id never changes. */
  ghost predicate SameLowUsers(users: seq<User>, later: seq<User>) {
    forall id :: id < 1 ==> (HasUser(users, id) <==> HasUser(later, id))
  }

  lemma BookingKeepsLowUsers(t: Tables, row: UsageRow)
    requires Accepted(t.users, row)
    ensures SameLowUsers(t.users, BookRow(t, row).users)
  {
    forall id | id < 1 ensures HasUser(t.users, id) <==> HasUser(BookRow(t, row).users, id) {
      HasUserAppend(t.users, User(row.user, 0), id);
      AddCostKeepsUsers(EnsureUser(t.users, row.user), row.user, Micro(row.billed), id);
    }
  }

  lemma BookOneMore(t: Tables, rows: seq<UsageRow>, i: nat)
    requires i < |rows|
    ensures BookRows(t, rows[..i + 1]) == BookRow(BookRows(t, rows[..i]), rows[i])
  {
    assert rows[..i + 1][..i] == rows[..i];
  }

  class Archive {
    var cells: seq<Cell>
    var users: seq<User>

    ghost function View(): Tables
      reads this
    {
      Tables(cells, users)
    }

    /** `upsert_proxy_batch`: all rows are booked, or none if one is refused. */
    method UpsertUsageRows(rows: seq<UsageRow>) returns (result: Result<nat>)
      modifies this
      ensures result.Ok? <==> AllAccepted(old(users), rows)
      ensures View() == if result.Ok? then BookRows(old(View()), rows) else old(View())
    {
      var beforeCells, beforeUsers := cells, users;
      var booked := BookEach(rows);
      if !booked {
        cells, users := beforeCells, beforeUsers;
        return Err("real Dashboard user_id must be greater than zero");
      }
      return Ok(|rows|);
    }

    /** `_upsert_usage_rows`, up to the first row it refuses. */
    method BookEach(rows: seq<UsageRow>) returns (booked: bool)
      modifies this
      ensures booked <==> AllAccepted(old(users), rows)
      ensures booked ==> View() == BookRows(old(View()), rows)
    {
      ghost var before := View();
      assert rows[..0] == [];
      for i := 0 to |rows|
        invariant AllAccepted(before.users, rows[..i]) && SameLowUsers(before.users, users)
        invariant View() == BookRows(before, rows[..i])
      {
        AllAcceptedOneMore(before.users, rows, i);
        BookOneMore(before, rows, i);
        ghost var mid := View();
        booked := UpsertUsageRow(rows[i]);
        if !booked {
          return;
        }
        BookingKeepsLowUsers(mid, rows[i]);
      }
      assert rows[..|rows|] == rows;
      return true;
    }

    /** One row of `_upsert_usage_rows`. */
    method UpsertUsageRow(row: UsageRow) returns (booked: bool)
      modifies this
      ensures booked <==> Accepted(old(users), row)
      ensures booked ==> View() == BookRow(old(View()), row)
    {
      if row.user < 1 && (!row.unnamed || !HasUser(users, row.user)) {
        return false;
      }
      users := EnsureUser(users, row.user);
      cells := Upsert(cells, row.user, row.day, row.model, CountsOf(row));
      var billed := Micro(row.billed);
      if billed != 0 {
        users := AddCost(users, row.user, billed);
      } else {
        AddingNothing(users, row.user);
      }
      return true;
    }

    method PurgeZeroUsageRows()
      modifies this`cells
      ensures cells == WithoutZeroCells(old(cells))
    {
      cells := WithoutZeroCells(cells);
    }

    /** `archive_users` over the sorted distinct ids. */
    method ArchiveUsers(ids: seq<int>) returns (result: Result<nat>)
      modifies this
      ensures result.Ok? <==> forall i :: 0 <= i < |ids| ==> ids[i] > 0
      ensures View() == if result.Ok? then ArchiveAll(old(View()), ids) else old(View())
      ensures result.Ok? ==> result.value == CellsArchived(old(View()), ids)
    {
      for i := 0 to |ids|
        invariant forall k :: 0 <= k < i ==> ids[k] > 0
      {
        if ids[i] == 0 {
          return Err("archive user_id=0 cannot be archived");
        }
        if ids[i] < 0 {
          return Err("user_id must be non-negative");
        }
      }
      var archived: nat := 0;
      for i := 0 to |ids|
        invariant View() == ArchiveAll(old(View()), ids[..i])
        invariant archived == CellsArchived(old(View()), ids[..i])
      {
        NextArchived(old(View()), ids, i);
        if HasUser(users, ids[i]) {
          var moved := CostOf(users, ids[i]);
          archived := archived + CellCount(cells, ids[i]);
          cells := MergeInto(cells, cells, ids[i]);
          users := AddCost(users, 0, moved);
          cells := WithoutUser(cells, ids[i]);
          users := RemoveUser(users, ids[i]);
        }
      }
      assert ids[..|ids|] == ids;
      return Ok(archived);
    }
  }
}
