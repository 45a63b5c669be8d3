/** Repeating a materialization at one moment: why it reaches a fixpoint, and when one run suffices. */
module LedgerSettling {
  import opened Prelude
  import opened BillingUnits
  import opened Ledger
  import opened LedgerLaws

  // ----- a resolution only looks at the owner's periods -----

  lemma {:induction false} LatestKeepsItsPeriod(before: seq<Charge>, after: seq<Charge>, owner: Owner, moment: int)
    requires |before| == |after| && Extends(before, after)
    ensures var a, b := Latest(before, owner, moment), Latest(after, owner, moment);
            (a.Some? <==> b.Some?) && (a.Some? ==> a.value.start == b.value.start && a.value.end == b.value.end)
  {
    if before != [] {
      var n := |before| - 1;
      assert forall i :: 0 <= i < n ==> SameFact(before[..n][i], after[..n][i]);
      LatestKeepsItsPeriod(before[..n], after[..n], owner, moment);
      assert SameFact(before[n], after[n]);
    }
  }

  /** Freezing rows moves no period. */
  lemma FreezingMovesNothing(before: seq<Charge>, after: seq<Charge>, unit: Unit, moment: int)
    requires |before| == |after| && Extends(before, after)
    ensures ResolveUnitPeriod(after, unit, moment) == ResolveUnitPeriod(before, unit, moment)
  {
    LatestKeepsItsPeriod(before, after, unit.config.owner, moment);
  }

  lemma OtherOwnersMoveNothing(rows: seq<Charge>, row: Charge, unit: Unit, moment: int)
    requires row.owner != unit.config.owner
    ensures ResolveUnitPeriod(rows + [row], unit, moment) == ResolveUnitPeriod(rows, unit, moment)
  {
    assert (rows + [row])[..|rows|] == rows;
  }

  lemma SameRowsRecorded(before: seq<Charge>, after: seq<Charge>, owner: Owner, start: int)
    requires |before| == |after| && Extends(before, after)
    ensures FindRow(before, owner, start) >= 0 <==> FindRow(after, owner, start) >= 0
  {
    var i, j := FindRow(before, owner, start), FindRow(after, owner, start);
    if i >= 0 {
      assert SameFact(before[i], after[i]);
    }
    if j >= 0 {
      assert SameFact(before[j], after[j]);
    }
  }

  // ----- how far a unit may still roll -----

  /** The unit's turn would add a row. */
  predicate Pending(rows: seq<Charge>, unit: Unit, moment: int) {
    var period := ResolveUnitPeriod(rows, unit, moment);
    period.Some? && period.value.0 <= Cutoff(unit, moment) && FindRow(rows, unit.config.owner, period.value.0) < 0
  }

  /** An upper bound on the periods the unit may still open at this moment. */
  function Slack(rows: seq<Charge>, unit: Unit, moment: int): nat {
    if Pending(rows, unit, moment) then moment - ResolveUnitPeriod(rows, unit, moment).value.0 + 1 else 0
  }

  lemma SlackKept(before: seq<Charge>, after: seq<Charge>, unit: Unit, moment: int)
    requires |before| == |after| && Extends(before, after)
    ensures Slack(after, unit, moment) == Slack(before, unit, moment)
  {
    FreezingMovesNothing(before, after, unit, moment);
    var period := ResolveUnitPeriod(before, unit, moment);
    if period.Some? {
      SameRowsRecorded(before, after, unit.config.owner, period.value.0);
    }
  }

  lemma SlackOfOtherOwner(rows: seq<Charge>, row: Charge, unit: Unit, moment: int)
    requires row.owner != unit.config.owner
    ensures Slack(rows + [row], unit, moment) == Slack(rows, unit, moment)
  {
    OtherOwnersMoveNothing(rows, row, unit, moment);
    var period := ResolveUnitPeriod(rows, unit, moment);
    if period.Some? {
      var i, j := FindRow(rows, unit.config.owner, period.value.0),
        FindRow(rows + [row], unit.config.owner, period.value.0);
      assert i >= 0 ==> (rows + [row])[i] == rows[i];
      assert j >= 0 ==> rows[j] == (rows + [row])[j];
    }
  }

  /** Opening a period brings the unit's next start strictly forward. */
  lemma SlackShrinks(rows: seq<Charge>, unit: Unit, moment: int, prices: Prices, last: int)
    requires TidyAll(rows, last) && last <= moment && Pending(rows, unit, moment)
    ensures var after := PostUnit(rows, unit, moment, prices);
            |after| == |rows| + 1 && after[..|rows|] == rows && after[|rows|].owner == unit.config.owner
            && Slack(after, unit, moment) < Slack(rows, unit, moment)
  {
    assert Tidy(rows, unit.config.owner, last);
    UnitOpensAtMostOne(rows, unit, moment, prices, last);
    var after := PostUnit(rows, unit, moment, prices);
    var row := after[|rows|];
    assert Latest(after, unit.config.owner, moment) == Some(row) by {
      LatestIsNewest(rows, unit.config.owner, last, moment);
      assert after[..|rows|] == rows;
    }
    if moment >= row.end {
      RollForwardIsSound(unit, Some(row.end), moment);
    } else {
      assert after[|rows|].owner == unit.config.owner && after[|rows|].start == row.start;
    }
  }

  function TotalSlack(rows: seq<Charge>, units: seq<Unit>, moment: int): nat {
    if units == [] then 0 else TotalSlack(rows, units[..|units| - 1], moment) + Slack(rows, units[|units| - 1], moment)
  }

  function OpenRows(rows: seq<Charge>): nat {
    if rows == [] then 0 else OpenRows(rows[..|rows| - 1]) + if rows[|rows| - 1].finalizedAt.None? then 1 else 0
  }

  lemma {:induction false} FreezingReducesOpenRows(before: seq<Charge>, after: seq<Charge>)
    requires |before| == |after| && Extends(before, after)
    ensures OpenRows(after) <= OpenRows(before) && (after != before ==> OpenRows(after) < OpenRows(before))
  {
    if before != [] {
      var n := |before| - 1;
      assert forall i :: 0 <= i < n ==> SameFact(before[..n][i], after[..n][i]);
      FreezingReducesOpenRows(before[..n], after[..n]);
      assert SameFact(before[n], after[n]);
      if before[..n] == after[..n] && before[n] == after[n] {
        assert before == before[..n] + [before[n]] && after == after[..n] + [after[n]];
      }
    }
  }

  lemma {:induction false} TotalKept(before: seq<Charge>, after: seq<Charge>, units: seq<Unit>, moment: int)
    requires |before| == |after| && Extends(before, after)
    ensures TotalSlack(after, units, moment) == TotalSlack(before, units, moment)
  {
    if units != [] {
      TotalKept(before, after, units[..|units| - 1], moment);
      SlackKept(before, after, units[|units| - 1], moment);
    }
  }

  lemma {:induction false} TotalShrinks(rows: seq<Charge>, row: Charge, units: seq<Unit>, moment: int, k: int)
    requires DistinctOwners(units) && 0 <= k < |units| && row.owner == units[k].config.owner
    requires Slack(rows + [row], units[k], moment) < Slack(rows, units[k], moment)
    ensures TotalSlack(rows + [row], units, moment) < TotalSlack(rows, units, moment)
  {
    var n := |units| - 1;
    if k < n {
      assert units[k].config.owner != units[n].config.owner;
      TotalShrinks(rows, row, units[..n], moment, k);
      SlackOfOtherOwner(rows, row, units[n], moment);
    } else {
      assert forall i :: 0 <= i < n ==> units[i].config.owner != row.owner;
      TotalOfOthers(rows, row, units[..n], moment);
    }
  }

  lemma {:induction false} TotalOfOthers(rows: seq<Charge>, row: Charge, units: seq<Unit>, moment: int)
    requires forall i :: 0 <= i < |units| ==> units[i].config.owner != row.owner
    ensures TotalSlack(rows + [row], units, moment) == TotalSlack(rows, units, moment)
  {
    if units != [] {
      TotalOfOthers(rows, row, units[..|units| - 1], moment);
      SlackOfOtherOwner(rows, row, units[|units| - 1], moment);
    }
  }

  /** `after` is the same ledger, or nearer to a fixpoint: less may be opened, or as much and less is open. */
  ghost predicate Nearer(before: seq<Charge>, after: seq<Charge>, units: seq<Unit>, moment: int) {
    after == before
    || TotalSlack(after, units, moment) < TotalSlack(before, units, moment)
    || (TotalSlack(after, units, moment) == TotalSlack(before, units, moment) && OpenRows(after) < OpenRows(before))
  }

  lemma UnitGoesNearer(rows: seq<Charge>, units: seq<Unit>, k: int, moment: int, prices: Prices, last: int)
    requires TidyAll(rows, last) && last <= moment && DistinctOwners(units) && 0 <= k < |units|
    ensures Nearer(rows, PostUnit(rows, units[k], moment, prices), units, moment)
  {
    var unit := units[k];
    var after := PostUnit(rows, unit, moment, prices);
    UnitExtends(rows, unit, moment, prices);
    if Pending(rows, unit, moment) {
      SlackShrinks(rows, unit, moment, prices, last);
      assert after == rows + [after[|rows|]];
      TotalShrinks(rows, after[|rows|], units, moment, k);
    } else {
      TotalKept(rows, after, units, moment);
      FreezingReducesOpenRows(rows, after);
    }
  }

  lemma {:induction false} UnitsGoNearer(rows: seq<Charge>, units: seq<Unit>, n: nat, moment: int, prices: Prices,
          last: int)
    requires TidyAll(rows, last) && last <= moment && DistinctOwners(units) && n <= |units|
    ensures Nearer(rows, PostUnits(rows, units[..n], moment, prices), units, moment)
  {
    if n > 0 {
      UnitsGoNearer(rows, units, n - 1, moment, prices, last);
      assert units[..n][..n - 1] == units[..n - 1];
      MaterializeStaysTidyAll(rows, units[..n - 1], moment, prices, last);
      UnitGoesNearer(PostUnits(rows, units[..n - 1], moment, prices), units, n - 1, moment, prices, moment);
    }
  }

  /** A run either changes nothing or goes nearer to the fixpoint. */
  lemma RunGoesNearer(rows: seq<Charge>, units: seq<Unit>, moment: int, prices: Prices, last: int)
    requires TidyAll(rows, last) && last <= moment && DistinctOwners(units)
    ensures Nearer(rows, Materialize(rows, units, moment, prices), units, moment)
  {
    UnitsGoNearer(rows, units, |units|, moment, prices, last);
    assert units[..|units|] == units;
    var posted, after := PostUnits(rows, units, moment, prices), Materialize(rows, units, moment, prices);
    FreezeExtends(posted, ResolvedStarts(rows, units, moment, prices), moment);
    TotalKept(posted, after, units, moment);
    FreezingReducesOpenRows(posted, after);
  }

  function Repeated(rows: seq<Charge>, units: seq<Unit>, moment: int, prices: Prices, n: nat): seq<Charge>
    decreases n
  {
    if n == 0 then rows else Repeated(Materialize(rows, units, moment, prices), units, moment, prices, n - 1)
  }

  /** Repeating a materialization at one moment with unchanged inputs stops changing the ledger. */
  lemma {:induction false} RunsReachFixpoint(rows: seq<Charge>, units: seq<Unit>, moment: int, prices: Prices,
          last: int) returns (n: nat)
    requires TidyAll(rows, last) && last <= moment && DistinctOwners(units)
    ensures forall m: nat :: m >= n ==>
            Repeated(rows, units, moment, prices, m) == Repeated(rows, units, moment, prices, n)
    decreases TotalSlack(rows, units, moment), OpenRows(rows)
  {
    var after := Materialize(rows, units, moment, prices);
    RunGoesNearer(rows, units, moment, prices, last);
    if after == rows {
      n := 0;
      forall m: nat
        ensures Repeated(rows, units, moment, prices, m) == rows
      {
        FixpointRepeats(rows, units, moment, prices, m);
      }
    } else {
      MaterializeStaysTidyAll(rows, units, moment, prices, last);
      var k := RunsReachFixpoint(after, units, moment, prices, moment);
      n := k + 1;
    }
  }

  lemma {:induction false} FixpointRepeats(rows: seq<Charge>, units: seq<Unit>, moment: int, prices: Prices, m: nat)
    requires Materialize(rows, units, moment, prices) == rows
    ensures Repeated(rows, units, moment, prices, m) == rows
  {
    if m > 0 {
      FixpointRepeats(rows, units, moment, prices, m - 1);
    }
  }

  // ----- when one run suffices -----

  /** The owner's recorded period covers the moment. */
  ghost predicate CoveredNow(rows: seq<Charge>, unit: Unit, moment: int) {
    exists i :: 0 <= i < |rows| && rows[i].owner == unit.config.owner && Covers(rows[i], moment)
  }

  /** A covered unit opens nothing, whatever its snapshot says. */
  lemma CoveredIsNotPending(rows: seq<Charge>, unit: Unit, moment: int, last: int)
    requires TidyAll(rows, last) && last <= moment && CoveredNow(rows, unit, moment)
    ensures !Pending(rows, unit, moment)
  {
    assert Tidy(rows, unit.config.owner, last);
    LatestIsNewest(rows, unit.config.owner, last, moment);
    var i :| 0 <= i < |rows| && rows[i].owner == unit.config.owner && Covers(rows[i], moment);
  }

  /** The unit's turn changes nothing. */
  predicate Done(rows: seq<Charge>, unit: Unit, moment: int, prices: Prices) {
    var period := ResolveUnitPeriod(rows, unit, moment);
    period.Some? && period.value.0 <= Cutoff(unit, moment) ==>
      var i := FindRow(rows, unit.config.owner, period.value.0);
      i >= 0 && (rows[i].finalizedAt.Some? || !Settled(rows[i], unit.config.currency, prices.fx).2)
  }

  lemma DoneChangesNothing(rows: seq<Charge>, unit: Unit, moment: int, prices: Prices)
    requires Done(rows, unit, moment, prices)
    ensures PostUnit(rows, unit, moment, prices) == rows
  {
  }

  /** Starts identify an owner's rows. */
  lemma FoundRowIsTheRow(rows: seq<Charge>, owner: Owner, start: int, last: int, i: int)
    requires TidyAll(rows, last) && 0 <= i < |rows| && rows[i].owner == owner && rows[i].start == start
    ensures FindRow(rows, owner, start) == i
  {
    assert Tidy(rows, owner, last);
    var j := FindRow(rows, owner, start);
    assert rows[i].start < rows[i].end && rows[j].start < rows[j].end;
  }

  lemma DoneIsKept(before: seq<Charge>, after: seq<Charge>, unit: Unit, moment: int, prices: Prices, last: int)
    requires TidyAll(before, last) && TidyAll(after, last) && |before| == |after| && Extends(before, after)
    requires Done(before, unit, moment, prices)
    ensures Done(after, unit, moment, prices)
  {
    FreezingMovesNothing(before, after, unit, moment);
    var period := ResolveUnitPeriod(before, unit, moment);
    if period.Some? && period.value.0 <= Cutoff(unit, moment) {
      var i := FindRow(before, unit.config.owner, period.value.0);
      assert SameFact(before[i], after[i]);
      FoundRowIsTheRow(after, unit.config.owner, period.value.0, last, i);
    }
  }

  /** A turn that adds no row leaves its unit done. */
  lemma TurnIsDone(rows: seq<Charge>, unit: Unit, moment: int, prices: Prices, last: int)
    requires TidyAll(rows, last) && last <= moment && !Pending(rows, unit, moment)
    ensures var after := PostUnit(rows, unit, moment, prices); |after| == |rows| && Done(after, unit, moment, prices)
  {
    var after := PostUnit(rows, unit, moment, prices);
    UnitExtends(rows, unit, moment, prices);
    FreezingMovesNothing(rows, after, unit, moment);
    var period := ResolveUnitPeriod(rows, unit, moment);
    if period.Some? && period.value.0 <= Cutoff(unit, moment) {
      var i := FindRow(rows, unit.config.owner, period.value.0);
      assert Tidy(rows, unit.config.owner, last);
      UnitStaysTidyAll(rows, unit, moment, prices, last);
      assert SameFact(rows[i], after[i]);
      FoundRowIsTheRow(after, unit.config.owner, period.value.0, moment, i);
    }
  }

  lemma UnitStaysTidyAll(rows: seq<Charge>, unit: Unit, moment: int, prices: Prices, last: int)
    requires TidyAll(rows, last) && last <= moment
    ensures TidyAll(PostUnit(rows, unit, moment, prices), moment)
  {
    forall owner
      ensures Tidy(PostUnit(rows, unit, moment, prices), owner, moment)
    {
      assert Tidy(rows, owner, last);
      UnitStaysTidy(rows, unit, moment, prices, owner, last);
    }
  }

  ghost predicate NonePending(rows: seq<Charge>, units: seq<Unit>, moment: int) {
    forall k :: 0 <= k < |units| ==> !Pending(rows, units[k], moment)
  }

  lemma PendingKept(before: seq<Charge>, after: seq<Charge>, units: seq<Unit>, moment: int)
    requires |before| == |after| && Extends(before, after) && NonePending(before, units, moment)
    ensures NonePending(after, units, moment)
  {
    forall k | 0 <= k < |units|
      ensures !Pending(after, units[k], moment)
    {
      SlackKept(before, after, units[k], moment);
      assert Slack(before, units[k], moment) == 0;
    }
  }

  lemma {:induction false} TurnsAreDone(rows: seq<Charge>, units: seq<Unit>, n: nat, moment: int, prices: Prices,
          last: int)
    requires TidyAll(rows, last) && last <= moment && NonePending(rows, units, moment) && n <= |units|
    ensures var after := PostUnits(rows, units[..n], moment, prices);
            |after| == |rows| && Extends(rows, after) && TidyAll(after, moment)
            && forall k :: 0 <= k < n ==> Done(after, units[k], moment, prices)
  {
    var after := PostUnits(rows, units[..n], moment, prices);
    if n > 0 {
      assert units[..n][..n - 1] == units[..n - 1];
      var mid := PostUnits(rows, units[..n - 1], moment, prices);
      TurnsAreDone(rows, units, n - 1, moment, prices, last);
      PendingKept(rows, mid, units, moment);
      TurnIsDone(mid, units[n - 1], moment, prices, moment);
      UnitExtends(mid, units[n - 1], moment, prices);
      UnitStaysTidyAll(mid, units[n - 1], moment, prices, moment);
      ExtendsIsTransitive(rows, mid, after);
      forall k | 0 <= k < n - 1
        ensures Done(after, units[k], moment, prices)
      {
        DoneIsKept(mid, after, units[k], moment, prices, moment);
      }
    } else {
      forall owner
        ensures Tidy(rows, owner, moment)
      {
        assert Tidy(rows, owner, last);
      }
    }
  }

  lemma {:induction false} AllDoneChangesNothing(rows: seq<Charge>, units: seq<Unit>, n: nat, moment: int,
          prices: Prices)
    requires n <= |units| && forall k :: 0 <= k < n ==> Done(rows, units[k], moment, prices)
    ensures PostUnits(rows, units[..n], moment, prices) == rows
  {
    if n > 0 {
      assert units[..n][..n - 1] == units[..n - 1];
      AllDoneChangesNothing(rows, units, n - 1, moment, prices);
      DoneChangesNothing(rows, units[n - 1], moment, prices);
    }
  }

  /** With none of its units about to open a period, a materialization is idempotent: a second run at
      the same moment with unchanged inputs changes nothing. */
  lemma OneRunSuffices(rows: seq<Charge>, units: seq<Unit>, moment: int, prices: Prices, last: int)
    requires TidyAll(rows, last) && last <= moment && NonePending(rows, units, moment)
    ensures var once := Materialize(rows, units, moment, prices); Materialize(once, units, moment, prices) == once
  {
    assert units[..|units|] == units;
    TurnsAreDone(rows, units, |units|, moment, prices, last);
    var posted, once := PostUnits(rows, units, moment, prices), Materialize(rows, units, moment, prices);
    var starts := ResolvedStarts(rows, units, moment, prices);
    FreezeExtends(posted, starts, moment);
    MaterializeStaysTidyAll(rows, units, moment, prices, last);
    forall k | 0 <= k < |units|
      ensures Done(once, units[k], moment, prices)
    {
      DoneIsKept(posted, once, units[k], moment, prices, moment);
    }
    AllDoneChangesNothing(once, units, |units|, moment, prices);
    ExtendsIsTransitive(rows, posted, once);
    StartsKept(rows, once, units, |units|, moment, prices, last);
    assert forall i :: 0 <= i < |once| ==> !Freezable(once[i], starts);
    assert Freeze(once, starts, moment) == once;
  }

  /** The second run resolves the starts of the first. */
  lemma {:induction false} StartsKept(rows: seq<Charge>, once: seq<Charge>, units: seq<Unit>, n: nat, moment: int,
          prices: Prices, last: int)
    requires TidyAll(rows, last) && last <= moment && NonePending(rows, units, moment) && n <= |units|
    requires |rows| == |once| && Extends(rows, once)
    requires forall k :: 0 <= k < |units| ==> Done(once, units[k], moment, prices)
    ensures ResolvedStarts(once, units[..n], moment, prices) == ResolvedStarts(rows, units[..n], moment, prices)
  {
    if n > 0 {
      assert units[..n][..n - 1] == units[..n - 1];
      StartsKept(rows, once, units, n - 1, moment, prices, last);
      TurnsAreDone(rows, units, n - 1, moment, prices, last);
      AllDoneChangesNothing(once, units, n - 1, moment, prices);
      FreezingMovesNothing(rows, PostUnits(rows, units[..n - 1], moment, prices), units[n - 1], moment);
      FreezingMovesNothing(rows, once, units[n - 1], moment);
    }
  }

  /** Once recorded periods cover the moment for every unit, one run leaves nothing to change. */
  lemma CoveredRunSuffices(rows: seq<Charge>, units: seq<Unit>, moment: int, prices: Prices, last: int)
    requires TidyAll(rows, last) && last <= moment
    requires forall k :: 0 <= k < |units| ==> CoveredNow(rows, units[k], moment)
    ensures var once := Materialize(rows, units, moment, prices);
            |once| == |rows| && Materialize(once, units, moment, prices) == once
  {
    forall k | 0 <= k < |units|
      ensures !Pending(rows, units[k], moment)
    {
      CoveredIsNotPending(rows, units[k], moment, last);
    }
    OneRunSuffices(rows, units, moment, prices, last);
    assert units[..|units|] == units;
    TurnsAreDone(rows, units, |units|, moment, prices, last);
  }
}
