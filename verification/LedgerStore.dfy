/** The materializer as it runs: a table of charges that it updates row by row. */
module LedgerStore {
  import opened Prelude
  import opened BillingUnits
  import opened FxRates
  import opened Ledger
  import opened LedgerLaws
  import opened LedgerSettling

  /** Grows with every row added and every row frozen. */
  function Weight(rows: seq<Charge>): int {
    2 * |rows| - OpenRows(rows)
  }

  lemma {:induction false} TailIsHeavy(rows: seq<Charge>, n: nat)
    requires n <= |rows|
    ensures OpenRows(rows) <= OpenRows(rows[..n]) + |rows| - n
    decreases |rows|
  {
    if n < |rows| {
      TailIsHeavy(rows[..|rows| - 1], n);
      assert rows[..|rows| - 1][..n] == rows[..n];
    } else {
      assert rows[..n] == rows;
    }
  }

  /** Any extension that is not the same ledger weighs more. */
  lemma ExtensionsWeighMore(before: seq<Charge>, after: seq<Charge>)
    requires Extends(before, after)
    ensures Weight(before) <= Weight(after) && (after != before ==> Weight(before) < Weight(after))
  {
    var front := after[..|before|];
    assert forall i :: 0 <= i < |before| ==> SameFact(before[i], front[i]);
    FreezingReducesOpenRows(before, front);
    TailIsHeavy(after, |before|);
    if |after| == |before| {
      assert front == after;
    }
  }

  /** Whether anything changed is known from the steps: what one step changed no later step undoes. */
  lemma ChangesAreNeverUndone(before: seq<Charge>, mid: seq<Charge>, after: seq<Charge>)
    requires Extends(before, mid) && Extends(mid, after)
    ensures Extends(before, after) && (after == before <==> mid == before && after == mid)
  {
    ExtendsIsTransitive(before, mid, after);
    ExtensionsWeighMore(before, mid);
    ExtensionsWeighMore(mid, after);
  }

  /** `period_starts` and the rows after a further unit. */
  lemma NextUnit(rows: seq<Charge>, units: seq<Unit>, k: nat, moment: int, prices: Prices)
    requires k < |units|
    ensures var mid := PostUnits(rows, units[..k], moment, prices);
            var period := ResolveUnitPeriod(mid, units[k], moment);
            PostUnits(rows, units[..k + 1], moment, prices) == PostUnit(mid, units[k], moment, prices)
            && ResolvedStarts(rows, units[..k + 1], moment, prices)
               == ResolvedStarts(rows, units[..k], moment, prices) + if period.Some? then {period.value.0} else {}
  {
    assert units[..k + 1][..k] == units[..k];
  }

  /** The first `i` rows have been treated, the others not yet. */
  ghost predicate FrozenUpTo(before: seq<Charge>, rows: seq<Charge>, starts: set<int>, now: int, i: nat) {
    |rows| == |before| && i <= |rows|
    && forall k :: 0 <= k < |rows| ==>
         rows[k] == if k < i && Freezable(before[k], starts) then before[k].(finalizedAt := Some(now)) else before[k]
  }

  class Store {
    var rows: seq<Charge>
    var rates: seq<RateEvent>
    var fx: seq<FxRow>

    ghost function PricesNow(): Prices
      reads this
    {
      Prices(rates, fx)
    }

    /** `_materialize_period_stream` for one resolved period: insert, leave or freeze its row. */
    method MaterializePeriodStream(unit: Unit, start: int, end: int, moment: int) returns (changed: nat)
      modifies this`rows
      ensures rows == PostResolved(old(rows), unit, start, end, moment, PricesNow())
      ensures Extends(old(rows), rows) && (changed == 0 <==> rows == old(rows))
    {
      changed := 0;
      if start > Cutoff(unit, moment) {
        return;
      }
      var i := FindRow(rows, unit.config.owner, start);
      if i >= 0 && rows[i].finalizedAt.Some? {
        return;
      }
      if i >= 0 {
        var (normalized, fxDay, final) := Settled(rows[i], unit.config.currency, fx);
        if final {
          rows := rows[i := rows[i].(normalized := normalized, fxDay := fxDay, finalizedAt := Some(moment))];
          changed := changed + 1;
        }
      } else {
        var price := RateAt(rates, unit.config.owner.contract, start);
        var (normalized, fxDay, final) := NormalizedCharge(fx, price, unit.config.currency, Calendar.DayOf(start));
        rows := rows + [Charge(unit.config.owner, unit.config.account, start, end, price, unit.config.currency,
                               normalized, fxDay, if final then Some(moment) else None)];
        changed := changed + 1;
      }
    }

    /** `_finalize_period_stream` */
    method FinalizePeriodStream(starts: set<int>, now: int) returns (changed: nat)
      modifies this`rows
      ensures rows == Freeze(old(rows), starts, now)
      ensures Extends(old(rows), rows) && (changed == 0 <==> rows == old(rows))
    {
      changed := 0;
      ghost var before := rows;
      for i := 0 to |rows|
        invariant FrozenUpTo(before, rows, starts, now, i)
        invariant changed == 0 <==> rows == before
      {
        if Freezable(rows[i], starts) {
          assert rows[i].finalizedAt.None?;
          rows := rows[i := rows[i].(finalizedAt := Some(now))];
          assert rows[i] != before[i];
          changed := changed + 1;
        }
      }
      FreezeExtends(before, starts, now);
    }

    /** `materialize_period_charges_conn`: the ledger becomes the specified one, no recorded fact is lost,
        every owner stays tidy, and the returned count is zero exactly when nothing changed. */
    method MaterializePeriodCharges(units: seq<Unit>, moment: int) returns (changed: nat)
      modifies this`rows
      ensures rows == Materialize(old(rows), units, moment, PricesNow())
      ensures Extends(old(rows), rows) && (changed == 0 <==> rows == old(rows))
      ensures forall last :: TidyAll(old(rows), last) && last <= moment ==> TidyAll(rows, moment)
    {
      changed := 0;
      var starts: set<int> := {};
      ghost var before, prices := rows, PricesNow();
      for k := 0 to |units|
        invariant rates == old(rates) && fx == old(fx)
        invariant rows == PostUnits(before, units[..k], moment, prices)
        invariant starts == ResolvedStarts(before, units[..k], moment, prices)
        invariant Extends(before, rows) && (changed == 0 <==> rows == before)
      {
        NextUnit(before, units, k, moment, prices);
        var period := ResolveUnitPeriod(rows, units[k], moment);
        if period.Some? {
          starts := starts + {period.value.0};
          ghost var mid := rows;
          var more := MaterializePeriodStream(units[k], period.value.0, period.value.1, moment);
          ChangesAreNeverUndone(before, mid, rows);
          changed := changed + more;
        }
      }
      assert units[..|units|] == units;
      ghost var posted := rows;
      var frozen := FinalizePeriodStream(starts, moment);
      ChangesAreNeverUndone(before, posted, rows);
      changed := changed + frozen;
      forall last | TidyAll(before, last) && last <= moment
        ensures TidyAll(rows, moment)
      {
        MaterializeStaysTidyAll(before, units, moment, prices, last);
      }
    }
  }
}
