/** What one materialization does to the ledger, for any units, snapshots, prices and moment. */
module LedgerLaws {
  import opened Prelude
  import opened Calendar
  import opened BillingUnits
  import opened FxRates
  import opened Ledger

  // ----- facts never change -----

  /** `after` records the same charge as `before`: a row changes at most once, when it is frozen, and
      then keeps its unit, period and price, and its amount if that was known. */
  predicate SameFact(before: Charge, after: Charge) {
    after == before
    || (&& before.finalizedAt.None? && after.finalizedAt.Some? && after.normalized.Some?
        && after.owner == before.owner && after.account == before.account
        && after.start == before.start && after.end == before.end
        && after.price == before.price && after.currency == before.currency
        && (before.normalized.Some? ==> after.normalized == before.normalized && after.fxDay == before.fxDay))
  }

  ghost predicate Extends(before: seq<Charge>, after: seq<Charge>) {
    |before| <= |after| && forall i :: 0 <= i < |before| ==> SameFact(before[i], after[i])
  }

  lemma ExtendsIsTransitive(a: seq<Charge>, b: seq<Charge>, c: seq<Charge>)
    requires Extends(a, b) && Extends(b, c)
    ensures Extends(a, c)
  {
    forall i | 0 <= i < |a|
      ensures SameFact(a[i], c[i])
    {
      assert SameFact(a[i], b[i]) && SameFact(b[i], c[i]);
    }
  }

  lemma UnitExtends(rows: seq<Charge>, unit: Unit, moment: int, prices: Prices)
    ensures Extends(rows, PostUnit(rows, unit, moment, prices))
  {
  }

  lemma {:induction false} UnitsExtend(rows: seq<Charge>, units: seq<Unit>, moment: int, prices: Prices)
    ensures Extends(rows, PostUnits(rows, units, moment, prices))
  {
    if units != [] {
      var mid := PostUnits(rows, units[..|units| - 1], moment, prices);
      UnitsExtend(rows, units[..|units| - 1], moment, prices);
      UnitExtends(mid, units[|units| - 1], moment, prices);
      ExtendsIsTransitive(rows, mid, PostUnits(rows, units, moment, prices));
    }
  }

  lemma FreezeExtends(rows: seq<Charge>, starts: set<int>, now: int)
    ensures Extends(rows, Freeze(rows, starts, now))
  {
  }

  /** No materialization alters a recorded period, price or known amount, or anything of a frozen row. */
  lemma MaterializeKeepsFacts(rows: seq<Charge>, units: seq<Unit>, moment: int, prices: Prices)
    ensures Extends(rows, Materialize(rows, units, moment, prices))
  {
    var posted := PostUnits(rows, units, moment, prices);
    UnitsExtend(rows, units, moment, prices);
    FreezeExtends(posted, ResolvedStarts(rows, units, moment, prices), moment);
    ExtendsIsTransitive(rows, posted, Materialize(rows, units, moment, prices));
  }

  // ----- recorded periods are disjoint -----

  /** The owner's periods are nonempty, begin no later than `last`, and each begins at or after the
      end of every one recorded before it. */
  ghost predicate Tidy(rows: seq<Charge>, owner: Owner, last: int) {
    (forall i :: 0 <= i < |rows| && rows[i].owner == owner ==> rows[i].start < rows[i].end && rows[i].start <= last)
    && forall i, j :: 0 <= i < j < |rows| && rows[i].owner == owner && rows[j].owner == owner ==>
       rows[i].end <= rows[j].start
  }

  predicate Covers(row: Charge, t: int) { row.start <= t < row.end }

  ghost predicate Disjoint(rows: seq<Charge>, owner: Owner) {
    forall i, j, t :: 0 <= i < j < |rows| && rows[i].owner == owner && rows[j].owner == owner && Covers(rows[i], t) ==>
      !Covers(rows[j], t)
  }

  /** At any time a tidy ledger holds at most one period of the owner. */
  lemma TidyIsDisjoint(rows: seq<Charge>, owner: Owner, last: int)
    requires Tidy(rows, owner, last)
    ensures Disjoint(rows, owner)
  {
  }

  /** No row of the owner starts or ends later than this one. */
  ghost predicate Newest(rows: seq<Charge>, owner: Owner, row: Charge) {
    && row in rows && row.owner == owner
    && forall i :: 0 <= i < |rows| && rows[i].owner == owner ==> rows[i].start <= row.start && rows[i].end <= row.end
  }

  /** In a tidy ledger the row a resolution looks at is the owner's newest. */
  lemma {:induction false} LatestIsNewest(rows: seq<Charge>, owner: Owner, last: int, moment: int)
    requires Tidy(rows, owner, last) && last <= moment
    ensures match Latest(rows, owner, moment)
            case None => forall i :: 0 <= i < |rows| ==> rows[i].owner != owner
            case Some(row) => Newest(rows, owner, row)
  {
    if rows != [] {
      var n := |rows| - 1;
      LatestIsNewest(rows[..n], owner, last, moment);
      var before := Latest(rows[..n], owner, moment);
      if rows[n].owner == owner {
        NewestGrows(rows, owner, last);
        if before.Some? {
          assert before.value in rows;
          NewestIsLast(rows, owner, last, before.value);
        }
      } else if before.Some? {
        NewestStays(rows, owner, before.value);
      }
    }
  }

  lemma NewestIsLast(rows: seq<Charge>, owner: Owner, last: int, row: Charge)
    requires Tidy(rows, owner, last) && rows != [] && rows[|rows| - 1].owner == owner
    requires row in rows[..|rows| - 1] && row.owner == owner
    ensures row.start <= rows[|rows| - 1].start
  {
    var i :| 0 <= i < |rows| - 1 && rows[i] == row;
  }

  lemma NewestStays(rows: seq<Charge>, owner: Owner, row: Charge)
    requires rows != [] && rows[|rows| - 1].owner != owner && Newest(rows[..|rows| - 1], owner, row)
    ensures Newest(rows, owner, row)
  {
    var init := rows[..|rows| - 1];
    forall i | 0 <= i < |rows| && rows[i].owner == owner ensures rows[i].start <= row.start && rows[i].end <= row.end {
      assert init[i] == rows[i];
    }
  }

  /** The last row of an owner is its newest. */
  lemma NewestGrows(rows: seq<Charge>, owner: Owner, last: int)
    requires Tidy(rows, owner, last) && rows != [] && rows[|rows| - 1].owner == owner
    ensures Newest(rows, owner, rows[|rows| - 1])
  {
    forall i | 0 <= i < |rows| && rows[i].owner == owner
      ensures rows[i].start <= rows[|rows| - 1].start && rows[i].end <= rows[|rows| - 1].end
    {
    }
  }

  /** A period that rolls forward starts at or after the previous end and the resume stamp, and is
      nonempty whenever it may be written. */
  lemma RollForwardIsSound(unit: Unit, previousEnd: Option<int>, moment: int)
    ensures var (start, end) := RollForward(unit, previousEnd, moment);
            && (previousEnd.Some? ==> previousEnd.value <= start)
            && (unit.resumedAt.Some? ==> unit.resumedAt.value <= start)
            && (start <= moment ==> start < end)
  {
    PeriodContainsMoment(moment, unit.AnchorDay());
    var (start, end) := RollForward(unit, previousEnd, moment);
    PeriodContainsMoment(start, unit.AnchorDay());
  }

  // ----- when a unit's period starts and ends -----

  /** No new period opens while the upstream's refusal is recent, nor in the first quarter of an hour of a
      tracked key that was never polled. */
  ghost predicate Held(unit: Unit, moment: int) {
    || Suspended(unit, moment)
    || (unit.config.usageTracked && !unit.usagePresent
        && unit.config.createdAt.Some? && moment < unit.config.createdAt.value + 900)
  }

  /** Without a previous end the period starts where the upstream's does, and else with the anchor period. */
  ghost predicate IsBase(unit: Unit, previous: Option<int>, moment: int, base: int) {
    if previous.Some? then base == previous.value
    else if Observes(unit, moment) then base == unit.observed.value.start
    else base == PeriodAt(moment, DayOfMonth(unit.config.validFrom)).start
  }

  /** The start is the latest of the base, the resume stamp, and for an observed period the first day. */
  ghost predicate StartsAt(unit: Unit, previous: Option<int>, moment: int, start: int) {
    exists base :: IsBase(unit, previous, moment, base) && StartsFrom(unit, moment, base, start)
  }

  ghost predicate StartsFrom(unit: Unit, moment: int, base: int, start: int) {
    && base <= start
    && (unit.resumedAt.Some? ==> unit.resumedAt.value <= start)
    && (Observes(unit, moment) ==> unit.config.validFrom * 86_400 <= start)
    && (start == base || unit.resumedAt == Some(start)
        || (Observes(unit, moment) && start == unit.config.validFrom * 86_400))
  }

  /** An observed period ends where the upstream's does, when that is past the start, and else with the
      start's anchor period; any other period ends with the moment's anchor period. */
  ghost predicate EndsAt(unit: Unit, moment: int, start: int, end: int) {
    if !Observes(unit, moment) then end == PeriodAt(moment, DayOfMonth(unit.config.validFrom)).end
    else if start < unit.observed.value.end then end == unit.observed.value.end
    else end == PeriodAt(start, DayOfMonth(unit.config.validFrom)).end
  }

  /** What rolls forward is the period that starts and ends so. */
  lemma RollForwardIsExact(unit: Unit, previous: Option<int>, moment: int, start: int, end: int)
    ensures RollForward(unit, previous, moment) == (start, end) <==>
            StartsAt(unit, previous, moment, start) && EndsAt(unit, moment, start, end)
  {
    VerdictsAreRecent(unit, moment);
    var base := if previous.Some? then previous.value
      else if Observes(unit, moment) then unit.observed.value.start
      else PeriodAt(moment, DayOfMonth(unit.config.validFrom)).start;
    assert IsBase(unit, previous, moment, base);
    assert StartsFrom(unit, moment, base, RollForward(unit, previous, moment).0);
  }

  lemma HeldIsHeld(unit: Unit, moment: int)
    ensures Held(unit, moment) <==> unit.LapseVerdictFresh(moment) || AwaitsObservation(unit, moment)
  {
    VerdictsAreRecent(unit, moment);
  }

  // ----- the price and the amount of a new charge -----

  predicate Effective(rates: seq<RateEvent>, contract: int, start: int, i: int) {
    0 <= i < |rates| && rates[i].contract == contract && rates[i].effectiveAt <= start
  }

  /** Event `i` is the contract's last to take effect up to `start`; of several of one instant, the newest. */
  ghost predicate InForce(rates: seq<RateEvent>, contract: int, start: int, i: int) {
    && Effective(rates, contract, start, i)
    && forall j :: Effective(rates, contract, start, j) && j != i ==>
         rates[j].effectiveAt < rates[i].effectiveAt || (rates[j].effectiveAt == rates[i].effectiveAt && j < i)
  }

  /** The price of the event in force, or nothing before the first one. */
  ghost predicate PricedBy(rates: seq<RateEvent>, contract: int, start: int, price: real) {
    || (price == 0.0 && forall i :: !Effective(rates, contract, start, i))
    || exists i :: InForce(rates, contract, start, i) && price == rates[i].price
  }

  lemma {:induction false} EffectiveRateIsInForce(rates: seq<RateEvent>, contract: int, start: int) returns (i: int)
    ensures match EffectiveRate(rates, contract, start)
            case None => forall j :: !Effective(rates, contract, start, j)
            case Some(event) => InForce(rates, contract, start, i) && rates[i] == event
  {
    i := 0;
    if rates != [] {
      var n := |rates| - 1;
      i := EffectiveRateIsInForce(rates[..n], contract, start);
      assert forall j ::
        Effective(rates, contract, start, j) <==>
        Effective(rates[..n], contract, start, j) || (j == n && Effective(rates, contract, start, n));
      if EffectiveRate(rates, contract, start) == Some(rates[n]) && Effective(rates, contract, start, n) {
        var before := EffectiveRate(rates[..n], contract, start);
        if before.None? || before.value.effectiveAt <= rates[n].effectiveAt {
          i := n;
        }
      }
    }
  }

  lemma RateIsInForce(rates: seq<RateEvent>, contract: int, start: int)
    ensures PricedBy(rates, contract, start, RateAt(rates, contract, start))
  {
    var i := EffectiveRateIsInForce(rates, contract, start);
  }

  /** The stored rate nearest to a day: of the day itself or the last one before it, else the first one. */
  ghost predicate NearestRate(fx: seq<FxRow>, currency: string, day: int, source: FxRow) {
    && source in fx && source.base == currency
    && (source.day <= day ==> forall r :: r in fx && r.base == currency && r.day <= day ==> r.day <= source.day)
    && (source.day > day ==> forall r :: r in fx && r.base == currency ==> source.day <= r.day)
  }

  predicate ConvertedAt(price: real, source: FxRow, normalized: Option<real>, fxDay: Option<int>) {
    normalized == Some(price * source.rate) && fxDay == Some(source.day)
  }

  /** A charge in CNY amounts to its price, another to its price at the rate nearest to its first day, and
      to nothing known while its currency has no rate. */
  ghost predicate AmountedBy(fx: seq<FxRow>, row: Charge, normalized: Option<real>, fxDay: Option<int>) {
    if row.currency == "CNY" then normalized == Some(row.price) && fxDay == None
    else if forall r :: r in fx ==> r.base != row.currency then normalized == None && fxDay == None
    else
      exists source :: NearestRate(fx, row.currency, DayOf(row.start), source)
                       && ConvertedAt(row.price, source, normalized, fxDay)
  }

  lemma SameProduct(price: real, a: real, b: real)
    requires a == b
    ensures price * a == price * b
  {
  }

  lemma AmountIsNearest(fx: seq<FxRow>, row: Charge)
    ensures var (normalized, fxDay, final) := NormalizedCharge(fx, row.price, row.currency, DayOf(row.start));
            AmountedBy(fx, row, normalized, fxDay) && (final <==> normalized.Some?)
  {
    if row.currency != "CNY" {
      var resolution := Resolve(fx, row.currency, DayOf(row.start));
      ResolutionIsNearest(fx, row.currency, DayOf(row.start));
      if resolution.source.Some? {
        var source := FxRow(row.currency, resolution.source.value, resolution.rate);
        assert NearestRate(fx, row.currency, DayOf(row.start), source);
        SameProduct(row.price, source.rate, resolution.rate);
        var (normalized, fxDay, _) := NormalizedCharge(fx, row.price, row.currency, DayOf(row.start));
        assert normalized.value == row.price * source.rate;
        assert ConvertedAt(row.price, source, normalized, fxDay);
      }
    }
  }

  /** What has to hold of a unit for it to open the period of `row` at `moment`. */
  ghost predicate Opens(unit: Unit, moment: int, prices: Prices, row: Charge) {
    && unit.config.owner == row.owner && unit.config.account == row.account && unit.config.currency == row.currency
    && unit.config.validFrom * 86_400 <= moment && !Held(unit, moment)
    && row.start <= moment && (unit.config.endsAt.Some? ==> row.start <= unit.config.endsAt.value)
    && row.start < row.end && EndsAt(unit, moment, row.start, row.end)
    && (unit.resumedAt.Some? ==> unit.resumedAt.value <= row.start)
    && PricedBy(prices.rates, row.owner.contract, row.start, row.price)
    && (row.finalizedAt.Some? <==> row.normalized.Some?)
    && (row.finalizedAt.Some? ==> row.finalizedAt.value == moment)
    && (row.currency != "" ==> AmountedBy(prices.fx, row, row.normalized, row.fxDay))
  }

  /** A unit's turn adds at most one row: a period it opens, past every period of its owner. */
  lemma UnitOpensAtMostOne(rows: seq<Charge>, unit: Unit, moment: int, prices: Prices, last: int)
    requires Tidy(rows, unit.config.owner, last) && last <= moment
    ensures var after := PostUnit(rows, unit, moment, prices);
            |rows| <= |after| <= |rows| + 1
            && (|after| == |rows| + 1 ==>
                  after[..|rows|] == rows && Opens(unit, moment, prices, after[|rows|])
                  && forall i :: 0 <= i < |rows| && rows[i].owner == unit.config.owner ==>
                     rows[i].end <= after[|rows|].start)
  {
    var owner := unit.config.owner;
    LatestIsNewest(rows, owner, last, moment);
    var row := Latest(rows, owner, moment);
    if row.Some? && moment < row.value.end {
      assert FindRow(rows, owner, row.value.start) >= 0;
    } else {
      var previous := if row.Some? then Some(row.value.end) else None;
      var (start, end) := RollForward(unit, previous, moment);
      RollForwardIsSound(unit, previous, moment);
      RollForwardIsExact(unit, previous, moment, start, end);
      HeldIsHeld(unit, moment);
      NewRowIsPriced(unit, moment, prices);
    }
  }

  lemma NewRowIsPriced(unit: Unit, moment: int, prices: Prices)
    ensures forall start, end :: var row := NewRow(unit, start, end, moment, prices);
                                 && PricedBy(prices.rates, row.owner.contract, start, row.price)
                                 && AmountedBy(prices.fx, row, row.normalized, row.fxDay)
                                 && (row.finalizedAt == if row.normalized.Some? then Some(moment) else None)
  {
    forall start, end
      ensures var row := NewRow(unit, start, end, moment, prices);
              && PricedBy(prices.rates, row.owner.contract, start, row.price)
              && AmountedBy(prices.fx, row, row.normalized, row.fxDay)
              && (row.finalizedAt == if row.normalized.Some? then Some(moment) else None)
    {
      RateIsInForce(prices.rates, unit.config.owner.contract, start);
      AmountIsNearest(prices.fx, NewRow(unit, start, end, moment, prices));
    }
  }

  lemma UnitStaysTidy(rows: seq<Charge>, unit: Unit, moment: int, prices: Prices, owner: Owner, last: int)
    requires Tidy(rows, owner, last) && last <= moment
    ensures Tidy(PostUnit(rows, unit, moment, prices), owner, moment)
  {
    var after := PostUnit(rows, unit, moment, prices);
    UnitExtends(rows, unit, moment, prices);
    assert forall i :: 0 <= i < |rows| ==> SameFact(rows[i], after[i]);
    if owner == unit.config.owner {
      UnitOpensAtMostOne(rows, unit, moment, prices, last);
    } else {
      assert |after| > |rows| ==> |after| == |rows| + 1 && after[|rows|].owner == unit.config.owner;
    }
  }

  lemma {:induction false} UnitsStayTidy(rows: seq<Charge>, units: seq<Unit>, moment: int, prices: Prices, owner: Owner,
          last: int)
    requires Tidy(rows, owner, last) && last <= moment
    ensures Tidy(PostUnits(rows, units, moment, prices), owner, moment)
  {
    if units != [] {
      UnitsStayTidy(rows, units[..|units| - 1], moment, prices, owner, last);
      UnitStaysTidy(PostUnits(rows, units[..|units| - 1], moment, prices), units[|units| - 1], moment, prices, owner,
        moment);
    }
  }

  /** A materialization at a moment no earlier than the ledger's last keeps every owner tidy. */
  lemma MaterializeStaysTidy(rows: seq<Charge>, units: seq<Unit>, moment: int, prices: Prices, owner: Owner, last: int)
    requires Tidy(rows, owner, last) && last <= moment
    ensures Tidy(Materialize(rows, units, moment, prices), owner, moment)
  {
    UnitsStayTidy(rows, units, moment, prices, owner, last);
    var posted := PostUnits(rows, units, moment, prices);
    FreezeExtends(posted, ResolvedStarts(rows, units, moment, prices), moment);
  }

  // ----- what may open a period -----

  /** Some of the units opened this row. */
  ghost predicate OpenedBy(units: seq<Unit>, moment: int, prices: Prices, row: Charge) {
    exists u :: u in units && Opens(u, moment, prices, row)
  }

  ghost predicate TidyAll(rows: seq<Charge>, last: int) {
    forall owner :: Tidy(rows, owner, last)
  }

  lemma MaterializeStaysTidyAll(rows: seq<Charge>, units: seq<Unit>, moment: int, prices: Prices, last: int)
    requires TidyAll(rows, last) && last <= moment
    ensures TidyAll(PostUnits(rows, units, moment, prices), moment)
            && TidyAll(Materialize(rows, units, moment, prices), moment)
  {
    forall owner
      ensures Tidy(PostUnits(rows, units, moment, prices), owner, moment)
              && Tidy(Materialize(rows, units, moment, prices), owner, moment)
    {
      assert Tidy(rows, owner, last);
      UnitsStayTidy(rows, units, moment, prices, owner, last);
      MaterializeStaysTidy(rows, units, moment, prices, owner, last);
    }
  }

  lemma NewRowOfUnit(rows: seq<Charge>, units: seq<Unit>, unit: Unit, moment: int, prices: Prices, last: int, j: int)
    requires TidyAll(rows, last) && last <= moment && unit in units
    requires |rows| <= j < |PostUnit(rows, unit, moment, prices)|
    ensures OpenedBy(units, moment, prices, PostUnit(rows, unit, moment, prices)[j])
  {
    assert Tidy(rows, unit.config.owner, last);
    UnitOpensAtMostOne(rows, unit, moment, prices, last);
  }

  /** Rows one stream added are not written again by the next ones of the same run, unless they
      belong to the same owner and were left open. */
  lemma {:induction false} NewRowsAreOpened(rows: seq<Charge>, units: seq<Unit>, moment: int, prices: Prices,
          last: int, j: int)
    requires TidyAll(rows, last) && last <= moment
    requires |rows| <= j < |PostUnits(rows, units, moment, prices)|
    ensures OpenedBy(units, moment, prices, PostUnits(rows, units, moment, prices)[j])
  {
    var init, unit := units[..|units| - 1], units[|units| - 1];
    var mid, after := PostUnits(rows, init, moment, prices), PostUnits(rows, units, moment, prices);
    MaterializeStaysTidyAll(rows, init, moment, prices, last);
    if j < |mid| {
      NewRowsAreOpened(rows, init, moment, prices, last, j);
      var u :| u in init && Opens(u, moment, prices, mid[j]);
      assert u in units;
      OpenRowsStayOpen(mid, unit, moment, prices, u, j);
    } else {
      NewRowOfUnit(mid, units, unit, moment, prices, moment, j);
    }
  }

  /** A row that could not be priced when it was written cannot be priced by a later unit of the run. */
  lemma OpenRowsStayOpen(rows: seq<Charge>, unit: Unit, moment: int, prices: Prices, u: Unit, j: int)
    requires 0 <= j < |rows| && Opens(u, moment, prices, rows[j])
    ensures Opens(u, moment, prices, PostUnit(rows, unit, moment, prices)[j])
  {
    UnitExtends(rows, unit, moment, prices);
    var row, after := rows[j], PostUnit(rows, unit, moment, prices)[j];
    assert SameFact(row, after);
    AmountIsNearest(prices.fx, row);
  }

  /** Every row a materialization adds is opened by one of its units. */
  lemma MaterializeOpens(rows: seq<Charge>, units: seq<Unit>, moment: int, prices: Prices, last: int, j: int)
    requires TidyAll(rows, last) && last <= moment
    requires |rows| <= j < |Materialize(rows, units, moment, prices)|
    ensures OpenedBy(units, moment, prices, Materialize(rows, units, moment, prices)[j])
  {
    NewRowsAreOpened(rows, units, moment, prices, last, j);
    var row := PostUnits(rows, units, moment, prices)[j];
    var u :| u in units && Opens(u, moment, prices, row);
    assert !Freezable(row, ResolvedStarts(rows, units, moment, prices));
  }
}
