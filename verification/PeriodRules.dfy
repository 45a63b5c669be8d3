/** Exactly when a unit's turn opens a period, which one, and exactly when it settles an open charge. */
module PeriodRules {
  import opened Prelude
  import opened Calendar
  import opened BillingUnits
  import opened FxRates
  import opened Ledger
  import opened LedgerLaws

  /** The end of the owner's newest period, if it has one. */
  ghost predicate PreviousEnd(rows: seq<Charge>, owner: Owner, previous: Option<int>) {
    if previous.None? then forall i :: 0 <= i < |rows| ==> rows[i].owner != owner
    else exists i :: 0 <= i < |rows| && NewestAt(rows, owner, i) && rows[i].end == previous.value
  }

  ghost predicate NewestAt(rows: seq<Charge>, owner: Owner, i: int) {
    0 <= i < |rows| && Newest(rows, owner, rows[i])
  }

  /** The next period of the unit, whether or not it may open yet. */
  ghost predicate NextPeriod(rows: seq<Charge>, unit: Unit, moment: int, start: int, end: int) {
    exists previous ::
      && PreviousEnd(rows, unit.config.owner, previous)
      && StartsAt(unit, previous, moment, start) && EndsAt(unit, moment, start, end)
  }

  /** Its first day has come, nothing holds it back, and no recorded period of its owner reaches past the
      moment. */
  ghost predicate MayOpen(rows: seq<Charge>, unit: Unit, moment: int) {
    && unit.config.validFrom * 86_400 <= moment && !Held(unit, moment)
    && forall i :: 0 <= i < |rows| && rows[i].owner == unit.config.owner ==> rows[i].end <= moment
  }

  predicate InTime(unit: Unit, moment: int, start: int) {
    start <= moment && (unit.config.endsAt.Some? ==> start <= unit.config.endsAt.value)
  }

  lemma PreviousIsLatest(rows: seq<Charge>, owner: Owner, moment: int, last: int) returns (previous: Option<int>)
    requires Tidy(rows, owner, last) && last <= moment
    ensures PreviousEnd(rows, owner, previous)
    ensures forall other :: PreviousEnd(rows, owner, other) ==> other == previous
    ensures previous == match Latest(rows, owner, moment) case None => None case Some(row) => Some(row.end)
  {
    LatestIsNewest(rows, owner, last, moment);
    var latest := Latest(rows, owner, moment);
    previous := match latest case None => None case Some(row) => Some(row.end);
    if latest.Some? {
      var i :| 0 <= i < |rows| && rows[i] == latest.value;
      assert NewestAt(rows, owner, i);
      forall other | PreviousEnd(rows, owner, other)
        ensures other == previous
      {
        assert rows[i].owner == owner;
        var k :| 0 <= k < |rows| && NewestAt(rows, owner, k) && Some(rows[k].end) == other;
        assert rows[k].end <= rows[i].end && rows[i].end <= rows[k].end;
      }
    }
  }

  /** The next period is one period, and the period that the resolver rolls forward to. */
  lemma NextIsRolled(rows: seq<Charge>, unit: Unit, moment: int, last: int, start: int, end: int)
    requires Tidy(rows, unit.config.owner, last) && last <= moment
    ensures var latest := Latest(rows, unit.config.owner, moment);
            NextPeriod(rows, unit, moment, start, end) <==>
            RollForward(unit, if latest.Some? then Some(latest.value.end) else None, moment) == (start, end)
  {
    var previous := PreviousIsLatest(rows, unit.config.owner, moment, last);
    RollForwardIsExact(unit, previous, moment, start, end);
  }

  lemma OpenIsResolved(rows: seq<Charge>, unit: Unit, moment: int, last: int)
    requires Tidy(rows, unit.config.owner, last) && last <= moment
    ensures var latest := Latest(rows, unit.config.owner, moment);
            MayOpen(rows, unit, moment) <==>
            Midnight(unit.config.validFrom) <= moment && (latest.None? || latest.value.end <= moment)
            && !unit.LapseVerdictFresh(moment) && !AwaitsObservation(unit, moment)
  {
    HeldIsHeld(unit, moment);
    LatestIsNewest(rows, unit.config.owner, last, moment);
  }

  /** A unit's turn adds a row exactly when its next period may open and starts in time, and the row is
      that period. */
  lemma TurnOpensExactly(rows: seq<Charge>, unit: Unit, moment: int, prices: Prices, last: int, start: int, end: int)
    requires Tidy(rows, unit.config.owner, last) && last <= moment
    requires NextPeriod(rows, unit, moment, start, end)
    ensures var after := PostUnit(rows, unit, moment, prices);
            && (|after| > |rows| <==> MayOpen(rows, unit, moment) && InTime(unit, moment, start))
            && (|after| > |rows| ==>
                  after == rows + [after[|rows|]] && after[|rows|].start == start && after[|rows|].end == end)
  {
    var owner := unit.config.owner;
    var latest := Latest(rows, owner, moment);
    NextIsRolled(rows, unit, moment, last, start, end);
    OpenIsResolved(rows, unit, moment, last);
    LatestIsNewest(rows, owner, last, moment);
    if latest.Some? && moment < latest.value.end {
      assert FindRow(rows, owner, latest.value.start) >= 0;
    } else if MayOpen(rows, unit, moment) {
      RollForwardIsSound(unit, if latest.Some? then Some(latest.value.end) else None, moment);
      assert FindRow(rows, owner, start) < 0;
    }
  }

  /** There is always exactly one next period. */
  lemma NextPeriodExists(rows: seq<Charge>, unit: Unit, moment: int, last: int) returns (start: int, end: int)
    requires Tidy(rows, unit.config.owner, last) && last <= moment
    ensures NextPeriod(rows, unit, moment, start, end)
    ensures forall s, e :: NextPeriod(rows, unit, moment, s, e) ==> s == start && e == end
  {
    var latest := Latest(rows, unit.config.owner, moment);
    var period := RollForward(unit, if latest.Some? then Some(latest.value.end) else None, moment);
    start, end := period.0, period.1;
    forall s, e
      ensures NextPeriod(rows, unit, moment, s, e) <==> period == (s, e)
    {
      NextIsRolled(rows, unit, moment, last, s, e);
    }
  }

  // ----- settling an open charge -----

  /** The currency an open row is settled in. */
  ghost predicate SettlesIn(row: Charge, unit: Unit, currency: string) {
    currency == if row.currency != "" then row.currency else unit.config.currency
  }

  ghost predicate HasRate(fx: seq<FxRow>, currency: string) {
    currency == "CNY" || exists r :: r in fx && r.base == currency
  }

  /** `after` is the open row frozen at `moment`: a known amount stays, and an unknown one is that of its
      own price, currency and first day. */
  ghost predicate IsFrozen(row: Charge, unit: Unit, fx: seq<FxRow>, moment: int, after: Charge) {
    && after == row.(normalized := after.normalized, fxDay := after.fxDay, finalizedAt := Some(moment))
    && (if row.normalized.Some? then after.normalized == row.normalized && after.fxDay == row.fxDay
        else exists currency ::
          SettlesIn(row, unit, currency) && AmountedBy(fx, row.(currency := currency), after.normalized, after.fxDay))
    && after.normalized.Some?
  }

  lemma SettledIsFrozen(row: Charge, unit: Unit, fx: seq<FxRow>, moment: int)
    ensures var (normalized, fxDay, final) := Settled(row, unit.config.currency, fx);
            && (final ==>
                  IsFrozen(row, unit, fx, moment,
                           row.(normalized := normalized, fxDay := fxDay, finalizedAt := Some(moment))))
            && (final <==> row.normalized.Some? || exists c :: SettlesIn(row, unit, c) && HasRate(fx, c))
  {
    var currency := RowCurrency(row, unit.config.currency);
    assert SettlesIn(row, unit, currency);
    if row.normalized.None? {
      AmountIsNearest(fx, row.(currency := currency));
    }
  }

  /** The unit's turn reaches row `i`: it is its owner's and covers the moment, and the turn is in time. */
  ghost predicate Reaches(rows: seq<Charge>, unit: Unit, moment: int, i: int) {
    && 0 <= i < |rows| && rows[i].owner == unit.config.owner && rows[i].start <= moment < rows[i].end
    && unit.config.validFrom * 86_400 <= moment && InTime(unit, moment, rows[i].start)
  }

  lemma CoveringIsLatest(rows: seq<Charge>, owner: Owner, moment: int, last: int, i: int)
    requires Tidy(rows, owner, last) && last <= moment
    requires 0 <= i < |rows| && rows[i].owner == owner && moment < rows[i].end
    ensures Latest(rows, owner, moment) == Some(rows[i]) && FindRow(rows, owner, rows[i].start) == i
  {
    LatestIsNewest(rows, owner, last, moment);
    var row := Latest(rows, owner, moment).value;
    var k :| 0 <= k < |rows| && rows[k] == row;
    assert rows[k].owner == owner && rows[i].start <= rows[k].start && rows[i].end <= rows[k].end;
    var found := FindRow(rows, owner, rows[i].start);
    assert found == i;
  }

  lemma StillRow(rows: seq<Charge>, unit: Unit, moment: int, prices: Prices, last: int, i: int)
    requires Tidy(rows, unit.config.owner, last) && last <= moment && 0 <= i < |rows|
    requires !Reaches(rows, unit, moment, i)
    ensures PostUnit(rows, unit, moment, prices)[i] == rows[i]
  {
    var owner := unit.config.owner;
    LatestIsNewest(rows, owner, last, moment);
    var row := Latest(rows, owner, moment);
    if row.Some? && moment < row.value.end {
      var k :| 0 <= k < |rows| && rows[k] == row.value;
      CoveringIsLatest(rows, owner, moment, last, k);
    } else {
      RollForwardIsSound(unit, if row.Some? then Some(row.value.end) else None, moment);
    }
  }

  lemma ReachedRow(rows: seq<Charge>, unit: Unit, moment: int, prices: Prices, last: int, i: int)
    requires Tidy(rows, unit.config.owner, last) && last <= moment && Reaches(rows, unit, moment, i)
    ensures PostUnit(rows, unit, moment, prices) == PostPeriod(rows, unit, rows[i].start, rows[i].end, moment, prices)
    ensures FindRow(rows, unit.config.owner, rows[i].start) == i
  {
    CoveringIsLatest(rows, unit.config.owner, moment, last, i);
  }

  /** A unit's turn changes a recorded row exactly when it reaches it, it is open, and its amount is known
      or its currency has a rate; then it freezes it. */
  lemma TurnSettlesExactly(rows: seq<Charge>, unit: Unit, moment: int, prices: Prices, last: int, i: int)
    requires Tidy(rows, unit.config.owner, last) && last <= moment && 0 <= i < |rows|
    ensures var row, after := rows[i], PostUnit(rows, unit, moment, prices)[i];
            if Reaches(rows, unit, moment, i) && row.finalizedAt.None?
               && (row.normalized.Some? || exists c :: SettlesIn(row, unit, c) && HasRate(prices.fx, c))
            then IsFrozen(row, unit, prices.fx, moment, after)
            else after == row
  {
    if Reaches(rows, unit, moment, i) {
      ReachedRow(rows, unit, moment, prices, last, i);
      SettledIsFrozen(rows[i], unit, prices.fx, moment);
    } else {
      StillRow(rows, unit, moment, prices, last, i);
    }
  }

  /** The last pass freezes exactly the open rows that start with a resolved period and whose amount is
      known: in CNY, or with the day of its rate. It changes nothing else of them. */
  lemma FreezesExactly(rows: seq<Charge>, starts: set<int>, now: int, i: int)
    requires 0 <= i < |rows|
    ensures var row, after := rows[i], Freeze(rows, starts, now)[i];
            if row.finalizedAt == None && row.normalized != None && row.start in starts
               && (row.currency == "CNY" || row.fxDay != None)
            then after == row.(finalizedAt := Some(now))
            else after == row
  {
  }
}
