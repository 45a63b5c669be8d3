/** The recurring-charge ledger of proxy subscriptions: resolving a unit's billable period, writing
    its charge, and freezing it. */
module Ledger {
  import opened Prelude
  import opened Calendar
  import opened BillingUnits
  import opened FxRates

  const NEW_KEY_OBSERVATION_GRACE_SECONDS := 15 * 60

  /** A row of `billing_period_charges`; rows are never deleted, so a row's position is its id. */
  datatype Charge = Charge(
    owner: Owner,
    account: int,
    start: int,
    end: int,
    price: real,
    currency: string,
    normalized: Option<real>,
    fxDay: Option<int>,
    finalizedAt: Option<int>)

  /** A row of `billing_rate_events`; a row's position is its id. */
  datatype RateEvent = RateEvent(contract: int, effectiveAt: int, price: real)

  /** What a materialization reads besides the charges. */
  datatype Prices = Prices(rates: seq<RateEvent>, fx: seq<FxRow>)

  // ----- resolving a period -----

  /** `period_start<=? ORDER BY period_start DESC LIMIT 1` among the owner's rows. */
  function Latest(rows: seq<Charge>, owner: Owner, moment: int): Option<Charge> {
    if rows == [] then None
    else
      var before, last := Latest(rows[..|rows| - 1], owner, moment), rows[|rows| - 1];
      if last.owner == owner && last.start <= moment && (before.None? || before.value.start <= last.start)
        then Some(last)
      else before
  }

  /** A new usage-tracked key still waits for its first observation. */
  predicate AwaitsObservation(unit: Unit, moment: int) {
    unit.config.usageTracked && !unit.usagePresent && unit.config.createdAt.Some?
    && moment - unit.config.createdAt.value < NEW_KEY_OBSERVATION_GRACE_SECONDS
  }

  function LaterOf(start: int, floor: Option<int>): int {
    if floor.Some? && start < floor.value then floor.value else start
  }

  /** The period that rolls forward from the previous end, or opens the chain. */
  function RollForward(unit: Unit, previousEnd: Option<int>, moment: int): (int, int) {
    var anchor := PeriodAt(moment, unit.AnchorDay());
    if !unit.ObservedFresh(moment) then
      (LaterOf(previousEnd.GetOr(anchor.start), unit.resumedAt), anchor.end)
    else
      var observed := unit.observed.value;
      var resumed := LaterOf(previousEnd.GetOr(observed.start), unit.resumedAt);
      var start := LaterOf(resumed, Some(Midnight(unit.config.validFrom)));
      (start, if observed.end <= start then PeriodAt(start, unit.AnchorDay()).end else observed.end)
  }

  /** `resolve_unit_period` */
  function ResolveUnitPeriod(rows: seq<Charge>, unit: Unit, moment: int): Option<(int, int)> {
    if moment < Midnight(unit.config.validFrom) then None
    else
      var row := Latest(rows, unit.config.owner, moment);
      if row.Some? && moment < row.value.end then Some((row.value.start, row.value.end))
      else if unit.LapseVerdictFresh(moment) then None
      else if AwaitsObservation(unit, moment) then None
      else Some(RollForward(unit, if row.Some? then Some(row.value.end) else None, moment))
  }

  // ----- pricing -----

  /** `effective_at<=? ORDER BY effective_at DESC,id DESC LIMIT 1`, or 0 without an event. */
  function EffectiveRate(rates: seq<RateEvent>, contract: int, start: int): Option<RateEvent> {
    if rates == [] then None
    else
      var before, last := EffectiveRate(rates[..|rates| - 1], contract, start), rates[|rates| - 1];
      if last.contract == contract && last.effectiveAt <= start
        && (before.None? || before.value.effectiveAt <= last.effectiveAt)
      then Some(last)
      else before
  }

  function RateAt(rates: seq<RateEvent>, contract: int, start: int): real {
    match EffectiveRate(rates, contract, start)
    case Some(event) => event.price
    case None => 0.0
  }

  /** `_normalized_charge`: the CNY amount, the day of its rate, and whether it may be frozen. */
  function NormalizedCharge(fx: seq<FxRow>, price: real, currency: string, day: int): (Option<real>,
          Option<int>, bool)
  {
    if currency == "CNY" then (Some(price), None, true)
    else
      var resolution := Resolve(fx, currency, day);
      if resolution.source.None? then (None, None, false)
      else (Some(price * resolution.rate), resolution.source, true)
  }

  // ----- writing one period -----

  /** The position of the owner's row with this start, or -1. */
  function FindRow(rows: seq<Charge>, owner: Owner, start: int): (i: int)
    ensures -1 <= i < |rows|
    ensures i >= 0 ==> rows[i].owner == owner && rows[i].start == start
    ensures i == -1 ==> forall j :: 0 <= j < |rows| ==> !(rows[j].owner == owner && rows[j].start == start)
  {
    if rows == [] then -1
    else if rows[|rows| - 1].owner == owner && rows[|rows| - 1].start == start then |rows| - 1
    else FindRow(rows[..|rows| - 1], owner, start)
  }

  function RowCurrency(row: Charge, currency: string): string {
    if row.currency != "" then row.currency else currency
  }

  /** What an open row's amount settles to: its own if it has one, else the rate of its start day. */
  function Settled(row: Charge, currency: string, fx: seq<FxRow>): (Option<real>, Option<int>, bool) {
    if row.normalized.Some? then (row.normalized, row.fxDay, true)
    else NormalizedCharge(fx, row.price, RowCurrency(row, currency), DayOf(row.start))
  }

  function NewRow(unit: Unit, start: int, end: int, now: int, prices: Prices): Charge {
    var price := RateAt(prices.rates, unit.config.owner.contract, start);
    var (normalized, fxDay, final) := NormalizedCharge(prices.fx, price, unit.config.currency, DayOf(start));
    Charge(unit.config.owner, unit.config.account, start, end, price, unit.config.currency, normalized, fxDay,
           if final then Some(now) else None)
  }

  /** The rows after one period of the stream: a missing charge is added, a frozen one is left alone,
      and an open one is frozen if its amount settles. */
  function PostPeriod(rows: seq<Charge>, unit: Unit, start: int, end: int, now: int, prices: Prices): seq<Charge> {
    var i := FindRow(rows, unit.config.owner, start);
    if i < 0 then rows + [NewRow(unit, start, end, now, prices)]
    else if rows[i].finalizedAt.Some? then rows
    else
      var (normalized, fxDay, final) := Settled(rows[i], unit.config.currency, prices.fx);
      if final then rows[i := rows[i].(normalized := normalized, fxDay := fxDay, finalizedAt := Some(now))] else rows
  }

  /** The last moment a charge of this unit may start. */
  function Cutoff(unit: Unit, moment: int): int {
    if unit.config.endsAt.Some? && unit.config.endsAt.value < moment then unit.config.endsAt.value else moment
  }

  /** The stream of one resolved period: refused when it starts after the cutoff. */
  function PostResolved(rows: seq<Charge>, unit: Unit, start: int, end: int, moment: int, prices: Prices): seq<Charge> {
    if start > Cutoff(unit, moment) then rows
    else PostPeriod(rows, unit, start, end, moment, prices)
  }

  /** The unit's turn in a materialization. */
  function PostUnit(rows: seq<Charge>, unit: Unit, moment: int, prices: Prices): seq<Charge> {
    match ResolveUnitPeriod(rows, unit, moment)
    case None => rows
    case Some((start, end)) => PostResolved(rows, unit, start, end, moment, prices)
  }

  /** The starts that the units resolve to, each on the rows the units before it left. */
  function ResolvedStarts(rows: seq<Charge>, units: seq<Unit>, moment: int, prices: Prices): set<int> {
    if units == [] then {}
    else
      var init, last := units[..|units| - 1], units[|units| - 1];
      var period := ResolveUnitPeriod(PostUnits(rows, init, moment, prices), last, moment);
      ResolvedStarts(rows, init, moment, prices) + if period.Some? then {period.value.0} else {}
  }

  function PostUnits(rows: seq<Charge>, units: seq<Unit>, moment: int, prices: Prices): seq<Charge> {
    if units == [] then rows
    else PostUnit(PostUnits(rows, units[..|units| - 1], moment, prices), units[|units| - 1], moment, prices)
  }

  // ----- freezing -----

  predicate Freezable(row: Charge, starts: set<int>) {
    row.finalizedAt.None? && row.normalized.Some? && (row.currency == "CNY" || row.fxDay.Some?) && row.start in starts
  }

  /** `_finalize_period_stream` */
  function Freeze(rows: seq<Charge>, starts: set<int>, now: int): (frozen: seq<Charge>)
    ensures |frozen| == |rows|
    ensures forall i :: 0 <= i < |rows| ==>
            frozen[i] == if Freezable(rows[i], starts) then rows[i].(finalizedAt := Some(now)) else rows[i]
  {
    if rows == [] then []
    else
      var last := rows[|rows| - 1];
      Freeze(rows[..|rows| - 1], starts, now)
        + [if Freezable(last, starts) then last.(finalizedAt := Some(now)) else last]
  }

  /** `materialize_period_charges_conn`, without the export events it also ensures. */
  function Materialize(rows: seq<Charge>, units: seq<Unit>, moment: int, prices: Prices): seq<Charge> {
    Freeze(PostUnits(rows, units, moment, prices), ResolvedStarts(rows, units, moment, prices), moment)
  }
}
