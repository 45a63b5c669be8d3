/** Administrative billing calendar: months of the proleptic Gregorian calendar (section 3.2.1 of
    ISO 8601:2004) and the anchor-day periods whose boundaries are clamped to the month's length.

    A day is counted from 1 January of year 0, an instant is a number of seconds counted from the
    midnight that starts day 0, and a month is numbered 12 * year + (month - 1). */
module Calendar {
  import opened Prelude

  const DAY_SECONDS := 86_400

  type AnchorDay = d: int | 1 <= d <= 31 witness 1

  predicate IsLeap(year: int) {
    year % 4 == 0 && (year % 100 != 0 || year % 400 == 0)
  }

  /** The second component of `calendar.monthrange`; `month` is 0 for January. */
  function MonthRange(year: int, month: int): (days: int)
    requires 0 <= month < 12
    ensures 28 <= days <= 31
  {
    if month == 1 then (if IsLeap(year) then 29 else 28)
    else if month == 3 || month == 5 || month == 8 || month == 10 then 30
    else 31
  }

  function MonthLength(m: int): (days: int)
    ensures 28 <= days <= 31
  {
    MonthRange(m / 12, m % 12)
  }

  /** The first day of month `m`: months tile the day line, and day 0 starts month 0. */
  function MonthStart(m: int): (day: int)
    decreases if m < 0 then -m else m
  {
    if m == 0 then 0
    else if m > 0 then MonthStart(m - 1) + MonthLength(m - 1)
    else MonthStart(m + 1) - MonthLength(m)
  }

  lemma MonthsTile(m: int)
    ensures MonthStart(m + 1) == MonthStart(m) + MonthLength(m)
  {
  }

  lemma MonthLengthInYear(year: int, month: int)
    requires 0 <= month < 12
    ensures MonthStart(12 * year + month + 1) == MonthStart(12 * year + month) + MonthRange(year, month)
  {
    MonthsTile(12 * year + month);
    assert (12 * year + month) / 12 == year && (12 * year + month) % 12 == month;
  }

  lemma QuarterHasItsDays(year: int, quarter: int)
    requires 0 <= quarter < 4
    ensures MonthStart(12 * year + 3 * quarter + 3) - MonthStart(12 * year + 3 * quarter) ==
            if quarter == 0 then (if IsLeap(year) then 91 else 90) else if quarter == 1 then 91 else 92
  {
    MonthLengthInYear(year, 3 * quarter);
    MonthLengthInYear(year, 3 * quarter + 1);
    MonthLengthInYear(year, 3 * quarter + 2);
  }

  lemma YearHasItsDays(year: int)
    ensures MonthStart(12 * year + 12) - MonthStart(12 * year) == if IsLeap(year) then 366 else 365
  {
    QuarterHasItsDays(year, 0);
    QuarterHasItsDays(year, 1);
    QuarterHasItsDays(year, 2);
    QuarterHasItsDays(year, 3);
  }

  function DaysBeforeYear(year: int): int {
    365 * year + (year + 3) / 4 - (year + 99) / 100 + (year + 399) / 400
  }

  lemma FourthsBefore(year: int)
    ensures (year + 4) / 4 == (year + 3) / 4 + (if year % 4 == 0 then 1 else 0)
  {
  }

  lemma HundredthsBefore(year: int)
    ensures (year + 100) / 100 == (year + 99) / 100 + (if year % 100 == 0 then 1 else 0)
  {
  }

  lemma FourHundredthsBefore(year: int)
    ensures (year + 400) / 400 == (year + 399) / 400 + (if year % 400 == 0 then 1 else 0)
  {
  }

  lemma MultiplesOfHundred(year: int)
    ensures year % 100 == 0 ==> year % 4 == 0
  {
    var k := year / 100;
    assert year == 100 * k + year % 100;
    assert (4 * (25 * k)) % 4 == 0;
  }

  lemma MultiplesOfFourHundred(year: int)
    ensures year % 400 == 0 ==> year % 100 == 0
  {
    var k := year / 400;
    assert year == 400 * k + year % 400;
    assert (100 * (4 * k)) % 100 == 0;
  }

  lemma ClosedFormStep(year: int)
    ensures DaysBeforeYear(year + 1) == DaysBeforeYear(year) + (if IsLeap(year) then 366 else 365)
  {
    FourthsBefore(year);
    HundredthsBefore(year);
    FourHundredthsBefore(year);
    MultiplesOfHundred(year);
    MultiplesOfFourHundred(year);
  }

  /** The month lengths add up to the closed day count of the Gregorian leap-year rule. */
  lemma {:induction false} YearsStartWhereTheLeapRuleSays(year: int)
    ensures MonthStart(12 * year) == DaysBeforeYear(year)
    decreases if year < 0 then -year else year
  {
    if year > 0 {
      YearsStartWhereTheLeapRuleSays(year - 1);
      YearHasItsDays(year - 1);
      ClosedFormStep(year - 1);
    } else if year < 0 {
      YearsStartWhereTheLeapRuleSays(year + 1);
      YearHasItsDays(year);
      ClosedFormStep(year);
    }
  }

  lemma {:induction false} MonthStartsSpread(m: int, n: int)
    requires m <= n
    ensures 28 * (n - m) <= MonthStart(n) - MonthStart(m) <= 31 * (n - m)
    decreases n - m
  {
    if m < n {
      MonthStartsSpread(m, n - 1);
      MonthsTile(n - 1);
    }
  }

  /** The month a day falls in, searched upwards from a month that starts no later. */
  function MonthFrom(day: int, m: int): (month: int)
    requires MonthStart(m) <= day
    ensures MonthStart(month) <= day < MonthStart(month + 1)
    decreases day - MonthStart(m)
  {
    MonthsTile(m);
    if day < MonthStart(m + 1) then m else MonthFrom(day, m + 1)
  }

  function MonthOf(day: int): (month: int)
    ensures MonthStart(month) <= day < MonthStart(month + 1)
  {
    if day >= 0 then MonthFrom(day, 0) else
      MonthStartsSpread(day, 0);
      MonthFrom(day, day)
  }

  function DayOfMonth(day: int): (d: AnchorDay) {
    MonthsTile(MonthOf(day));
    day - MonthStart(MonthOf(day)) + 1
  }

  function DayOf(moment: int): int { moment / DAY_SECONDS }

  function Midnight(day: int): int { day * DAY_SECONDS }

  function Min(x: int, y: int): int { if x < y then x else y }

  /** Midnight of the anchor day in month `m`, clamped to the month's last day. */
  function Boundary(m: int, anchor: AnchorDay): int {
    Midnight(MonthStart(m) + Min(anchor, MonthLength(m)) - 1)
  }

  lemma BoundaryGap(m: int, anchor: AnchorDay)
    ensures 28 * DAY_SECONDS <= Boundary(m + 1, anchor) - Boundary(m, anchor) <= 31 * DAY_SECONDS
  {
    MonthsTile(m);
  }

  lemma {:induction false} BoundariesIncrease(m: int, n: int, anchor: AnchorDay)
    requires m <= n
    ensures Boundary(m, anchor) <= Boundary(n, anchor)
            && (m < n ==> Boundary(m, anchor) + 28 * DAY_SECONDS <= Boundary(n, anchor))
    decreases n - m
  {
    if m < n {
      BoundaryGap(n - 1, anchor);
      BoundariesIncrease(m, n - 1, anchor);
    }
  }

  datatype Period = Period(start: int, end: int, anchorDay: AnchorDay)

  /** The month whose clamped anchor starts the period containing `moment`. */
  function PeriodMonth(moment: int, anchor: AnchorDay): int {
    var m := MonthOf(DayOf(moment));
    if moment < Boundary(m, anchor) then m - 1 else m
  }

  function PeriodAt(moment: int, anchor: AnchorDay): Period {
    var m := PeriodMonth(moment, anchor);
    Period(Boundary(m, anchor), Boundary(m + 1, anchor), anchor)
  }

  /** `billing_period`: an anchor outside 1..31 is refused. */
  function BillingPeriod(moment: int, anchorDay: int): Result<Period> {
    if 1 <= anchorDay <= 31 then Ok(PeriodAt(moment, anchorDay))
    else Err("anchor_day must be between 1 and 31")
  }

  /** `next_billing_period`: the period 32 days after a known period start. */
  function NextPeriod(start: int, anchor: AnchorDay): Period {
    PeriodAt(start + 32 * DAY_SECONDS, anchor)
  }

  // ----- the periods contain their moment and tile the timeline -----

  lemma PeriodContainsMoment(moment: int, anchor: AnchorDay)
    ensures PeriodAt(moment, anchor).start <= moment < PeriodAt(moment, anchor).end
  {
    var m := MonthOf(DayOf(moment));
    MonthsTile(m);
    MonthsTile(m - 1);
    MonthsTile(m + 1);
  }

  /** For any integer as anchor: refused outside 1..31, and otherwise a period that contains the moment and
      is that of its own start. */
  lemma BillingPeriodIsAPeriod(moment: int, anchorDay: int)
    ensures BillingPeriod(moment, anchorDay).Ok? <==> 1 <= anchorDay <= 31
    ensures BillingPeriod(moment, anchorDay).Ok? ==>
              var p := BillingPeriod(moment, anchorDay).value;
              p.start <= moment < p.end && BillingPeriod(p.start, anchorDay) == Ok(p)
  {
    if 1 <= anchorDay <= 31 {
      PeriodContainsMoment(moment, anchorDay);
      MonthOfPeriod(PeriodAt(moment, anchorDay).start, PeriodMonth(moment, anchorDay), anchorDay);
    }
  }

  /** A moment lies between two consecutive boundaries exactly when they are its period. */
  lemma PeriodIsUnique(moment: int, anchor: AnchorDay, m: int)
    ensures Boundary(m, anchor) <= moment < Boundary(m + 1, anchor) <==> m == PeriodMonth(moment, anchor)
  {
    PeriodContainsMoment(moment, anchor);
    var n := PeriodMonth(moment, anchor);
    if m < n {
      BoundariesIncrease(m + 1, n, anchor);
    } else if n < m {
      BoundariesIncrease(n + 1, m, anchor);
    }
  }

  lemma BoundariesDiffer(m: int, n: int, anchor: AnchorDay)
    requires m != n
    ensures Boundary(m, anchor) != Boundary(n, anchor)
  {
    if m < n {
      BoundariesIncrease(m, n, anchor);
    } else {
      BoundariesIncrease(n, m, anchor);
    }
  }

  lemma MonthOfPeriod(t: int, m: int, anchor: AnchorDay)
    requires Boundary(m, anchor) <= t < Boundary(m + 1, anchor)
    ensures PeriodAt(t, anchor) == Period(Boundary(m, anchor), Boundary(m + 1, anchor), anchor)
  {
    PeriodIsUnique(t, anchor, m);
  }

  lemma EndStartsNext(m: int, anchor: AnchorDay)
    ensures PeriodAt(Boundary(m + 1, anchor), anchor) ==
            Period(Boundary(m + 1, anchor), Boundary(m + 2, anchor), anchor)
  {
    BoundaryGap(m + 1, anchor);
    MonthOfPeriod(Boundary(m + 1, anchor), m + 1, anchor);
  }

  lemma PeriodsOfMonths(m: int, n: int, anchor: AnchorDay)
    ensures m == n <==> Period(Boundary(m, anchor), Boundary(m + 1, anchor), anchor)
                        == Period(Boundary(n, anchor), Boundary(n + 1, anchor), anchor)
  {
    if m != n {
      BoundariesDiffer(m, n, anchor);
    }
  }

  lemma InMonthIff(t: int, m: int, anchor: AnchorDay)
    ensures Boundary(m, anchor) <= t < Boundary(m + 1, anchor)
            <==> PeriodAt(t, anchor) == Period(Boundary(m, anchor), Boundary(m + 1, anchor), anchor)
  {
    PeriodIsUnique(t, anchor, m);
    PeriodsOfMonths(m, PeriodMonth(t, anchor), anchor);
  }

  lemma SamePeriodIff(moment: int, other: int, anchor: AnchorDay)
    ensures PeriodAt(moment, anchor).start <= other < PeriodAt(moment, anchor).end
            <==> PeriodAt(other, anchor) == PeriodAt(moment, anchor)
  {
    InMonthIff(other, PeriodMonth(moment, anchor), anchor);
  }

  lemma EndStartsPeriod(moment: int, anchor: AnchorDay)
    ensures PeriodAt(PeriodAt(moment, anchor).end, anchor).start == PeriodAt(moment, anchor).end
  {
    EndStartsNext(PeriodMonth(moment, anchor), anchor);
  }

  /** Two moments share a period exactly when one lies in the period of the other. */
  lemma PeriodsTile(moment: int, other: int, anchor: AnchorDay)
    ensures PeriodAt(moment, anchor).start <= other < PeriodAt(moment, anchor).end
            <==> PeriodAt(other, anchor) == PeriodAt(moment, anchor)
    ensures PeriodAt(PeriodAt(moment, anchor).end, anchor).start == PeriodAt(moment, anchor).end
  {
    SamePeriodIff(moment, other, anchor);
    EndStartsPeriod(moment, anchor);
  }

  lemma JumpLandsInNext(m: int, anchor: AnchorDay)
    ensures NextPeriod(Boundary(m, anchor), anchor) == Period(Boundary(m + 1, anchor), Boundary(m + 2, anchor), anchor)
  {
    BoundaryGap(m, anchor);
    BoundaryGap(m + 1, anchor);
    MonthOfPeriod(Boundary(m, anchor) + 32 * DAY_SECONDS, m + 1, anchor);
  }

  lemma NextOfMonth(m: int, anchor: AnchorDay)
    ensures NextPeriod(Boundary(m, anchor), anchor) == PeriodAt(Boundary(m + 1, anchor), anchor)
    ensures NextPeriod(Boundary(m, anchor), anchor).start == Boundary(m + 1, anchor)
  {
    EndStartsNext(m, anchor);
    JumpLandsInNext(m, anchor);
  }

  lemma NextAfter(p: Period, m: int, anchor: AnchorDay)
    requires p.start == Boundary(m, anchor) && p.end == Boundary(m + 1, anchor)
    ensures NextPeriod(p.start, anchor) == PeriodAt(p.end, anchor) && NextPeriod(p.start, anchor).start == p.end
  {
    NextOfMonth(m, anchor);
  }

  /** The 32-day jump from a period's start lands in the period that starts at its end. */
  lemma NextPeriodFollows(moment: int, anchor: AnchorDay)
    ensures var p := PeriodAt(moment, anchor);
            NextPeriod(p.start, anchor) == PeriodAt(p.end, anchor) && NextPeriod(p.start, anchor).start == p.end
  {
    var p, m := PeriodAt(moment, anchor), PeriodMonth(moment, anchor);
    NextAfter(p, m, anchor);
  }

  /** `n` applications of a function. */
  function Iterate<T>(f: T -> T, x: T, n: nat): T {
    if n == 0 then x else f(Iterate(f, x, n - 1))
  }

  lemma {:induction false} IteratesKeep<T(!new)>(f: T -> T, x: T, n: nat, kept: T -> bool)
    requires kept(x) && forall y :: kept(y) ==> kept(f(y))
    ensures kept(Iterate(f, x, n))
  {
    if n > 0 {
      IteratesKeep(f, x, n - 1, kept);
    }
  }

  /** The `n`-th period that `_period_chain` yields after the period of `moment`. */
  function ChainPeriod(moment: int, anchor: AnchorDay, n: nat): Period {
    Iterate((p: Period) => NextPeriod(p.start, anchor), PeriodAt(moment, anchor), n)
  }

  ghost predicate IsPeriod(p: Period, anchor: AnchorDay) {
    exists base :: p == PeriodAt(base, anchor)
  }

  lemma NextIsPeriod(p: Period, anchor: AnchorDay)
    requires IsPeriod(p, anchor)
    ensures IsPeriod(NextPeriod(p.start, anchor), anchor) && NextPeriod(p.start, anchor).start == p.end
  {
    var base :| p == PeriodAt(base, anchor);
    NextPeriodFollows(base, anchor);
  }

  lemma PeriodHoldsItsMoments(p: Period, anchor: AnchorDay, t: int)
    requires IsPeriod(p, anchor)
    ensures p.start <= t < p.end <==> PeriodAt(t, anchor) == p
  {
    var base :| p == PeriodAt(base, anchor);
    PeriodsTile(base, t, anchor);
  }

  /** The chain runs through consecutive periods and never skips or repeats a moment. */
  lemma ChainIsConsecutive(moment: int, anchor: AnchorDay, n: nat)
    ensures ChainPeriod(moment, anchor, n + 1).start == ChainPeriod(moment, anchor, n).end
    ensures forall t :: ChainPeriod(moment, anchor, n).start <= t < ChainPeriod(moment, anchor, n).end
                        <==> PeriodAt(t, anchor) == ChainPeriod(moment, anchor, n)
  {
    var next, first := (p: Period) => NextPeriod(p.start, anchor), PeriodAt(moment, anchor);
    assert IsPeriod(first, anchor);
    forall p | IsPeriod(p, anchor) ensures IsPeriod(next(p), anchor) {
      NextIsPeriod(p, anchor);
    }
    IteratesKeep(next, first, n, p => IsPeriod(p, anchor));
    NextIsPeriod(Iterate(next, first, n), anchor);
    forall t
      ensures ChainPeriod(moment, anchor, n).start <= t < ChainPeriod(moment, anchor, n).end
              <==> PeriodAt(t, anchor) == ChainPeriod(moment, anchor, n)
    {
      PeriodHoldsItsMoments(Iterate(next, first, n), anchor, t);
    }
  }

  lemma PeriodNotBefore(m: int, moment: int, anchor: AnchorDay)
    requires Boundary(m, anchor) <= moment
    ensures Boundary(m, anchor) <= PeriodAt(moment, anchor).start
  {
    PeriodContainsMoment(moment, anchor);
    var n := PeriodMonth(moment, anchor);
    if n < m {
      BoundariesIncrease(n + 1, m, anchor);
    } else {
      BoundariesIncrease(m, n, anchor);
    }
  }

  lemma DateIsItsBoundary(day: int)
    ensures Boundary(MonthOf(day), DayOfMonth(day)) == Midnight(day)
  {
    MonthsTile(MonthOf(day));
  }

  /** Billing dates never precede the day that gave the anchor its number. */
  lemma AnchorPeriodsStartAtTheirDate(day: int, moment: int)
    requires Midnight(day) <= moment
    ensures Midnight(day) <= PeriodAt(moment, DayOfMonth(day)).start
  {
    DateIsItsBoundary(day);
    PeriodNotBefore(MonthOf(day), moment, DayOfMonth(day));
  }

  // ----- the separate arithmetic on month labels -----

  /** A "YYYY-MM" label; `month` is 1 for January. */
  datatype Label = Label(year: int, month: int) {
    predicate Valid() { 1 <= month <= 12 }
  }

  /** `_period_start` */
  function PeriodStart(ym: Label, anchor: AnchorDay): int
    requires ym.Valid()
  {
    var length := MonthRange(ym.year, ym.month - 1);
    Midnight(MonthStart(12 * ym.year + ym.month - 1) + Min(anchor, length) - 1)
  }

  /** `_previous_month` */
  function PreviousMonth(ym: Label): Label {
    if ym.month == 1 then Label(ym.year - 1, 12) else Label(ym.year, ym.month - 1)
  }

  /** `_next_month` */
  function NextMonth(ym: Label): Label {
    if ym.month == 12 then Label(ym.year + 1, 1) else Label(ym.year, ym.month + 1)
  }

  function LabelOf(m: int): Label { Label(m / 12, m % 12 + 1) }

  /** `_billing_period_month` */
  function BillingPeriodMonth(moment: int, anchor: AnchorDay): Label {
    var day := DayOf(moment);
    var ym := LabelOf(MonthOf(day));
    if day >= DayOf(PeriodStart(ym, anchor)) then ym else PreviousMonth(ym)
  }

  lemma LabelStartsMonth(m: int, anchor: AnchorDay)
    ensures LabelOf(m).Valid() && PeriodStart(LabelOf(m), anchor) == Boundary(m, anchor)
  {
    assert 12 * (m / 12) + m % 12 == m;
  }

  lemma LabelSteps(m: int)
    ensures NextMonth(LabelOf(m)) == LabelOf(m + 1) && PreviousMonth(LabelOf(m)) == LabelOf(m - 1)
  {
  }

  lemma DayReachesBoundary(moment: int, m: int, anchor: AnchorDay)
    ensures DayOf(moment) >= DayOf(Boundary(m, anchor)) <==> moment >= Boundary(m, anchor)
  {
    assert DayOf(Midnight(MonthStart(m) + Min(anchor, MonthLength(m)) - 1)) ==
      MonthStart(m) + Min(anchor, MonthLength(m)) - 1;
  }

  lemma LabelPeriod(m: int, anchor: AnchorDay)
    ensures var ym := LabelOf(m);
            ym.Valid() && NextMonth(ym).Valid()
            && PeriodStart(ym, anchor) == Boundary(m, anchor)
               && PeriodStart(NextMonth(ym), anchor) == Boundary(m + 1, anchor)
  {
    LabelSteps(m);
    LabelStartsMonth(m, anchor);
    LabelStartsMonth(m + 1, anchor);
  }

  /** The label arithmetic and the instant arithmetic give the same period. */
  lemma LabelsAgreeWithPeriods(moment: int, anchor: AnchorDay)
    ensures var ym := BillingPeriodMonth(moment, anchor);
            ym.Valid() && NextMonth(ym).Valid()
            && PeriodStart(ym, anchor) == PeriodAt(moment, anchor).start
            && PeriodStart(NextMonth(ym), anchor) == PeriodAt(moment, anchor).end
  {
    var current, m := MonthOf(DayOf(moment)), PeriodMonth(moment, anchor);
    LabelStartsMonth(current, anchor);
    DayReachesBoundary(moment, current, anchor);
    LabelSteps(current);
    assert BillingPeriodMonth(moment, anchor) == LabelOf(m);
    LabelPeriod(m, anchor);
  }
}
