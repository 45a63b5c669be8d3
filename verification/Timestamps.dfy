/** The canonical UTC text of an instant (section 4.3.2 of ISO 8601:2004, seconds precision, "Z"), and why
    comparing such texts compares the instants. */
module Timestamps {
  import opened Calendar
  import opened TextOrder

  function Digit(n: int): char
    requires 0 <= n < 10
  {
    ('0' as int + n) as char
  }

  /** `n` in `width` decimal digits. */
  function Digits(n: int, width: nat): (text: string)
    ensures |text| == width
    decreases width
  {
    if width == 0 then "" else Digits(n / 10, width - 1) + [Digit(n % 10)]
  }

  function Power(width: nat): int { if width == 0 then 1 else 10 * Power(width - 1) }

  lemma {:induction false} DigitsKeepOrder(a: int, b: int, width: nat)
    requires 0 <= a < Power(width) && 0 <= b < Power(width)
    ensures Before(Digits(a, width), Digits(b, width)) <==> a < b
    ensures Digits(a, width) == Digits(b, width) <==> a == b
  {
    if width > 0 {
      DigitsKeepOrder(a / 10, b / 10, width - 1);
      BeforeByParts(Digits(a / 10, width - 1), Digits(b / 10, width - 1), [Digit(a % 10)], [Digit(b % 10)]);
      LastDigitsDiffer(Digits(a / 10, width - 1), Digits(b / 10, width - 1), a % 10, b % 10);
    }
  }

  lemma LastDigitsDiffer(p: string, q: string, a: int, b: int)
    requires |p| == |q| && 0 <= a < 10 && 0 <= b < 10
    ensures p + [Digit(a)] == q + [Digit(b)] <==> p == q && a == b
  {
    if p + [Digit(a)] == q + [Digit(b)] {
      assert (p + [Digit(a)])[..|p|] == p && (q + [Digit(b)])[..|q|] == q;
      assert (p + [Digit(a)])[|p|] == Digit(a) && (q + [Digit(b)])[|q|] == Digit(b);
    }
  }

  /** A number, a separator and the rest. */
  function Field(n: int, width: nat, separator: char, rest: string): (text: string)
    ensures |text| == width + 1 + |rest|
  {
    Digits(n, width) + ([separator] + rest)
  }

  lemma FieldsKeepOrder(a: int, b: int, width: nat, separator: char, p: string, q: string)
    requires 0 <= a < Power(width) && 0 <= b < Power(width)
    ensures Before(Field(a, width, separator, p), Field(b, width, separator, q))
            <==> a < b || (a == b && Before(p, q))
  {
    DigitsKeepOrder(a, b, width);
    BeforeByParts(Digits(a, width), Digits(b, width), [separator] + p, [separator] + q);
    BeforeByParts([separator], [separator], p, q);
    BeforeIsTotal([separator], [separator]);
  }

  // ----- dates -----

  /** The days of the years 0 to 9999, those written in four digits. */
  const DAYS := 3_652_425

  predicate IsDay(day: int) { 0 <= day < DAYS }

  lemma DaysOfTheYears(years: int)
    requires years == 10_000
    ensures MonthStart(12 * years) == DAYS
  {
    YearsStartWhereTheLeapRuleSays(years);
  }

  function CivilText(year: int, month: int, day: int): (text: string)
    ensures |text| == 10
  {
    Field(year, 4, '-', Field(month, 2, '-', Digits(day, 2)))
  }

  lemma CivilTextsKeepOrder(y: int, m: int, d: int, z: int, n: int, e: int)
    requires 0 <= y < 10_000 && 0 <= m < 100 && 0 <= d < 100
    requires 0 <= z < 10_000 && 0 <= n < 100 && 0 <= e < 100
    ensures Before(CivilText(y, m, d), CivilText(z, n, e))
            <==> y < z || (y == z && (m < n || (m == n && d < e)))
  {
    Powers();
    DigitsKeepOrder(d, e, 2);
    FieldsKeepOrder(m, n, 2, '-', Digits(d, 2), Digits(e, 2));
    FieldsKeepOrder(y, z, 4, '-', Field(m, 2, '-', Digits(d, 2)), Field(n, 2, '-', Digits(e, 2)));
  }

  function DateText(day: int): (text: string)
    ensures |text| == 10
  {
    CivilText(MonthOf(day) / 12, MonthOf(day) % 12 + 1, DayOfMonth(day))
  }

  lemma MonthIsWritten(day: int)
    requires IsDay(day)
    ensures 0 <= MonthOf(day) < 120_000
  {
    var m := MonthOf(day);
    var years :| years == 10_000;
    DaysOfTheYears(years);
    if m < 0 {
      MonthStartsSpread(m + 1, 0);
    } else if m >= 12 * years {
      MonthStartsSpread(12 * years, m);
    }
  }

  lemma MonthsKeepOrder(a: int, b: int)
    ensures a < b <==> MonthOf(a) < MonthOf(b) || (MonthOf(a) == MonthOf(b) && DayOfMonth(a) < DayOfMonth(b))
  {
    if MonthOf(a) < MonthOf(b) {
      MonthStartsSpread(MonthOf(a) + 1, MonthOf(b));
    } else if MonthOf(b) < MonthOf(a) {
      MonthStartsSpread(MonthOf(b) + 1, MonthOf(a));
    }
  }

  lemma DatesKeepOrder(a: int, b: int)
    requires IsDay(a) && IsDay(b)
    ensures Before(DateText(a), DateText(b)) <==> a < b
  {
    MonthIsWritten(a);
    MonthIsWritten(b);
    MonthTextsKeepOrder(MonthOf(a), DayOfMonth(a), MonthOf(b), DayOfMonth(b));
    MonthsKeepOrder(a, b);
  }

  lemma MonthTextsKeepOrder(m: int, d: AnchorDay, n: int, e: AnchorDay)
    requires 0 <= m < 120_000 && 0 <= n < 120_000
    ensures Before(CivilText(m / 12, m % 12 + 1, d), CivilText(n / 12, n % 12 + 1, e))
            <==> m < n || (m == n && d < e)
  {
    YearsKeepOrder(m, n);
    CivilTextsKeepOrder(m / 12, m % 12 + 1, d, n / 12, n % 12 + 1, e);
  }

  lemma YearsKeepOrder(m: int, n: int)
    ensures m < n <==> m / 12 < n / 12 || (m / 12 == n / 12 && m % 12 < n % 12)
  {
  }

  lemma Powers()
    ensures Power(2) == 100 && Power(4) == 10_000
  {
    assert Power(1) == 10 && Power(2) == 100 && Power(3) == 1_000;
  }

  // ----- times of day -----

  function ClockText(hour: int, minute: int, second: int): (text: string)
    ensures |text| == 8
  {
    Field(hour, 2, ':', Field(minute, 2, ':', Digits(second, 2)))
  }

  lemma ClockTextsKeepOrder(h: int, m: int, s: int, i: int, n: int, t: int)
    requires 0 <= h < 100 && 0 <= m < 100 && 0 <= s < 100
    requires 0 <= i < 100 && 0 <= n < 100 && 0 <= t < 100
    ensures Before(ClockText(h, m, s), ClockText(i, n, t))
            <==> h < i || (h == i && (m < n || (m == n && s < t)))
  {
    Powers();
    DigitsKeepOrder(s, t, 2);
    FieldsKeepOrder(m, n, 2, ':', Digits(s, 2), Digits(t, 2));
    FieldsKeepOrder(h, i, 2, ':', Field(m, 2, ':', Digits(s, 2)), Field(n, 2, ':', Digits(t, 2)));
  }

  function TimeText(second: int): (text: string)
    ensures |text| == 8
  {
    ClockText(second / 60 / 60, second / 60 % 60, second % 60)
  }

  lemma SixtiesKeepOrder(a: int, b: int)
    ensures a < b <==> a / 60 < b / 60 || (a / 60 == b / 60 && a % 60 < b % 60)
  {
  }

  lemma TimesKeepOrder(a: int, b: int)
    requires 0 <= a < DAY_SECONDS && 0 <= b < DAY_SECONDS
    ensures Before(TimeText(a), TimeText(b)) <==> a < b
  {
    var m, n := a / 60, b / 60;
    SixtiesKeepOrder(a, b);
    SixtiesKeepOrder(m, n);
    ClockTextsKeepOrder(m / 60, m % 60, a % 60, n / 60, n % 60, b % 60);
  }

  // ----- instants -----

  /** The years that are written in four digits. */
  predicate IsInstant(x: int) { 0 <= x <= LAST_SECOND }

  /** The last second of the year 9999. */
  const LAST_SECOND := DAYS * DAY_SECONDS - 1

  /** Up to the seconds. */
  function Seconds(x: int): (text: string)
    ensures |text| == 19
  {
    DateText(DayOf(x)) + (['T'] + TimeText(x % DAY_SECONDS))
  }

  /** `format_utc` */
  function Written(x: int): (text: string)
    ensures |text| == 20
  {
    Seconds(x) + "Z"
  }

  lemma SecondsKeepOrder(x: int, y: int)
    requires IsInstant(x) && IsInstant(y)
    ensures Before(Seconds(x), Seconds(y)) <==> x < y
  {
    var a, b := DayOf(x), DayOf(y);
    DatesKeepOrder(a, b);
    DatesKeepOrder(b, a);
    TimesKeepOrder(x % DAY_SECONDS, y % DAY_SECONDS);
    BeforeIsTotal(DateText(a), DateText(b));
    BeforeByParts(DateText(a), DateText(b), ['T'] + TimeText(x % DAY_SECONDS), ['T'] + TimeText(y % DAY_SECONDS));
    BeforeByParts(['T'], ['T'], TimeText(x % DAY_SECONDS), TimeText(y % DAY_SECONDS));
    BeforeIsTotal(['T'], ['T']);
  }

  /** Canonical texts compare as their instants do, and no two instants share one. */
  lemma WrittenKeepsOrder(x: int, y: int)
    requires IsInstant(x) && IsInstant(y)
    ensures Before(Written(x), Written(y)) <==> x < y
    ensures Written(x) == Written(y) <==> x == y
  {
    SecondsKeepOrder(x, y);
    SecondsKeepOrder(y, x);
    BeforeByParts(Seconds(x), Seconds(y), "Z", "Z");
    BeforeByParts(Seconds(y), Seconds(x), "Z", "Z");
    BeforeIsTotal("Z", "Z");
    BeforeIsTotal(Seconds(x), Seconds(y));
    BeforeIsTotal(Written(x), Written(y));
  }

  // ----- the fractions after the last second -----

  lemma LastMonth()
    ensures MonthOf(DAYS - 1) == 119_999 && DayOfMonth(DAYS - 1) == 31
  {
    var years :| years == 10_000;
    var last := 12 * years - 1;
    DaysOfTheYears(years);
    MonthsTile(last);
    MonthIsWritten(DAYS - 1);
    var m := MonthOf(DAYS - 1);
    if m < last {
      MonthStartsSpread(m + 1, last);
    }
  }

  lemma LastCivilText()
    ensures CivilText(9_999, 12, 31) == "9999-12-31"
  {
    assert Digits(9_999, 4) == "9999";
    assert Digits(12, 2) == "12" && Digits(31, 2) == "31";
  }

  lemma LastDay()
    ensures DateText(DAYS - 1) == "9999-12-31"
  {
    var m, d := MonthOf(DAYS - 1), DayOfMonth(DAYS - 1);
    LastMonth();
    LastCivilText();
    assert m / 12 == 9_999 && m % 12 + 1 == 12;
    assert DateText(DAYS - 1) == CivilText(m / 12, m % 12 + 1, d);
  }

  lemma LastClockText()
    ensures ClockText(23, 59, 59) == "23:59:59"
  {
    assert Digits(23, 2) == "23";
    assert Digits(59, 2) == "59";
  }

  lemma LastTime()
    ensures TimeText(DAY_SECONDS - 1) == "23:59:59"
  {
    var second := DAY_SECONDS - 1;
    var minute := second / 60;
    LastClockText();
    assert minute == 1_439 && second % 60 == 59 && minute / 60 == 23 && minute % 60 == 59;
    assert TimeText(second) == ClockText(minute / 60, minute % 60, second % 60);
  }

  lemma LastSecondIsWritten()
    ensures Seconds(LAST_SECOND) == "9999-12-31T23:59:59" && Written(LAST_SECOND) == "9999-12-31T23:59:59Z"
  {
    LastDay();
    LastTime();
    assert DayOf(LAST_SECOND) == DAYS - 1 && LAST_SECOND % DAY_SECONDS == DAY_SECONDS - 1;
    JoinedTexts(DateText(DAYS - 1), TimeText(DAY_SECONDS - 1));
  }

  lemma JoinedTexts(date: string, time: string)
    requires date == "9999-12-31" && time == "23:59:59"
    ensures date + (['T'] + time) == "9999-12-31T23:59:59"
    ensures date + (['T'] + time) + "Z" == "9999-12-31T23:59:59Z"
  {
  }

  /** A text that goes on with a fraction after the last second comes after every canonical text but that
      second's own, and before that. */
  lemma FractionOfTheLastSecond(x: int, fraction: string)
    requires IsInstant(x)
    ensures var text := "9999-12-31T23:59:59" + ("." + fraction);
            && (Before(Written(x), text) <==> x < LAST_SECOND)
            && (Before(text, Written(x)) <==> x == LAST_SECOND)
  {
    LastSecondIsWritten();
    SecondsKeepOrder(x, LAST_SECOND);
    SecondsKeepOrder(LAST_SECOND, x);
    BeforeIsTotal(Seconds(x), Seconds(LAST_SECOND));
    BeforeByParts(Seconds(x), Seconds(LAST_SECOND), "Z", "." + fraction);
    BeforeByParts(Seconds(LAST_SECOND), Seconds(x), "." + fraction, "Z");
    assert ("." + fraction)[0] == '.';
  }
}
