/** Stored exchange rates to CNY and the read-only resolution billing uses. */
module FxRates {
  import opened Prelude

  /** A row of `fx_rates` whose quote currency is CNY; `day` is its date. */
  datatype FxRow = FxRow(base: string, day: int, rate: real)

  datatype Resolution = Resolution(rate: real, source: Option<int>, exact: bool)

  /** `date<=? ORDER BY date DESC LIMIT 1` */
  function LatestUpTo(rows: seq<FxRow>, base: string, day: int): Option<FxRow> {
    if rows == [] then None
    else
      var before, last := LatestUpTo(rows[..|rows| - 1], base, day), rows[|rows| - 1];
      if last.base == base && last.day <= day && (before.None? || before.value.day <= last.day) then Some(last)
        else before
  }

  /** `ORDER BY date ASC LIMIT 1` */
  function Earliest(rows: seq<FxRow>, base: string): Option<FxRow> {
    if rows == [] then None
    else
      var before, last := Earliest(rows[..|rows| - 1], base), rows[|rows| - 1];
      if last.base == base && (before.None? || last.day < before.value.day) then Some(last) else before
  }

  function OnDay(rows: seq<FxRow>, base: string, day: int): Option<FxRow> {
    if rows == [] then None
    else if rows[|rows| - 1].base == base && rows[|rows| - 1].day == day then Some(rows[|rows| - 1])
    else OnDay(rows[..|rows| - 1], base, day)
  }

  /** `FxRateResolver.resolve(conn, base, "CNY", day)` */
  function Resolve(rows: seq<FxRow>, base: string, day: int): Resolution {
    if base == "CNY" then Resolution(1.0, None, true)
    else match OnDay(rows, base, day)
      case Some(row) => Resolution(row.rate, Some(row.day), true)
      case None =>
        match LatestUpTo(rows, base, day)
        case Some(row) => Resolution(row.rate, Some(row.day), false)
        case None =>
          match Earliest(rows, base)
          case Some(row) => Resolution(row.rate, Some(row.day), false)
          case None => Resolution(1.0, None, false)
  }

  /** `get_rate` */
  function GetRate(rows: seq<FxRow>, base: string, day: int): real {
    match LatestUpTo(rows, base, day)
    case Some(row) => row.rate
    case None =>
      match Earliest(rows, base)
      case Some(row) => row.rate
      case None => 1.0
  }

  ghost predicate Stored(rows: seq<FxRow>, base: string, day: int) {
    exists i :: 0 <= i < |rows| && rows[i].base == base && rows[i].day == day
  }

  /** One row per currency and day, as the primary key demands. */
  ghost predicate UniqueDays(rows: seq<FxRow>) {
    forall i, j :: 0 <= i < j < |rows| && rows[i].base == rows[j].base ==> rows[i].day != rows[j].day
  }

  lemma {:induction false} LatestUpToIsLatest(rows: seq<FxRow>, base: string, day: int)
    ensures match LatestUpTo(rows, base, day)
            case Some(row) => row in rows && row.base == base && row.day <= day
                              && forall r :: r in rows && r.base == base && r.day <= day ==> r.day <= row.day
            case None => forall r :: r in rows && r.base == base ==> day < r.day
  {
    if rows != [] {
      LatestUpToIsLatest(rows[..|rows| - 1], base, day);
      assert rows == rows[..|rows| - 1] + [rows[|rows| - 1]];
    }
  }

  lemma {:induction false} EarliestIsEarliest(rows: seq<FxRow>, base: string)
    ensures match Earliest(rows, base)
            case Some(row) => row in rows && row.base == base && forall r :: r in rows && r.base == base ==>
              row.day <= r.day
            case None => forall r :: r in rows ==> r.base != base
  {
    if rows != [] {
      EarliestIsEarliest(rows[..|rows| - 1], base);
      assert rows == rows[..|rows| - 1] + [rows[|rows| - 1]];
    }
  }

  lemma {:induction false} OnDayIsExact(rows: seq<FxRow>, base: string, day: int)
    ensures match OnDay(rows, base, day)
            case Some(row) => row in rows && row.base == base && row.day == day
            case None => forall r :: r in rows ==> !(r.base == base && r.day == day)
  {
    if rows != [] {
      OnDayIsExact(rows[..|rows| - 1], base, day);
      assert rows == rows[..|rows| - 1] + [rows[|rows| - 1]];
    }
  }

  /** A foreign currency resolves to a stored row: the one of the day, else the nearest earlier one,
      else the earliest; and to no row only if the currency has none. */
  lemma ResolutionIsNearest(rows: seq<FxRow>, base: string, day: int)
    requires base != "CNY"
    ensures var r := Resolve(rows, base, day);
            match r.source
            case None => forall row :: row in rows ==> row.base != base
            case Some(source) =>
              FxRow(base, source, r.rate) in rows
              && (r.exact <==> source == day)
              && (source <= day ==> forall row :: row in rows && row.base == base && row.day <= day ==>
                 row.day <= source)
              && (source > day ==> forall row :: row in rows && row.base == base ==> source <= row.day)
  {
    OnDayIsExact(rows, base, day);
    LatestUpToIsLatest(rows, base, day);
    EarliestIsEarliest(rows, base);
  }

  /** The plain reader and the resolver give one rate for one day. */
  lemma ReadersAgree(rows: seq<FxRow>, base: string, day: int)
    requires base != "CNY" && UniqueDays(rows)
    ensures GetRate(rows, base, day) == Resolve(rows, base, day).rate
  {
    OnDayIsExact(rows, base, day);
    LatestUpToIsLatest(rows, base, day);
    if OnDay(rows, base, day).Some? {
      var a, b := OnDay(rows, base, day).value, LatestUpTo(rows, base, day).value;
      assert a.day == b.day;
      var i :| 0 <= i < |rows| && rows[i] == a;
      var j :| 0 <= j < |rows| && rows[j] == b;
      assert i == j;
    }
  }
}
