/** The ledger and the export events together: whatever billing does, an event run never finds a changed
    ledger fact. */
module LedgerEvents {
  import opened Prelude
  import BillingUnits
  import opened ExportEvents
  import opened EventSources
  import EventFacts
  import Ledger
  import LedgerLaws
  import BillingRuns
  import Timestamps
  import LedgerStore

  // ----- the event row of a charge -----

  /** How uuids, instants and days are written. */
  datatype Texts = Texts(contractUuid: int -> string, stamp: int -> string, date: int -> string)

  /** `billing_unit_id` of a new charge. */
  function UnitLabel(t: Texts, owner: BillingUnits.Owner): string {
    if owner.credential.Some? then owner.credential.value else "contract:" + t.contractUuid(owner.contract)
  }

  function Written(write: int -> string, value: Option<int>): Option<string> {
    if value.Some? then Some(write(value.value)) else None
  }

  /** The columns that the insert of a charge fills in; its position is its id. */
  function ChargeColumns(t: Texts, id: nat, row: Ledger.Charge): ProxyCharge {
    ProxyCharge(id, t.stamp(row.start), UnitLabel(t, row.owner), row.owner.credential.GetOr(""),
                t.contractUuid(row.owner.contract), row.owner.contract,
                if row.account >= 0 then Some(row.account) else None,
                Some(row.price), row.normalized, row.currency, "CNY",
                Written(t.date, row.fxDay), Written(t.stamp, row.finalizedAt))
  }

  function ChargeTable(t: Texts, rows: seq<Ledger.Charge>): (charges: seq<ProxyCharge>)
    ensures |charges| == |rows| && forall i :: 0 <= i < |rows| ==> charges[i] == ChargeColumns(t, i, rows[i])
  {
    if rows == [] then []
    else ChargeTable(t, rows[..|rows| - 1]) + [ChargeColumns(t, |rows| - 1, rows[|rows| - 1])]
  }

  /** The tables an event run reads when there are no agent subscriptions. */
  function Tables(t: Texts, rows: seq<Ledger.Charge>, identities: seq<Identity>): Database {
    Database(ChargeTable(t, rows), [], [], identities, map[], Labels(map[], map[], map[], map[], map[]))
  }

  function RowAt(t: Texts, rows: seq<Ledger.Charge>, identities: seq<Identity>, i: nat): Option<Row>
    requires i < |rows|
  {
    RowOfCharge(ChargeColumns(t, i, rows[i]), Tables(t, rows, identities))
  }

  function RowsOf(t: Texts, rows: seq<Ledger.Charge>, identities: seq<Identity>): seq<Row> {
    EventRows(Tables(t, rows, identities))
  }

  /** Accounts are added and renamed, but keep their uuid and kind. */
  ghost predicate Stable(before: seq<Identity>, after: seq<Identity>) {
    forall id: nat :: KeepsIdentity(IdentityOf(before, id), IdentityOf(after, id))
  }

  predicate KeepsIdentity(before: Option<Identity>, after: Option<Identity>) {
    before.Some? ==> after.Some? && after.value == before.value.(name := after.value.name)
  }

  /** The same row but for the account's name. */
  predicate SameRow(a: Row, b: Row) { a.eventKey == b.eventKey && SamePayload(a.payload, b.payload) }

  /** A frozen charge keeps its event row, up to renames, through billing and account changes. */
  lemma FrozenRowIsKept(t: Texts, rows: seq<Ledger.Charge>, later: seq<Ledger.Charge>, identities: seq<Identity>,
                        renamed: seq<Identity>, i: nat)
    requires LedgerLaws.Extends(rows, later) && Stable(identities, renamed)
    requires i < |rows| && RowAt(t, rows, identities, i).Some?
    ensures RowAt(t, later, renamed, i).Some?
    ensures SameRow(RowAt(t, rows, identities, i).value, RowAt(t, later, renamed, i).value)
  {
    assert LedgerLaws.SameFact(rows[i], later[i]) && later[i] == rows[i];
    var account: nat := rows[i].account;
    assert KeepsIdentity(IdentityOf(identities, account), IdentityOf(renamed, account));
  }

  // ----- listing the frozen charges -----

  lemma TablesHaveKeys(t: Texts, rows: seq<Ledger.Charge>, identities: seq<Identity>)
    ensures PrimaryKeys(Tables(t, rows, identities)) && DistinctSources(RowsOf(t, rows, identities))
    ensures RowsOf(t, rows, identities) == ChargeRows(ChargeTable(t, rows), Tables(t, rows, identities))
  {
    SourcesAreDistinct(Tables(t, rows, identities));
  }

  lemma {:induction false} ListedCharge(charges: seq<ProxyCharge>, db: Database, r: Row) returns (i: nat)
    requires r in ChargeRows(charges, db)
    ensures i < |charges| && RowOfCharge(charges[i], db) == Some(r)
  {
    var n := |charges| - 1;
    if r in ChargeRows(charges[..n], db) {
      i := ListedCharge(charges[..n], db, r);
    } else {
      i := n;
    }
  }

  /** A row is listed exactly when it is the row of a frozen charge, and its source names the charge. */
  lemma ListedRow(t: Texts, rows: seq<Ledger.Charge>, identities: seq<Identity>, r: Row) returns (i: nat)
    requires r in RowsOf(t, rows, identities)
    ensures i < |rows| && RowAt(t, rows, identities, i) == Some(r)
    ensures r.payload.table == PeriodCharges && r.payload.key == OfCharge(i)
  {
    TablesHaveKeys(t, rows, identities);
    i := ListedCharge(ChargeTable(t, rows), Tables(t, rows, identities), r);
  }

  lemma FrozenIsListed(t: Texts, rows: seq<Ledger.Charge>, identities: seq<Identity>, i: nat)
    requires i < |rows| && RowAt(t, rows, identities, i).Some?
    ensures RowAt(t, rows, identities, i).value in RowsOf(t, rows, identities)
  {
    TablesHaveKeys(t, rows, identities);
    ChargeIsListed(ChargeTable(t, rows), Tables(t, rows, identities), ChargeTable(t, rows)[i]);
  }

  // ----- every event states a frozen charge -----

  /** The event was made from frozen charge `i`. */
  ghost predicate States(t: Texts, rows: seq<Ledger.Charge>, identities: seq<Identity>, e: Event, i: nat) {
    i < |rows| && RowAt(t, rows, identities, i).Some? && SameRow(e.row, RowAt(t, rows, identities, i).value)
  }

  ghost predicate StatesSome(t: Texts, rows: seq<Ledger.Charge>, identities: seq<Identity>, e: Event) {
    exists i: nat :: States(t, rows, identities, e, i)
  }

  ghost predicate Sound(t: Texts, rows: seq<Ledger.Charge>, identities: seq<Identity>, events: seq<Event>) {
    UniqueEvents(events) && forall k :: 0 <= k < |events| ==> StatesSome(t, rows, identities, events[k])
  }

  lemma BillingKeepsEvents(t: Texts, rows: seq<Ledger.Charge>, later: seq<Ledger.Charge>, identities: seq<Identity>,
                           renamed: seq<Identity>, events: seq<Event>)
    requires Sound(t, rows, identities, events) && LedgerLaws.Extends(rows, later) && Stable(identities, renamed)
    ensures Sound(t, later, renamed, events)
  {
    forall k | 0 <= k < |events| ensures StatesSome(t, later, renamed, events[k]) {
      var i: nat :| States(t, rows, identities, events[k], i);
      FrozenRowIsKept(t, rows, later, identities, renamed, i);
      assert States(t, later, renamed, events[k], i);
    }
  }

  lemma EventsGrowSoundly(t: Texts, rows: seq<Ledger.Charge>, identities: seq<Identity>, events: seq<Event>)
    requires Sound(t, rows, identities, events) && InsertAll(events, RowsOf(t, rows, identities)).Some?
    ensures Sound(t, rows, identities, InsertAll(events, RowsOf(t, rows, identities)).value)
  {
    var listed := RowsOf(t, rows, identities);
    var after, missing := InsertAll(events, listed).value, Missing(events, listed);
    TablesHaveKeys(t, rows, identities);
    RunKeepsUnique(events, listed);
    RunAppendsMissing(events, listed);
    MissingAreRows(events, listed);
    NumberedRows(NextId(events), missing);
    forall k | 0 <= k < |after| ensures StatesSome(t, rows, identities, after[k]) {
      if k < |events| {
        assert after[k] == events[k];
      } else {
        var r := missing[k - |events|];
        assert after[k].row == r && r in listed;
        var i := ListedRow(t, rows, identities, r);
        assert States(t, rows, identities, after[k], i);
      }
    }
  }

  // ----- when an event run raises -----

  ghost predicate DistinctKeys(rows: seq<Row>) {
    forall i, j :: 0 <= i < j < |rows| ==> rows[i].eventKey != rows[j].eventKey
  }

  /** The frozen charge that an event states. */
  lemma StatedCharge(t: Texts, rows: seq<Ledger.Charge>, identities: seq<Identity>, events: seq<Event>, e: Event)
    returns (i: nat)
    requires Sound(t, rows, identities, events) && e in events
    ensures States(t, rows, identities, e, i) && e.row.payload.key == OfCharge(i)
  {
    var k :| 0 <= k < |events| && events[k] == e;
    assert StatesSome(t, rows, identities, events[k]);
    i :| States(t, rows, identities, e, i);
  }

  /** The event of a listed row, when there is one, states that row. */
  lemma EventOfListed(t: Texts, rows: seq<Ledger.Charge>, identities: seq<Identity>, events: seq<Event>, r: Row)
    requires Sound(t, rows, identities, events) && r in RowsOf(t, rows, identities)
    ensures BySource(events, r.payload).Some? ==>
              BySource(events, r.payload).value in events && SameRow(BySource(events, r.payload).value.row, r)
  {
    SourceLookup(events, r.payload);
    if BySource(events, r.payload).Some? {
      var i := StatedCharge(t, rows, identities, events, BySource(events, r.payload).value);
      var j := ListedRow(t, rows, identities, r);
    }
  }

  /** An event with the key of a listed row is, when keys are distinct, the event of that row. */
  lemma KeyMeansSource(t: Texts, rows: seq<Ledger.Charge>, identities: seq<Identity>, events: seq<Event>, r: Row)
    requires Sound(t, rows, identities, events) && r in RowsOf(t, rows, identities)
    requires DistinctKeys(RowsOf(t, rows, identities)) && ByKey(events, r.eventKey).Some?
    ensures BySource(events, r.payload).Some?
  {
    KeyLookup(events, r.eventKey);
    var e := ByKey(events, r.eventKey).value;
    var i := StatedCharge(t, rows, identities, events, e);
    var stated := RowAt(t, rows, identities, i).value;
    FrozenIsListed(t, rows, identities, i);
    OneRowPerKey(RowsOf(t, rows, identities), stated, r);
    SourceLookup(events, r.payload);
  }

  lemma OneRowPerKey(listed: seq<Row>, a: Row, b: Row)
    requires DistinctKeys(listed) && a in listed && b in listed && a.eventKey == b.eventKey
    ensures a == b
  {
    var i :| 0 <= i < |listed| && listed[i] == a;
    var j :| 0 <= j < |listed| && listed[j] == b;
  }

  lemma DistinctKeysSucceed(t: Texts, rows: seq<Ledger.Charge>, identities: seq<Identity>, events: seq<Event>)
    requires Sound(t, rows, identities, events) && DistinctKeys(RowsOf(t, rows, identities))
    ensures InsertAll(events, RowsOf(t, rows, identities)).Some?
  {
    var listed := RowsOf(t, rows, identities);
    TablesHaveKeys(t, rows, identities);
    RunSucceedsIff(events, listed);
    forall i | 0 <= i < |listed| ensures Accepted(events, listed, i) {
      assert listed[i] in listed;
      EventOfListed(t, rows, identities, events, listed[i]);
      if BySource(events, listed[i].payload).None? && ByKey(events, listed[i].eventKey).Some? {
        KeyMeansSource(t, rows, identities, events, listed[i]);
      }
    }
  }

  /** A row that has no event cannot share its key with one that has. */
  lemma KeyIsTaken(t: Texts, rows: seq<Ledger.Charge>, identities: seq<Identity>, events: seq<Event>, i: nat, j: nat)
    requires Sound(t, rows, identities, events)
    requires var listed := RowsOf(t, rows, identities);
             i < |listed| && j < |listed| && listed[i].eventKey == listed[j].eventKey
               && BySource(events, listed[i].payload).Some?
             && BySource(events, listed[j].payload).None?
    ensures !Accepted(events, RowsOf(t, rows, identities), j)
  {
    var listed := RowsOf(t, rows, identities);
    assert listed[i] in listed;
    EventOfListed(t, rows, identities, events, listed[i]);
    KeyLookup(events, listed[j].eventKey);
  }

  lemma TwoEventsOfOneKey(t: Texts, rows: seq<Ledger.Charge>, identities: seq<Identity>, events: seq<Event>,
          i: nat, j: nat)
    requires Sound(t, rows, identities, events)
    requires var listed := RowsOf(t, rows, identities);
             i < j < |listed| && BySource(events, listed[i].payload).Some? && BySource(events, listed[j].payload).Some?
    ensures RowsOf(t, rows, identities)[i].eventKey != RowsOf(t, rows, identities)[j].eventKey
  {
    var listed := RowsOf(t, rows, identities);
    TablesHaveKeys(t, rows, identities);
    assert listed[i] in listed && listed[j] in listed && !SameSource(listed[i].payload, listed[j].payload);
    EventOfListed(t, rows, identities, events, listed[i]);
    EventOfListed(t, rows, identities, events, listed[j]);
    var a :| 0 <= a < |events| && events[a] == BySource(events, listed[i].payload).value;
    var b :| 0 <= b < |events| && events[b] == BySource(events, listed[j].payload).value;
    assert a != b;
  }

  /** No ledger fact ever changes under its event: an event run raises exactly when two frozen charges
      would share an event key, that is, a unit label and a period start. */
  lemma LedgerRunSucceedsIff(t: Texts, rows: seq<Ledger.Charge>, identities: seq<Identity>, events: seq<Event>)
    requires Sound(t, rows, identities, events)
    ensures InsertAll(events, RowsOf(t, rows, identities)).Some? <==> DistinctKeys(RowsOf(t, rows, identities))
  {
    var listed := RowsOf(t, rows, identities);
    if DistinctKeys(listed) {
      DistinctKeysSucceed(t, rows, identities, events);
    } else {
      var i, j :| 0 <= i < j < |listed| && listed[i].eventKey == listed[j].eventKey;
      TablesHaveKeys(t, rows, identities);
      RunSucceedsIff(events, listed);
      match (BySource(events, listed[i].payload), BySource(events, listed[j].payload))
      case (Some(_), Some(_)) => TwoEventsOfOneKey(t, rows, identities, events, i, j);
      case (Some(_), None) => KeyIsTaken(t, rows, identities, events, i, j);
      case (None, Some(_)) => KeyIsTaken(t, rows, identities, events, j, i);
      case (None, None) => assert !Accepted(events, listed, j);
    }
  }

  // ----- whole runs -----

  datatype Books = Books(billing: BillingRuns.System, identities: seq<Identity>, events: seq<Event>)

  datatype Turn =
    | Billed(e: BillingRuns.Event)
    | AccountsChanged(identities: seq<Identity>)     // accounts added or renamed
    | Exported                                       // an event run; nothing happens when it raises

  ghost predicate Allowed(b: Books, turn: Turn) {
    match turn
    case Billed(e) => BillingRuns.Enabled(b.billing, e)
    case AccountsChanged(identities) => Stable(b.identities, identities)
    case Exported => true
  }

  function Take(t: Texts, b: Books, turn: Turn): Books
    requires Allowed(b, turn)
  {
    match turn
    case Billed(e) => b.(billing := BillingRuns.Step(b.billing, e))
    case AccountsChanged(identities) => b.(identities := identities)
    case Exported =>
      var after := InsertAll(b.events, RowsOf(t, b.billing.rows, b.identities));
      if after.Some? then b.(events := after.value) else b
  }

  ghost predicate Possible(t: Texts, b: Books, turns: seq<Turn>)
    decreases |turns|
  {
    turns == [] || (Allowed(b, turns[0]) && Possible(t, Take(t, b, turns[0]), turns[1..]))
  }

  function TakeAll(t: Texts, b: Books, turns: seq<Turn>): Books
    requires Possible(t, b, turns)
    decreases |turns|
  {
    if turns == [] then b else TakeAll(t, Take(t, b, turns[0]), turns[1..])
  }

  ghost predicate InOrder(t: Texts, b: Books) {
    LedgerLaws.TidyAll(b.billing.rows, b.billing.clock) && Sound(t, b.billing.rows, b.identities, b.events)
  }

  lemma SameIdentities(identities: seq<Identity>)
    ensures Stable(identities, identities)
  {
  }

  lemma TurnKeepsOrder(t: Texts, b: Books, turn: Turn)
    requires Allowed(b, turn) && InOrder(t, b)
    ensures InOrder(t, Take(t, b, turn))
  {
    match turn
    case Billed(e) =>
      BillingRuns.StepIsSafe(b.billing, e);
      SameIdentities(b.identities);
      BillingKeepsEvents(t, b.billing.rows, BillingRuns.Step(b.billing, e).rows, b.identities, b.identities, b.events);
    case AccountsChanged(identities) =>
      BillingKeepsEvents(t, b.billing.rows, b.billing.rows, b.identities, identities, b.events);
    case Exported =>
      if InsertAll(b.events, RowsOf(t, b.billing.rows, b.identities)).Some? {
        EventsGrowSoundly(t, b.billing.rows, b.identities, b.events);
      }
  }

  lemma {:induction false} RunsKeepOrder(t: Texts, b: Books, turns: seq<Turn>)
    requires Possible(t, b, turns) && InOrder(t, b)
    ensures InOrder(t, TakeAll(t, b, turns))
    decreases |turns|
  {
    if turns != [] {
      TurnKeepsOrder(t, b, turns[0]);
      RunsKeepOrder(t, Take(t, b, turns[0]), turns[1..]);
    }
  }

  /** Over any run of polls, materializations, price and rate changes, account changes and event runs, every
      event states a charge that is still recorded as it was, and the next event run raises exactly when
      two frozen charges share a key. */
  lemma RunsNeverChangeFacts(t: Texts, b: Books, turns: seq<Turn>)
    requires Possible(t, b, turns) && InOrder(t, b)
    ensures var after := TakeAll(t, b, turns);
            var listed := RowsOf(t, after.billing.rows, after.identities);
            && Sound(t, after.billing.rows, after.identities, after.events)
            && (InsertAll(after.events, listed).Some? <==> DistinctKeys(listed))
  {
    RunsKeepOrder(t, b, turns);
    var after := TakeAll(t, b, turns);
    LedgerRunSucceedsIff(t, after.billing.rows, after.identities, after.events);
  }

  // ----- when keys are distinct -----

  /** The recorded starts are written in one length, each in its own way. */
  ghost predicate Legible(t: Texts, rows: seq<Ledger.Charge>) {
    forall i, j :: 0 <= i < |rows| && 0 <= j < |rows| ==> LegiblePair(t, rows[i].start, rows[j].start)
  }

  predicate LegiblePair(t: Texts, a: int, b: int) {
    |t.stamp(a)| == |t.stamp(b)| && (t.stamp(a) == t.stamp(b) ==> a == b)
  }

  /** Canonical texts of the years 0 to 9999 are legible. */
  lemma CanonicalIsLegible(t: Texts, rows: seq<Ledger.Charge>)
    requires t.stamp == Timestamps.Written
    requires forall i :: 0 <= i < |rows| ==> Timestamps.IsInstant(rows[i].start)
    ensures Legible(t, rows)
  {
    forall i, j | 0 <= i < |rows| && 0 <= j < |rows|
      ensures LegiblePair(t, rows[i].start, rows[j].start)
    {
      Timestamps.WrittenKeepsOrder(rows[i].start, rows[j].start);
    }
  }

  /** No credential is billed under two contracts. */
  ghost predicate OneOwnerPerUnit(t: Texts, rows: seq<Ledger.Charge>) {
    && (forall i :: 0 <= i < |rows| ==> UnitLabel(t, rows[i].owner) != "")
    && forall i, j ::
         0 <= i < |rows| && 0 <= j < |rows| && UnitLabel(t, rows[i].owner) == UnitLabel(t, rows[j].owner) ==>
           rows[i].owner == rows[j].owner
  }

  lemma KeyParts(u: string, s: string, v: string, w: string)
    requires |s| == |w|
    ensures "proxy:" + u + ":" + s == "proxy:" + v + ":" + w ==> u == v && s == w
  {
    var x, y := "proxy:" + u + ":" + s, "proxy:" + v + ":" + w;
    if x == y {
      assert |u| == |v|;
      assert u == x[6..6 + |u|] && v == y[6..6 + |v|];
      assert s == x[7 + |u|..] && w == y[7 + |v|..];
    }
  }

  /** In a tidy ledger whose credentials each stay under one contract an event run never raises. */
  lemma TidyLedgerHasDistinctKeys(t: Texts, rows: seq<Ledger.Charge>, identities: seq<Identity>, last: int)
    requires LedgerLaws.TidyAll(rows, last) && Legible(t, rows) && OneOwnerPerUnit(t, rows)
    ensures DistinctKeys(RowsOf(t, rows, identities))
  {
    var listed := RowsOf(t, rows, identities);
    TablesHaveKeys(t, rows, identities);
    forall i, j | 0 <= i < j < |listed| ensures listed[i].eventKey != listed[j].eventKey {
      assert listed[i] in listed && listed[j] in listed && !SameSource(listed[i].payload, listed[j].payload);
      var a := ListedRow(t, rows, identities, listed[i]);
      var b := ListedRow(t, rows, identities, listed[j]);
      KeysOfCharges(t, rows, identities, last, a, b);
    }
  }

  lemma KeysOfCharges(t: Texts, rows: seq<Ledger.Charge>, identities: seq<Identity>, last: int, a: nat, b: nat)
    requires LedgerLaws.TidyAll(rows, last) && Legible(t, rows) && OneOwnerPerUnit(t, rows) && a < |rows| && b < |rows|
             && a != b
    requires RowAt(t, rows, identities, a).Some? && RowAt(t, rows, identities, b).Some?
    ensures RowAt(t, rows, identities, a).value.eventKey != RowAt(t, rows, identities, b).value.eventKey
  {
    var u, v := UnitLabel(t, rows[a].owner), UnitLabel(t, rows[b].owner);
    var s, w := t.stamp(rows[a].start), t.stamp(rows[b].start);
    assert LedgerLaws.Tidy(rows, rows[a].owner, last);
    assert LegiblePair(t, rows[a].start, rows[b].start);
    KeyParts(u, s, v, w);
    if u == v {
      assert rows[a].start != rows[b].start;
    }
  }

  /** So over any run from a tidy ledger, as long as starts are written canonically and credentials keep
      their contract, no event run ever raises. */
  lemma CanonicalRunsNeverRaise(t: Texts, b: Books, turns: seq<Turn>)
    requires Possible(t, b, turns) && InOrder(t, b)
    requires var rows := TakeAll(t, b, turns).billing.rows;
             && t.stamp == Timestamps.Written && OneOwnerPerUnit(t, rows)
             && forall i :: 0 <= i < |rows| ==> Timestamps.IsInstant(rows[i].start)
    ensures var after := TakeAll(t, b, turns);
            InsertAll(after.events, RowsOf(t, after.billing.rows, after.identities)).Some?
  {
    var after := TakeAll(t, b, turns);
    RunsKeepOrder(t, b, turns);
    RunsNeverChangeFacts(t, b, turns);
    CanonicalIsLegible(t, after.billing.rows);
    TidyLedgerHasDistinctKeys(t, after.billing.rows, after.identities, after.billing.clock);
  }

  // ----- a ledger that meets all of this -----

  const SAMPLE_TEXTS := Texts((contract: int) => "contract", Timestamps.Written, (day: int) => "day")

  const SAMPLE_IDENTITIES := [Identity(5, "uuid", "account", Proxy)]

  function SampleCharge(start: int, end: int): Ledger.Charge {
    Ledger.Charge(BillingUnits.Owner(1, Some("key")), 5, start, end, 20.0, "CNY", Some(20.0), None, Some(end))
  }

  /** Two consecutive frozen periods of one credential. */
  function SampleRows(start: int, mid: int, end: int): seq<Ledger.Charge> {
    [SampleCharge(start, mid), SampleCharge(mid, end)]
  }

  lemma SampleMeetsRequirements(start: int, mid: int, end: int)
    requires start < mid < end && Timestamps.IsInstant(start) && Timestamps.IsInstant(mid)
    ensures var rows := SampleRows(start, mid, end);
            LedgerLaws.TidyAll(rows, mid) && Legible(SAMPLE_TEXTS, rows) && OneOwnerPerUnit(SAMPLE_TEXTS, rows)
  {
    var rows := SampleRows(start, mid, end);
    TwoAreTidy(rows, mid);
    TwoOfOneOwner(SAMPLE_TEXTS, rows);
    CanonicalIsLegible(SAMPLE_TEXTS, rows);
  }

  lemma TwoAreTidy(rows: seq<Ledger.Charge>, last: int)
    requires |rows| == 2 && rows[0].start < rows[0].end <= rows[1].start < rows[1].end && rows[1].start <= last
    ensures LedgerLaws.TidyAll(rows, last)
  {
  }

  lemma TwoOfOneOwner(t: Texts, rows: seq<Ledger.Charge>)
    requires |rows| == 2 && rows[0].owner == rows[1].owner && UnitLabel(t, rows[0].owner) != ""
    ensures OneOwnerPerUnit(t, rows)
  {
  }

  lemma TwoAreListed(charges: seq<ProxyCharge>, db: Database)
    requires |charges| == 2 && RowOfCharge(charges[0], db).Some? && RowOfCharge(charges[1], db).Some?
    ensures |ChargeRows(charges, db)| == 2
  {
    assert charges[..1] == [charges[0]] && charges[..1][..0] == [];
    assert |ChargeRows(charges[..1], db)| == 1;
  }

  lemma SampleIsListed(start: int, mid: int, end: int)
    ensures |RowsOf(SAMPLE_TEXTS, SampleRows(start, mid, end), SAMPLE_IDENTITIES)| == 2
  {
    var rows := SampleRows(start, mid, end);
    var db := Tables(SAMPLE_TEXTS, rows, SAMPLE_IDENTITIES);
    TablesHaveKeys(SAMPLE_TEXTS, rows, SAMPLE_IDENTITIES);
    assert IdentityOf(SAMPLE_IDENTITIES, 5) == Some(SAMPLE_IDENTITIES[0]);
    TwoAreListed(ChargeTable(SAMPLE_TEXTS, rows), db);
  }

  /** The sample meets every requirement above, and its event run makes both events. */
  lemma ConsecutiveChargesAreExported(start: int, mid: int, end: int)
    requires start < mid < end && Timestamps.IsInstant(start) && Timestamps.IsInstant(mid)
    ensures var rows := SampleRows(start, mid, end);
            var listed := RowsOf(SAMPLE_TEXTS, rows, SAMPLE_IDENTITIES);
            && LedgerLaws.TidyAll(rows, mid) && Legible(SAMPLE_TEXTS, rows) && OneOwnerPerUnit(SAMPLE_TEXTS, rows)
            && |listed| == 2 && InsertAll([], listed).Some?
  {
    var rows := SampleRows(start, mid, end);
    SampleMeetsRequirements(start, mid, end);
    SampleIsListed(start, mid, end);
    TidyLedgerHasDistinctKeys(SAMPLE_TEXTS, rows, SAMPLE_IDENTITIES, mid);
    LedgerRunSucceedsIff(SAMPLE_TEXTS, rows, SAMPLE_IDENTITIES, []);
  }

  // ----- the operation -----

  class Materializer {
    const store: LedgerStore.Store
    const log: EventLog

    constructor (store: LedgerStore.Store, log: EventLog)
      ensures this.store == store && this.log == log
    {
      this.store, this.log := store, log;
    }

    /** `materialize_period_charges_conn` on a caller's transaction, which is rolled back when the event run
        raises: charges, events, and a count that is zero exactly when neither changed. `agents` holds the
        tables of agent subscriptions and the accounts. */
    method MaterializePeriodCharges(t: Texts, agents: Database, units: seq<BillingUnits.Unit>, moment: int)
      returns (changed: Option<nat>)
      modifies store`rows, log
      ensures changed.None? ==> store.rows == old(store.rows) && log.events == old(log.events)
      ensures changed.Some? ==>
                && store.rows == Ledger.Materialize(old(store.rows), units, moment, store.PricesNow())
                && InsertAll(old(log.events), EventRows(agents.(charges := ChargeTable(t, store.rows)))) ==
                   Some(log.events)
                && (changed.value == 0 <==> store.rows == old(store.rows) && log.events == old(log.events))
      ensures changed.None? ==>
                var rows := Ledger.Materialize(old(store.rows), units, moment, store.PricesNow());
                InsertAll(old(log.events), EventRows(agents.(charges := ChargeTable(t, rows)))).None?
    {
      var before := store.rows;
      var charged := store.MaterializePeriodCharges(units, moment);
      var db := agents.(charges := ChargeTable(t, store.rows));
      var created := log.EnsureEvents(db);
      if created.None? {
        store.rows := before;
        return None;
      }
      EventsOnlyGrow(old(log.events), EventRows(db));
      return Some(charged + created.value);
    }
  }

  lemma {:induction false} EventsOnlyGrow(events: seq<Event>, rows: seq<Row>)
    requires InsertAll(events, rows).Some?
    ensures events <= InsertAll(events, rows).value
  {
    if rows != [] {
      EventsOnlyGrow(events, rows[..|rows| - 1]);
      InsertedIff(InsertAll(events, rows[..|rows| - 1]).value, rows[|rows| - 1]);
    }
  }

  // ----- every frozen charge is exported -----

  /** The event carries the charge's owner, first moment, price, amount and rate day. */
  ghost predicate StatesCharge(t: Texts, row: Ledger.Charge, i: nat, ai: Identity, p: Payload) {
    && p.kind == Proxy && p.table == PeriodCharges && p.key == OfCharge(i)
    && p.terms.account == ai.id && p.terms.accountUuid == ai.uuid && p.accountName == ai.name
    && p.terms.start == t.stamp(row.start) && p.terms.recurring == row.price && p.terms.normalized == row.normalized
    && (row.currency != "" ==> p.terms.currency == row.currency)
    && (if row.fxDay.Some? then p.terms.fxDate == Some(t.date(row.fxDay.value)) else p.terms.fxDate == None)
    && (row.finalizedAt.Some? ==> EventFacts.IsHead(p.terms.frozenOn, t.stamp(row.finalizedAt.value), 10))
    && (match row.owner.credential
        case Some(uuid) => uuid != "" ==> p.unit == Other(uuid)
        case None => p.unit == Other("contract:" + t.contractUuid(row.owner.contract)))
  }

  lemma ColumnsStateCharge(t: Texts, row: Ledger.Charge, i: nat, ai: Identity, r: Row)
    requires row.finalizedAt.Some? && EventFacts.StatesProxy(r, ChargeColumns(t, i, row), ai)
    ensures StatesCharge(t, row, i, ai, r.payload)
  {
    var columns := ChargeColumns(t, i, row);
    assert EventFacts.NamesUnit(r.payload.unit.text, columns);
    if row.owner.credential.None? {
      assert ("contract:" + t.contractUuid(row.owner.contract))[0] == 'c';
    }
  }

  /** After an event run that does not raise, every frozen charge of a proxy account has exactly one event,
      which states it. */
  lemma FrozenChargeIsExported(t: Texts, rows: seq<Ledger.Charge>, identities: seq<Identity>, events: seq<Event>,
          i: nat, ai: Identity)
    requires UniqueEvents(events) && EventFacts.DistinctIdentities(Tables(t, rows, identities))
    requires InsertAll(events, RowsOf(t, rows, identities)).Some?
    requires i < |rows| && rows[i].finalizedAt.Some? && rows[i].account == ai.id && ai in identities && ai.kind == Proxy
    ensures exists r: Row :: StatesCharge(t, rows[i], i, ai, r.payload)
                        && EventFacts.HasEvent(InsertAll(events, RowsOf(t, rows, identities)).value, r)
  {
    var db, columns := Tables(t, rows, identities), ChargeColumns(t, i, rows[i]);
    TablesHaveKeys(t, rows, identities);
    EventFacts.EveryFactHasOneEvent(events, db);
    assert db.charges[i] == columns && columns in db.charges;
    assert EventFacts.ProxyFact(db, columns, ai);
    var r :| EventFacts.StatesProxy(r, columns, ai) && EventFacts.HasEvent(InsertAll(events, EventRows(db)).value, r);
    ColumnsStateCharge(t, rows[i], i, ai, r);
  }
}
