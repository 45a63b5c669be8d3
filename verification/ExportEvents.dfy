/** The immutable export events of finalized recurring charges. */
module ExportEvents {
  import opened Prelude

  // ----- events -----

  datatype Kind = Proxy | Agent

  datatype Table = PeriodCharges | AgentCharges | AgentAllocations

  /** `source_key`: the decimal id of a charge, or a charge id and a software id joined by a colon. */
  datatype SourceKey = OfCharge(id: nat) | OfAllocation(charge: nat, software: nat)

  /** A unit label, told apart by the two agent prefixes. */
  datatype Unit = Subscription(uuid: string) | Instance(uuid: string) | Other(text: string)

  /** The payload fields no rule singles out. */
  datatype Terms = Terms(
    account: int, accountUuid: string, accountKind: Kind, month: string, start: string, recurring: real,
    normalized: Option<real>, currency: string, base: string, fxDate: Option<string>, frozenOn: string)

  datatype Payload = Payload(kind: Kind, table: Table, key: SourceKey, accountName: string, unit: Unit, terms: Terms)

  datatype Row = Row(eventKey: string, payload: Payload)

  datatype Event = Event(id: nat, row: Row)

  predicate SameSource(a: Payload, b: Payload) { a.table == b.table && a.key == b.key }

  /** `_same_payload`: the account name is a display attribute. */
  predicate SamePayload(a: Payload, b: Payload) {
    SameSource(a, b) && a.kind == b.kind && a.unit == b.unit && a.terms == b.terms
  }

  predicate LegacyUnit(a: Payload, b: Payload) {
    a.kind == b.kind == Agent && a.unit.Subscription? && b.unit.Instance?
  }

  /** `_same_payload_with_legacy_agent_unit`: its second comparison includes the account name. */
  predicate SameFact(a: Payload, b: Payload) {
    SamePayload(a, b) || (LegacyUnit(a, b) && SameSource(a, b) && a.accountName == b.accountName && a.terms == b.terms)
  }

  /** The event states the fact of the payload: it agrees on everything but the account name; or it has
      the older label of an agent's unit, and then the name agrees too. */
  ghost predicate Restates(e: Payload, p: Payload) {
    && e.table == p.table && e.key == p.key && e.kind == p.kind && e.terms == p.terms
    && (e.unit == p.unit
        || (p.kind == Agent && e.unit.Subscription? && p.unit.Instance? && e.accountName == p.accountName))
  }

  /** `... WHERE source_table=? AND source_key=?` */
  function BySource(events: seq<Event>, p: Payload): Option<Event> {
    if events == [] then None
    else
      var last := events[|events| - 1];
      if SameSource(last.row.payload, p) then Some(last) else BySource(events[..|events| - 1], p)
  }

  /** `... WHERE event_key=?` */
  function ByKey(events: seq<Event>, key: string): Option<Event> {
    if events == [] then None
    else
      var last := events[|events| - 1];
      if last.row.eventKey == key then Some(last) else ByKey(events[..|events| - 1], key)
  }

  ghost predicate HasSource(e: Event, table: Table, key: SourceKey) {
    e.row.payload.table == table && e.row.payload.key == key
  }

  lemma {:induction false} SourceLookup(events: seq<Event>, p: Payload)
    ensures BySource(events, p).None? <==> forall i :: 0 <= i < |events| ==> !HasSource(events[i], p.table, p.key)
    ensures BySource(events, p).Some? ==>
            BySource(events, p).value in events && HasSource(BySource(events, p).value, p.table, p.key)
  {
    if events != [] {
      SourceLookup(events[..|events| - 1], p);
    }
  }

  lemma {:induction false} KeyLookup(events: seq<Event>, key: string)
    ensures ByKey(events, key).None? <==> forall i :: 0 <= i < |events| ==> events[i].row.eventKey != key
    ensures ByKey(events, key).Some? ==>
            ByKey(events, key).value in events && ByKey(events, key).value.row.eventKey == key
  {
    if events != [] {
      KeyLookup(events[..|events| - 1], key);
    }
  }

  function NextId(events: seq<Event>): nat {
    if events == [] then 1 else events[|events| - 1].id + 1
  }

  /** `_insert_event`; None stands for the ValueError of a changed payload. */
  function Insert(events: seq<Event>, row: Row): Option<seq<Event>> {
    match BySource(events, row.payload)
    case Some(e) => if SameFact(e.row.payload, row.payload) then Some(events) else None
    case None =>
      match ByKey(events, row.eventKey)
      case Some(e) => if SamePayload(e.row.payload, row.payload) then Some(events) else None
      case None => Some(events + [Event(NextId(events), row)])
  }

  function InsertAll(events: seq<Event>, rows: seq<Row>): Option<seq<Event>> {
    if rows == [] then Some(events)
    else
      match InsertAll(events, rows[..|rows| - 1])
      case None => None
      case Some(mid) => Insert(mid, rows[|rows| - 1])
  }

  // ----- one insertion -----

  ghost predicate UniqueEvents(events: seq<Event>) {
    forall i, j :: 0 <= i < j < |events| ==>
      && !HasSource(events[i], events[j].row.payload.table, events[j].row.payload.key)
      && events[i].row.eventKey != events[j].row.eventKey
      && events[i].id < events[j].id
  }

  /** The second lookup can only refuse: an event with the same payload has the same source, and would
      have been found by the first. */
  lemma InsertedIff(events: seq<Event>, row: Row)
    ensures Insert(events, row).Some? <==>
            match BySource(events, row.payload)
            case Some(e) => Restates(e.row.payload, row.payload)
            case None => ByKey(events, row.eventKey).None?
    ensures Insert(events, row).Some? ==>
            Insert(events, row).value ==
              if BySource(events, row.payload).Some? then events else events + [Event(NextId(events), row)]
  {
    SourceLookup(events, row.payload);
    KeyLookup(events, row.eventKey);
  }

  lemma InsertKeepsUnique(events: seq<Event>, row: Row)
    requires UniqueEvents(events) && Insert(events, row).Some?
    ensures UniqueEvents(Insert(events, row).value)
  {
    InsertedIff(events, row);
    SourceLookup(events, row.payload);
    KeyLookup(events, row.eventKey);
  }

  // ----- a whole run -----

  ghost predicate DistinctSources(rows: seq<Row>) {
    forall i, j :: 0 <= i < j < |rows| ==>
      (rows[i].payload.table != rows[j].payload.table || rows[i].payload.key != rows[j].payload.key)
  }

  /** The rows that have no event yet, in order. */
  function Missing(events: seq<Event>, rows: seq<Row>): seq<Row> {
    if rows == [] then []
    else
      var rest, last := Missing(events, rows[..|rows| - 1]), rows[|rows| - 1];
      if BySource(events, last.payload).None? then rest + [last] else rest
  }

  function Numbered(first: nat, rows: seq<Row>): seq<Event> {
    if rows == [] then [] else Numbered(first, rows[..|rows| - 1]) + [Event(first + |rows| - 1, rows[|rows| - 1])]
  }

  lemma {:induction false} NumberedRows(first: nat, rows: seq<Row>)
    ensures |Numbered(first, rows)| == |rows|
    ensures forall i :: 0 <= i < |rows| ==> Numbered(first, rows)[i] == Event(first + i, rows[i])
  {
    if rows != [] {
      NumberedRows(first, rows[..|rows| - 1]);
    }
  }

  lemma {:induction false} MissingAreRows(events: seq<Event>, rows: seq<Row>)
    ensures forall r :: r in Missing(events, rows) ==> r in rows
  {
    if rows != [] {
      MissingAreRows(events, rows[..|rows| - 1]);
    }
  }

  /** A row whose source no new event has is found only among the old events. */
  lemma FoundAmongOld(events: seq<Event>, first: nat, newRows: seq<Row>, p: Payload)
    requires forall r :: r in newRows ==> !SameSource(r.payload, p)
    ensures BySource(events + Numbered(first, newRows), p).None? <==> BySource(events, p).None?
  {
    var all := events + Numbered(first, newRows);
    NumberedRows(first, newRows);
    SourceLookup(events, p);
    SourceLookup(all, p);
    forall i | 0 <= i < |all|
      ensures i < |events| ==> all[i] == events[i]
      ensures i >= |events| ==> !SameSource(all[i].row.payload, p)
    {
      if i >= |events| {
        assert all[i].row == newRows[i - |events|] && newRows[i - |events|] in newRows;
      }
    }
  }

  lemma NextAfterNumbered(events: seq<Event>, newRows: seq<Row>)
    ensures NextId(events + Numbered(NextId(events), newRows)) == NextId(events) + |newRows|
  {
    NumberedRows(NextId(events), newRows);
    if newRows == [] {
      assert events + [] == events;
    }
  }

  lemma MissingOneMore(events: seq<Event>, rows: seq<Row>, first: nat)
    requires rows != []
    ensures var init, last := rows[..|rows| - 1], rows[|rows| - 1];
            Numbered(first, Missing(events, rows)) ==
            Numbered(first, Missing(events, init))
            + if BySource(events, last.payload).None? then [Event(first + |Missing(events, init)|, last)] else []
  {
    var newRows := Missing(events, rows[..|rows| - 1]);
    if BySource(events, rows[|rows| - 1].payload).None? {
      assert Missing(events, rows)[..|newRows|] == newRows;
    }
  }

  /** A run that does not raise appends the rows without an event, verbatim and in order, and alters
      nothing else. */
  lemma {:induction false} RunAppendsMissing(events: seq<Event>, rows: seq<Row>)
    requires DistinctSources(rows) && InsertAll(events, rows).Some?
    ensures InsertAll(events, rows).value == events + Numbered(NextId(events), Missing(events, rows))
  {
    if rows == [] {
      assert events + [] == events;
    } else {
      RunAppendsMissing(events, rows[..|rows| - 1]);
      LastIsAppended(events, rows);
    }
  }

  lemma LastIsAppended(events: seq<Event>, rows: seq<Row>)
    requires rows != [] && DistinctSources(rows) && InsertAll(events, rows).Some?
    requires var init := rows[..|rows| - 1];
             InsertAll(events, init) == Some(events + Numbered(NextId(events), Missing(events, init)))
    ensures InsertAll(events, rows).value == events + Numbered(NextId(events), Missing(events, rows))
  {
    var init, last := rows[..|rows| - 1], rows[|rows| - 1];
    MissingAreRows(events, init);
    FoundAmongOld(events, NextId(events), Missing(events, init), last.payload);
    InsertedIff(InsertAll(events, init).value, last);
    NextAfterNumbered(events, Missing(events, init));
    MissingOneMore(events, rows, NextId(events));
  }

  lemma {:induction false} RunKeepsUnique(events: seq<Event>, rows: seq<Row>)
    requires UniqueEvents(events) && InsertAll(events, rows).Some?
    ensures UniqueEvents(InsertAll(events, rows).value)
  {
    if rows != [] {
      RunKeepsUnique(events, rows[..|rows| - 1]);
      InsertKeepsUnique(InsertAll(events, rows[..|rows| - 1]).value, rows[|rows| - 1]);
    }
  }

  lemma SourceIsFound(events: seq<Event>, e: Event, p: Payload)
    requires UniqueEvents(events) && e in events && SameSource(e.row.payload, p)
    ensures BySource(events, p) == Some(e)
  {
    var i :| 0 <= i < |events| && events[i] == e;
    SourceLookup(events, p);
    var found := BySource(events, p).value;
    var j :| 0 <= j < |events| && events[j] == found;
  }

  ghost predicate Backed(after: seq<Event>, r: Row) {
    BySource(after, r.payload).Some? && Restates(BySource(after, r.payload).value.row.payload, r.payload)
  }

  lemma LastInsertion(events: seq<Event>, rows: seq<Row>) returns (mid: seq<Event>, after: seq<Event>)
    requires UniqueEvents(events) && rows != [] && InsertAll(events, rows).Some?
    ensures InsertAll(events, rows[..|rows| - 1]) == Some(mid) && UniqueEvents(mid)
    ensures InsertAll(events, rows) == Some(after) == Insert(mid, rows[|rows| - 1])
  {
    mid, after := InsertAll(events, rows[..|rows| - 1]).value, InsertAll(events, rows).value;
    RunKeepsUnique(events, rows[..|rows| - 1]);
  }

  lemma InsertKeepsBacked(mid: seq<Event>, last: Row, after: seq<Event>, r: Row)
    requires UniqueEvents(mid) && Insert(mid, last) == Some(after) && Backed(mid, r)
    ensures Backed(after, r)
  {
    var e := BySource(mid, r.payload).value;
    InsertKeepsUnique(mid, last);
    InsertedIff(mid, last);
    SourceLookup(mid, r.payload);
    SourceIsFound(after, e, r.payload);
  }

  lemma InsertBacks(mid: seq<Event>, last: Row, after: seq<Event>)
    requires UniqueEvents(mid) && Insert(mid, last) == Some(after)
    ensures Backed(after, last)
  {
    InsertedIff(mid, last);
    if BySource(mid, last.payload).None? {
      InsertKeepsUnique(mid, last);
      assert after[|mid|] == Event(NextId(mid), last);
      SourceIsFound(after, after[|mid|], last.payload);
    }
  }

  lemma {:induction false} RowIsBacked(events: seq<Event>, rows: seq<Row>, i: nat)
    requires UniqueEvents(events) && InsertAll(events, rows).Some? && i < |rows|
    ensures Backed(InsertAll(events, rows).value, rows[i])
  {
    var n := |rows| - 1;
    if i < n {
      RowIsBacked(events, rows[..n], i);
      BackedAfterLast(events, rows, rows[..n][i]);
    } else {
      LastIsBacked(events, rows);
    }
  }

  lemma BackedAfterLast(events: seq<Event>, rows: seq<Row>, r: Row)
    requires UniqueEvents(events) && rows != [] && InsertAll(events, rows).Some?
    requires Backed(InsertAll(events, rows[..|rows| - 1]).value, r)
    ensures Backed(InsertAll(events, rows).value, r)
  {
    var mid, after := LastInsertion(events, rows);
    InsertKeepsBacked(mid, rows[|rows| - 1], after, r);
  }

  lemma LastIsBacked(events: seq<Event>, rows: seq<Row>)
    requires UniqueEvents(events) && rows != [] && InsertAll(events, rows).Some?
    ensures Backed(InsertAll(events, rows).value, rows[|rows| - 1])
  {
    var mid, after := LastInsertion(events, rows);
    InsertBacks(mid, rows[|rows| - 1], after);
  }

  /** After a run that does not raise, every row has exactly one event of its source, and it states the
      same fact. */
  lemma EveryRowHasItsEvent(events: seq<Event>, rows: seq<Row>, i: nat)
    requires UniqueEvents(events) && InsertAll(events, rows).Some? && i < |rows|
    ensures var after, p := InsertAll(events, rows).value, rows[i].payload;
            && BySource(after, p).Some? && Restates(BySource(after, p).value.row.payload, p)
            && forall e :: e in after && HasSource(e, p.table, p.key) ==> e == BySource(after, p).value
  {
    var after, p := InsertAll(events, rows).value, rows[i].payload;
    RowIsBacked(events, rows, i);
    RunKeepsUnique(events, rows);
    forall e | e in after && HasSource(e, p.table, p.key) ensures e == BySource(after, p).value {
      SourceIsFound(after, e, p);
    }
  }

  /** Whether row `i` is accepted, in terms of the events before the run and the earlier rows. */
  ghost predicate Accepted(events: seq<Event>, rows: seq<Row>, i: nat)
    requires i < |rows|
  {
    match BySource(events, rows[i].payload)
    case Some(e) => Restates(e.row.payload, rows[i].payload)
    case None =>
      && ByKey(events, rows[i].eventKey).None?
      && forall j :: 0 <= j < i && BySource(events, rows[j].payload).None? ==> rows[j].eventKey != rows[i].eventKey
  }

  lemma {:induction false} MissingHolds(events: seq<Event>, rows: seq<Row>, j: nat)
    requires j < |rows| && BySource(events, rows[j].payload).None?
    ensures rows[j] in Missing(events, rows)
  {
    if j < |rows| - 1 {
      assert rows[..|rows| - 1][j] == rows[j];
      MissingHolds(events, rows[..|rows| - 1], j);
    }
  }

  lemma {:induction false} MissingHaveNone(events: seq<Event>, rows: seq<Row>, r: Row)
    requires r in Missing(events, rows)
    ensures exists j :: 0 <= j < |rows| && rows[j] == r && BySource(events, rows[j].payload).None?
  {
    var init, last := rows[..|rows| - 1], rows[|rows| - 1];
    if r in Missing(events, init) {
      MissingHaveNone(events, init, r);
      var j :| 0 <= j < |init| && init[j] == r && BySource(events, init[j].payload).None?;
      assert rows[j] == r;
    }
  }

  ghost predicate NoRowHas(rows: seq<Row>, key: string) {
    forall r :: r in rows ==> r.eventKey != key
  }

  ghost predicate NoNewRowHas(events: seq<Event>, rows: seq<Row>, key: string) {
    forall j :: 0 <= j < |rows| && BySource(events, rows[j].payload).None? ==> rows[j].eventKey != key
  }

  lemma KeyIsFreeInBoth(events: seq<Event>, first: nat, newRows: seq<Row>, key: string)
    ensures ByKey(events + Numbered(first, newRows), key).None? <==> ByKey(events, key).None? && NoRowHas(newRows, key)
  {
    var all := events + Numbered(first, newRows);
    NumberedRows(first, newRows);
    KeyLookup(events, key);
    KeyLookup(all, key);
    forall i | 0 <= i < |all|
      ensures i < |events| ==> all[i] == events[i]
      ensures i >= |events| ==> all[i].row == newRows[i - |events|] && all[i].row in newRows
    {
    }
    forall k | 0 <= k < |newRows|
      ensures all[|events| + k].row == newRows[k]
    {
    }
  }

  lemma MissingKeys(events: seq<Event>, rows: seq<Row>, key: string)
    ensures NoRowHas(Missing(events, rows), key) <==> NoNewRowHas(events, rows, key)
  {
    if NoRowHas(Missing(events, rows), key) {
      forall j | 0 <= j < |rows| && BySource(events, rows[j].payload).None? ensures rows[j].eventKey != key {
        MissingHolds(events, rows, j);
      }
    } else {
      var r :| r in Missing(events, rows) && r.eventKey == key;
      MissingHaveNone(events, rows, r);
    }
  }

  /** A key is free after a run exactly when no old event and no newly inserted row has it. */
  lemma KeyIsFree(events: seq<Event>, rows: seq<Row>, key: string)
    requires DistinctSources(rows) && InsertAll(events, rows).Some?
    ensures ByKey(InsertAll(events, rows).value, key).None? <==>
            && ByKey(events, key).None?
            && forall j :: 0 <= j < |rows| && BySource(events, rows[j].payload).None? ==> rows[j].eventKey != key
  {
    RunAppendsMissing(events, rows);
    KeyIsFreeInBoth(events, NextId(events), Missing(events, rows), key);
    MissingKeys(events, rows, key);
  }

  /** A run raises exactly when some row changes the fact of its event, or takes the key of another. */
  lemma {:induction false} RunSucceedsIff(events: seq<Event>, rows: seq<Row>)
    requires DistinctSources(rows)
    ensures InsertAll(events, rows).Some? <==> forall i :: 0 <= i < |rows| ==> Accepted(events, rows, i)
  {
    if rows != [] {
      var n := |rows| - 1;
      var init, last := rows[..n], rows[n];
      RunSucceedsIff(events, init);
      forall i | 0 <= i < n ensures Accepted(events, init, i) <==> Accepted(events, rows, i) {
        assert forall j :: 0 <= j <= i ==> init[j] == rows[j];
      }
      if InsertAll(events, init).Some? {
        LastIsAccepted(events, rows);
      }
    }
  }

  /** The events a run appends have none of the sources not among its rows. */
  lemma AppendedAreOthers(events: seq<Event>, rows: seq<Row>, p: Payload)
    requires DistinctSources(rows) && InsertAll(events, rows).Some?
    requires forall i :: 0 <= i < |rows| ==> !SameSource(rows[i].payload, p)
    ensures BySource(InsertAll(events, rows).value, p) == BySource(events, p)
  {
    var newRows, after := Missing(events, rows), InsertAll(events, rows).value;
    RunAppendsMissing(events, rows);
    MissingAreRows(events, rows);
    NumberedRows(NextId(events), newRows);
    forall i | |events| <= i < |after| ensures !SameSource(after[i].row.payload, p) {
      assert after[i].row == newRows[i - |events|] && newRows[i - |events|] in rows;
    }
    OldEventIsFound(events, after, p);
  }

  lemma LastIsAccepted(events: seq<Event>, rows: seq<Row>)
    requires rows != [] && DistinctSources(rows) && InsertAll(events, rows[..|rows| - 1]).Some?
    ensures InsertAll(events, rows).Some? <==> Accepted(events, rows, |rows| - 1)
  {
    var init, last := rows[..|rows| - 1], rows[|rows| - 1];
    AppendedAreOthers(events, init, last.payload);
    InsertedIff(InsertAll(events, init).value, last);
    KeyIsFree(events, init, last.eventKey);
    assert forall j :: 0 <= j < |init| ==> init[j] == rows[j];
  }

  /** Appending events of other sources does not change which event a source has. */
  lemma {:induction false} OldEventIsFound(events: seq<Event>, more: seq<Event>, p: Payload)
    requires events <= more
    requires forall i :: |events| <= i < |more| ==> !SameSource(more[i].row.payload, p)
    ensures BySource(more, p) == BySource(events, p)
    decreases |more|
  {
    if |more| > |events| {
      OldEventIsFound(events, more[..|more| - 1], p);
    } else {
      assert more == events;
    }
  }

  // ----- running again -----

  /** Renaming an account is accepted exactly when its event was not recovered from a legacy unit, or
      still has the name. */
  lemma RenamingIsAcceptedIff(a: Payload, b: Payload, name: string)
    requires Restates(a, b)
    ensures Restates(a, b.(accountName := name)) <==> a.unit == b.unit || a.accountName == name
  {
  }

  ghost predicate Renamed(rows: seq<Row>, again: seq<Row>) {
    |again| == |rows| && forall i :: 0 <= i < |rows| ==> RenamedRow(rows[i], again[i])
  }

  predicate RenamedRow(row: Row, again: Row) {
    again == row.(payload := row.payload.(accountName := again.payload.accountName))
  }

  ghost predicate NameAllowed(after: seq<Event>, r: Row) {
    var e := BySource(after, r.payload);
    e.Some? ==> e.value.row.payload.unit == r.payload.unit || e.value.row.payload.accountName == r.payload.accountName
  }

  lemma InsertAgain(after: seq<Event>, e: Event, row: Row, again: Row)
    requires UniqueEvents(after) && BySource(after, row.payload) == Some(e) && Restates(e.row.payload, row.payload)
    requires RenamedRow(row, again)
    ensures Insert(after, again).Some? <==> NameAllowed(after, again)
    ensures Insert(after, again).Some? ==> Insert(after, again) == Some(after)
  {
    SourceLookup(after, row.payload);
    SourceIsFound(after, e, again.payload);
    RenamingIsAcceptedIff(e.row.payload, row.payload, again.payload.accountName);
    InsertedIff(after, again);
  }

  ghost predicate NamesAllowed(after: seq<Event>, rows: seq<Row>) {
    forall i :: 0 <= i < |rows| ==> NameAllowed(after, rows[i])
  }

  ghost predicate AllBacked(after: seq<Event>, rows: seq<Row>) {
    forall i :: 0 <= i < |rows| ==> Backed(after, rows[i])
  }

  lemma BackedRowAgain(after: seq<Event>, row: Row, again: Row)
    requires UniqueEvents(after) && Backed(after, row) && RenamedRow(row, again)
    ensures Insert(after, again).Some? <==> NameAllowed(after, again)
    ensures Insert(after, again).Some? ==> Insert(after, again) == Some(after)
  {
    InsertAgain(after, BySource(after, row.payload).value, row, again);
  }

  lemma {:induction false} BackedRowsInsertNothing(after: seq<Event>, rows: seq<Row>, again: seq<Row>)
    requires UniqueEvents(after) && Renamed(rows, again) && AllBacked(after, rows)
    ensures InsertAll(after, again).Some? ==> InsertAll(after, again) == Some(after)
    ensures InsertAll(after, again).Some? <==> NamesAllowed(after, again)
  {
    if rows != [] {
      var n := |rows| - 1;
      BackedButLast(after, rows, again);
      BackedRowsInsertNothing(after, rows[..n], again[..n]);
      BackedRowAgain(after, rows[n], again[n]);
      OneMoreAgain(after, again, n);
    }
  }

  lemma BackedButLast(after: seq<Event>, rows: seq<Row>, again: seq<Row>)
    requires rows != [] && Renamed(rows, again) && AllBacked(after, rows)
    ensures var n := |rows| - 1;
            && Renamed(rows[..n], again[..n]) && AllBacked(after, rows[..n])
            && RenamedRow(rows[n], again[n]) && Backed(after, rows[n])
  {
  }

  lemma OneMoreAgain(after: seq<Event>, rows: seq<Row>, n: nat)
    requires n + 1 == |rows|
    requires InsertAll(after, rows[..n]).Some? ==> InsertAll(after, rows[..n]) == Some(after)
    requires InsertAll(after, rows[..n]).Some? <==> NamesAllowed(after, rows[..n])
    requires Insert(after, rows[n]).Some? <==> NameAllowed(after, rows[n])
    requires Insert(after, rows[n]).Some? ==> Insert(after, rows[n]) == Some(after)
    ensures InsertAll(after, rows).Some? ==> InsertAll(after, rows) == Some(after)
    ensures InsertAll(after, rows).Some? <==> NamesAllowed(after, rows)
  {
    NamesOneMore(after, rows, n);
  }

  lemma NamesOneMore(after: seq<Event>, rows: seq<Row>, n: nat)
    requires n + 1 == |rows|
    ensures NamesAllowed(after, rows) <==> NamesAllowed(after, rows[..n]) && NameAllowed(after, rows[n])
  {
  }

  /** A second run over the same facts adds nothing, whatever the accounts are called by then; it raises
      exactly when an account behind a legacy unit has been renamed. */
  lemma SecondRunAddsNothing(events: seq<Event>, rows: seq<Row>, again: seq<Row>)
    requires UniqueEvents(events) && InsertAll(events, rows).Some? && Renamed(rows, again)
    ensures var after := InsertAll(events, rows).value;
            && (InsertAll(after, again).Some? ==> InsertAll(after, again) == Some(after))
            && (InsertAll(after, again).Some? <==> forall i :: 0 <= i < |rows| ==> NameAllowed(after, again[i]))
  {
    var after := InsertAll(events, rows).value;
    RunKeepsUnique(events, rows);
    forall i | 0 <= i < |rows| ensures Backed(after, rows[i]) {
      RowIsBacked(events, rows, i);
    }
    BackedRowsInsertNothing(after, rows, again);
  }

  /** The shortest such run: one exported V1 event, its allocation read again under the new unit, and the
      same allocation after a rename. */
  lemma RenamedLegacyUnitRaises(terms: Terms, charge: nat, software: nat, uuid: string, name: string, newName: string)
    requires name != newName
    ensures var key := OfAllocation(charge, software);
            var stored := Event(1, Row("old", Payload(Agent, AgentAllocations, key, name, Subscription(uuid), terms)));
            var row := Row("new", Payload(Agent, AgentAllocations, key, name, Instance(uuid), terms));
            var renamed := Row("new", row.payload.(accountName := newName));
            && UniqueEvents([stored]) && Renamed([row], [renamed])
            && InsertAll([stored], [row]) == Some([stored])
            && InsertAll([stored], [renamed]) == None
  {
    var key := OfAllocation(charge, software);
    var stored := Event(1, Row("old", Payload(Agent, AgentAllocations, key, name, Subscription(uuid), terms)));
    var row := Row("new", Payload(Agent, AgentAllocations, key, name, Instance(uuid), terms));
    var renamed := Row("new", row.payload.(accountName := newName));
    assert [row][..0] == [] && [renamed][..0] == [];
    assert BySource([stored], row.payload) == Some(stored) == BySource([stored], renamed.payload);
  }
}
