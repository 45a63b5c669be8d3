/** Booking export events into the dashboard's actual cost, window by window. */
module EventBooking {
  import opened Prelude
  import opened ExportEvents
  import EventSources
  import opened UsageArchive

  /** `record_billing_export_event`: an event without a normalized cost books nothing. */
  function EventMicro(e: Event): int {
    match e.row.payload.terms.normalized
    case None => 0
    case Some(cost) => Micro(cost)
  }

  /** `_add_actual_cost`; None when a missing user cannot be created. */
  function AddActual(users: seq<User>, account: int, micro: int): Option<seq<User>> {
    if micro == 0 then Some(users)
    else if HasUser(users, account) then Some(AddCost(users, account, micro))
    else if account >= 1 then Some(AddCost(EnsureUser(users, account), account, micro))
    else None
  }

  predicate InWindow(e: Event, lo: int, hi: int) { lo < e.id <= hi }

  /** Every event of a window, in the order of its ids. */
  function BookWindow(users: seq<User>, events: seq<Event>, lo: int, hi: int): Option<seq<User>> {
    if events == [] then Some(users)
    else
      var last := events[|events| - 1];
      match BookWindow(users, events[..|events| - 1], lo, hi)
      case None => None
      case Some(mid) => if InWindow(last, lo, hi) then AddActual(mid, last.row.payload.terms.account, EventMicro(last))
        else Some(mid)
  }

  /** The cost, rounded event by event, of a window. */
  function WindowMicro(events: seq<Event>, lo: int, hi: int): int {
    if events == [] then 0
    else
      WindowMicro(events[..|events| - 1], lo, hi)
      + if InWindow(events[|events| - 1], lo, hi) then EventMicro(events[|events| - 1]) else 0
  }

  lemma AddingActual(users: seq<User>, account: int, micro: int)
    requires AddActual(users, account, micro).Some?
    ensures ActualTotal(AddActual(users, account, micro).value) == ActualTotal(users) + micro
    ensures HasUser(users, 0) ==> HasUser(AddActual(users, account, micro).value, 0)
  {
    if micro != 0 {
      var ensured := EnsureUser(users, account);
      AddCostAdds(ensured, account, micro);
      AddCostKeepsUsers(ensured, account, micro, 0);
      HasUserAppend(users, User(account, 0), account);
      HasUserAppend(users, User(account, 0), 0);
      assert (users + [User(account, 0)])[..|users|] == users;
    }
  }

  lemma {:induction false} BookingAWindow(users: seq<User>, events: seq<Event>, lo: int, hi: int)
    requires BookWindow(users, events, lo, hi).Some?
    ensures ActualTotal(BookWindow(users, events, lo, hi).value) == ActualTotal(users) + WindowMicro(events, lo, hi)
    ensures HasUser(users, 0) ==> HasUser(BookWindow(users, events, lo, hi).value, 0)
  {
    if events != [] {
      var init, last := events[..|events| - 1], events[|events| - 1];
      BookingAWindow(users, init, lo, hi);
      if InWindow(last, lo, hi) {
        AddingActual(BookWindow(users, init, lo, hi).value, last.row.payload.terms.account, EventMicro(last));
      }
    }
  }

  lemma {:induction false} EventWindowsAdd(events: seq<Event>, lo: int, mid: int, hi: int)
    requires lo <= mid <= hi
    ensures WindowMicro(events, lo, hi) == WindowMicro(events, lo, mid) + WindowMicro(events, mid, hi)
  {
    if events != [] {
      EventWindowsAdd(events[..|events| - 1], lo, mid, hi);
    }
  }

  /** Events appended beyond a bound do not change the windows up to it. */
  lemma {:induction false} LaterEventsDoNotCount(events: seq<Event>, more: seq<Event>, lo: int, hi: int)
    requires events <= more && forall i :: |events| <= i < |more| ==> more[i].id > hi
    ensures WindowMicro(more, lo, hi) == WindowMicro(events, lo, hi)
    decreases |more|
  {
    if |more| > |events| {
      LaterEventsDoNotCount(events, more[..|more| - 1], lo, hi);
    } else {
      assert more == events;
    }
  }

  // ----- a life of runs, exports and archivings -----

  datatype Books = Books(events: seq<Event>, mark: int, users: seq<User>)

  datatype Turn =
    | Ensured(db: EventSources.Database)   // `ensure_billing_export_events_conn`; undone when it raises
    | Exported                             // the window (mark, MAX(id)], then the new mark; discarded when it raises
    | Archived(id: int)

  function MaxEventId(events: seq<Event>): int { if events == [] then 0 else events[|events| - 1].id }

  function Take(b: Books, turn: Turn): Books {
    match turn
    case Ensured(db) =>
      var after := InsertAll(b.events, EventSources.EventRows(db));
      if after.Some? then b.(events := after.value) else b
    case Exported =>
      var users := BookWindow(b.users, b.events, b.mark, MaxEventId(b.events));
      if users.Some? then b.(mark := MaxEventId(b.events), users := users.value) else b
    case Archived(id) => b.(users := ArchiveUser(Tables([], b.users), id).users)
  }

  ghost predicate Proper(turn: Turn) {
    turn.Ensured? ==> EventSources.PrimaryKeys(turn.db)
  }

  function TakeAll(b: Books, turns: seq<Turn>): Books
    decreases |turns|
  {
    if turns == [] then b else TakeAll(Take(b, turns[0]), turns[1..])
  }

  ghost predicate Balanced(b: Books, start: int) {
    && UniqueEvents(b.events) && 0 <= b.mark <= MaxEventId(b.events)
    && HasUser(b.users, 0)
    && ActualTotal(b.users) == start + WindowMicro(b.events, 0, b.mark)
  }

  lemma AppendedAreLater(events: seq<Event>, rows: seq<Row>, lo: int, hi: int)
    requires hi <= MaxEventId(events)
    ensures var more := events + Numbered(NextId(events), rows);
            WindowMicro(more, lo, hi) == WindowMicro(events, lo, hi) && MaxEventId(events) <= MaxEventId(more)
  {
    var more := events + Numbered(NextId(events), rows);
    NumberedRows(NextId(events), rows);
    LaterEventsDoNotCount(events, more, lo, hi);
  }

  lemma EnsuringKeepsBalance(b: Books, db: EventSources.Database, start: int)
    requires Balanced(b, start) && EventSources.PrimaryKeys(db)
    ensures Balanced(Take(b, Ensured(db)), start)
  {
    var rows := EventSources.EventRows(db);
    if InsertAll(b.events, rows).Some? {
      EventSources.SourcesAreDistinct(db);
      RunAppendsMissing(b.events, rows);
      RunKeepsUnique(b.events, rows);
      AppendedAreLater(b.events, Missing(b.events, rows), 0, b.mark);
    }
  }

  lemma ExportingKeepsBalance(b: Books, start: int)
    requires Balanced(b, start)
    ensures Balanced(Take(b, Exported), start)
  {
    var max := MaxEventId(b.events);
    if BookWindow(b.users, b.events, b.mark, max).Some? {
      BookingAWindow(b.users, b.events, b.mark, max);
      EventWindowsAdd(b.events, 0, b.mark, max);
    }
  }

  /** Over any run, the dashboard's total actual cost has grown by the rounded cost of every event at or
      below the mark, each exactly once. */
  lemma {:induction false} EventsAreBookedOnce(b: Books, turns: seq<Turn>, start: int)
    requires Balanced(b, start) && forall i :: 0 <= i < |turns| ==> Proper(turns[i])
    ensures Balanced(TakeAll(b, turns), start)
    decreases |turns|
  {
    if turns != [] {
      assert Proper(turns[0]);
      match turns[0] {
        case Ensured(db) => EnsuringKeepsBalance(b, db, start);
        case Exported => ExportingKeepsBalance(b, start);
        case Archived(id) => ArchiveConservesCost(Tables([], b.users), id);
      }
      EventsAreBookedOnce(Take(b, turns[0]), turns[1..], start);
    }
  }

  // ----- what each account is billed -----

  /** The event bills the account and lies in the window. */
  ghost predicate Bills(e: Event, account: int, lo: int, hi: int) {
    e.row.payload.terms.account == account && lo < e.id <= hi && e.row.payload.terms.normalized.Some?
  }

  /** The exact cost of an account's events in a window. */
  ghost function CostFor(events: seq<Event>, account: int, lo: int, hi: int): real {
    if events == [] then 0.0
    else
      var last := events[|events| - 1];
      CostFor(events[..|events| - 1], account, lo, hi)
      + if Bills(last, account, lo, hi) then last.row.payload.terms.normalized.value else 0.0
  }

  ghost function BillsFor(events: seq<Event>, account: int, lo: int, hi: int): nat {
    if events == [] then 0
    else
      BillsFor(events[..|events| - 1], account, lo, hi)
      + if Bills(events[|events| - 1], account, lo, hi) then 1 else 0
  }

  function MicroFor(events: seq<Event>, account: int, lo: int, hi: int): int {
    if events == [] then 0
    else
      var last := events[|events| - 1];
      MicroFor(events[..|events| - 1], account, lo, hi)
      + if InWindow(last, lo, hi) && last.row.payload.terms.account == account then EventMicro(last) else 0
  }

  lemma {:induction false} MicroIsCost(events: seq<Event>, account: int, lo: int, hi: int)
    ensures Abs(MicroFor(events, account, lo, hi) as real - CostFor(events, account, lo, hi) * 1_000_000.0)
            <= BillsFor(events, account, lo, hi) as real * 0.5
  {
    if events != [] {
      var last := events[|events| - 1];
      MicroIsCost(events[..|events| - 1], account, lo, hi);
      if last.row.payload.terms.normalized.Some? {
        RoundingIsHalfUp(last.row.payload.terms.normalized.value * 1_000_000.0);
      }
    }
  }

  lemma AddingPays(users: seq<User>, account: int, micro: int, other: int)
    requires AddActual(users, account, micro).Some?
    ensures CostOf(AddActual(users, account, micro).value, other) ==
            CostOf(users, other) + if other == account then micro else 0
  {
    if micro != 0 {
      EnsuringCostsNothing(users, account, other);
      AddCostPays(EnsureUser(users, account), account, micro);
      AddCostKeepsUsers(EnsureUser(users, account), account, micro, other);
    }
  }

  lemma {:induction false} WindowPays(users: seq<User>, events: seq<Event>, lo: int, hi: int, account: int)
    requires BookWindow(users, events, lo, hi).Some?
    ensures CostOf(BookWindow(users, events, lo, hi).value, account) ==
            CostOf(users, account) + MicroFor(events, account, lo, hi)
  {
    if events != [] {
      var init, last := events[..|events| - 1], events[|events| - 1];
      WindowPays(users, init, lo, hi, account);
      if InWindow(last, lo, hi) {
        AddingPays(BookWindow(users, init, lo, hi).value, last.row.payload.terms.account, EventMicro(last), account);
      }
    }
  }

  lemma {:induction false} AccountWindowsAdd(events: seq<Event>, account: int, lo: int, mid: int, hi: int)
    requires lo <= mid <= hi
    ensures MicroFor(events, account, lo, hi) == MicroFor(events, account, lo, mid) + MicroFor(events, account, mid, hi)
  {
    if events != [] {
      AccountWindowsAdd(events[..|events| - 1], account, lo, mid, hi);
    }
  }

  lemma {:induction false} LaterEventsDoNotBill(events: seq<Event>, more: seq<Event>, account: int, lo: int, hi: int)
    requires events <= more && forall i :: |events| <= i < |more| ==> more[i].id > hi
    ensures MicroFor(more, account, lo, hi) == MicroFor(events, account, lo, hi)
    decreases |more|
  {
    if |more| > |events| {
      LaterEventsDoNotBill(events, more[..|more| - 1], account, lo, hi);
    } else {
      assert more == events;
    }
  }

  /** The account has spent what it had, and the rounded cost of its own events up to the mark. */
  ghost predicate Billed(b: Books, account: int, before: int) {
    CostOf(b.users, account) == before + MicroFor(b.events, account, 0, b.mark)
  }

  lemma EnsuringKeepsBilled(b: Books, db: EventSources.Database, start: int, account: int, before: int)
    requires Balanced(b, start) && EventSources.PrimaryKeys(db) && Billed(b, account, before)
    ensures Billed(Take(b, Ensured(db)), account, before)
  {
    var rows := EventSources.EventRows(db);
    if InsertAll(b.events, rows).Some? {
      EventSources.SourcesAreDistinct(db);
      RunAppendsMissing(b.events, rows);
      NumberedRows(NextId(b.events), Missing(b.events, rows));
      LaterEventsDoNotBill(b.events, Take(b, Ensured(db)).events, account, 0, b.mark);
    }
  }

  lemma ExportingKeepsBilled(b: Books, start: int, account: int, before: int)
    requires Balanced(b, start) && Billed(b, account, before)
    ensures Billed(Take(b, Exported), account, before)
  {
    var max := MaxEventId(b.events);
    if BookWindow(b.users, b.events, b.mark, max).Some? {
      WindowPays(b.users, b.events, b.mark, max, account);
      AccountWindowsAdd(b.events, account, 0, b.mark, max);
    }
  }

  lemma ArchivingKeepsBilled(b: Books, id: int, account: int, before: int)
    requires id != account && account != 0 && Billed(b, account, before)
    ensures Billed(Take(b, Archived(id)), account, before)
  {
    if id != 0 && HasUser(b.users, id) {
      ArchiveMovesSpending(Tables([], b.users), id, account);
    }
  }

  lemma {:induction false} RunsKeepBilled(b: Books, turns: seq<Turn>, start: int, account: int, before: int)
    requires Balanced(b, start) && Billed(b, account, before) && account != 0
    requires forall i :: 0 <= i < |turns| ==> Proper(turns[i]) && turns[i] != Archived(account)
    ensures Billed(TakeAll(b, turns), account, before)
    decreases |turns|
  {
    if turns != [] {
      assert Proper(turns[0]) && turns[0] != Archived(account);
      match turns[0] {
        case Ensured(db) =>
          EnsuringKeepsBilled(b, db, start, account, before);
          EnsuringKeepsBalance(b, db, start);
        case Exported =>
          ExportingKeepsBilled(b, start, account, before);
          ExportingKeepsBalance(b, start);
        case Archived(id) =>
          ArchivingKeepsBilled(b, id, account, before);
          ArchiveConservesCost(Tables([], b.users), id);
      }
      RunsKeepBilled(Take(b, turns[0]), turns[1..], start, account, before);
    }
  }

  /** The account's actual cost has grown by that of its own events up to the mark, within half a micro for each. */
  ghost predicate GrewByOwn(t: Books, account: int, before: int) {
    var grown := CostOf(t.users, account) - before;
    Abs(grown as real - CostFor(t.events, account, 0, t.mark) * 1_000_000.0)
    <= BillsFor(t.events, account, 0, t.mark) as real * 0.5
  }

  /** Over any run, the actual cost of an account that is not archived has grown by the cost of exactly its
      own events up to the mark, within half a micro for each. */
  lemma EventsBillTheirAccount(b: Books, turns: seq<Turn>, start: int, account: int)
    requires Balanced(b, start) && b.mark == 0 && account != 0
    requires forall i :: 0 <= i < |turns| ==> Proper(turns[i]) && turns[i] != Archived(account)
    ensures GrewByOwn(TakeAll(b, turns), account, CostOf(b.users, account))
  {
    FreshIsBilled(b, account);
    RunsKeepBilled(b, turns, start, account, CostOf(b.users, account));
    BilledIsCost(TakeAll(b, turns), account, CostOf(b.users, account));
  }

  lemma FreshIsBilled(b: Books, account: int)
    requires b.mark == 0
    ensures Billed(b, account, CostOf(b.users, account))
  {
    NothingBefore(b.events, account);
  }

  lemma BilledIsCost(t: Books, account: int, before: int)
    requires Billed(t, account, before)
    ensures GrewByOwn(t, account, before)
  {
    MicroIsCost(t.events, account, 0, t.mark);
  }

  lemma {:induction false} NothingBefore(events: seq<Event>, account: int)
    ensures MicroFor(events, account, 0, 0) == 0
  {
    if events != [] {
      NothingBefore(events[..|events| - 1], account);
    }
  }

  // ----- when a window is acknowledged -----

  /** The event has a cost that does not round to nothing. */
  ghost predicate Costs(e: Event) {
    e.row.payload.terms.normalized.Some?
    && (e.row.payload.terms.normalized.value * 1_000_000.0 >= 0.5
        || e.row.payload.terms.normalized.value * 1_000_000.0 <= -0.5)
  }

  /** The event would have to create a user that cannot exist. */
  ghost predicate Unbookable(e: Event, users: seq<User>, lo: int, hi: int) {
    lo < e.id <= hi && Costs(e) && e.row.payload.terms.account < 1 && !HasUser(users, e.row.payload.terms.account)
  }

  lemma CostsMicro(e: Event)
    ensures Costs(e) <==> EventMicro(e) != 0
  {
    if e.row.payload.terms.normalized.Some? {
      var x := e.row.payload.terms.normalized.value * 1_000_000.0;
      RoundingIsHalfUp(x);
      RoundingIsHalfUp(-x);
    }
  }

  /** Booking creates ordinary users only. */
  lemma AddingCreatesOrdinary(users: seq<User>, account: int, micro: int, id: int)
    requires AddActual(users, account, micro).Some? && id < 1
    ensures HasUser(AddActual(users, account, micro).value, id) <==> HasUser(users, id)
  {
    if micro != 0 {
      var ensured := EnsureUser(users, account);
      AddCostKeepsUsers(ensured, account, micro, id);
      HasUserAppend(users, User(account, 0), id);
    }
  }

  lemma {:induction false} WindowIsBookedIff(users: seq<User>, events: seq<Event>, lo: int, hi: int)
    ensures BookWindow(users, events, lo, hi).Some? <==> forall e :: e in events ==> !Unbookable(e, users, lo, hi)
    ensures BookWindow(users, events, lo, hi).Some? ==>
              forall id :: id < 1 ==> (HasUser(BookWindow(users, events, lo, hi).value, id) <==> HasUser(users, id))
  {
    if events != [] {
      var init, last := events[..|events| - 1], events[|events| - 1];
      WindowIsBookedIff(users, init, lo, hi);
      CostsMicro(last);
      assert events == init + [last];
      var mid := BookWindow(users, init, lo, hi);
      if mid.Some? && InWindow(last, lo, hi) {
        LastIsBookedIff(users, mid.value, last, lo, hi);
      }
    }
  }

  lemma LastIsBookedIff(users: seq<User>, mid: seq<User>, last: Event, lo: int, hi: int)
    requires InWindow(last, lo, hi) && forall id :: id < 1 ==> (HasUser(mid, id) <==> HasUser(users, id))
    ensures var after := AddActual(mid, last.row.payload.terms.account, EventMicro(last));
            && (after.Some? <==> !Unbookable(last, users, lo, hi))
            && (after.Some? ==> forall id :: id < 1 ==> (HasUser(after.value, id) <==> HasUser(users, id)))
  {
    CostsMicro(last);
    var account, micro := last.row.payload.terms.account, EventMicro(last);
    if AddActual(mid, account, micro).Some? {
      forall id | id < 1 ensures HasUser(AddActual(mid, account, micro).value, id) <==> HasUser(mid, id) {
        AddingCreatesOrdinary(mid, account, micro, id);
      }
    }
  }

  /** An export acknowledges every event unless one with a cost names a user that cannot be created; then
      nothing moves. */
  lemma EventsAreAcknowledgedIff(b: Books)
    ensures var after := Take(b, Exported);
            if exists e :: e in b.events && Unbookable(e, b.users, b.mark, MaxEventId(b.events)) then after == b
            else after.mark == MaxEventId(b.events) && after.events == b.events
  {
    WindowIsBookedIff(b.users, b.events, b.mark, MaxEventId(b.events));
  }
}
