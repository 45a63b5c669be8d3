/** Which finalized charges get an export event, and the run that gives it to them. */
module EventSources {
  import opened Prelude
  import opened ExportEvents

  // ----- tables -----

  datatype Identity = Identity(id: nat, uuid: string, name: string, kind: Kind)

  /** A row of `billing_period_charges`; "" stands for NULL where the code treats both alike. */
  datatype ProxyCharge = ProxyCharge(
    id: nat, start: string, unit: string, credential: string, contractUuid: string, contract: int,
    identity: Option<nat>, recurring: Option<real>, normalized: Option<real>, currency: string, base: string,
    fxDate: Option<string>, finalizedAt: Option<string>)

  /** The money columns a period charge and an allocation share. */
  datatype Money = Money(
    recurring: Option<real>, normalized: Option<real>, currency: string, base: string, fxDate: Option<string>,
    finalizedOn: string, finalized: bool)

  /** A row of `agent_subscription_period_charges`. */
  datatype AgentCharge = AgentCharge(
    id: nat, start: string, software: Option<nat>, instance: nat, subscription: Option<nat>,
    subscriptionUuid: string, instanceUuid: string, money: Money)

  /** A row of `agent_subscription_charge_allocations`. */
  datatype Allocation = Allocation(charge: nat, software: nat, money: Money)

  /** The uuids of subscriptions and instances: their lasting identities, and the live rows. */
  datatype Labels = Labels(
    subscriptionIdentity: map<nat, string>, instanceIdentity: map<nat, string>,
    liveSubscription: map<nat, string>, liveInstance: map<nat, string>, ownerOfInstance: map<nat, nat>)

  /** Each table in the order of its primary key. */
  datatype Database = Database(
    charges: seq<ProxyCharge>, agentCharges: seq<AgentCharge>, allocations: seq<Allocation>,
    identities: seq<Identity>, contracts: map<int, nat>, labels: Labels)

  function IdentityOf(identities: seq<Identity>, id: nat): Option<Identity> {
    if identities == [] then None
    else
      var last := identities[|identities| - 1];
      if last.id == id then Some(last) else IdentityOf(identities[..|identities| - 1], id)
  }

  // ----- texts -----

  function Decimal(n: nat): string {
    if n < 10 then [('0' as int + n) as char] else Decimal(n / 10) + [('0' as int + n % 10) as char]
  }

  function Or(text: string, other: string): string { if text == "" then other else text }

  function Take(text: string, n: nat): string { if |text| <= n then text else text[..n] }

  function Looked(m: map<nat, string>, k: Option<nat>): string {
    if k.Some? && k.value in m then m[k.value] else ""
  }

  // ----- event rows -----

  /** `_proxy_event_row` */
  function ProxyRow(c: ProxyCharge, finalizedAt: string, ai: Identity): Row {
    var unit := Or(c.unit, Or(c.credential, "contract:" + Or(c.contractUuid, Decimal(c.id))));
    Row("proxy:" + unit + ":" + c.start,
        Payload(Proxy, PeriodCharges, OfCharge(c.id), ai.name, Other(unit),
                Terms(ai.id, ai.uuid, ai.kind, Take(c.start, 7), c.start, c.recurring.GetOr(0.0), c.normalized,
                      Or(c.currency, "CNY"), Or(c.base, "CNY"), c.fxDate, Take(finalizedAt, 10))))
  }

  /** COALESCE(c.subscription_id, i.subscription_id) */
  function SubscriptionOf(c: AgentCharge, l: Labels): Option<nat> {
    if c.subscription.Some? then c.subscription
    else if c.instance in l.ownerOfInstance then Some(l.ownerOfInstance[c.instance]) else None
  }

  function Printed(id: Option<nat>): string { if id.Some? then Decimal(id.value) else "None" }

  function SubscriptionUuid(c: AgentCharge, l: Labels): string {
    Or(c.subscriptionUuid,
       Or(Looked(l.subscriptionIdentity, SubscriptionOf(c, l)),
          Or(Looked(l.liveSubscription, SubscriptionOf(c, l)), "subscription:" + Printed(c.subscription))))
  }

  function InstanceUuid(c: AgentCharge, l: Labels): string {
    Or(c.instanceUuid,
       Or(Looked(l.instanceIdentity, Some(c.instance)),
          Or(Looked(l.liveInstance, Some(c.instance)), "instance:" + Decimal(c.instance))))
  }

  /** What `_direct_agent_event_row` and `_agent_event_row` share. */
  function AgentRow(c: AgentCharge, money: Money, table: Table, key: SourceKey, ai: Identity, l: Labels): Row {
    var instance := InstanceUuid(c, l);
    Row("agent:" + SubscriptionUuid(c, l) + ":" + instance + ":" + Or(ai.uuid, Decimal(ai.id)) + ":" + c.start,
        Payload(Agent, table, key, ai.name, Instance(instance),
                Terms(ai.id, ai.uuid, ai.kind, Take(c.start, 7), c.start, money.recurring.GetOr(0.0), money.normalized,
                      Or(money.currency, "CNY"), Or(money.base, "CNY"), money.fxDate, Take(money.finalizedOn, 10))))
  }

  // ----- the three scans -----

  /** COALESCE(c.account_identity_id, the account of the contract) */
  function OwnerOf(c: ProxyCharge, contracts: map<int, nat>): Option<nat> {
    if c.identity.Some? then c.identity
    else if c.contract in contracts then Some(contracts[c.contract]) else None
  }

  function OwnerOfKind(identities: seq<Identity>, id: Option<nat>, kind: Kind): Option<Identity> {
    if id.None? then None
    else
      var ai := IdentityOf(identities, id.value);
      if ai.Some? && ai.value.kind == kind then ai else None
  }

  function RowOfCharge(c: ProxyCharge, db: Database): Option<Row> {
    var ai := OwnerOfKind(db.identities, OwnerOf(c, db.contracts), Proxy);
    if c.finalizedAt.Some? && ai.Some? then Some(ProxyRow(c, c.finalizedAt.value, ai.value)) else None
  }

  function RowOfAgentCharge(c: AgentCharge, db: Database): Option<Row> {
    var ai := OwnerOfKind(db.identities, c.software, Agent);
    if c.money.finalized && ai.Some? then Some(AgentRow(c, c.money, AgentCharges, OfCharge(c.id), ai.value, db.labels))
      else None
  }

  function ChargeOf(charges: seq<AgentCharge>, id: nat): Option<AgentCharge> {
    if charges == [] then None
    else
      var last := charges[|charges| - 1];
      if last.id == id then Some(last) else ChargeOf(charges[..|charges| - 1], id)
  }

  /** Allocations are read only for charges without an owner of their own. */
  function RowOfAllocation(a: Allocation, db: Database): Option<Row> {
    var ai, c := OwnerOfKind(db.identities, Some(a.software), Agent), ChargeOf(db.agentCharges, a.charge);
    if a.money.finalized && ai.Some? && c.Some? && c.value.software.None? && c.value.money.finalized
    then Some(AgentRow(c.value, a.money, AgentAllocations, OfAllocation(a.charge, a.software), ai.value, db.labels))
    else None
  }

  function Listed(r: Option<Row>): seq<Row> { if r.Some? then [r.value] else [] }

  function ChargeRows(charges: seq<ProxyCharge>, db: Database): seq<Row> {
    if charges == [] then []
    else ChargeRows(charges[..|charges| - 1], db) + Listed(RowOfCharge(charges[|charges| - 1], db))
  }

  function AgentChargeRows(charges: seq<AgentCharge>, db: Database): seq<Row> {
    if charges == [] then []
    else AgentChargeRows(charges[..|charges| - 1], db) + Listed(RowOfAgentCharge(charges[|charges| - 1], db))
  }

  function AllocationRows(allocations: seq<Allocation>, db: Database): seq<Row> {
    if allocations == [] then []
    else
      AllocationRows(allocations[..|allocations| - 1], db)
      + Listed(RowOfAllocation(allocations[|allocations| - 1], db))
  }

  /** Every row `ensure_billing_export_events_conn` inserts, in its order. */
  function EventRows(db: Database): seq<Row> {
    ChargeRows(db.charges, db) + AgentChargeRows(db.agentCharges, db) + AllocationRows(db.allocations, db)
  }

  // ----- primary keys make sources distinct -----

  ghost predicate PrimaryKeys(db: Database) {
    && (forall i, j :: 0 <= i < j < |db.charges| ==> db.charges[i].id != db.charges[j].id)
    && (forall i, j :: 0 <= i < j < |db.agentCharges| ==> db.agentCharges[i].id != db.agentCharges[j].id)
    && (forall i, j :: 0 <= i < j < |db.allocations| ==>
          db.allocations[i].charge != db.allocations[j].charge
            || db.allocations[i].software != db.allocations[j].software)
  }

  /** The rows come from one table, with keys accepted by `known`. */
  ghost predicate Sourced(rows: seq<Row>, table: Table, known: iset<SourceKey>) {
    forall r :: r in rows ==> r.payload.table == table && r.payload.key in known
  }

  lemma DistinctOneMore(rows: seq<Row>, table: Table, known: iset<SourceKey>, next: Option<Row>)
    requires DistinctSources(rows) && Sourced(rows, table, known)
    requires next.Some? ==> next.value.payload.key !in known
    ensures DistinctSources(rows + Listed(next))
  {
    forall i | 0 <= i < |rows| ensures rows[i].payload.key in known {
      assert rows[i] in rows;
    }
  }

  lemma DistinctTogether(a: seq<Row>, b: seq<Row>)
    requires DistinctSources(a) && DistinctSources(b)
    requires forall r, q :: r in a && q in b ==> r.payload.table != q.payload.table
    ensures DistinctSources(a + b)
  {
    var all := a + b;
    forall i, j | 0 <= i < j < |all| ensures !SameSource(all[i].payload, all[j].payload) {
      if i < |a| <= j {
        assert all[i] == a[i] && all[j] == b[j - |a|] && a[i] in a && b[j - |a|] in b;
      } else if j < |a| {
        assert all[i] == a[i] && all[j] == a[j];
      } else {
        assert all[i] == b[i - |a|] && all[j] == b[j - |a|];
      }
    }
  }

  lemma {:induction false} ChargeRowsAreDistinct(charges: seq<ProxyCharge>, db: Database)
    requires forall i, j :: 0 <= i < j < |charges| ==> charges[i].id != charges[j].id
    ensures DistinctSources(ChargeRows(charges, db))
    ensures Sourced(ChargeRows(charges, db), PeriodCharges, iset c | c in charges :: OfCharge(c.id))
  {
    if charges != [] {
      var n := |charges| - 1;
      ChargeRowsAreDistinct(charges[..n], db);
      var known := iset c | c in charges[..n] :: OfCharge(c.id);
      assert OfCharge(charges[n].id) !in known;
      DistinctOneMore(ChargeRows(charges[..n], db), PeriodCharges, known, RowOfCharge(charges[n], db));
      assert charges[n] in charges;
    }
  }

  lemma {:induction false} AgentChargeRowsAreDistinct(charges: seq<AgentCharge>, db: Database)
    requires forall i, j :: 0 <= i < j < |charges| ==> charges[i].id != charges[j].id
    ensures DistinctSources(AgentChargeRows(charges, db))
    ensures Sourced(AgentChargeRows(charges, db), AgentCharges, iset c | c in charges :: OfCharge(c.id))
  {
    if charges != [] {
      var n := |charges| - 1;
      AgentChargeRowsAreDistinct(charges[..n], db);
      var known := iset c | c in charges[..n] :: OfCharge(c.id);
      assert OfCharge(charges[n].id) !in known;
      DistinctOneMore(AgentChargeRows(charges[..n], db), AgentCharges, known, RowOfAgentCharge(charges[n], db));
      assert charges[n] in charges;
    }
  }

  lemma {:induction false} AllocationRowsAreDistinct(allocations: seq<Allocation>, db: Database)
    requires forall i, j :: 0 <= i < j < |allocations| ==>
      allocations[i].charge != allocations[j].charge || allocations[i].software != allocations[j].software
    ensures DistinctSources(AllocationRows(allocations, db))
    ensures Sourced(AllocationRows(allocations, db), AgentAllocations, iset a | a in allocations ::
            OfAllocation(a.charge, a.software))
  {
    if allocations != [] {
      var n := |allocations| - 1;
      AllocationRowsAreDistinct(allocations[..n], db);
      var known := iset a | a in allocations[..n] :: OfAllocation(a.charge, a.software);
      assert OfAllocation(allocations[n].charge, allocations[n].software) !in known;
      DistinctOneMore(AllocationRows(allocations[..n], db), AgentAllocations, known,
        RowOfAllocation(allocations[n], db));
      assert allocations[n] in allocations;
    }
  }

  /** No two charges or allocations share a source. */
  lemma SourcesAreDistinct(db: Database)
    requires PrimaryKeys(db)
    ensures DistinctSources(EventRows(db))
  {
    ChargeRowsAreDistinct(db.charges, db);
    AgentChargeRowsAreDistinct(db.agentCharges, db);
    AllocationRowsAreDistinct(db.allocations, db);
    DistinctTogether(ChargeRows(db.charges, db), AgentChargeRows(db.agentCharges, db));
    DistinctTogether(ChargeRows(db.charges, db) + AgentChargeRows(db.agentCharges, db),
      AllocationRows(db.allocations, db));
  }

  lemma {:induction false} ChargeIsListed(charges: seq<ProxyCharge>, db: Database, c: ProxyCharge)
    requires c in charges && RowOfCharge(c, db).Some?
    ensures RowOfCharge(c, db).value in ChargeRows(charges, db)
  {
    if c != charges[|charges| - 1] {
      ChargeIsListed(charges[..|charges| - 1], db, c);
    }
  }

  lemma {:induction false} AgentChargeIsListed(charges: seq<AgentCharge>, db: Database, c: AgentCharge)
    requires c in charges && RowOfAgentCharge(c, db).Some?
    ensures RowOfAgentCharge(c, db).value in AgentChargeRows(charges, db)
  {
    if c != charges[|charges| - 1] {
      AgentChargeIsListed(charges[..|charges| - 1], db, c);
    }
  }

  lemma {:induction false} AllocationIsListed(allocations: seq<Allocation>, db: Database, a: Allocation)
    requires a in allocations && RowOfAllocation(a, db).Some?
    ensures RowOfAllocation(a, db).value in AllocationRows(allocations, db)
  {
    if a != allocations[|allocations| - 1] {
      AllocationIsListed(allocations[..|allocations| - 1], db, a);
    }
  }

  // ----- deletions do not reach snapshots -----

  /** Every charge carries its identity snapshot. */
  ghost predicate Snapshotted(db: Database) {
    && (forall i :: 0 <= i < |db.charges| ==> db.charges[i].identity.Some?)
    && (forall i :: 0 <= i < |db.agentCharges| ==>
       db.agentCharges[i].subscriptionUuid != "" && db.agentCharges[i].instanceUuid != "")
  }

  lemma {:induction false} ChargeRowsIgnoreLive(charges: seq<ProxyCharge>, db: Database, other: Database)
    requires forall i :: 0 <= i < |charges| ==> charges[i].identity.Some?
    requires other.identities == db.identities
    ensures ChargeRows(charges, db) == ChargeRows(charges, other)
  {
    if charges != [] {
      ChargeRowsIgnoreLive(charges[..|charges| - 1], db, other);
    }
  }

  lemma {:induction false} AgentChargeRowsIgnoreLive(charges: seq<AgentCharge>, db: Database, other: Database)
    requires forall i :: 0 <= i < |charges| ==> charges[i].subscriptionUuid != "" && charges[i].instanceUuid != ""
    requires other.identities == db.identities
    ensures AgentChargeRows(charges, db) == AgentChargeRows(charges, other)
  {
    if charges != [] {
      AgentChargeRowsIgnoreLive(charges[..|charges| - 1], db, other);
    }
  }

  lemma {:induction false} ChargeIsInTable(charges: seq<AgentCharge>, id: nat)
    ensures ChargeOf(charges, id).Some? ==> ChargeOf(charges, id).value in charges
  {
    if charges != [] {
      ChargeIsInTable(charges[..|charges| - 1], id);
    }
  }

  lemma {:induction false} AllocationRowsIgnoreLive(allocations: seq<Allocation>, db: Database, other: Database)
    requires Snapshotted(db) && other.identities == db.identities && other.agentCharges == db.agentCharges
    ensures AllocationRows(allocations, db) == AllocationRows(allocations, other)
  {
    if allocations != [] {
      AllocationRowsIgnoreLive(allocations[..|allocations| - 1], db, other);
      ChargeIsInTable(db.agentCharges, allocations[|allocations| - 1].charge);
    }
  }

  /** With snapshots, no change of contracts, subscriptions or instances changes an event row. */
  lemma SnapshotsFixRows(db: Database, contracts: map<int, nat>, labels: Labels)
    requires Snapshotted(db)
    ensures EventRows(db.(contracts := contracts, labels := labels)) == EventRows(db)
  {
    var other := db.(contracts := contracts, labels := labels);
    ChargeRowsIgnoreLive(db.charges, db, other);
    AgentChargeRowsIgnoreLive(db.agentCharges, db, other);
    AllocationRowsIgnoreLive(db.allocations, db, other);
  }

  // ----- the run -----

  lemma {:induction false} InsertAllAppends(events: seq<Event>, a: seq<Row>, b: seq<Row>)
    ensures InsertAll(events, a + b) ==
            if InsertAll(events, a).None? then None else InsertAll(InsertAll(events, a).value, b)
  {
    if b == [] {
      assert a + [] == a;
    } else {
      InsertAllAppends(events, a, b[..|b| - 1]);
      assert (a + b)[..|a + b| - 1] == a + b[..|b| - 1];
    }
  }

  lemma RaisingEndsTheRun(events: seq<Event>, rows: seq<Row>, i: nat)
    requires i <= |rows| && InsertAll(events, rows[..i]).None?
    ensures InsertAll(events, rows).None?
  {
    assert rows == rows[..i] + rows[i..];
    InsertAllAppends(events, rows[..i], rows[i..]);
  }

  class EventLog {
    var events: seq<Event>

    /** `_insert_event` */
    method InsertEvent(row: Row) returns (created: Option<nat>)
      modifies this
      ensures created.Some? <==> Insert(old(events), row).Some?
      ensures created.Some? ==> Insert(old(events), row) == Some(events) && created.value == |events| - |old(events)|
      ensures created.None? ==> events == old(events)
    {
      var existing := BySource(events, row.payload);
      if existing.Some? {
        return if SameFact(existing.value.row.payload, row.payload) then Some(0) else None;
      }
      existing := ByKey(events, row.eventKey);
      if existing.Some? {
        return if SamePayload(existing.value.row.payload, row.payload) then Some(0) else None;
      }
      events := events + [Event(NextId(events), row)];
      return Some(1);
    }

    /** One of the three scans. */
    method InsertRows(rows: seq<Row>) returns (created: Option<nat>)
      modifies this
      ensures created.Some? <==> InsertAll(old(events), rows).Some?
      ensures created.Some? ==>
              InsertAll(old(events), rows) == Some(events) && created.value == |events| - |old(events)|
    {
      var count := 0;
      for i := 0 to |rows|
        invariant InsertAll(old(events), rows[..i]) == Some(events) && count == |events| - |old(events)| >= 0
      {
        assert rows[..i + 1][..i] == rows[..i];
        var one := InsertEvent(rows[i]);
        if one.None? {
          RaisingEndsTheRun(old(events), rows, i + 1);
          return None;
        }
        count := count + one.value;
      }
      assert rows[..|rows|] == rows;
      return Some(count);
    }

    /** `ensure_billing_export_events_conn`, with the caller's rollback when it raises. */
    method EnsureEvents(db: Database) returns (created: Option<nat>)
      modifies this
      ensures created.Some? <==> InsertAll(old(events), EventRows(db)).Some?
      ensures created.Some? ==>
              InsertAll(old(events), EventRows(db)) == Some(events) && created.value == |events| - |old(events)|
      ensures created.None? ==> events == old(events)
    {
      var before := events;
      var proxy, direct, legacy :=
        ChargeRows(db.charges, db), AgentChargeRows(db.agentCharges, db), AllocationRows(db.allocations, db);
      InsertAllAppends(before, proxy, direct);
      InsertAllAppends(before, proxy + direct, legacy);
      var first := InsertRows(proxy);
      if first.None? {
        events := before;
        return None;
      }
      var second := InsertRows(direct);
      if second.None? {
        events := before;
        return None;
      }
      var third := InsertRows(legacy);
      if third.None? {
        events := before;
        return None;
      }
      return Some(first.value + second.value + third.value);
    }
  }
}
