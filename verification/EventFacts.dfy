/** What an export event states: exactly which charges have one, and the text and money it carries. */
module EventFacts {
  import opened Prelude
  import opened ExportEvents
  import opened EventSources

  // ----- what an event row states -----

  /** The identities' primary key; with it a charge has at most one owner. */
  ghost predicate DistinctIdentities(db: Database) {
    forall i, j :: 0 <= i < j < |db.identities| ==> db.identities[i].id != db.identities[j].id
  }

  lemma {:induction false} IdentityLookup(identities: seq<Identity>, id: nat)
    requires forall i, j :: 0 <= i < j < |identities| ==> identities[i].id != identities[j].id
    ensures var r := IdentityOf(identities, id);
            (r.Some? ==> r.value in identities && r.value.id == id)
            && forall ai :: ai in identities && ai.id == id ==> r == Some(ai)
  {
    if identities != [] {
      IdentityLookup(identities[..|identities| - 1], id);
    }
  }

  lemma {:induction false} ChargeLookup(charges: seq<AgentCharge>, id: nat)
    requires forall i, j :: 0 <= i < j < |charges| ==> charges[i].id != charges[j].id
    ensures var r := ChargeOf(charges, id);
            (r.Some? ==> r.value in charges && r.value.id == id)
            && forall c :: c in charges && c.id == id ==> r == Some(c)
  {
    if charges != [] {
      ChargeLookup(charges[..|charges| - 1], id);
    }
  }

  /** The decimal digits of `n`, without leading zeros. */
  ghost predicate IsDecimal(text: string, n: nat)
    decreases |text|
  {
    && text != []
    && text[|text| - 1] == "0123456789"[n % 10]
    && (if n < 10 then |text| == 1 else IsDecimal(text[..|text| - 1], n / 10))
  }

  lemma {:induction false} DecimalIsDecimal(text: string, n: nat)
    ensures IsDecimal(text, n) <==> text == Decimal(n)
    decreases n
  {
    assert "0123456789"[n % 10] == ('0' as int + n % 10) as char;
    if n >= 10 && text != [] {
      DecimalIsDecimal(text[..|text| - 1], n / 10);
    }
  }

  /** `text` is the first of two that is not empty. */
  ghost predicate IsFirst(text: string, a: string, b: string) {
    (a != "" && text == a) || (a == "" && text == b)
  }

  /** `head` is all of the text, or its first `n` characters. */
  ghost predicate IsHead(head: string, text: string, n: nat) {
    head <= text && (|head| == n || (|head| < n && |head| == |text|))
  }

  /** The terms carry the account, the period and the money of the charge. */
  ghost predicate StatesTerms(
    t: Terms, ai: Identity, start: string, recurring: Option<real>, normalized: Option<real>, currency: string,
    base: string, fxDate: Option<string>, frozen: string)
  {
    && t.account == ai.id && t.accountUuid == ai.uuid && t.accountKind == ai.kind
    && t.start == start && IsHead(t.month, start, 7) && IsHead(t.frozenOn, frozen, 10)
    && (if recurring.Some? then t.recurring == recurring.value else t.recurring == 0.0)
    && t.normalized == normalized && t.fxDate == fxDate
    && IsFirst(t.currency, currency, "CNY") && IsFirst(t.base, base, "CNY")
  }

  /** A finalized charge, and the proxy account that owned it. */
  ghost predicate ProxyFact(db: Database, c: ProxyCharge, ai: Identity) {
    && c in db.charges && ai in db.identities && ai.kind == Proxy && c.finalizedAt.Some?
    && (if c.identity.Some? then c.identity.value == ai.id
        else c.contract in db.contracts && db.contracts[c.contract] == ai.id)
  }

  ghost predicate StatesProxy(r: Row, c: ProxyCharge, ai: Identity)
    requires c.finalizedAt.Some?
  {
    var p := r.payload;
    && p.kind == Proxy && p.table == PeriodCharges && p.key == OfCharge(c.id) && p.accountName == ai.name
    && p.unit.Other? && NamesUnit(p.unit.text, c)
    && r.eventKey == "proxy:" + p.unit.text + ":" + c.start
    && StatesTerms(p.terms, ai, c.start, c.recurring, c.normalized, c.currency, c.base, c.fxDate, c.finalizedAt.value)
  }

  /** The unit's own text, else the credential, else the contract's uuid, else the charge's number. */
  ghost predicate NamesUnit(text: string, c: ProxyCharge) {
    if c.unit != "" then text == c.unit
    else if c.credential != "" then text == c.credential
    else if c.contractUuid != "" then text == "contract:" + c.contractUuid
    else |text| > 9 && text[..9] == "contract:" && IsDecimal(text[9..], c.id)
  }

  /** A finalized agent charge that has an owner of its own. */
  ghost predicate AgentFact(db: Database, c: AgentCharge, ai: Identity) {
    && c in db.agentCharges && ai in db.identities && ai.kind == Agent
    && c.money.finalized && c.software == Some(ai.id)
  }

  /** A finalized share of a finalized agent charge that has no owner of its own. */
  ghost predicate AllocationFact(db: Database, a: Allocation, c: AgentCharge, ai: Identity) {
    && a in db.allocations && a.money.finalized && c in db.agentCharges && c.id == a.charge
    && c.money.finalized && c.software == None && ai in db.identities && ai.kind == Agent && ai.id == a.software
  }

  /** The snapshot of the instance's uuid, else that of its identity, else that of the live row, else its
      number. */
  ghost predicate NamesInstance(text: string, c: AgentCharge, l: Labels) {
    if c.instanceUuid != "" then text == c.instanceUuid
    else if c.instance in l.instanceIdentity && l.instanceIdentity[c.instance] != "" then
      text == l.instanceIdentity[c.instance]
    else if c.instance in l.liveInstance && l.liveInstance[c.instance] != "" then text == l.liveInstance[c.instance]
    else |text| > 9 && text[..9] == "instance:" && IsDecimal(text[9..], c.instance)
  }

  /** The subscription of the charge, else that of its instance. */
  ghost predicate HasSubscription(c: AgentCharge, l: Labels, id: nat) {
    c.subscription == Some(id)
    || (c.subscription == None && c.instance in l.ownerOfInstance && l.ownerOfInstance[c.instance] == id)
  }

  ghost predicate IsLabelled(c: AgentCharge, l: Labels, m: map<nat, string>, text: string) {
    text != "" && exists id :: HasSubscription(c, l, id) && id in m && m[id] == text
  }

  ghost predicate NamesSubscription(text: string, c: AgentCharge, l: Labels) {
    if c.subscriptionUuid != "" then text == c.subscriptionUuid
    else
      IsLabelled(c, l, l.subscriptionIdentity, text)
      || ((forall u :: !IsLabelled(c, l, l.subscriptionIdentity, u))
          && (IsLabelled(c, l, l.liveSubscription, text)
              || ((forall u :: !IsLabelled(c, l, l.liveSubscription, u)) && IsNumbered(text, c.subscription))))
  }

  ghost predicate IsNumbered(text: string, id: Option<nat>) {
    |text| > 13 && text[..13] == "subscription:"
    && (if id.Some? then IsDecimal(text[13..], id.value) else text[13..] == "None")
  }

  ghost predicate NamesAccount(text: string, ai: Identity) {
    if ai.uuid != "" then text == ai.uuid else IsDecimal(text, ai.id)
  }

  ghost predicate IsAgentKey(key: string, c: AgentCharge, ai: Identity, l: Labels, instance: string) {
    exists subscription, account ::
      && NamesSubscription(subscription, c, l) && NamesAccount(account, ai)
      && key == "agent:" + subscription + ":" + instance + ":" + account + ":" + c.start
  }

  /** The event of agent charge `c`, or of a share of it: the money is that of the charge or of the share. */
  ghost predicate StatesAgent(r: Row, c: AgentCharge, m: Money, table: Table, key: SourceKey, ai: Identity, l: Labels)
  {
    var p := r.payload;
    && p.kind == Agent && p.table == table && p.key == key && p.accountName == ai.name
    && p.unit.Instance? && NamesInstance(p.unit.uuid, c, l)
    && IsAgentKey(r.eventKey, c, ai, l, p.unit.uuid)
    && StatesTerms(p.terms, ai, c.start, m.recurring, m.normalized, m.currency, m.base, m.fxDate, m.finalizedOn)
  }

  ghost predicate StatesFact(db: Database, r: Row) {
    || (exists c, ai :: ProxyFact(db, c, ai) && StatesProxy(r, c, ai))
    || (exists c, ai :: AgentFact(db, c, ai) && StatesAgent(r, c, c.money, AgentCharges, OfCharge(c.id), ai, db.labels))
    || (exists a, c, ai :: AllocationFact(db, a, c, ai)
          && StatesAgent(r, c, a.money, AgentAllocations, OfAllocation(a.charge, a.software), ai, db.labels))
  }

  // -- the rows of the scans state their facts --

  lemma ProxyRowStates(c: ProxyCharge, ai: Identity)
    requires c.finalizedAt.Some?
    ensures StatesProxy(ProxyRow(c, c.finalizedAt.value, ai), c, ai)
  {
    var number := "contract:" + Decimal(c.id);
    DecimalIsDecimal(Decimal(c.id), c.id);
    assert number[..9] == "contract:" && number[9..] == Decimal(c.id);
  }

  lemma InstanceIsNamed(c: AgentCharge, l: Labels)
    ensures NamesInstance(InstanceUuid(c, l), c, l)
  {
    var number := "instance:" + Decimal(c.instance);
    DecimalIsDecimal(Decimal(c.instance), c.instance);
    assert number[..9] == "instance:" && number[9..] == Decimal(c.instance);
  }

  lemma LabelIsLookedUp(c: AgentCharge, l: Labels, m: map<nat, string>)
    ensures var text := Looked(m, SubscriptionOf(c, l));
            if text == "" then forall u :: !IsLabelled(c, l, m, u) else IsLabelled(c, l, m, text)
  {
    var id := SubscriptionOf(c, l);
    if id.Some? {
      assert HasSubscription(c, l, id.value);
      assert forall other :: HasSubscription(c, l, other) ==> other == id.value;
    }
  }

  lemma SubscriptionIsNumbered(id: Option<nat>)
    ensures IsNumbered("subscription:" + Printed(id), id)
  {
    var number := "subscription:" + Printed(id);
    if id.Some? {
      DecimalIsDecimal(Decimal(id.value), id.value);
    }
    assert number[..13] == "subscription:" && number[13..] == Printed(id);
  }

  lemma SubscriptionIsNamed(c: AgentCharge, l: Labels)
    ensures NamesSubscription(SubscriptionUuid(c, l), c, l)
  {
    LabelIsLookedUp(c, l, l.subscriptionIdentity);
    LabelIsLookedUp(c, l, l.liveSubscription);
    SubscriptionIsNumbered(c.subscription);
  }

  lemma AgentKeyIsBuilt(c: AgentCharge, m: Money, table: Table, key: SourceKey, ai: Identity, l: Labels)
    ensures IsAgentKey(AgentRow(c, m, table, key, ai, l).eventKey, c, ai, l, InstanceUuid(c, l))
  {
    var subscription, account := SubscriptionUuid(c, l), Or(ai.uuid, Decimal(ai.id));
    SubscriptionIsNamed(c, l);
    DecimalIsDecimal(Decimal(ai.id), ai.id);
    assert NamesSubscription(subscription, c, l) && NamesAccount(account, ai);
  }

  lemma AgentRowStates(c: AgentCharge, m: Money, table: Table, key: SourceKey, ai: Identity, l: Labels)
    ensures StatesAgent(AgentRow(c, m, table, key, ai, l), c, m, table, key, ai, l)
  {
    InstanceIsNamed(c, l);
    AgentKeyIsBuilt(c, m, table, key, ai, l);
  }

  // ----- the scans list exactly the facts -----

  lemma OwnerIsFound(db: Database, id: nat, kind: Kind, ai: Identity)
    requires DistinctIdentities(db)
    ensures OwnerOfKind(db.identities, Some(id), kind) == Some(ai) <==>
            ai in db.identities && ai.id == id && ai.kind == kind
  {
    IdentityLookup(db.identities, id);
  }

  lemma ProxyFactIsListed(db: Database, c: ProxyCharge, ai: Identity)
    requires DistinctIdentities(db) && ProxyFact(db, c, ai)
    ensures exists r :: StatesProxy(r, c, ai) && r in EventRows(db)
  {
    OwnerIsFound(db, ai.id, Proxy, ai);
    ProxyRowStates(c, ai);
    ChargeIsListed(db.charges, db, c);
  }

  lemma AgentFactIsListed(db: Database, c: AgentCharge, ai: Identity)
    requires DistinctIdentities(db) && AgentFact(db, c, ai)
    ensures exists r :: StatesAgent(r, c, c.money, AgentCharges, OfCharge(c.id), ai, db.labels) && r in EventRows(db)
  {
    OwnerIsFound(db, ai.id, Agent, ai);
    AgentRowStates(c, c.money, AgentCharges, OfCharge(c.id), ai, db.labels);
    AgentChargeIsListed(db.agentCharges, db, c);
  }

  lemma AllocationFactIsListed(db: Database, a: Allocation, c: AgentCharge, ai: Identity)
    requires PrimaryKeys(db) && DistinctIdentities(db) && AllocationFact(db, a, c, ai)
    ensures exists r :: StatesAgent(r, c, a.money, AgentAllocations, OfAllocation(a.charge, a.software), ai, db.labels)
                        && r in EventRows(db)
  {
    OwnerIsFound(db, a.software, Agent, ai);
    ChargeLookup(db.agentCharges, a.charge);
    AgentRowStates(c, a.money, AgentAllocations, OfAllocation(a.charge, a.software), ai, db.labels);
    AllocationIsListed(db.allocations, db, a);
  }

  lemma {:induction false} ListedChargeIsFact(charges: seq<ProxyCharge>, db: Database, r: Row)
    requires DistinctIdentities(db) && (forall c :: c in charges ==> c in db.charges) && r in ChargeRows(charges, db)
    ensures exists c, ai :: ProxyFact(db, c, ai) && StatesProxy(r, c, ai)
  {
    var n := |charges| - 1;
    if r in ChargeRows(charges[..n], db) {
      ListedChargeIsFact(charges[..n], db, r);
    } else {
      var c := charges[n];
      var ai := OwnerOfKind(db.identities, OwnerOf(c, db.contracts), Proxy).value;
      OwnerIsFound(db, OwnerOf(c, db.contracts).value, Proxy, ai);
      ProxyRowStates(c, ai);
      assert ProxyFact(db, c, ai);
    }
  }

  lemma {:induction false} ListedAgentChargeIsFact(charges: seq<AgentCharge>, db: Database, r: Row)
    requires DistinctIdentities(db) && (forall c :: c in charges ==> c in db.agentCharges)
    requires r in AgentChargeRows(charges, db)
    ensures exists c, ai ::
      AgentFact(db, c, ai) && StatesAgent(r, c, c.money, AgentCharges, OfCharge(c.id), ai, db.labels)
  {
    var n := |charges| - 1;
    if r in AgentChargeRows(charges[..n], db) {
      ListedAgentChargeIsFact(charges[..n], db, r);
    } else {
      var c := charges[n];
      var ai := OwnerOfKind(db.identities, c.software, Agent).value;
      OwnerIsFound(db, c.software.value, Agent, ai);
      AgentRowStates(c, c.money, AgentCharges, OfCharge(c.id), ai, db.labels);
      assert AgentFact(db, c, ai);
    }
  }

  lemma {:induction false} ListedAllocationIsFact(allocations: seq<Allocation>, db: Database, r: Row)
    requires PrimaryKeys(db) && DistinctIdentities(db) && (forall a :: a in allocations ==> a in db.allocations)
    requires r in AllocationRows(allocations, db)
    ensures exists a, c, ai ::
      AllocationFact(db, a, c, ai)
      && StatesAgent(r, c, a.money, AgentAllocations, OfAllocation(a.charge, a.software), ai, db.labels)
  {
    var n := |allocations| - 1;
    if r in AllocationRows(allocations[..n], db) {
      ListedAllocationIsFact(allocations[..n], db, r);
    } else {
      var a := allocations[n];
      ChargeLookup(db.agentCharges, a.charge);
      var ai, c := OwnerOfKind(db.identities, Some(a.software), Agent).value, ChargeOf(db.agentCharges, a.charge).value;
      OwnerIsFound(db, a.software, Agent, ai);
      AgentRowStates(c, a.money, AgentAllocations, OfAllocation(a.charge, a.software), ai, db.labels);
      assert AllocationFact(db, a, c, ai);
    }
  }

  lemma ListedIsFact(db: Database, r: Row)
    requires PrimaryKeys(db) && DistinctIdentities(db) && r in EventRows(db)
    ensures StatesFact(db, r)
  {
    if r in ChargeRows(db.charges, db) {
      ListedChargeIsFact(db.charges, db, r);
    } else if r in AgentChargeRows(db.agentCharges, db) {
      ListedAgentChargeIsFact(db.agentCharges, db, r);
    } else {
      ListedAllocationIsFact(db.allocations, db, r);
    }
  }

  // ----- a run -----

  /** Exactly one event has the source of the row, and it states the row's fact. */
  ghost predicate HasEvent(events: seq<Event>, r: Row) {
    exists e :: e in events && Restates(e.row.payload, r.payload)
      && forall other :: other in events && HasSource(other, r.payload.table, r.payload.key) ==> other == e
  }

  /** A run that does not raise leaves existing events alone, gives each finalized charge and each
      finalized allocation exactly one event that states it, and inserts nothing else. */
  lemma EveryFactHasOneEvent(events: seq<Event>, db: Database)
    requires UniqueEvents(events) && PrimaryKeys(db) && DistinctIdentities(db)
    requires InsertAll(events, EventRows(db)).Some?
    ensures var after := InsertAll(events, EventRows(db)).value;
            && events <= after
            && (forall e :: e in after ==> e in events || StatesFact(db, e.row))
            && (forall c, ai :: ProxyFact(db, c, ai) ==> exists r :: StatesProxy(r, c, ai) && HasEvent(after, r))
            && (forall c, ai :: AgentFact(db, c, ai) ==> exists r ::
                 StatesAgent(r, c, c.money, AgentCharges, OfCharge(c.id), ai, db.labels) && HasEvent(after, r))
            && (forall a, c, ai :: AllocationFact(db, a, c, ai) ==> exists r ::
                 StatesAgent(r, c, a.money, AgentAllocations, OfAllocation(a.charge, a.software), ai, db.labels)
                 && HasEvent(after, r))
  {
    var rows, after := EventRows(db), InsertAll(events, EventRows(db)).value;
    SourcesAreDistinct(db);
    RunAppendsMissing(events, rows);
    forall e | e in after ensures e in events || StatesFact(db, e.row) {
      AfterIsOldOrListed(events, db, e);
    }
    forall r | r in rows ensures HasEvent(after, r) {
      ListedHasEvent(events, rows, r);
    }
    forall c, ai | ProxyFact(db, c, ai) ensures exists r :: StatesProxy(r, c, ai) && HasEvent(after, r) {
      ProxyFactIsListed(db, c, ai);
    }
    forall c, ai | AgentFact(db, c, ai)
      ensures exists r :: StatesAgent(r, c, c.money, AgentCharges, OfCharge(c.id), ai, db.labels) && HasEvent(after, r)
    {
      AgentFactIsListed(db, c, ai);
    }
    forall a, c, ai | AllocationFact(db, a, c, ai)
      ensures exists r ::
        StatesAgent(r, c, a.money, AgentAllocations, OfAllocation(a.charge, a.software), ai, db.labels)
        && HasEvent(after, r)
    {
      AllocationFactIsListed(db, a, c, ai);
    }
  }

  lemma ListedHasEvent(events: seq<Event>, rows: seq<Row>, r: Row)
    requires UniqueEvents(events) && InsertAll(events, rows).Some? && r in rows
    ensures HasEvent(InsertAll(events, rows).value, r)
  {
    var i :| 0 <= i < |rows| && rows[i] == r;
    EveryRowHasItsEvent(events, rows, i);
    SourceLookup(InsertAll(events, rows).value, r.payload);
  }

  lemma AfterIsOldOrListed(events: seq<Event>, db: Database, e: Event)
    requires PrimaryKeys(db) && DistinctIdentities(db) && DistinctSources(EventRows(db))
    requires InsertAll(events, EventRows(db)).Some? && e in InsertAll(events, EventRows(db)).value
    ensures e in events || StatesFact(db, e.row)
  {
    var rows := EventRows(db);
    var newRows := Missing(events, rows);
    RunAppendsMissing(events, rows);
    MissingAreRows(events, rows);
    NumberedRows(NextId(events), newRows);
    if e !in events {
      var i :| 0 <= i < |newRows| && Numbered(NextId(events), newRows)[i] == e;
      assert newRows[i] in newRows;
      ListedIsFact(db, e.row);
    }
  }
}
