/** Actual cost attributed through lasting identities, and the purges of live configuration that must
    not change it. */
module CostReport {
  import opened Prelude

  // ----- tables -----

  datatype Kind = Proxy | Agent | Unattributed

  /** A row of `request_log`; instants are seconds. */
  datatype Request = Request(
    identity: Option<nat>, account: Option<nat>, routeSet: Option<nat>, clientKey: Option<nat>,
    credential: Option<string>, upstreamKey: Option<nat>, at: int, billed: real)

  /** A row of `billing_period_charges`. */
  datatype Charge = Charge(
    identity: Option<nat>, contract: nat, credential: Option<string>, finalized: bool, cost: Option<real>, start: int)

  /** A row of `agent_subscription_period_charges`. */
  datatype AgentCharge = AgentCharge(id: nat, software: Option<nat>, finalized: bool, cost: Option<real>, start: int)

  /** A row of `agent_subscription_charge_allocations`. */
  datatype Allocation = Allocation(charge: nat, software: nat, finalized: bool, cost: Option<real>)

  /** The live configuration the purges delete: who owns a contract, an upstream, a route set, a client
      key, a credential, an agent subscription and its instances. */
  datatype Live = Live(
    accounts: set<nat>, contracts: map<nat, nat>, upstreams: map<nat, nat>, credentials: map<string, nat>,
    routeSets: map<nat, Option<nat>>, clientKeys: map<nat, nat>,
    subscriptions: set<nat>, instances: map<nat, nat>, bindings: set<(nat, nat)>)

  datatype Database = Database(
    requests: seq<Request>, charges: seq<Charge>, agentCharges: seq<AgentCharge>, allocations: seq<Allocation>,
    identities: map<nat, Kind>, live: Live)

  // ----- the report's rows -----

  /** An attributed cost and its instant. */
  datatype Fact = Fact(at: int, cost: real)

  /** A window, both ends included. */
  datatype Window = Window(start: int, end: int) {
    predicate Has(at: int) { start <= at <= end }
  }

  predicate IsKind(identities: map<nat, Kind>, id: Option<nat>, kind: Kind) {
    id.Some? && id.value in identities && identities[id.value] == kind
  }

  /** COALESCE(account_identity_id, account_id) */
  function RequestOwner(r: Request): Option<nat> {
    if r.identity.Some? then r.identity else r.account
  }

  predicate Attributed(identities: map<nat, Kind>, r: Request) {
    IsKind(identities, RequestOwner(r), Proxy) || IsKind(identities, RequestOwner(r), Agent)
  }

  function Listed(f: Option<Fact>): seq<Fact> { if f.Some? then [f.value] else [] }

  function MeteredFact(r: Request, identities: map<nat, Kind>, w: Window): Option<Fact> {
    if Attributed(identities, r) && w.Has(r.at) then Some(Fact(r.at, r.billed)) else None
  }

  function MeteredFacts(requests: seq<Request>, identities: map<nat, Kind>, w: Window): seq<Fact> {
    if requests == [] then []
    else
      MeteredFacts(requests[..|requests| - 1], identities, w)
      + Listed(MeteredFact(requests[|requests| - 1], identities, w))
  }

  /** COALESCE(c.account_identity_id, the account of the contract) */
  function ChargeOwner(c: Charge, contracts: map<nat, nat>): Option<nat> {
    if c.identity.Some? then c.identity else if c.contract in contracts then Some(contracts[c.contract]) else None
  }

  predicate Reported(c: Charge, w: Window) {
    c.credential.Some? && c.finalized && c.cost.Some? && w.Has(c.start)
  }

  function ProxyFact(c: Charge, identities: map<nat, Kind>, contracts: map<nat, nat>, w: Window): Option<Fact> {
    if Reported(c, w) && IsKind(identities, ChargeOwner(c, contracts), Proxy) then Some(Fact(c.start, c.cost.value))
      else None
  }

  function ProxyFacts(charges: seq<Charge>, identities: map<nat, Kind>, contracts: map<nat, nat>,
          w: Window): seq<Fact>
  {
    if charges == [] then []
    else
      ProxyFacts(charges[..|charges| - 1], identities, contracts, w)
      + Listed(ProxyFact(charges[|charges| - 1], identities, contracts, w))
  }

  function AgentFact(c: AgentCharge, identities: map<nat, Kind>, w: Window): Option<Fact> {
    if IsKind(identities, c.software, Agent) && c.finalized && c.cost.Some? && w.Has(c.start)
      then Some(Fact(c.start, c.cost.value)) else None
  }

  function AgentFacts(charges: seq<AgentCharge>, identities: map<nat, Kind>, w: Window): seq<Fact> {
    if charges == [] then []
    else AgentFacts(charges[..|charges| - 1], identities, w) + Listed(AgentFact(charges[|charges| - 1], identities, w))
  }

  function ChargeOf(charges: seq<AgentCharge>, id: nat): Option<AgentCharge> {
    if charges == [] then None
    else if charges[|charges| - 1].id == id then Some(charges[|charges| - 1])
    else ChargeOf(charges[..|charges| - 1], id)
  }

  /** An allocation counts only for a finalized charge without an owner of its own. */
  function LegacyFact(a: Allocation, charges: seq<AgentCharge>, identities: map<nat, Kind>, w: Window): Option<Fact> {
    var c := ChargeOf(charges, a.charge);
    if a.finalized && a.cost.Some? && c.Some? && c.value.finalized && c.value.software.None?
       && IsKind(identities, Some(a.software), Agent) && w.Has(c.value.start)
    then Some(Fact(c.value.start, a.cost.value)) else None
  }

  function LegacyFacts(allocations: seq<Allocation>, charges: seq<AgentCharge>, identities: map<nat, Kind>,
          w: Window): seq<Fact>
  {
    if allocations == [] then []
    else
      LegacyFacts(allocations[..|allocations| - 1], charges, identities, w)
      + Listed(LegacyFact(allocations[|allocations| - 1], charges, identities, w))
  }

  function Metered(db: Database, w: Window): seq<Fact> { MeteredFacts(db.requests, db.identities, w) }

  function Recurring(db: Database, w: Window): seq<Fact> {
    ProxyFacts(db.charges, db.identities, db.live.contracts, w)
    + AgentFacts(db.agentCharges, db.identities, w)
    + LegacyFacts(db.allocations, db.agentCharges, db.identities, w)
  }

  // ----- figures -----

  function Total(facts: seq<Fact>): real {
    if facts == [] then 0.0 else Total(facts[..|facts| - 1]) + facts[|facts| - 1].cost
  }

  /** `date(...)` of an instant. */
  function DayOf(at: int): int { at / 86_400 }

  function OnDay(facts: seq<Fact>, day: int): real {
    if facts == [] then 0.0
    else OnDay(facts[..|facts| - 1], day) + if DayOf(facts[|facts| - 1].at) == day then facts[|facts| - 1].cost else 0.0
  }

  datatype Figures = Figures(metered: real, recurring: real, total: real)

  /** `actual_cost` */
  function ActualCost(db: Database, w: Window): Figures {
    var metered, recurring := Total(Metered(db, w)), Total(Recurring(db, w));
    Figures(metered, recurring, metered + recurring)
  }

  // ----- purges -----

  /** `UPDATE request_log SET account_identity_id=COALESCE(account_identity_id,account_id), account_id=NULL, ...` */
  function DetachedFromAccount(r: Request, account: nat): Request {
    if r.account == Some(account)
    then r.(identity := RequestOwner(r), account := None, routeSet := None, clientKey := None, credential := None,
      upstreamKey := None)
    else r
  }

  function DetachedFromCredential(r: Request, gone: set<string>): Request {
    if r.credential.Some? && r.credential.value in gone then r.(credential := None, upstreamKey := None) else r
  }

  function DetachedFromRoutes(r: Request, routeSets: set<nat>, clientKeys: set<nat>): Request {
    var keyless := if r.clientKey.Some? && r.clientKey.value in clientKeys then r.(clientKey := None) else r;
    if r.routeSet.Some? && r.routeSet.value in routeSets then keyless.(routeSet := None) else keyless
  }

  datatype Purge = PurgeAccount(account: nat) | PurgeCredential(uuid: string) | PurgeSubscription(subscription: nat)

  function RouteSetsOf(live: Live, account: nat): set<nat> {
    set s | s in live.routeSets && live.routeSets[s] == Some(account)
  }

  function KeysOf(live: Live, routeSets: set<nat>): set<nat> {
    set k | k in live.clientKeys && live.clientKeys[k] in routeSets
  }

  function UpstreamsOf(live: Live, account: nat): set<nat> {
    set u | u in live.upstreams && live.upstreams[u] == account
  }

  function CredentialsOf(live: Live, account: nat): set<string> {
    set c | c in live.credentials && live.credentials[c] in UpstreamsOf(live, account)
  }

  function ContractsWithout(contracts: map<nat, nat>, account: nat): map<nat, nat> {
    map c | c in contracts && contracts[c] != account :: contracts[c]
  }

  function LiveAfter(live: Live, p: Purge): Live {
    match p
    case PurgeAccount(account) =>
      live.(accounts := live.accounts - {account},
            contracts := ContractsWithout(live.contracts, account),
            upstreams := live.upstreams - UpstreamsOf(live, account),
            credentials := live.credentials - CredentialsOf(live, account),
            clientKeys := live.clientKeys - KeysOf(live, RouteSetsOf(live, account)),
            routeSets := live.routeSets - RouteSetsOf(live, account))
    case PurgeCredential(uuid) => live.(credentials := live.credentials - {uuid})
    case PurgeSubscription(subscription) =>
      live.(bindings := (set b | b in live.bindings && b.0 != subscription),
            instances := (map i | i in live.instances && live.instances[i] != subscription :: live.instances[i]),
            subscriptions := live.subscriptions - {subscription})
  }

  function RequestAfter(live: Live, p: Purge, r: Request): Request {
    match p
    case PurgeAccount(account) =>
      var sets := RouteSetsOf(live, account);
      DetachedFromCredential(DetachedFromAccount(DetachedFromRoutes(r, sets, KeysOf(live, sets)), account),
        CredentialsOf(live, account))
    case PurgeCredential(uuid) => DetachedFromCredential(r, {uuid})
    case PurgeSubscription(_) => r
  }

  function RequestsAfter(live: Live, p: Purge, requests: seq<Request>): (after: seq<Request>)
    ensures |after| == |requests| && forall i :: 0 <= i < |requests| ==> after[i] == RequestAfter(live, p, requests[i])
  {
    if requests == [] then []
    else RequestsAfter(live, p, requests[..|requests| - 1]) + [RequestAfter(live, p, requests[|requests| - 1])]
  }

  /** `purge_proxy_account`, `purge_credential`, `purge_agent_subscription`: identities and charges stay. */
  function Purged(db: Database, p: Purge): Database {
    db.(requests := RequestsAfter(db.live, p, db.requests), live := LiveAfter(db.live, p))
  }

  // ----- purges and figures -----

  lemma RequestKeepsOwner(live: Live, p: Purge, r: Request)
    ensures var after := RequestAfter(live, p, r);
            RequestOwner(after) == RequestOwner(r) && after.at == r.at && after.billed == r.billed
  {
  }

  /** Metered rows survive every purge, snapshot or not. */
  lemma {:induction false} PurgeKeepsMetered(live: Live, p: Purge, requests: seq<Request>, identities: map<nat, Kind>,
          w: Window)
    ensures MeteredFacts(RequestsAfter(live, p, requests), identities, w) == MeteredFacts(requests, identities, w)
  {
    if requests != [] {
      var n := |requests| - 1;
      PurgeKeepsMetered(live, p, requests[..n], identities, w);
      RequestKeepsOwner(live, p, requests[n]);
      assert RequestsAfter(live, p, requests)[..n] == RequestsAfter(live, p, requests[..n]);
    }
  }

  /** A charge that only its live contract attributes to the account. */
  predicate Unanchored(c: Charge, contracts: map<nat, nat>, account: nat) {
    c.identity.None? && c.contract in contracts && contracts[c.contract] == account
  }

  function LostFact(c: Charge, identities: map<nat, Kind>, contracts: map<nat, nat>, account: nat,
          w: Window): Option<Fact>
  {
    if Reported(c, w) && Unanchored(c, contracts, account) && IsKind(identities, Some(account), Proxy)
      then Some(Fact(c.start, c.cost.value)) else None
  }

  /** What a purge of the account takes out of the proxy figure of a window. */
  function LostFacts(charges: seq<Charge>, identities: map<nat, Kind>, contracts: map<nat, nat>, account: nat,
          w: Window): seq<Fact>
  {
    if charges == [] then []
    else
      LostFacts(charges[..|charges| - 1], identities, contracts, account, w)
      + Listed(LostFact(charges[|charges| - 1], identities, contracts, account, w))
  }

  function Amount(f: Option<Fact>): real { if f.Some? then f.value.cost else 0.0 }

  function AmountOn(f: Option<Fact>, day: int): real {
    if f.Some? && DayOf(f.value.at) == day then f.value.cost else 0.0
  }

  lemma OneMore(facts: seq<Fact>, f: Option<Fact>, day: int)
    ensures Total(facts + Listed(f)) == Total(facts) + Amount(f)
    ensures OnDay(facts + Listed(f), day) == OnDay(facts, day) + AmountOn(f, day)
  {
    if f.Some? {
      assert (facts + [f.value])[..|facts|] == facts;
    } else {
      assert facts + [] == facts;
    }
  }

  lemma ChargeIsKeptOrLost(c: Charge, identities: map<nat, Kind>, contracts: map<nat, nat>, account: nat, w: Window)
    ensures var before, after, lost := ProxyFact(c, identities, contracts, w),
                                       ProxyFact(c, identities, ContractsWithout(contracts, account), w),
                                       LostFact(c, identities, contracts, account, w);
            (before == after && lost.None?) || (before == lost && after.None?)
  {
  }

  lemma {:induction false} PurgeLoses(charges: seq<Charge>, identities: map<nat, Kind>, contracts: map<nat, nat>,
          account: nat, w: Window, day: int)
    ensures var before, after, lost := ProxyFacts(charges, identities, contracts, w),
                                       ProxyFacts(charges, identities, ContractsWithout(contracts, account), w),
                                       LostFacts(charges, identities, contracts, account, w);
            Total(before) == Total(after) + Total(lost) && OnDay(before, day) == OnDay(after, day) + OnDay(lost, day)
  {
    if charges != [] {
      var init, c, kept := charges[..|charges| - 1], charges[|charges| - 1], ContractsWithout(contracts, account);
      PurgeLoses(init, identities, contracts, account, w, day);
      ChargeIsKeptOrLost(c, identities, contracts, account, w);
      OneMore(ProxyFacts(init, identities, contracts, w), ProxyFact(c, identities, contracts, w), day);
      OneMore(ProxyFacts(init, identities, kept, w), ProxyFact(c, identities, kept, w), day);
      OneMore(LostFacts(init, identities, contracts, account, w), LostFact(c, identities, contracts, account, w), day);
    }
  }

  lemma {:induction false} TotalsAppend(a: seq<Fact>, b: seq<Fact>, day: int)
    ensures Total(a + b) == Total(a) + Total(b) && OnDay(a + b, day) == OnDay(a, day) + OnDay(b, day)
  {
    if b == [] {
      assert a + [] == a;
    } else {
      TotalsAppend(a, b[..|b| - 1], day);
      assert (a + b)[..|a + b| - 1] == a + b[..|b| - 1];
    }
  }

  /** The account a purge deletes, when it deletes one. */
  function Lost(db: Database, p: Purge, w: Window): seq<Fact> {
    if p.PurgeAccount? then LostFacts(db.charges, db.identities, db.live.contracts, p.account, w) else []
  }

  /** Every figure after a purge is the figure before it, less the charges that only the deleted
      contracts attributed. */
  lemma PurgeAccountsForFigures(db: Database, p: Purge, w: Window, day: int)
    ensures var before, after, lost := ActualCost(db, w), ActualCost(Purged(db, p), w), Lost(db, p, w);
            && after.metered == before.metered
            && before.recurring == after.recurring + Total(lost)
            && before.total == after.total + Total(lost)
    ensures OnDay(Metered(Purged(db, p), w), day) == OnDay(Metered(db, w), day)
    ensures OnDay(Recurring(db, w), day) == OnDay(Recurring(Purged(db, p), w), day) + OnDay(Lost(db, p, w), day)
  {
    var after := Purged(db, p);
    var proxy, proxyAfter := ProxyFacts(db.charges, db.identities, db.live.contracts, w),
      ProxyFacts(after.charges, after.identities, after.live.contracts, w);
    var agent, legacy := AgentFacts(db.agentCharges, db.identities, w),
      LegacyFacts(db.allocations, db.agentCharges, db.identities, w);
    PurgeKeepsMetered(db.live, p, db.requests, db.identities, w);
    if p.PurgeAccount? {
      PurgeLoses(db.charges, db.identities, db.live.contracts, p.account, w, day);
    }
    TotalsAppend(proxy, agent, day);
    TotalsAppend(proxy + agent, legacy, day);
    TotalsAppend(proxyAfter, agent, day);
    TotalsAppend(proxyAfter + agent, legacy, day);
  }

  // ----- when nothing is lost -----

  /** Every charge carries its identity snapshot. */
  ghost predicate Snapshotted(db: Database) {
    forall i :: 0 <= i < |db.charges| ==> db.charges[i].identity.Some?
  }

  lemma {:induction false} SnapshotsLoseNothing(charges: seq<Charge>, identities: map<nat, Kind>,
          contracts: map<nat, nat>, account: nat, w: Window)
    requires forall i :: 0 <= i < |charges| ==> charges[i].identity.Some?
    ensures LostFacts(charges, identities, contracts, account, w) == []
  {
    if charges != [] {
      SnapshotsLoseNothing(charges[..|charges| - 1], identities, contracts, account, w);
    }
  }

  function PurgeAll(db: Database, purges: seq<Purge>): Database
    decreases |purges|
  {
    if purges == [] then db else PurgeAll(Purged(db, purges[0]), purges[1..])
  }

  /** With snapshots, no sequence of purges changes any figure of any window or day. */
  lemma {:induction false} PurgesKeepFigures(db: Database, purges: seq<Purge>, w: Window, day: int)
    requires Snapshotted(db)
    ensures ActualCost(PurgeAll(db, purges), w) == ActualCost(db, w)
    ensures OnDay(Metered(PurgeAll(db, purges), w), day) == OnDay(Metered(db, w), day)
    ensures OnDay(Recurring(PurgeAll(db, purges), w), day) == OnDay(Recurring(db, w), day)
    decreases |purges|
  {
    if purges != [] {
      var p := purges[0];
      PurgeAccountsForFigures(db, p, w, day);
      if p.PurgeAccount? {
        SnapshotsLoseNothing(db.charges, db.identities, db.live.contracts, p.account, w);
      }
      PurgesKeepFigures(Purged(db, p), purges[1..], w, day);
    }
  }

  /** A charge the purge takes out of some window. */
  predicate TakesOut(db: Database, account: nat, c: Charge) {
    Unanchored(c, db.live.contracts, account) && IsKind(db.identities, Some(account), Proxy)
    && c.credential.Some? && c.finalized && c.cost.Some? && c.cost.value != 0.0
  }

  ghost predicate TakesNothing(db: Database, account: nat, charges: seq<Charge>, w: Window) {
    forall i :: 0 <= i < |charges| && w.Has(charges[i].start) ==> !TakesOut(db, account, charges[i])
  }

  lemma ChargeLosesIff(db: Database, c: Charge, account: nat, w: Window)
    requires c.cost.Some? ==> c.cost.value >= 0.0
    ensures var lost := Amount(LostFact(c, db.identities, db.live.contracts, account, w));
            lost >= 0.0 && (lost == 0.0 <==> w.Has(c.start) ==> !TakesOut(db, account, c))
  {
  }

  lemma {:induction false} LostIsPositive(db: Database, charges: seq<Charge>, account: nat, w: Window)
    requires forall i :: 0 <= i < |charges| && charges[i].cost.Some? ==> charges[i].cost.value >= 0.0
    ensures var lost := Total(LostFacts(charges, db.identities, db.live.contracts, account, w));
            lost >= 0.0 && (lost == 0.0 <==> TakesNothing(db, account, charges, w))
  {
    if charges != [] {
      var n := |charges| - 1;
      LostIsPositive(db, charges[..n], account, w);
      ChargeLosesIff(db, charges[n], account, w);
      OneMore(LostFacts(charges[..n], db.identities, db.live.contracts, account, w),
        LostFact(charges[n], db.identities, db.live.contracts, account, w), 0);
      assert TakesNothing(db, account, charges, w)
        <==> TakesNothing(db, account, charges[..n], w)
             && (w.Has(charges[n].start) ==> !TakesOut(db, account, charges[n]));
    }
  }

  /** Purging an account keeps a window's total exactly when no reported charge with a cost in it is
      attributed by the live contract alone; costs are never negative. */
  lemma PurgeKeepsTotalIff(db: Database, account: nat, w: Window)
    requires forall i :: 0 <= i < |db.charges| && db.charges[i].cost.Some? ==> db.charges[i].cost.value >= 0.0
    ensures ActualCost(Purged(db, PurgeAccount(account)), w).total == ActualCost(db, w).total
            <==> forall i :: 0 <= i < |db.charges| && w.Has(db.charges[i].start) ==>
              !TakesOut(db, account, db.charges[i])
  {
    PurgeAccountsForFigures(db, PurgeAccount(account), w, 0);
    LostIsPositive(db, db.charges, account, w);
  }

  // ----- the purges, statement by statement -----

  /** `UPDATE request_log SET ...`, row by row. */
  function Each(f: Request -> Request, requests: seq<Request>): (after: seq<Request>)
    ensures |after| == |requests| && forall i :: 0 <= i < |requests| ==> after[i] == f(requests[i])
  {
    seq(|requests|, i requires 0 <= i < |requests| => f(requests[i]))
  }

  class ProxyTables {
    var requests: seq<Request>
    var live: Live

    /** `purge_route_sets` with its client keys. */
    method PurgeRouteSets(sets: set<nat>)
      modifies this
      ensures live == old(live).(clientKeys := old(live).clientKeys - KeysOf(old(live), sets),
              routeSets := old(live).routeSets - sets)
      ensures requests == Each(r => DetachedFromRoutes(r, sets, KeysOf(old(live), sets)), old(requests))
    {
      ghost var was := live;
      requests := Each((r: Request) => if r.routeSet.Some? && r.routeSet.value in sets then r.(routeSet := None)
        else r, requests);
      var keys := KeysOf(live, sets);
      requests := Each((r: Request) => if r.clientKey.Some? && r.clientKey.value in keys then r.(clientKey := None)
        else r, requests);
      live := live.(clientKeys := live.clientKeys - keys);
      live := live.(routeSets := live.routeSets - sets);
      assert requests == Each(r => DetachedFromRoutes(r, sets, KeysOf(was, sets)), old(requests));
    }

    /** `purge_proxy_account` */
    method PurgeProxyAccount(account: nat)
      modifies this
      ensures live == LiveAfter(old(live), PurgeAccount(account))
      ensures requests == RequestsAfter(old(live), PurgeAccount(account), old(requests))
    {
      PurgeRouteSets(RouteSetsOf(live, account));
      requests := Each(r => DetachedFromAccount(r, account), requests);
      var credentials := CredentialsOf(live, account);
      requests := Each(r => DetachedFromCredential(r, credentials), requests);
      live := live.(credentials := live.credentials - credentials);
      live := live.(contracts := ContractsWithout(live.contracts, account));
      live := live.(upstreams := live.upstreams - UpstreamsOf(live, account));
      live := live.(accounts := live.accounts - {account});
    }

    /** `purge_credential` */
    method PurgeCredentialRow(uuid: string)
      modifies this
      ensures live == LiveAfter(old(live), PurgeCredential(uuid))
      ensures requests == RequestsAfter(old(live), PurgeCredential(uuid), old(requests))
    {
      requests := Each(r => DetachedFromCredential(r, {uuid}), requests);
      live := live.(credentials := live.credentials - {uuid});
    }

    /** `purge_agent_subscription`; false when there is no such subscription. */
    method PurgeAgentSubscription(subscription: nat) returns (found: bool)
      modifies this`live
      ensures found <==> subscription in old(live).subscriptions
      ensures live == if found then LiveAfter(old(live), PurgeSubscription(subscription)) else old(live)
      ensures RequestsAfter(old(live), PurgeSubscription(subscription), requests) == requests
    {
      assert RequestsAfter(old(live), PurgeSubscription(subscription), requests) == requests;
      if subscription !in live.subscriptions {
        return false;
      }
      live := live.(bindings := (set b | b in live.bindings && b.0 != subscription));
      live := live.(instances :=
        (map i | i in live.instances && live.instances[i] != subscription :: live.instances[i]));
      live := live.(subscriptions := live.subscriptions - {subscription});
      return true;
    }
  }
}
