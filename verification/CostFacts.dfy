/** What the cost report's figures and the purges come to, row by row: exactly which rows count, and
    exactly which live rows and references a purge removes. */
module CostFacts {
  import opened Prelude
  import opened CostReport
  import opened CostByDay

  // ----- which rows count -----

  ghost predicate IsAccount(identities: map<nat, Kind>, id: nat) {
    id in identities && (identities[id] == Proxy || identities[id] == Agent)
  }

  /** A request counts for the identity it carries, else for its live account, when that is a proxy
      account or agent software. */
  ghost predicate RequestCounts(r: Request, identities: map<nat, Kind>, w: Window) {
    && w.start <= r.at <= w.end
    && (if r.identity.Some? then IsAccount(identities, r.identity.value)
        else r.account.Some? && IsAccount(identities, r.account.value))
  }

  /** A charge counts when it is that of a credential, finalized and priced, and the identity it carries,
      else the live contract's account, is a proxy account. */
  ghost predicate ChargeCounts(c: Charge, identities: map<nat, Kind>, contracts: map<nat, nat>, w: Window) {
    && w.start <= c.start <= w.end
    && c.credential.Some? && c.finalized && c.cost.Some?
    && (if c.identity.Some? then c.identity.value in identities && identities[c.identity.value] == Proxy
        else c.contract in contracts && contracts[c.contract] in identities
             && identities[contracts[c.contract]] == Proxy)
  }

  /** An agent charge counts when it is finalized and priced and its software is known. */
  ghost predicate AgentChargeCounts(c: AgentCharge, identities: map<nat, Kind>, w: Window) {
    && w.start <= c.start <= w.end
    && c.finalized && c.cost.Some?
    && c.software.Some? && c.software.value in identities && identities[c.software.value] == Agent
  }

  /** An allocation counts when it and its charge are finalized, it is priced, its software is known, and
      the charge has no software of its own; `c` is that charge. */
  ghost predicate AllocationCounts(a: Allocation, c: AgentCharge, identities: map<nat, Kind>, w: Window) {
    && c.id == a.charge && w.start <= c.start <= w.end
    && c.finalized && c.software == None
    && a.finalized && a.cost.Some? && a.software in identities && identities[a.software] == Agent
  }

  // ----- sums over rows -----

  ghost function Sum(costs: seq<real>): real {
    if costs == [] then 0.0 else Sum(costs[..|costs| - 1]) + costs[|costs| - 1]
  }

  /** The cost each row contributes to the figure of the instants `on`. */
  ghost predicate RequestCosts(costs: seq<real>, requests: seq<Request>, identities: map<nat, Kind>, w: Window,
          on: int -> bool)
  {
    |costs| == |requests| && forall i :: 0 <= i < |requests| ==>
      costs[i] == if RequestCounts(requests[i], identities, w) && on(requests[i].at) then requests[i].billed else 0.0
  }

  ghost predicate ChargeCosts(costs: seq<real>, charges: seq<Charge>, identities: map<nat, Kind>,
          contracts: map<nat, nat>, w: Window, on: int -> bool)
  {
    |costs| == |charges| && forall i :: 0 <= i < |charges| ==>
      costs[i] == if ChargeCounts(charges[i], identities, contracts, w) && on(charges[i].start)
                  then charges[i].cost.value else 0.0
  }

  ghost predicate AgentChargeCosts(costs: seq<real>, charges: seq<AgentCharge>, identities: map<nat, Kind>, w: Window,
          on: int -> bool)
  {
    |costs| == |charges| && forall i :: 0 <= i < |charges| ==>
      costs[i] == if AgentChargeCounts(charges[i], identities, w) && on(charges[i].start)
                  then charges[i].cost.value else 0.0
  }

  ghost predicate AllocationCost(cost: real, a: Allocation, charges: seq<AgentCharge>, identities: map<nat, Kind>,
          w: Window, on: int -> bool)
  {
    || (exists c :: c in charges && AllocationCounts(a, c, identities, w) && on(c.start) && cost == a.cost.value)
    || (cost == 0.0 && forall c :: c in charges && AllocationCounts(a, c, identities, w) ==> !on(c.start))
  }

  ghost predicate AllocationCosts(costs: seq<real>, allocations: seq<Allocation>, charges: seq<AgentCharge>,
          identities: map<nat, Kind>, w: Window, on: int -> bool)
  {
    |costs| == |allocations| && forall i :: 0 <= i < |allocations| ==>
      AllocationCost(costs[i], allocations[i], charges, identities, w, on)
  }

  /** The agent charges' primary key. */
  ghost predicate DistinctCharges(charges: seq<AgentCharge>) {
    forall i, j :: 0 <= i < j < |charges| ==> charges[i].id != charges[j].id
  }

  ghost function SumOn(facts: seq<Fact>, on: int -> bool): real {
    if facts == [] then 0.0
    else
      SumOn(facts[..|facts| - 1], on) + if on(facts[|facts| - 1].at) then facts[|facts| - 1].cost else 0.0
  }

  ghost function Always(): int -> bool { t => true }

  ghost function SecondsOf(day: int): int -> bool { t => day * 86_400 <= t < (day + 1) * 86_400 }

  lemma {:induction false} TotalIsSum(facts: seq<Fact>)
    ensures Total(facts) == SumOn(facts, Always())
  {
    if facts != [] {
      TotalIsSum(facts[..|facts| - 1]);
    }
  }

  lemma {:induction false} OnDayIsSum(facts: seq<Fact>, day: int)
    ensures OnDay(facts, day) == SumOn(facts, SecondsOf(day))
  {
    if facts != [] {
      OnDayIsSum(facts[..|facts| - 1], day);
    }
  }

  lemma ListedSum(facts: seq<Fact>, f: Option<Fact>, on: int -> bool)
    ensures SumOn(facts + Listed(f), on) == SumOn(facts, on) + if f.Some? && on(f.value.at) then f.value.cost else 0.0
  {
    if f.Some? {
      assert (facts + [f.value])[..|facts|] == facts;
    } else {
      assert facts + [] == facts;
    }
  }

  lemma {:induction false} RequestsSum(costs: seq<real>, requests: seq<Request>, identities: map<nat, Kind>, w: Window,
          on: int -> bool)
    requires RequestCosts(costs, requests, identities, w, on)
    ensures SumOn(MeteredFacts(requests, identities, w), on) == Sum(costs)
  {
    if requests != [] {
      var n := |requests| - 1;
      RequestCostsButLast(costs, requests, identities, w, on);
      RequestsSum(costs[..n], requests[..n], identities, w, on);
      RequestIsCounted(requests[n], identities, w);
      ListedSum(MeteredFacts(requests[..n], identities, w), MeteredFact(requests[n], identities, w), on);
    }
  }

  lemma RequestCostsButLast(costs: seq<real>, requests: seq<Request>, identities: map<nat, Kind>, w: Window,
          on: int -> bool)
    requires requests != [] && RequestCosts(costs, requests, identities, w, on)
    ensures var n := |requests| - 1;
            |costs| == n + 1 && RequestCosts(costs[..n], requests[..n], identities, w, on)
            && costs[n] == if RequestCounts(requests[n], identities, w) && on(requests[n].at) then requests[n].billed
                           else 0.0
  {
  }

  lemma RequestIsCounted(r: Request, identities: map<nat, Kind>, w: Window)
    ensures MeteredFact(r, identities, w) ==
            if RequestCounts(r, identities, w) then Some(Fact(r.at, r.billed)) else None
  {
  }

  lemma {:induction false} ChargesSum(costs: seq<real>, charges: seq<Charge>, identities: map<nat, Kind>,
          contracts: map<nat, nat>, w: Window, on: int -> bool)
    requires ChargeCosts(costs, charges, identities, contracts, w, on)
    ensures SumOn(ProxyFacts(charges, identities, contracts, w), on) == Sum(costs)
  {
    if charges != [] {
      var n := |charges| - 1;
      ChargeCostsButLast(costs, charges, identities, contracts, w, on);
      ChargesSum(costs[..n], charges[..n], identities, contracts, w, on);
      ChargeIsCounted(charges[n], identities, contracts, w);
      ListedSum(ProxyFacts(charges[..n], identities, contracts, w), ProxyFact(charges[n], identities, contracts, w),
        on);
    }
  }

  lemma ChargeIsCounted(c: Charge, identities: map<nat, Kind>, contracts: map<nat, nat>, w: Window)
    ensures ProxyFact(c, identities, contracts, w) ==
            if ChargeCounts(c, identities, contracts, w) then Some(Fact(c.start, c.cost.value)) else None
  {
  }

  lemma ChargeCostsButLast(costs: seq<real>, charges: seq<Charge>, identities: map<nat, Kind>,
          contracts: map<nat, nat>, w: Window, on: int -> bool)
    requires charges != [] && ChargeCosts(costs, charges, identities, contracts, w, on)
    ensures var n := |charges| - 1;
            |costs| == n + 1 && ChargeCosts(costs[..n], charges[..n], identities, contracts, w, on)
            && costs[n] == if ChargeCounts(charges[n], identities, contracts, w) && on(charges[n].start)
                           then charges[n].cost.value else 0.0
  {
  }

  lemma AgentChargeCostsButLast(costs: seq<real>, charges: seq<AgentCharge>, identities: map<nat, Kind>, w: Window,
          on: int -> bool)
    requires charges != [] && AgentChargeCosts(costs, charges, identities, w, on)
    ensures var n := |charges| - 1;
            |costs| == n + 1 && AgentChargeCosts(costs[..n], charges[..n], identities, w, on)
            && costs[n] == if AgentChargeCounts(charges[n], identities, w) && on(charges[n].start)
                           then charges[n].cost.value else 0.0
  {
  }

  lemma {:induction false} AgentChargesSum(costs: seq<real>, charges: seq<AgentCharge>, identities: map<nat, Kind>,
          w: Window, on: int -> bool)
    requires AgentChargeCosts(costs, charges, identities, w, on)
    ensures SumOn(AgentFacts(charges, identities, w), on) == Sum(costs)
  {
    if charges != [] {
      var n := |charges| - 1;
      AgentChargeCostsButLast(costs, charges, identities, w, on);
      AgentChargesSum(costs[..n], charges[..n], identities, w, on);
      ListedSum(AgentFacts(charges[..n], identities, w), AgentFact(charges[n], identities, w), on);
    }
  }

  lemma {:induction false} ChargeLookup(charges: seq<AgentCharge>, id: nat)
    requires DistinctCharges(charges)
    ensures var r := ChargeOf(charges, id);
            (r.Some? ==> r.value in charges && r.value.id == id)
            && forall c :: c in charges && c.id == id ==> r == Some(c)
  {
    if charges != [] {
      ChargeLookup(charges[..|charges| - 1], id);
    }
  }

  lemma AllocationAmount(cost: real, a: Allocation, charges: seq<AgentCharge>, identities: map<nat, Kind>, w: Window,
          on: int -> bool)
    requires DistinctCharges(charges) && AllocationCost(cost, a, charges, identities, w, on)
    ensures var f := LegacyFact(a, charges, identities, w);
            cost == if f.Some? && on(f.value.at) then f.value.cost else 0.0
  {
    ChargeLookup(charges, a.charge);
  }

  lemma {:induction false} AllocationsSum(costs: seq<real>, allocations: seq<Allocation>, charges: seq<AgentCharge>,
          identities: map<nat, Kind>, w: Window, on: int -> bool)
    requires DistinctCharges(charges) && AllocationCosts(costs, allocations, charges, identities, w, on)
    ensures SumOn(LegacyFacts(allocations, charges, identities, w), on) == Sum(costs)
  {
    if allocations != [] {
      var n := |allocations| - 1;
      AllocationsSum(costs[..n], allocations[..n], charges, identities, w, on);
      AllocationAmount(costs[n], allocations[n], charges, identities, w, on);
      ListedSum(LegacyFacts(allocations[..n], charges, identities, w),
        LegacyFact(allocations[n], charges, identities, w), on);
    }
  }

  lemma {:induction false} SumsAppend(a: seq<Fact>, b: seq<Fact>, on: int -> bool)
    ensures SumOn(a + b, on) == SumOn(a, on) + SumOn(b, on)
  {
    if b == [] {
      assert a + [] == a;
    } else {
      SumsAppend(a, b[..|b| - 1], on);
      assert (a + b)[..|a + b| - 1] == a + b[..|b| - 1];
    }
  }

  /** What each row of the four tables contributes to a figure. */
  datatype Costs = Costs(requests: seq<real>, charges: seq<real>, agentCharges: seq<real>, allocations: seq<real>)

  ghost predicate AreCosts(k: Costs, db: Database, w: Window, on: int -> bool) {
    && RequestCosts(k.requests, db.requests, db.identities, w, on)
    && ChargeCosts(k.charges, db.charges, db.identities, db.live.contracts, w, on)
    && AgentChargeCosts(k.agentCharges, db.agentCharges, db.identities, w, on)
    && AllocationCosts(k.allocations, db.allocations, db.agentCharges, db.identities, w, on)
  }

  lemma FactsSum(k: Costs, db: Database, w: Window, on: int -> bool)
    requires DistinctCharges(db.agentCharges) && AreCosts(k, db, w, on)
    ensures SumOn(Metered(db, w), on) == Sum(k.requests)
    ensures SumOn(Recurring(db, w), on) == Sum(k.charges) + Sum(k.agentCharges) + Sum(k.allocations)
  {
    var proxy, agent := ProxyFacts(db.charges, db.identities, db.live.contracts, w),
      AgentFacts(db.agentCharges, db.identities, w);
    RequestsSum(k.requests, db.requests, db.identities, w, on);
    ChargesSum(k.charges, db.charges, db.identities, db.live.contracts, w, on);
    AgentChargesSum(k.agentCharges, db.agentCharges, db.identities, w, on);
    AllocationsSum(k.allocations, db.allocations, db.agentCharges, db.identities, w, on);
    SumsAppend(proxy, agent, on);
    SumsAppend(proxy + agent, LegacyFacts(db.allocations, db.agentCharges, db.identities, w), on);
  }

  /** The figures of a window are the sums of the costs of exactly the rows that count. */
  lemma FiguresAreSums(k: Costs, db: Database, w: Window)
    requires DistinctCharges(db.agentCharges) && AreCosts(k, db, w, Always())
    ensures ActualCost(db, w).metered == Sum(k.requests)
    ensures ActualCost(db, w).recurring == Sum(k.charges) + Sum(k.agentCharges) + Sum(k.allocations)
    ensures ActualCost(db, w).total == ActualCost(db, w).metered + ActualCost(db, w).recurring
  {
    FactsSum(k, db, w, Always());
    TotalIsSum(Metered(db, w));
    TotalIsSum(Recurring(db, w));
  }

  /** A day's figures are the sums of the costs of exactly the rows that count and lie in the day. */
  lemma DaysAreSums(k: Costs, db: Database, w: Window, day: int)
    requires DistinctCharges(db.agentCharges) && AreCosts(k, db, w, SecondsOf(day))
    ensures OnDay(Metered(db, w), day) == Sum(k.requests)
    ensures OnDay(Recurring(db, w), day) == Sum(k.charges) + Sum(k.agentCharges) + Sum(k.allocations)
  {
    FactsSum(k, db, w, SecondsOf(day));
    OnDayIsSum(Metered(db, w), day);
    OnDayIsSum(Recurring(db, w), day);
  }

  // ----- what a purge removes -----

  /** Upstream `u` belongs to the account. */
  ghost predicate OwnsUpstream(live: Live, account: nat, u: nat) {
    u in live.upstreams && live.upstreams[u] == account
  }

  ghost predicate OwnsRouteSet(live: Live, account: nat, s: nat) {
    s in live.routeSets && live.routeSets[s] == Some(account)
  }

  /** The purge removes the credential: by name, or with the account's upstream. */
  ghost predicate DropsCredential(live: Live, p: Purge, c: string) {
    match p
    case PurgeAccount(account) => c in live.credentials && OwnsUpstream(live, account, live.credentials[c])
    case PurgeCredential(uuid) => c == uuid
    case PurgeSubscription(_) => false
  }

  ghost predicate DropsRouteSet(live: Live, p: Purge, s: nat) {
    p.PurgeAccount? && OwnsRouteSet(live, p.account, s)
  }

  ghost predicate DropsKey(live: Live, p: Purge, k: nat) {
    p.PurgeAccount? && k in live.clientKeys && OwnsRouteSet(live, p.account, live.clientKeys[k])
  }

  /** `after` holds exactly the entries of `before` that are not dropped. */
  ghost predicate Keeps<K(!new), V>(before: map<K, V>, after: map<K, V>, dropped: iset<K>) {
    forall k :: (k in after <==> k in before && k !in dropped) && (k in after ==> after[k] == before[k])
  }

  ghost predicate IsLiveAfter(live: Live, p: Purge, after: Live) {
    && after.accounts == (if p.PurgeAccount? then live.accounts - {p.account} else live.accounts)
    && after.subscriptions ==
       (if p.PurgeSubscription? then live.subscriptions - {p.subscription} else live.subscriptions)
    && Keeps(live.contracts, after.contracts,
             iset c: nat | p.PurgeAccount? && c in live.contracts && live.contracts[c] == p.account)
    && Keeps(live.upstreams, after.upstreams, iset u: nat | p.PurgeAccount? && OwnsUpstream(live, p.account, u))
    && Keeps(live.credentials, after.credentials, iset c: string | DropsCredential(live, p, c))
    && Keeps(live.routeSets, after.routeSets, iset s: nat | DropsRouteSet(live, p, s))
    && Keeps(live.clientKeys, after.clientKeys, iset k: nat | DropsKey(live, p, k))
    && Keeps(live.instances, after.instances,
             iset i: nat | p.PurgeSubscription? && i in live.instances && live.instances[i] == p.subscription)
    && forall b :: b in after.bindings <==> b in live.bindings && !(p.PurgeSubscription? && b.0 == p.subscription)
  }

  /** The request keeps its owner, moment and cost; it loses its account, with every reference, when that
      is purged, and otherwise exactly its references to what the purge removes. */
  ghost predicate IsDetached(live: Live, p: Purge, r: Request, after: Request) {
    var owned := p.PurgeAccount? && r.account == Some(p.account);
    var orphaned := owned || (r.credential.Some? && DropsCredential(live, p, r.credential.value));
    && after.at == r.at && after.billed == r.billed
    && after.identity == (if owned && r.identity.None? then r.account else r.identity)
    && after.account == (if owned then None else r.account)
    && after.routeSet ==
       (if owned || (r.routeSet.Some? && DropsRouteSet(live, p, r.routeSet.value)) then None else r.routeSet)
    && after.clientKey ==
       (if owned || (r.clientKey.Some? && DropsKey(live, p, r.clientKey.value)) then None else r.clientKey)
    && after.credential == (if orphaned then None else r.credential)
    && after.upstreamKey == (if orphaned then None else r.upstreamKey)
  }

  lemma LiveIsPurged(live: Live, p: Purge)
    ensures IsLiveAfter(live, p, LiveAfter(live, p))
  {
  }

  lemma RequestIsDetached(live: Live, p: Purge, r: Request)
    ensures IsDetached(live, p, r, RequestAfter(live, p, r))
  {
  }

  /** A purge removes exactly the live rows named above, keeps every request, charge and identity, and
      takes from a request exactly what it removes. */
  lemma PurgeRemovesExactly(db: Database, p: Purge)
    ensures var after := Purged(db, p);
            && after.charges == db.charges && after.agentCharges == db.agentCharges
            && after.allocations == db.allocations && after.identities == db.identities
            && IsLiveAfter(db.live, p, after.live)
            && |after.requests| == |db.requests|
            && forall i :: 0 <= i < |db.requests| ==> IsDetached(db.live, p, db.requests[i], after.requests[i])
  {
    LiveIsPurged(db.live, p);
    forall i | 0 <= i < |db.requests| ensures IsDetached(db.live, p, db.requests[i], Purged(db, p).requests[i]) {
      RequestIsDetached(db.live, p, db.requests[i]);
    }
  }

  // ----- references -----

  /** Every live row refers to live rows. */
  ghost predicate Whole(live: Live) {
    && (forall c :: c in live.contracts ==> live.contracts[c] in live.accounts)
    && (forall u :: u in live.upstreams ==> live.upstreams[u] in live.accounts)
    && (forall c :: c in live.credentials ==> live.credentials[c] in live.upstreams)
    && (forall s :: s in live.routeSets && live.routeSets[s].Some? ==> live.routeSets[s].value in live.accounts)
    && (forall k :: k in live.clientKeys ==> live.clientKeys[k] in live.routeSets)
    && (forall i :: i in live.instances ==> live.instances[i] in live.subscriptions)
    && (forall b :: b in live.bindings ==> b.0 in live.subscriptions)
  }

  ghost predicate Refers(r: Request, live: Live) {
    && (r.account.Some? ==> r.account.value in live.accounts)
    && (r.routeSet.Some? ==> r.routeSet.value in live.routeSets)
    && (r.clientKey.Some? ==> r.clientKey.value in live.clientKeys)
    && (r.credential.Some? ==> r.credential.value in live.credentials)
  }

  ghost predicate Referring(db: Database) {
    Whole(db.live) && forall i :: 0 <= i < |db.requests| ==> Refers(db.requests[i], db.live)
  }

  lemma PurgeKeepsWhole(live: Live, p: Purge)
    requires Whole(live)
    ensures Whole(LiveAfter(live, p))
  {
  }

  lemma PurgeKeepsRefers(live: Live, p: Purge, r: Request)
    requires Refers(r, live)
    ensures Refers(RequestAfter(live, p, r), LiveAfter(live, p))
  {
    LiveIsPurged(live, p);
    RequestIsDetached(live, p, r);
    DetachedRefers(live, p, r, RequestAfter(live, p, r), LiveAfter(live, p));
  }

  lemma DetachedRefers(live: Live, p: Purge, r: Request, after: Request, left: Live)
    requires Refers(r, live) && IsDetached(live, p, r, after) && IsLiveAfter(live, p, left)
    ensures Refers(after, left)
  {
  }

  /** No sequence of purges leaves a reference to a removed row. */
  lemma {:induction false} PurgesKeepReferences(db: Database, purges: seq<Purge>)
    requires Referring(db)
    ensures Referring(PurgeAll(db, purges))
    decreases |purges|
  {
    if purges != [] {
      var p, after := purges[0], Purged(db, purges[0]);
      PurgeKeepsWhole(db.live, p);
      forall i | 0 <= i < |after.requests| ensures Refers(after.requests[i], after.live) {
        PurgeKeepsRefers(db.live, p, db.requests[i]);
      }
      PurgesKeepReferences(after, purges[1..]);
    }
  }
}
