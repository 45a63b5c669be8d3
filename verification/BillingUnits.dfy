/** Billable units: what the stored usage snapshot says to billing, and which units exist at a moment. */
module BillingUnits {
  import opened Prelude
  import opened Calendar
  import opened UsageSnapshot

  const OBSERVED_PERIOD_MAX_AGE_SECONDS := 48 * 3600

  /** A complete monthly period reported by the upstream. */
  datatype Observed = Observed(start: int, end: int, checkedAt: int)

  predicate Near(moment: int, evidence: int) {
    -OBSERVED_PERIOD_MAX_AGE_SECONDS <= moment - evidence <= OBSERVED_PERIOD_MAX_AGE_SECONDS
  }

  /** `parse_observed_period` */
  function ParseObserved(s: Snapshot): Option<Observed> {
    if s.Missing? || (s.error.Some? && s.error.value != "") || s.checkedAt.None? || s.monthly.None? then None
    else match (s.monthly.value.start, s.monthly.value.end)
      case (Some(start), Some(end)) => Some(Observed(start, end, s.checkedAt.value))
      case _ => None
  }

  /** `observed_period_end` */
  function ObservedPeriodEnd(s: Snapshot, moment: int): Option<int> {
    var observed := ParseObserved(s);
    if observed.Some? && Near(moment, observed.value.checkedAt) then Some(observed.value.end) else None
  }

  /** The contract, and the credential when the contract bills per credential. */
  datatype Owner = Owner(contract: int, credential: Option<string>)

  /** A unit's own columns; `validFrom` is a day, and its day of the month is the anchor. */
  datatype Config = Config(
    owner: Owner,
    account: int,
    validFrom: int,
    endsAt: Option<int>,
    currency: string,
    usageTracked: bool,
    createdAt: Option<int>)

  datatype Unit = Unit(
    config: Config,
    observed: Option<Observed>,
    inactive: bool,
    errorAt: Option<int>,
    resumedAt: Option<int>,
    usagePresent: bool)
  {
    function AnchorDay(): AnchorDay { DayOfMonth(config.validFrom) }

    predicate ObservedFresh(moment: int) {
      observed.Some? && Near(moment, observed.value.checkedAt)
    }

    predicate LapseVerdictFresh(moment: int) {
      inactive && errorAt.Some? && Near(moment, errorAt.value)
    }
  }

  /** A unit as `proxy_units` fills it in from its row and its credential's snapshot. */
  function UnitOf(config: Config, s: Snapshot): Unit {
    Unit(config, ParseObserved(s),
         s.Stored? && s.subscription.Inactive?,
         if s.Stored? then s.errorAt else None,
         if s.Stored? then s.resumedAt else None,
         s.Stored?)
  }

  // ----- what a snapshot says -----

  /** Evidence of at most two days before or after the moment. */
  ghost predicate Recent(moment: int, evidence: int) {
    -172_800 <= moment - evidence <= 172_800
  }

  /** The snapshot's last poll succeeded and it holds this whole period. */
  ghost predicate Reports(s: Snapshot, o: Observed) {
    && s.Stored? && (s.error == None || s.error == Some("")) && s.checkedAt == Some(o.checkedAt)
    && s.monthly == Some(Monthly(Some(o.start), Some(o.end)))
  }

  ghost predicate ReportsAny(s: Snapshot) { exists o :: Reports(s, o) }

  /** A unit's period and verdict are those of its credential's snapshot. */
  ghost predicate Follows(u: Unit, s: Snapshot) {
    && (if u.observed.Some? then Reports(s, u.observed.value) else !ReportsAny(s))
    && u.usagePresent == s.Stored?
    && (u.inactive <==> s.Stored? && s.subscription == Inactive)
    && (if s.Stored? then u.errorAt == s.errorAt && u.resumedAt == s.resumedAt
        else u.errorAt == None && u.resumedAt == None)
  }

  lemma UnitFollows(config: Config, s: Snapshot)
    ensures Follows(UnitOf(config, s), s)
  {
  }

  /** Only the snapshot decides what a unit follows. */
  lemma FollowsDetermines(a: Unit, b: Unit, s: Snapshot)
    requires Follows(a, s) && Follows(b, s) && a.config == b.config
    ensures a == b
  {
    if a.observed.Some? {
      assert ReportsAny(s) && Reports(s, b.observed.value);
    }
  }

  /** A unit is held back while the upstream's refusal is recent. */
  ghost predicate Suspended(u: Unit, moment: int) {
    u.inactive && u.errorAt.Some? && Recent(moment, u.errorAt.value)
  }

  /** A unit follows the upstream's period while that is recent. */
  ghost predicate Observes(u: Unit, moment: int) {
    u.observed.Some? && Recent(moment, u.observed.value.checkedAt)
  }

  lemma VerdictsAreRecent(u: Unit, moment: int)
    ensures u.LapseVerdictFresh(moment) <==> Suspended(u, moment)
    ensures u.ObservedFresh(moment) <==> Observes(u, moment)
  {
  }

  /** The end that a deletion reads is that of a recent report; without one it reads none. */
  lemma ObservedEndIsReported(s: Snapshot, moment: int)
    ensures match ObservedPeriodEnd(s, moment)
            case Some(end) => exists o :: Reports(s, o) && Recent(moment, o.checkedAt) && o.end == end
            case None => forall o :: Reports(s, o) ==> !Recent(moment, o.checkedAt)
  {
    var observed := ParseObserved(s);
    if observed.Some? {
      assert Reports(s, observed.value);
      assert forall o :: Reports(s, o) ==> o == observed.value;
    }
  }

  // ----- which units exist -----

  datatype Credential = Credential(
    uuid: string, keyMasked: string, validFrom: Option<int>, createdAt: int, endsAt: Option<int>, tracked: bool,
      snapshot: Snapshot)

  /** A row of `billing_contracts` with its account, and the account's credentials in position order. */
  datatype Contract = Contract(
    id: int, account: int, recurring: bool, validFrom: int, proxyAccount: bool, perCredential: bool, currency: string,
    endsAt: Option<int>, accountValidFrom: Option<int>, accountCreatedAt: int, credentials: seq<Credential>)

  /** `WHERE charge_type='recurring' AND valid_from<=? AND account_kind='proxy'` */
  predicate Selected(contract: Contract, moment: int) {
    contract.recurring && contract.validFrom <= moment && contract.proxyAccount
  }

  predicate Live(c: Credential, moment: int) {
    c.endsAt.None? || c.endsAt.value > moment
  }

  function EarlierEnd(a: Option<int>, b: Option<int>): Option<int> {
    if a.None? then b else if b.None? then a else if a.value < b.value then a else b
  }

  function CredentialUnit(contract: Contract, c: Credential): Unit {
    UnitOf(Config(Owner(contract.id, Some(c.uuid)), contract.account, c.validFrom.GetOr(DayOf(c.createdAt)),
                  EarlierEnd(contract.endsAt, c.endsAt), contract.currency, c.tracked, Some(c.createdAt)),
           c.snapshot)
  }

  /** A unit of a per-account contract follows no snapshot. */
  function AccountUnit(contract: Contract): Unit {
    UnitOf(Config(Owner(contract.id, None), contract.account,
      contract.accountValidFrom.GetOr(DayOf(contract.accountCreatedAt)),
                  contract.endsAt, contract.currency, false, None),
           Missing)
  }

  /** The credential has not ended. */
  ghost predicate Runs(c: Credential, moment: int) {
    c.endsAt == None || (c.endsAt.Some? && c.endsAt.value > moment)
  }

  /** Credential `i` is billed: it is live and no earlier live credential shows the same masked key. */
  ghost predicate Billed(credentials: seq<Credential>, moment: int, i: int) {
    0 <= i < |credentials| && Runs(credentials[i], moment)
    && forall j :: 0 <= j < i && Runs(credentials[j], moment) ==> credentials[j].keyMasked != credentials[i].keyMasked
  }

  /** The units of the first `n` credentials. */
  ghost function BilledUnits(contract: Contract, moment: int, n: nat): seq<Unit>
    requires n <= |contract.credentials|
  {
    if n == 0 then []
    else BilledUnits(contract, moment, n - 1) +
         if Billed(contract.credentials, moment, n - 1)
           then [CredentialUnit(contract, contract.credentials[n - 1])] else []
  }

  ghost function ContractUnits(contract: Contract, moment: int): seq<Unit> {
    if !Selected(contract, moment) then []
    else if contract.perCredential then BilledUnits(contract, moment, |contract.credentials|)
    else [AccountUnit(contract)]
  }

  ghost function AllUnits(contracts: seq<Contract>, moment: int): seq<Unit> {
    if contracts == [] then []
    else AllUnits(contracts[..|contracts| - 1], moment) + ContractUnits(contracts[|contracts| - 1], moment)
  }

  /** The credential loop of `proxy_units`. */
  method CredentialUnits(contract: Contract, moment: int) returns (units: seq<Unit>)
    ensures units == BilledUnits(contract, moment, |contract.credentials|)
  {
    units := [];
    var seen: set<string> := {};
    for i := 0 to |contract.credentials|
      invariant forall mask :: mask in seen <==>
                  exists j :: 0 <= j < i && Live(contract.credentials[j], moment)
                    && contract.credentials[j].keyMasked == mask
      invariant units == BilledUnits(contract, moment, i)
    {
      var c := contract.credentials[i];
      if Live(c, moment) && c.keyMasked !in seen {
        seen := seen + {c.keyMasked};
        units := units + [CredentialUnit(contract, c)];
      }
    }
  }

  /** `BillingUnitResolver.proxy_units` */
  method ProxyUnits(contracts: seq<Contract>, moment: int) returns (units: seq<Unit>)
    ensures units == AllUnits(contracts, moment)
  {
    units := [];
    for c := 0 to |contracts|
      invariant units == AllUnits(contracts[..c], moment)
    {
      assert contracts[..c + 1][..c] == contracts[..c];
      if Selected(contracts[c], moment) {
        if contracts[c].perCredential {
          var more := CredentialUnits(contracts[c], moment);
          units := units + more;
        } else {
          units := units + [AccountUnit(contracts[c])];
        }
      }
    }
    assert contracts[..|contracts|] == contracts;
  }

  /** Every live masked key is billed, by the first live credential that shows it. */
  lemma {:induction false} EveryLiveKeyIsBilled(credentials: seq<Credential>, moment: int, i: int) returns (j: int)
    requires 0 <= i < |credentials| && Runs(credentials[i], moment)
    ensures Billed(credentials, moment, j) && j <= i && credentials[j].keyMasked == credentials[i].keyMasked
    decreases i
  {
    if Billed(credentials, moment, i) {
      j := i;
    } else {
      var k :| 0 <= k < i && Runs(credentials[k], moment) && credentials[k].keyMasked == credentials[i].keyMasked;
      j := EveryLiveKeyIsBilled(credentials, moment, k);
    }
  }

  // ----- what a unit states -----

  ghost predicate IsDay(day: int, at: int) { day * 86_400 <= at < (day + 1) * 86_400 }

  /** The given day, else the day of the instant. */
  ghost predicate StartsOn(day: int, given: Option<int>, created: int) {
    if given.Some? then day == given.value else IsDay(day, created)
  }

  /** The earlier of two ends, either of which may be missing. */
  ghost predicate IsEarlier(end: Option<int>, a: Option<int>, b: Option<int>) {
    && (end == a || end == b)
    && (end == None ==> a == None && b == None)
    && (end.Some? && a.Some? ==> end.value <= a.value) && (end.Some? && b.Some? ==> end.value <= b.value)
  }

  /** The unit of a credential: its own start, the earlier end, and its own snapshot. */
  ghost predicate StatesCredential(u: Unit, contract: Contract, c: Credential) {
    && u.config.owner == Owner(contract.id, Some(c.uuid)) && u.config.account == contract.account
    && u.config.currency == contract.currency && u.config.usageTracked == c.tracked
    && u.config.createdAt == Some(c.createdAt)
    && StartsOn(u.config.validFrom, c.validFrom, c.createdAt)
    && IsEarlier(u.config.endsAt, contract.endsAt, c.endsAt)
    && Follows(u, c.snapshot)
  }

  /** The unit of a whole account follows no snapshot. */
  ghost predicate StatesAccount(u: Unit, contract: Contract) {
    && u.config.owner == Owner(contract.id, None) && u.config.account == contract.account
    && u.config.currency == contract.currency && u.config.usageTracked == false && u.config.createdAt == None
    && StartsOn(u.config.validFrom, contract.accountValidFrom, contract.accountCreatedAt)
    && u.config.endsAt == contract.endsAt && Follows(u, Missing)
  }

  lemma DayIsUnique(a: int, b: int, at: int)
    requires IsDay(a, at) && IsDay(b, at)
    ensures a == b
  {
  }

  lemma CredentialIsStated(contract: Contract, c: Credential, u: Unit)
    ensures StatesCredential(u, contract, c) <==> u == CredentialUnit(contract, c)
  {
    var unit := CredentialUnit(contract, c);
    UnitFollows(unit.config, c.snapshot);
    assert IsDay(DayOf(c.createdAt), c.createdAt);
    if StatesCredential(u, contract, c) {
      if c.validFrom.None? {
        DayIsUnique(u.config.validFrom, unit.config.validFrom, c.createdAt);
      }
      assert u.config == unit.config;
      FollowsDetermines(u, unit, c.snapshot);
    }
  }

  lemma AccountIsStated(contract: Contract, u: Unit)
    ensures StatesAccount(u, contract) <==> u == AccountUnit(contract)
  {
    var unit := AccountUnit(contract);
    UnitFollows(unit.config, Missing);
    assert IsDay(DayOf(contract.accountCreatedAt), contract.accountCreatedAt);
    if StatesAccount(u, contract) {
      if contract.accountValidFrom.None? {
        DayIsUnique(u.config.validFrom, unit.config.validFrom, contract.accountCreatedAt);
      }
      assert u.config == unit.config;
      FollowsDetermines(u, unit, Missing);
    }
  }

  ghost predicate BilledAs(contract: Contract, moment: int, i: int, u: Unit) {
    Billed(contract.credentials, moment, i) && StatesCredential(u, contract, contract.credentials[i])
  }

  /** A credential of the contract is billed as a unit exactly when it is live and no earlier live
      credential shows its masked key. */
  lemma {:induction false} UnitsAreBilledCredentials(contract: Contract, moment: int, n: nat, u: Unit)
    requires n <= |contract.credentials|
    ensures u in BilledUnits(contract, moment, n) <==> exists i :: 0 <= i < n && BilledAs(contract, moment, i, u)
  {
    if n > 0 {
      UnitsAreBilledCredentials(contract, moment, n - 1, u);
      CredentialIsStated(contract, contract.credentials[n - 1], u);
      var added := if Billed(contract.credentials, moment, n - 1)
        then [CredentialUnit(contract, contract.credentials[n - 1])] else [];
      assert u in added <==> BilledAs(contract, moment, n - 1, u);
      assert u in BilledUnits(contract, moment, n) <==> u in BilledUnits(contract, moment, n - 1) || u in added;
    }
  }

  /** A unit of the contract: one of a billed credential, or that of the whole account. */
  ghost predicate IsUnit(contract: Contract, moment: int, u: Unit) {
    && contract.recurring && contract.validFrom <= moment && contract.proxyAccount
    && if contract.perCredential then
         exists i :: 0 <= i < |contract.credentials| && BilledAs(contract, moment, i, u)
       else StatesAccount(u, contract)
  }

  /** The units of a moment are exactly those of the recurring contracts of proxy accounts that have
      begun. */
  lemma {:induction false} UnitsAreExact(contracts: seq<Contract>, moment: int, u: Unit)
    ensures u in AllUnits(contracts, moment) <==> exists c :: c in contracts && IsUnit(c, moment, u)
  {
    if contracts != [] {
      var init, last := contracts[..|contracts| - 1], contracts[|contracts| - 1];
      UnitsAreExact(init, moment, u);
      UnitsAreBilledCredentials(last, moment, |last.credentials|, u);
      AccountIsStated(last, u);
      assert u in ContractUnits(last, moment) <==> IsUnit(last, moment, u);
      assert forall c :: c in contracts <==> c in init || c == last;
    }
  }

  // ----- no two units share an owner -----

  ghost predicate DistinctOwners(units: seq<Unit>) {
    forall i, j :: 0 <= i < j < |units| ==> units[i].config.owner != units[j].config.owner
  }

  /** Contract ids and credential uuids are primary keys. */
  ghost predicate UniqueIds(contracts: seq<Contract>) {
    && (forall i, j :: 0 <= i < j < |contracts| ==> contracts[i].id != contracts[j].id)
    && forall i :: 0 <= i < |contracts| ==> UniqueUuids(contracts[i].credentials)
  }

  ghost predicate UniqueUuids(credentials: seq<Credential>) {
    forall i, j :: 0 <= i < j < |credentials| ==> credentials[i].uuid != credentials[j].uuid
  }

  /** A unit of contract `id` owned by none of the credentials from the `n`-th on. */
  predicate OwnedWithin(u: Unit, contract: Contract, n: nat) {
    u.config.owner.contract == contract.id
    && forall k :: n <= k < |contract.credentials| ==> u.config.owner.credential != Some(contract.credentials[k].uuid)
  }

  lemma {:induction false} ContractUnitsAreDistinct(contract: Contract, moment: int, n: nat)
    requires UniqueUuids(contract.credentials) && n <= |contract.credentials|
    ensures DistinctOwners(BilledUnits(contract, moment, n))
    ensures forall i :: 0 <= i < |BilledUnits(contract, moment, n)| ==>
            OwnedWithin(BilledUnits(contract, moment, n)[i], contract, n)
  {
    if n > 0 {
      var before, after := BilledUnits(contract, moment, n - 1), BilledUnits(contract, moment, n);
      ContractUnitsAreDistinct(contract, moment, n - 1);
      forall i | 0 <= i < |after| ensures OwnedWithin(after[i], contract, n) {
        if i < |before| {
          assert after[i] == before[i] && OwnedWithin(before[i], contract, n - 1);
        }
      }
      forall i | 0 <= i < |before| ensures before[i].config.owner.credential != Some(contract.credentials[n - 1].uuid) {
        assert OwnedWithin(before[i], contract, n - 1);
      }
    }
  }

  /** The units of one moment never share an owner. */
  lemma {:induction false} UnitsHaveDistinctOwners(contracts: seq<Contract>, moment: int)
    requires UniqueIds(contracts)
    ensures DistinctOwners(AllUnits(contracts, moment))
    ensures forall u :: u in AllUnits(contracts, moment) ==>
            exists c :: c in contracts && u.config.owner.contract == c.id
  {
    if contracts != [] {
      var init, last := contracts[..|contracts| - 1], contracts[|contracts| - 1];
      var before, added := AllUnits(init, moment), ContractUnits(last, moment);
      UnitsHaveDistinctOwners(init, moment);
      ContractUnitsAreDistinct(last, moment, |last.credentials|);
      forall i | 0 <= i < |added| ensures added[i].config.owner.contract == last.id {
        assert last.perCredential ==> OwnedWithin(added[i], last, |last.credentials|);
      }
      forall i | 0 <= i < |before| ensures before[i].config.owner.contract != last.id {
        assert before[i] in before;
        var c :| c in init && before[i].config.owner.contract == c.id;
        var k :| 0 <= k < |init| && init[k] == c;
        assert contracts[k].id != last.id;
      }
      assert last in contracts && forall c :: c in init ==> c in contracts;
    }
  }
}
