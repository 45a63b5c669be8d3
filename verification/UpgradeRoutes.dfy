/** The way a start-up takes through the two databases: which branch it chooses for a pair, and every
    pair of files it leaves on disk between two of its commits. */
module UpgradeRoutes {
  import opened Prelude

  /** A database file: absent, or some content. Equal checksums mean equal content. */
  datatype File = Absent | Content(bytes: seq<int>)

  datatype Side = TokenBoard | Dashboard

  type Pair = (File, File)

  /** What opening a missing database creates: a file without a version. */
  const UNVERSIONED := Content([])

  /** The published migrations, as far as a start-up reads or applies them. */
  datatype Schema = Schema(
    major: (Side, File) -> Option<nat>,       // `inspect_version`; None for a file without a version
    left: (Side, File) -> nat,                // SQL migrations its major still has for the file
    newer: (Side, File) -> bool,              // its minor is beyond the published ones
    step: (Side, File) -> File,               // the next SQL migration, committed by itself
    pair: (File, File) -> Pair,               // the verified V2 shadows of a pair
    transitioned: (File, File) -> Pair,       // the verified V1 shadows of the selected transitions
    artifact: (Side, File, File) -> File,     // the V2 shadow of a single V0 database
    selects: (File, File) -> bool,            // some transition matches the pair
    pendingExport: File -> bool)              // the token board records an unfinished dashboard export

  predicate IsCurrent(schema: Schema, side: Side, f: File) {
    f.Content? && schema.major(side, f) == Some(2) && schema.left(side, f) == 0 && !schema.newer(side, f)
  }

  predicate BothCurrent(schema: Schema, a: Pair) {
    IsCurrent(schema, TokenBoard, a.0) && IsCurrent(schema, Dashboard, a.1)
  }

  /** A file without a version has its whole first major before it and records nothing; a migration
      leaves one less. */
  ghost predicate FileLaws(schema: Schema, side: Side, f: File) {
    && (f.Absent? ==> schema.major(side, f).None?)
    && (schema.major(side, f).None? ==>
       (f.Content? ==> schema.left(side, f) >= 1) && (side == TokenBoard ==> !schema.pendingExport(f)))
    && (f.Content? && schema.left(side, f) > 0 ==>
          var next := schema.step(side, f);
          next.Content? && schema.left(side, next) == schema.left(side, f) - 1
          && schema.major(side, next) == Some(schema.major(side, f).GetOr(1))
          && (side == TokenBoard ==> schema.pendingExport(next) == schema.pendingExport(f)))
  }

  /** The shadows of a pair are current. A transition leaves a V1 pair and records itself, so that it is
      never selected again; only V0 and V1 pairs have transitions. */
  ghost predicate PairLaws(schema: Schema, p: File, d: File) {
    var next := schema.transitioned(p, d);
    && BothCurrent(schema, schema.pair(p, d))
    && next.0.Content? && next.1.Content? && !schema.selects(next.0, next.1)
    && schema.major(TokenBoard, next.0) == schema.major(Dashboard, next.1) == Some(1)
    && IsCurrent(schema, TokenBoard, schema.artifact(TokenBoard, p, d))
    && IsCurrent(schema, Dashboard, schema.artifact(Dashboard, d, p))
  }

  /** What the migration engine and the transitions guarantee of their results. */
  ghost predicate Lawful(schema: Schema) {
    && (forall side: Side, f: File :: FileLaws(schema, side, f))
    && (forall p: File, d: File :: PairLaws(schema, p, d))
    && (forall side: Side :: schema.major(side, UNVERSIONED).None?)
  }

  /** An engine that meets this: a versioned file is its major, the migrations left and whether an export is
      unfinished; V0 pairs are transitioned to V1 with one migration left. */
  function SampleMajor(f: File): Option<nat> {
    if f.Content? && |f.bytes| == 3 && f.bytes[0] >= 0 then Some(f.bytes[0]) else None
  }

  function SampleLeft(f: File): nat {
    if SampleMajor(f).None? then 1 else if f.bytes[1] > 0 then f.bytes[1] else 0
  }

  function SampleStep(f: File): File {
    if SampleMajor(f).None? then Content([1, 0, 0]) else Content([f.bytes[0], f.bytes[1] - 1, f.bytes[2]])
  }

  function SampleEngine(): Schema {
    var current, older := Content([2, 0, 0]), Content([1, 1, 0]);
    Schema((side, f) => SampleMajor(f), (side, f) => SampleLeft(f), (side, f) => false, (side, f) => SampleStep(f),
      (p, d) => (current, current), (p, d) => (older, older), (side, f, other) => current,
      (p, d) => SampleMajor(p) == Some(0), f => SampleMajor(f).Some? && f.bytes[2] != 0)
  }

  lemma SampleIsLawful()
    ensures Lawful(SampleEngine())
  {
    var schema := SampleEngine();
    forall side: Side, f: File
      ensures FileLaws(schema, side, f)
    {
      assert schema.major(side, f) == SampleMajor(f) && schema.left(side, f) == SampleLeft(f);
    }
  }

  // ----- the branches of the coordinator -----

  datatype Plan =
    | Raise                                                // a check refuses the pair
    | Keep
    | Upgrade                                              // publish `pair` through a manifest
    | Transition                                           // publish `transitioned`, then `pair`
    | ReplaceOne(side: Side)                               // publish `artifact` atomically, then go on
    | MigrateInPlace(onProxy: bool, onDashboard: bool)     // no manifest; then go on

  /** `ensure_local_databases` after recovery, branch by branch. */
  function PlanFor(schema: Schema, p: File, d: File): Plan {
    var vp, vd := schema.major(TokenBoard, p), schema.major(Dashboard, d);
    if vp.None? && vd.None? then MigrateInPlace(true, true)
    else if vp == vd == Some(0) then (if schema.selects(p, d) then Transition else Raise)
    else if vp == Some(0) then ReplaceOne(TokenBoard)
    else if vd == Some(0) then (if vp == Some(1) || vp == Some(2) then ReplaceOne(Dashboard) else Raise)
    else if p.Absent? || d.Absent? then MigrateInPlace(p.Absent?, d.Absent?)
    else if vp.None? || vd.None? then Raise
    else if (vp == Some(1) && vd == Some(2)) || (vp == Some(2) && vd == Some(1)) then
      (if schema.pendingExport(p) then Raise else Upgrade)
    else if vp != vd then Raise
    else if vp == Some(2) then
      if schema.newer(TokenBoard, p) || schema.newer(Dashboard, d) then Raise
      else if schema.left(TokenBoard, p) > 0 || schema.left(Dashboard, d) > 0 then Upgrade
      else Keep
    else if vp == Some(1) then
      if schema.pendingExport(p) then Raise
      else if schema.selects(p, d) then Transition
      else MigrateInPlace(true, true)
    else Raise
  }

  // ----- migrating in place -----

  function Least(a: nat, b: nat): nat { if a < b then a else b }

  /** Creating the file and applying its migrations, one commit each. */
  function Ops(schema: Schema, side: Side, f: File): nat {
    if f.Absent? then 1 + schema.left(side, UNVERSIONED) else schema.left(side, f)
  }

  function NextFile(schema: Schema, side: Side, f: File): File {
    if f.Absent? then UNVERSIONED else schema.step(side, f)
  }

  function AfterOps(schema: Schema, side: Side, f: File, n: nat): File {
    if n == 0 then f else NextFile(schema, side, AfterOps(schema, side, f, n - 1))
  }

  function OpsIf(schema: Schema, on: bool, side: Side, f: File): nat { if on then Ops(schema, side, f) else 0 }

  /** The operations of an in-place branch: the token board's first, then the dashboard's. */
  function Steps(schema: Schema, p: File, d: File, onProxy: bool, onDashboard: bool): nat {
    OpsIf(schema, onProxy, TokenBoard, p) + OpsIf(schema, onDashboard, Dashboard, d)
  }

  /** The pair on disk after `n` of them. */
  function Partial(schema: Schema, p: File, d: File, onProxy: bool, n: nat): Pair {
    var first := OpsIf(schema, onProxy, TokenBoard, p);
    if n <= first then (AfterOps(schema, TokenBoard, p, n), d)
    else (AfterOps(schema, TokenBoard, p, first), AfterOps(schema, Dashboard, d, n - first))
  }

  function Partials(schema: Schema, p: File, d: File, onProxy: bool, n: nat): (pairs: seq<Pair>)
    ensures |pairs| == n + 1 && forall k: nat :: k <= n ==> pairs[k] == Partial(schema, p, d, onProxy, k)
  {
    if n == 0 then [Partial(schema, p, d, onProxy, 0)]
    else Partials(schema, p, d, onProxy, n - 1) + [Partial(schema, p, d, onProxy, n)]
  }

  lemma {:induction false} OpsCountDown(schema: Schema, side: Side, f: File, n: nat)
    requires Lawful(schema) && n <= Ops(schema, side, f)
    ensures var after := AfterOps(schema, side, f, n);
            && Ops(schema, side, after) == Ops(schema, side, f) - n
            && (n > 0 ==> after.Content?)
            && (n > (if f.Absent? then 1 else 0) ==> schema.major(side, after) == Some(schema.major(side, f).GetOr(1)))
            && (f.Absent? && n == 1 ==> after == UNVERSIONED)
            && (side == TokenBoard ==>
                 (n > 0 && f.Absent? ==> !schema.pendingExport(after))
                 && (f.Content? ==> schema.pendingExport(after) == schema.pendingExport(f)))
  {
    if n > 0 {
      var before := AfterOps(schema, side, f, n - 1);
      OpsCountDown(schema, side, f, n - 1);
      assert FileLaws(schema, side, before) && FileLaws(schema, side, f) && FileLaws(schema, side, UNVERSIONED);
    }
  }

  // ----- the trail of a start-up -----

  function UnreadyFile(schema: Schema, side: Side, f: File): nat {
    if f.Absent? || schema.major(side, f) == Some(0) then 1 else 0
  }

  /** The missing and V0 files of a pair. */
  function Unready(schema: Schema, p: File, d: File): nat {
    UnreadyFile(schema, TokenBoard, p) + UnreadyFile(schema, Dashboard, d)
  }

  function Replaced(schema: Schema, side: Side, p: File, d: File): Pair {
    if side == TokenBoard then (schema.artifact(TokenBoard, p, d), d) else (p, schema.artifact(Dashboard, d, p))
  }

  /** The pair an in-place branch ends with. */
  function Migrated(schema: Schema, p: File, d: File, onProxy: bool, onDashboard: bool): Pair {
    Partial(schema, p, d, onProxy, Steps(schema, p, d, onProxy, onDashboard))
  }

  lemma ReplacingReadies(schema: Schema, side: Side, p: File, d: File)
    requires Lawful(schema) && PlanFor(schema, p, d) == ReplaceOne(side)
    ensures var q := Replaced(schema, side, p, d); Unready(schema, q.0, q.1) < Unready(schema, p, d)
  {
    assert PairLaws(schema, p, d);
  }

  lemma MigratingReadies(schema: Schema, p: File, d: File, onProxy: bool, onDashboard: bool)
    requires Lawful(schema) && PlanFor(schema, p, d) == MigrateInPlace(onProxy, onDashboard)
             && !(onProxy && onDashboard)
    ensures var q := Migrated(schema, p, d, onProxy, onDashboard);
            Unready(schema, q.0, q.1) == 0 < Unready(schema, p, d)
  {
    FileLawsOf(schema, p, d);
    OpsCountDown(schema, TokenBoard, p, OpsIf(schema, onProxy, TokenBoard, p));
    OpsCountDown(schema, Dashboard, d, OpsIf(schema, onDashboard, Dashboard, d));
  }

  lemma FileLawsOf(schema: Schema, p: File, d: File)
    requires Lawful(schema)
    ensures FileLaws(schema, TokenBoard, p) && FileLaws(schema, Dashboard, d) && PairLaws(schema, p, d)
    ensures FileLaws(schema, TokenBoard, UNVERSIONED) && FileLaws(schema, Dashboard, UNVERSIONED)
  {
  }

  /** Every pair that is on disk between two commits of an undisturbed start-up, in order. */
  ghost function Trail(schema: Schema, p: File, d: File): (pairs: seq<Pair>)
    requires Lawful(schema)
    ensures |pairs| > 0 && pairs[0] == (p, d)
    decreases Unready(schema, p, d)
  {
    match PlanFor(schema, p, d)
    case Raise => [(p, d)]
    case Keep => [(p, d)]
    case Upgrade => [(p, d), schema.pair(p, d)]
    case Transition =>
      var t := schema.transitioned(p, d);
      [(p, d), t, schema.pair(t.0, t.1)]
    case ReplaceOne(side) =>
      var q := Replaced(schema, side, p, d);
      ReplacingReadies(schema, side, p, d);
      [(p, d)] + Trail(schema, q.0, q.1)
    case MigrateInPlace(onProxy, onDashboard) =>
      var n, q := Steps(schema, p, d, onProxy, onDashboard), Migrated(schema, p, d, onProxy, onDashboard);
      if onProxy && onDashboard then Partials(schema, p, d, onProxy, n) + [schema.pair(q.0, q.1)]
      else
        MigratingReadies(schema, p, d, onProxy, onDashboard);
        Partials(schema, p, d, onProxy, n) + Trail(schema, q.0, q.1)[1..]
  }

  ghost function Goal(schema: Schema, p: File, d: File): Pair
    requires Lawful(schema)
  {
    var trail := Trail(schema, p, d);
    trail[|trail| - 1]
  }

  /** The start-up is not refused on its way. */
  ghost predicate Completes(schema: Schema, p: File, d: File)
    requires Lawful(schema)
  {
    var goal := Goal(schema, p, d);
    PlanFor(schema, goal.0, goal.1) != Raise
  }

  lemma RefusedStays(schema: Schema, p: File, d: File)
    requires Lawful(schema)
    ensures PlanFor(schema, p, d) == Raise ==> Trail(schema, p, d) == [(p, d)] && !Completes(schema, p, d)
  {
  }

  lemma GoalAfterReplacing(schema: Schema, p: File, d: File, side: Side)
    requires Lawful(schema) && PlanFor(schema, p, d) == ReplaceOne(side)
    ensures var q := Replaced(schema, side, p, d); Goal(schema, p, d) == Goal(schema, q.0, q.1)
  {
  }

  lemma GoalAfterMigrating(schema: Schema, p: File, d: File, onProxy: bool, onDashboard: bool)
    requires Lawful(schema) && PlanFor(schema, p, d) == MigrateInPlace(onProxy, onDashboard)
    ensures var q := Migrated(schema, p, d, onProxy, onDashboard);
            Goal(schema, p, d) == if onProxy && onDashboard then schema.pair(q.0, q.1) else Goal(schema, q.0, q.1)
  {
    var n, q := Steps(schema, p, d, onProxy, onDashboard), Migrated(schema, p, d, onProxy, onDashboard);
    if !(onProxy && onDashboard) {
      var first, rest := Partials(schema, p, d, onProxy, n), Trail(schema, q.0, q.1);
      assert Trail(schema, p, d) == first + rest[1..];
      assert first[n] == rest[0];
    }
  }

  lemma CurrentIsKept(schema: Schema, a: Pair)
    requires BothCurrent(schema, a)
    ensures PlanFor(schema, a.0, a.1) == Keep
  {
  }

  /** A pair without a missing or V0 file goes to a current pair or stays where it is refused. */
  lemma ReadyGoal(schema: Schema, p: File, d: File)
    requires Lawful(schema) && Unready(schema, p, d) == 0
    ensures BothCurrent(schema, Goal(schema, p, d)) || (Goal(schema, p, d) == (p, d) && PlanFor(schema, p, d) == Raise)
  {
    FileLawsOf(schema, p, d);
    match PlanFor(schema, p, d)
    case Transition =>
      var t := schema.transitioned(p, d);
      FileLawsOf(schema, t.0, t.1);
    case MigrateInPlace(onProxy, onDashboard) =>
      var q := Migrated(schema, p, d, onProxy, onDashboard);
      FileLawsOf(schema, q.0, q.1);
      GoalAfterMigrating(schema, p, d, onProxy, onDashboard);
    case _ =>
  }

  // ----- which branch a pair takes, by the versions of its files -----

  predicate IsKnown(major: Option<nat>) { major == Some(1) || major == Some(2) }

  /** What a start-up refuses at once of two existing files: two V0 files without a transition; and, unless the
      token board is V0, an unversioned file beside a versioned one, a major the program does not know, an
      unfinished export of a pair that is not yet all V2, and a V2 pair with a minor the program does not know. */
  predicate RefusedAtOnce(schema: Schema, p: File, d: File) {
    var vp, vd := schema.major(TokenBoard, p), schema.major(Dashboard, d);
    || (vp == Some(0) && vd == Some(0) && !schema.selects(p, d))
    || (vp != Some(0)
        && (|| vp.None? != vd.None?
            || (vp.Some? && vp.value > 2) || (vd.Some? && vd.value > 2)
            || (IsKnown(vp) && IsKnown(vd) && !(vp == Some(2) && vd == Some(2)) && schema.pendingExport(p))
            || (vp == Some(2) && vd == Some(2) && (schema.newer(TokenBoard, p) || schema.newer(Dashboard, d)))))
  }

  lemma RefusedPlanIff(schema: Schema, p: File, d: File)
    requires p.Content? && d.Content?
    ensures PlanFor(schema, p, d) == Raise <==> RefusedAtOnce(schema, p, d)
  {
  }

  lemma KeepIsCurrent(schema: Schema, p: File, d: File)
    requires p.Content? && d.Content?
    ensures PlanFor(schema, p, d) == Keep <==> BothCurrent(schema, (p, d))
  {
  }

  /** Anything but refusing or keeping a pair leaves another pair on the trail. */
  lemma OtherPlansGoOn(schema: Schema, p: File, d: File)
    requires Lawful(schema) && p.Content? && d.Content?
    ensures |Trail(schema, p, d)| == 1 <==> PlanFor(schema, p, d) == Raise || PlanFor(schema, p, d) == Keep
  {
    match PlanFor(schema, p, d)
    case MigrateInPlace(onProxy, onDashboard) => BothInPlace(schema, p, d);
    case _ =>
  }

  lemma BothInPlace(schema: Schema, p: File, d: File)
    requires p.Content? && d.Content? && PlanFor(schema, p, d).MigrateInPlace?
    ensures PlanFor(schema, p, d) == MigrateInPlace(true, true)
  {
  }

  /** Exactly these pairs are refused at once and stay as they are. */
  lemma RefusedAtOnceIff(schema: Schema, p: File, d: File)
    requires Lawful(schema) && p.Content? && d.Content?
    ensures RefusedAtOnce(schema, p, d) <==> Trail(schema, p, d) == [(p, d)] && !BothCurrent(schema, (p, d))
    ensures RefusedAtOnce(schema, p, d) ==> !Completes(schema, p, d)
  {
    RefusedPlanIff(schema, p, d);
    KeepIsCurrent(schema, p, d);
    OtherPlansGoOn(schema, p, d);
    RefusedStays(schema, p, d);
  }

  /** Two existing files that are refused at once. */
  predicate IsRefused(schema: Schema, p: File, d: File) { p.Content? && d.Content? && RefusedAtOnce(schema, p, d) }

  lemma RefusedPlan(schema: Schema, p: File, d: File)
    requires Lawful(schema) && IsRefused(schema, p, d)
    ensures PlanFor(schema, p, d) == Raise
  {
    RefusedPlanIff(schema, p, d);
  }

  /** Where an accepted pair of existing files goes, by its versions. */
  lemma AcceptedPairGoes(schema: Schema, p: File, d: File)
    requires Lawful(schema) && p.Content? && d.Content? && !RefusedAtOnce(schema, p, d)
    ensures var vp, vd, trail := schema.major(TokenBoard, p), schema.major(Dashboard, d), Trail(schema, p, d);
            var t := schema.transitioned(p, d);
            && (BothCurrent(schema, (p, d)) ==> trail == [(p, d)])
            && (vp == vd == Some(2) && !BothCurrent(schema, (p, d)) ==> trail == [(p, d), schema.pair(p, d)])
            && (IsKnown(vp) && IsKnown(vd) && vp != vd ==> trail == [(p, d), schema.pair(p, d)])
            && (vp == vd && (vp == Some(0) || (vp == Some(1) && schema.selects(p, d))) ==>
                  trail == [(p, d), t, schema.pair(t.0, t.1)])
            && (vp == vd && (vp == None || (vp == Some(1) && !schema.selects(p, d))) ==>
                  InPlaceThenPair(schema, p, d, trail))
  {
    AcceptedPlan(schema, p, d);
    if PlanFor(schema, p, d) == MigrateInPlace(true, true) {
      BothMigrateThenPair(schema, p, d);
    }
  }

  lemma AcceptedPlan(schema: Schema, p: File, d: File)
    requires p.Content? && d.Content? && !RefusedAtOnce(schema, p, d)
    ensures var vp, vd, plan := schema.major(TokenBoard, p), schema.major(Dashboard, d), PlanFor(schema, p, d);
            && (BothCurrent(schema, (p, d)) ==> plan == Keep)
            && (vp == vd == Some(2) && !BothCurrent(schema, (p, d)) ==> plan == Upgrade)
            && (IsKnown(vp) && IsKnown(vd) && vp != vd ==> plan == Upgrade)
            && (vp == vd && (vp == Some(0) || (vp == Some(1) && schema.selects(p, d))) ==> plan == Transition)
            && (vp == vd && (vp == None || (vp == Some(1) && !schema.selects(p, d))) ==>
                  plan == MigrateInPlace(true, true))
  {
  }

  lemma FirstPartials(schema: Schema, p: File, d: File, k: nat)
    requires p.Content? && k <= schema.left(TokenBoard, p)
    ensures Partial(schema, p, d, true, k) == (AfterOps(schema, TokenBoard, p, k), d)
  {
  }

  lemma SecondPartials(schema: Schema, p: File, d: File, k: nat)
    requires p.Content? && d.Content?
    ensures var m := schema.left(TokenBoard, p);
            Partial(schema, p, d, true, m + k) ==
            (AfterOps(schema, TokenBoard, p, m), AfterOps(schema, Dashboard, d, k))
  {
    assert AfterOps(schema, Dashboard, d, 0) == d;
  }

  lemma BothPartials(schema: Schema, p: File, d: File)
    requires p.Content? && d.Content?
    ensures var m, n := schema.left(TokenBoard, p), schema.left(Dashboard, d);
            var mid := AfterOps(schema, TokenBoard, p, m);
            && Steps(schema, p, d, true, true) == m + n
            && (forall k: nat :: k <= m ==> Partial(schema, p, d, true, k) == (AfterOps(schema, TokenBoard, p, k), d))
            && (forall k: nat :: k <= n ==>
                  Partial(schema, p, d, true, m + k) == (mid, AfterOps(schema, Dashboard, d, k)))
  {
    forall k: nat | k <= schema.left(TokenBoard, p)
      ensures Partial(schema, p, d, true, k) == (AfterOps(schema, TokenBoard, p, k), d)
    {
      FirstPartials(schema, p, d, k);
    }
    forall k: nat
      ensures Partial(schema, p, d, true, schema.left(TokenBoard, p) + k) ==
              (AfterOps(schema, TokenBoard, p, schema.left(TokenBoard, p)), AfterOps(schema, Dashboard, d, k))
    {
      SecondPartials(schema, p, d, k);
    }
  }

  lemma BothTrail(schema: Schema, p: File, d: File)
    requires Lawful(schema) && PlanFor(schema, p, d) == MigrateInPlace(true, true)
    ensures var n := Steps(schema, p, d, true, true);
            && |Trail(schema, p, d)| == n + 2
            && (forall k: nat :: k <= n ==> Trail(schema, p, d)[k] == Partial(schema, p, d, true, k))
            && Trail(schema, p, d)[n + 1] ==
               schema.pair(Partial(schema, p, d, true, n).0, Partial(schema, p, d, true, n).1)
  {
    var n := Steps(schema, p, d, true, true);
    var pairs := Partials(schema, p, d, true, n);
    assert Trail(schema, p, d)[..n + 1] == pairs;
  }

  lemma BothMigrateThenPair(schema: Schema, p: File, d: File)
    requires Lawful(schema) && p.Content? && d.Content? && PlanFor(schema, p, d) == MigrateInPlace(true, true)
    ensures InPlaceThenPair(schema, p, d, Trail(schema, p, d))
  {
    BothPartials(schema, p, d);
    BothTrail(schema, p, d);
  }

  /** The token board's pending migrations one by one, then the dashboard's, then the verified pair. */
  ghost predicate InPlaceThenPair(schema: Schema, p: File, d: File, trail: seq<Pair>) {
    var m, n := schema.left(TokenBoard, p), schema.left(Dashboard, d);
    && |trail| == m + n + 2
    && (forall k: nat :: k <= m ==> trail[k] == (AfterOps(schema, TokenBoard, p, k), d))
    && (forall k: nat :: k <= n ==>
          trail[m + k] == (AfterOps(schema, TokenBoard, p, m), AfterOps(schema, Dashboard, d, k)))
    && trail[m + n + 1] == schema.pair(trail[m + n].0, trail[m + n].1)
  }

  /** A single V0 file is replaced by its shadow first, and start-up goes on from there. */
  lemma SingleV0IsReplaced(schema: Schema, p: File, d: File)
    requires Lawful(schema)
    ensures var vp, vd := schema.major(TokenBoard, p), schema.major(Dashboard, d);
            && (vp == Some(0) && vd != Some(0) ==>
                  var q := schema.artifact(TokenBoard, p, d); Trail(schema, p, d) == [(p, d)] + Trail(schema, q, d))
            && (IsKnown(vp) && vd == Some(0) ==>
                  var q := schema.artifact(Dashboard, d, p); Trail(schema, p, d) == [(p, d)] + Trail(schema, p, q))
  {
  }

  /** A missing file is created and migrated before anything else, the token board first. */
  lemma MissingIsCreated(schema: Schema, p: File, d: File)
    requires Lawful(schema) && (p.Absent? || d.Absent?)
    requires schema.major(TokenBoard, p) != Some(0) && schema.major(Dashboard, d) != Some(0)
    ensures |Trail(schema, p, d)| > 1
    ensures p.Absent? ==> Trail(schema, p, d)[1] == (UNVERSIONED, d)
    ensures !p.Absent? && schema.major(TokenBoard, p).Some? ==> Trail(schema, p, d)[1] == (p, UNVERSIONED)
  {
    FileLawsOf(schema, p, d);
    var plan := PlanFor(schema, p, d);
    assert plan.MigrateInPlace?;
    assert Steps(schema, p, d, plan.onProxy, plan.onDashboard) > 0;
    PartialIsOnTrail(schema, p, d, plan.onProxy, plan.onDashboard, 1);
    assert AfterOps(schema, TokenBoard, p, 1) == NextFile(schema, TokenBoard, AfterOps(schema, TokenBoard, p, 0));
    assert AfterOps(schema, Dashboard, d, 1) == NextFile(schema, Dashboard, AfterOps(schema, Dashboard, d, 0));
  }

  /** Every start-up that completes ends with both databases current; the others end where a check
      refuses the pair. */
  lemma {:induction false} GoalIsCurrentOrRefused(schema: Schema, p: File, d: File)
    requires Lawful(schema)
    ensures var goal := Goal(schema, p, d); BothCurrent(schema, goal) <==> PlanFor(schema, goal.0, goal.1) != Raise
    decreases Unready(schema, p, d)
  {
    FileLawsOf(schema, p, d);
    match PlanFor(schema, p, d)
    case ReplaceOne(side) =>
      var q := Replaced(schema, side, p, d);
      ReplacingReadies(schema, side, p, d);
      GoalAfterReplacing(schema, p, d, side);
      GoalIsCurrentOrRefused(schema, q.0, q.1);
    case MigrateInPlace(onProxy, onDashboard) =>
      var q := Migrated(schema, p, d, onProxy, onDashboard);
      FileLawsOf(schema, q.0, q.1);
      GoalAfterMigrating(schema, p, d, onProxy, onDashboard);
      if !(onProxy && onDashboard) {
        MigratingReadies(schema, p, d, onProxy, onDashboard);
        GoalIsCurrentOrRefused(schema, q.0, q.1);
      }
    case Transition =>
      var t := schema.transitioned(p, d);
      FileLawsOf(schema, t.0, t.1);
    case _ =>
  }

  // ----- when a death leaves the old or the new pair -----

  /** No pair on the way is anything but the old one or the one the start-up ends with. */
  ghost predicate OldOrNewOnly(schema: Schema, p: File, d: File)
    requires Lawful(schema)
  {
    forall k :: 0 <= k < |Trail(schema, p, d)| ==>
      Trail(schema, p, d)[k] == (p, d) || Trail(schema, p, d)[k] == Goal(schema, p, d)
  }

  /** The branch publishes at most once: nothing is migrated in place, no transition comes before the
      pair upgrade, and a single V0 file is the last thing out of date. */
  predicate PublishesOnce(schema: Schema, p: File, d: File) {
    match PlanFor(schema, p, d)
    case ReplaceOne(side) =>
      var q := Replaced(schema, side, p, d);
      PlanFor(schema, q.0, q.1) == Keep || PlanFor(schema, q.0, q.1) == Raise
    case MigrateInPlace(onProxy, onDashboard) => Steps(schema, p, d, onProxy, onDashboard) == 0
    case Transition => false
    case _ => true
  }

  /** After one operation a file is neither what it was nor current. */
  lemma OneOperationLeaves(schema: Schema, side: Side, f: File)
    requires Lawful(schema) && Ops(schema, side, f) > 0 && (f.Content? ==> schema.major(side, f) in {None, Some(1)})
    ensures var next := AfterOps(schema, side, f, 1);
            next != f && !IsCurrent(schema, side, next)
            && (f.Absent? ==> next != AfterOps(schema, side, f, Ops(schema, side, f)))
  {
    OpsCountDown(schema, side, f, 1);
    OpsCountDown(schema, side, f, Ops(schema, side, f));
    assert FileLaws(schema, side, UNVERSIONED);
  }

  /** An in-place branch migrates missing files, or a pair without versions or of V1. */
  lemma InPlaceFiles(schema: Schema, p: File, d: File, onProxy: bool, onDashboard: bool)
    requires Lawful(schema) && PlanFor(schema, p, d) == MigrateInPlace(onProxy, onDashboard)
    ensures onProxy && p.Content? ==> schema.major(TokenBoard, p) in {None, Some(1)}
    ensures onDashboard && d.Content? ==> schema.major(Dashboard, d) in {None, Some(1)}
    ensures !(onProxy && onDashboard) ==> (onProxy ==> p.Absent?) && (onDashboard ==> d.Absent?)
  {
  }

  lemma FirstStepIsMixed(schema: Schema, p: File, d: File, onProxy: bool, onDashboard: bool)
    requires Lawful(schema) && PlanFor(schema, p, d) == MigrateInPlace(onProxy, onDashboard)
    requires Steps(schema, p, d, onProxy, onDashboard) > 0
    ensures var mixed := Partial(schema, p, d, onProxy, 1);
            |Trail(schema, p, d)| > 1 && Trail(schema, p, d)[1] == mixed && mixed != (p, d)
              && !BothCurrent(schema, mixed)
            && (!(onProxy && onDashboard) ==> mixed != Migrated(schema, p, d, onProxy, onDashboard))
  {
    InPlaceFiles(schema, p, d, onProxy, onDashboard);
    PartialIsOnTrail(schema, p, d, onProxy, onDashboard, 1);
    if OpsIf(schema, onProxy, TokenBoard, p) > 0 {
      OneOperationLeaves(schema, TokenBoard, p);
    } else {
      OneOperationLeaves(schema, Dashboard, d);
    }
  }

  lemma InPlaceIsMixed(schema: Schema, p: File, d: File, onProxy: bool, onDashboard: bool)
    requires Lawful(schema) && PlanFor(schema, p, d) == MigrateInPlace(onProxy, onDashboard)
    requires Steps(schema, p, d, onProxy, onDashboard) > 0
    ensures !OldOrNewOnly(schema, p, d)
  {
    var q := Migrated(schema, p, d, onProxy, onDashboard);
    FirstStepIsMixed(schema, p, d, onProxy, onDashboard);
    GoalAfterMigrating(schema, p, d, onProxy, onDashboard);
    FileLawsOf(schema, q.0, q.1);
    if !(onProxy && onDashboard) {
      MigratingReadies(schema, p, d, onProxy, onDashboard);
      ReadyGoal(schema, q.0, q.1);
    }
    assert Trail(schema, p, d)[1] != Goal(schema, p, d);
  }

  lemma ReplacingIsMixedIff(schema: Schema, p: File, d: File, side: Side)
    requires Lawful(schema) && PlanFor(schema, p, d) == ReplaceOne(side)
    ensures OldOrNewOnly(schema, p, d) <==> PublishesOnce(schema, p, d)
  {
    var q := Replaced(schema, side, p, d);
    FileLawsOf(schema, p, d);
    ReplacingReadies(schema, side, p, d);
    GoalAfterReplacing(schema, p, d, side);
    GoalIsCurrentOrRefused(schema, q.0, q.1);
    var rest := Trail(schema, q.0, q.1);
    assert Trail(schema, p, d) == [(p, d)] + rest && Trail(schema, p, d)[1] == q != (p, d);
    if !PublishesOnce(schema, p, d) {
      if BothCurrent(schema, q) {
        CurrentIsKept(schema, q);
      }
      assert q != Goal(schema, q.0, q.1);
    }
  }

  /** Every death leaves the old or the new pair exactly when the branch publishes at most once. */
  lemma OldOrNewIffPublishesOnce(schema: Schema, p: File, d: File)
    requires Lawful(schema)
    ensures OldOrNewOnly(schema, p, d) <==> PublishesOnce(schema, p, d)
  {
    FileLawsOf(schema, p, d);
    match PlanFor(schema, p, d)
    case Transition =>
      var t := schema.transitioned(p, d);
      FileLawsOf(schema, t.0, t.1);
      assert Trail(schema, p, d)[1] == t;
    case ReplaceOne(side) => ReplacingIsMixedIff(schema, p, d, side);
    case MigrateInPlace(onProxy, onDashboard) =>
      if Steps(schema, p, d, onProxy, onDashboard) > 0 {
        InPlaceIsMixed(schema, p, d, onProxy, onDashboard);
      }
    case _ =>
  }

  // ----- what the next start-up makes of a mixed pair -----

  /** A file without a version beside one with a version: both exist, and start-up refuses them. */
  predicate Stuck(schema: Schema, a: Pair) {
    (a.0.Content? && schema.major(TokenBoard, a.0).None? && schema.major(Dashboard, a.1).Some?)
    || (a.1.Content? && schema.major(Dashboard, a.1).None? && schema.major(TokenBoard, a.0).Some?)
  }

  lemma StuckIsRefused(schema: Schema, p: File, d: File)
    requires Lawful(schema) && Stuck(schema, (p, d)) && schema.major(Dashboard, d) != Some(0)
             && schema.major(TokenBoard, p) != Some(0)
    ensures PlanFor(schema, p, d) == Raise && Trail(schema, p, d) == [(p, d)]
  {
    FileLawsOf(schema, p, d);
  }

  /** Neither stuck, nor refused for an unfinished export or a version it does not know. */
  predicate Startable(schema: Schema, p: File, d: File) {
    var vp, vd := schema.major(TokenBoard, p), schema.major(Dashboard, d);
    && !Stuck(schema, (p, d)) && !schema.pendingExport(p)
    && (vp.None? || vp == Some(1) || vp == Some(2)) && (vd.None? || vd == Some(1) || vd == Some(2))
    && !(vp == vd == Some(2))
  }

  lemma StartableCompletes(schema: Schema, p: File, d: File)
    requires Lawful(schema) && Startable(schema, p, d)
    ensures Completes(schema, p, d)
  {
    FileLawsOf(schema, p, d);
    GoalIsCurrentOrRefused(schema, p, d);
    match PlanFor(schema, p, d)
    case MigrateInPlace(onProxy, onDashboard) =>
      var q := Migrated(schema, p, d, onProxy, onDashboard);
      FileLawsOf(schema, q.0, q.1);
      GoalAfterMigrating(schema, p, d, onProxy, onDashboard);
      if !(onProxy && onDashboard) {
        MigratingReadies(schema, p, d, onProxy, onDashboard);
        OpsCountDown(schema, TokenBoard, p, OpsIf(schema, onProxy, TokenBoard, p));
        OpsCountDown(schema, Dashboard, d, OpsIf(schema, onDashboard, Dashboard, d));
        ReadyGoal(schema, q.0, q.1);
        assert PlanFor(schema, q.0, q.1) != Raise;
      }
    case _ => ReadyGoal(schema, p, d);
  }

  lemma MigratingStartable(schema: Schema, p: File, d: File, onProxy: bool, onDashboard: bool)
    requires Lawful(schema) && PlanFor(schema, p, d) == MigrateInPlace(onProxy, onDashboard) && Completes(schema, p, d)
    ensures !schema.pendingExport(p)
    ensures (onProxy && onDashboard) || schema.major(TokenBoard, p) in {None, Some(1), Some(2)}
    ensures (onProxy && onDashboard) || schema.major(Dashboard, d) in {None, Some(1), Some(2)}
  {
    FileLawsOf(schema, p, d);
    if !(onProxy && onDashboard) {
      OneSideStartable(schema, p, d, onProxy, onDashboard);
    }
  }

  lemma OneSideIsAccepted(schema: Schema, p: File, d: File, onProxy: bool, onDashboard: bool)
    requires Lawful(schema) && PlanFor(schema, p, d) == MigrateInPlace(onProxy, onDashboard) && Completes(schema, p, d)
    requires !(onProxy && onDashboard)
    ensures var q := Migrated(schema, p, d, onProxy, onDashboard); PlanFor(schema, q.0, q.1) != Raise
  {
    var q := Migrated(schema, p, d, onProxy, onDashboard);
    GoalAfterMigrating(schema, p, d, onProxy, onDashboard);
    RefusedStays(schema, q.0, q.1);
  }

  lemma OneSideStartable(schema: Schema, p: File, d: File, onProxy: bool, onDashboard: bool)
    requires Lawful(schema) && PlanFor(schema, p, d) == MigrateInPlace(onProxy, onDashboard) && Completes(schema, p, d)
    requires !(onProxy && onDashboard)
    ensures !schema.pendingExport(p)
    ensures schema.major(TokenBoard, p) in {None, Some(1), Some(2)}
    ensures schema.major(Dashboard, d) in {None, Some(1), Some(2)}
  {
    FileLawsOf(schema, p, d);
    OneSideIsAccepted(schema, p, d, onProxy, onDashboard);
    OpsCountDown(schema, TokenBoard, p, OpsIf(schema, onProxy, TokenBoard, p));
    OpsCountDown(schema, Dashboard, d, OpsIf(schema, onDashboard, Dashboard, d));
  }

  /** After a death in place the next undisturbed start-up completes exactly when the pair is not stuck;
      a stuck pair stays as it is through every later start-up. */
  lemma NextStartUpIff(schema: Schema, p: File, d: File, onProxy: bool, onDashboard: bool, n: nat)
    requires Lawful(schema) && PlanFor(schema, p, d) == MigrateInPlace(onProxy, onDashboard)
    requires Completes(schema, p, d) && n <= Steps(schema, p, d, onProxy, onDashboard)
    ensures var mixed := Partial(schema, p, d, onProxy, n);
            && (Completes(schema, mixed.0, mixed.1) <==> !Stuck(schema, mixed))
            && (Stuck(schema, mixed) ==> Trail(schema, mixed.0, mixed.1) == [mixed])
  {
    var mixed, first := Partial(schema, p, d, onProxy, n), OpsIf(schema, onProxy, TokenBoard, p);
    FileLawsOf(schema, p, d);
    MigratingStartable(schema, p, d, onProxy, onDashboard);
    OpsCountDown(schema, TokenBoard, p, if n <= first then n else first);
    OpsCountDown(schema, Dashboard, d, if n <= first then 0 else n - first);
    if Stuck(schema, mixed) {
      StuckIsRefused(schema, mixed.0, mixed.1);
    } else {
      StartableCompletes(schema, mixed.0, mixed.1);
    }
  }

  /** Without any database the branch is in place. Once the token board is migrated a death leaves it
      alone, and the next start-up goes on; one operation later the dashboard file exists without a
      version, and no start-up ever goes on. */
  lemma FreshStartCanStick(schema: Schema)
    requires Lawful(schema)
    ensures PlanFor(schema, Absent, Absent) == MigrateInPlace(true, true)
    ensures var n := Ops(schema, TokenBoard, Absent);
            var alone, stuck := Partial(schema, Absent, Absent, true, n), Partial(schema, Absent, Absent, true, n + 1);
            && 2 <= n && n + 1 < Steps(schema, Absent, Absent, true, true)
            && alone.0.Content? && alone.1 == Absent && Completes(schema, alone.0, alone.1)
            && stuck == (alone.0, UNVERSIONED) && Trail(schema, stuck.0, stuck.1) == [stuck]
               && !Completes(schema, stuck.0, stuck.1)
  {
    var n := Ops(schema, TokenBoard, Absent);
    FileLawsOf(schema, Absent, Absent);
    FileLawsOf(schema, UNVERSIONED, UNVERSIONED);
    OpsCountDown(schema, TokenBoard, Absent, n);
    GoalAfterMigrating(schema, Absent, Absent, true, true);
    var q := Migrated(schema, Absent, Absent, true, true);
    FileLawsOf(schema, q.0, q.1);
    assert Completes(schema, Absent, Absent);
    NextStartUpIff(schema, Absent, Absent, true, true, n);
    NextStartUpIff(schema, Absent, Absent, true, true, n + 1);
    assert AfterOps(schema, Dashboard, Absent, 1) == UNVERSIONED;
  }

  // ----- start-ups one after another -----

  lemma PartialIsOnTrail(schema: Schema, p: File, d: File, onProxy: bool, onDashboard: bool, n: nat)
    requires Lawful(schema) && PlanFor(schema, p, d) == MigrateInPlace(onProxy, onDashboard)
    requires n <= Steps(schema, p, d, onProxy, onDashboard)
    ensures n < |Trail(schema, p, d)| && Trail(schema, p, d)[n] == Partial(schema, p, d, onProxy, n)
  {
  }

  /** Past the last operation the trail is that of the branch that follows. */
  lemma TrailGoesOn(schema: Schema, p: File, d: File, onProxy: bool, onDashboard: bool, next: nat)
    requires Lawful(schema) && PlanFor(schema, p, d) == MigrateInPlace(onProxy, onDashboard)
    ensures var n, q := Steps(schema, p, d, onProxy, onDashboard), Migrated(schema, p, d, onProxy, onDashboard);
            var rest := if onProxy && onDashboard then [q, schema.pair(q.0, q.1)] else Trail(schema, q.0, q.1);
            next < |rest| ==> n + next < |Trail(schema, p, d)| && Trail(schema, p, d)[n + next] == rest[next]
  {
    var n, q := Steps(schema, p, d, onProxy, onDashboard), Migrated(schema, p, d, onProxy, onDashboard);
    var front := Partials(schema, p, d, onProxy, n);
    if onProxy && onDashboard {
      assert [q, schema.pair(q.0, q.1)][1..] == [schema.pair(q.0, q.1)];
      Glued(front, [q, schema.pair(q.0, q.1)], next);
    } else {
      MigratingReadies(schema, p, d, onProxy, onDashboard);
      Glued(front, Trail(schema, q.0, q.1), next);
    }
  }

  lemma Glued(front: seq<Pair>, rest: seq<Pair>, next: nat)
    requires |front| > 0 && |rest| > 0 && front[|front| - 1] == rest[0]
    ensures next < |rest| ==>
              |front| - 1 + next < |front + rest[1..]| && (front + rest[1..])[|front| - 1 + next] == rest[next]
  {
  }

  /** Pairs each of which lies on the trail of the one before. */
  ghost predicate IsPassage(schema: Schema, passed: seq<Pair>)
    requires Lawful(schema)
  {
    |passed| > 0 && forall i :: 0 < i < |passed| ==> passed[i] in Trail(schema, passed[i - 1].0, passed[i - 1].1)
  }

  lemma PassageGrows(schema: Schema, passed: seq<Pair>, at: nat)
    requires Lawful(schema) && IsPassage(schema, passed)
    requires at < |Trail(schema, passed[|passed| - 1].0, passed[|passed| - 1].1)|
    ensures IsPassage(schema, passed + [Trail(schema, passed[|passed| - 1].0, passed[|passed| - 1].1)[at]])
  {
  }

  /** Start-ups from a pair that publishes once pass through that pair and its goal only. */
  lemma {:induction false} PassageIsOldOrNew(schema: Schema, passed: seq<Pair>, i: nat)
    requires Lawful(schema) && IsPassage(schema, passed) && i < |passed|
    requires PublishesOnce(schema, passed[0].0, passed[0].1)
    ensures passed[i] == passed[0] || passed[i] == Goal(schema, passed[0].0, passed[0].1)
  {
    var p, d := passed[0].0, passed[0].1;
    var goal := Goal(schema, p, d);
    OldOrNewIffPublishesOnce(schema, p, d);
    GoalIsCurrentOrRefused(schema, p, d);
    RefusedStays(schema, goal.0, goal.1);
    if BothCurrent(schema, goal) {
      CurrentIsKept(schema, goal);
    }
    if i > 0 {
      PassageIsOldOrNew(schema, passed, i - 1);
    }
  }

  /** A stuck pair is never left again. */
  lemma {:induction false} PassageStaysStuck(schema: Schema, passed: seq<Pair>, i: nat)
    requires Lawful(schema) && IsPassage(schema, passed) && i < |passed|
             && Trail(schema, passed[0].0, passed[0].1) == [passed[0]]
    ensures passed[i] == passed[0]
  {
    if i > 0 {
      PassageStaysStuck(schema, passed, i - 1);
    }
  }
}
