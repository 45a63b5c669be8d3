/** The crash-safe upgrade of the token-board and dashboard databases: manifest, backup, replace and
    recover, where the process may die or raise before every file operation, recovery included. */
module PairUpgrade {
  import opened Prelude
  import opened UpgradeRoutes

  datatype Stage =
    | Prepared | BackedUp | Verified | TokenBoardReplaced | DashboardReplaced | Complete | RecoveredRollback

  /** One entry of a manifest's "backups" list; `backup` names the copied file. */
  datatype Item = Item(source: Side, existed: bool, backup: Option<nat>, sha: File)

  /** A manifest file. It has no "backups" key until every copy has been taken. */
  datatype Manifest = Manifest(stage: Stage, backups: Option<seq<Item>>)

  /** How an operation ended: it finished, the process died or raised midway, or a check refused to go on. */
  datatype Outcome = Done | Interrupted | Refused

  /** A manifest that recovery acts on. */
  predicate Unfinished(m: Manifest) {
    m.backups.Some? && m.stage != Complete && m.stage != RecoveredRollback
  }

  /** The item restores `content` from a good backup, or removes what did not exist. */
  ghost predicate Restores(item: Item, side: Side, content: File, backups: map<nat, File>) {
    && item.source == side
    && item.existed == content.Content?
    && (item.existed ==> item.backup.Some? && item.backup.value in backups
                         && backups[item.backup.value] == content && item.sha == content)
  }

  /** The manifest restores exactly this pair. */
  ghost predicate Describes(m: Manifest, proxy: File, dashboard: File, backups: map<nat, File>) {
    m.backups.Some? && |m.backups.value| == 2
    && Restores(m.backups.value[0], TokenBoard, proxy, backups)
    && Restores(m.backups.value[1], Dashboard, dashboard, backups)
  }

  class Disk {
    var proxy: File
    var dashboard: File
    var backups: map<nat, File>
    var manifests: map<nat, Manifest>
    /** Fresh names for backup and manifest files, as their uuids are. */
    var names: nat
    /** File operations left before the process dies or an operation raises. */
    var budget: nat

    ghost predicate Fresh()
      reads this
    {
      (forall n :: n in backups ==> n < names) && forall n :: n in manifests ==> n < names
    }

    ghost predicate Settled()
      reads this
    {
      Fresh() && forall n :: n in manifests ==> !Unfinished(manifests[n])
    }

    /** Some unfinished manifest, and only that one, restores the pair. */
    ghost predicate Pending(p: File, d: File)
      reads this
    {
      Fresh() && exists n :: IsThePending(n, p, d)
    }

    ghost predicate IsThePending(n: nat, p: File, d: File)
      reads this
    {
      n in manifests && Unfinished(manifests[n]) && Describes(manifests[n], p, d, backups)
      && forall other :: other in manifests && other != n ==> !Unfinished(manifests[other])
    }

    /** The pair (p, d) is on disk, or one recovery away. */
    ghost predicate Safe(p: File, d: File)
      reads this
    {
      (Settled() && proxy == p && dashboard == d) || Pending(p, d)
    }

    // ----- file operations -----

    method Tick() returns (alive: bool)
      modifies this`budget
      ensures alive <==> old(budget) > 0
      ensures budget == if alive then old(budget) - 1 else 0
    {
      alive := budget > 0;
      if alive {
        budget := budget - 1;
      }
    }

    /** `write_manifest`: the temporary file is invisible until the atomic replace. */
    method WriteManifest(name: nat, m: Manifest) returns (alive: bool)
      modifies this`manifests, this`budget
      ensures manifests == if alive then old(manifests)[name := m] else old(manifests)
    {
      alive := Tick();
      if alive {
        manifests := manifests[name := m];
      }
    }

    /** `shutil.copy2` into a fresh backup file; interrupted, it leaves a part of the content. */
    method CopyToBackup(content: File) returns (alive: bool, name: nat)
      requires Fresh()
      modifies this`backups, this`names, this`budget
      ensures Fresh() && names == old(names) + 1 && name == old(names)
      ensures forall n :: n in old(backups) ==> n in backups && backups[n] == old(backups)[n]
      ensures alive ==> name in backups && backups[name] == content
    {
      name := names;
      names := names + 1;
      alive := Tick();
      if !alive {
        return;
      }
      var part: seq<int> := *;
      backups := backups[name := Content(part)];
      alive := Tick();
      if alive {
        backups := backups[name := content];
      }
    }

    /** Overwrite or remove a database file; a copy is not atomic, a removal is. */
    method Restore(side: Side, content: File) returns (alive: bool)
      modifies this`proxy, this`dashboard, this`budget
      ensures side == TokenBoard ==> dashboard == old(dashboard) && (alive ==> proxy == content)
      ensures side == Dashboard ==> proxy == old(proxy) && (alive ==> dashboard == content)
    {
      alive := Tick();
      if !alive {
        return;
      }
      if content.Content? {
        var part: seq<int> := *;
        Put(side, Content(part));
        alive := Tick();
        if !alive {
          return;
        }
      }
      Put(side, content);
    }

    method Put(side: Side, content: File)
      modifies this`proxy, this`dashboard
      ensures proxy == if side == TokenBoard then content else old(proxy)
      ensures dashboard == if side == Dashboard then content else old(dashboard)
    {
      if side == TokenBoard {
        proxy := content;
      } else {
        dashboard := content;
      }
    }

    /** `replace`: `os.replace` of a checkpointed shadow is atomic. */
    method ReplaceWithShadow(side: Side, shadow: File) returns (alive: bool)
      modifies this`proxy, this`dashboard, this`budget
      ensures proxy == if alive && side == TokenBoard then shadow else old(proxy)
      ensures dashboard == if alive && side == Dashboard then shadow else old(dashboard)
    {
      alive := Tick();
      if alive {
        Put(side, shadow);
      }
    }

    // ----- backup_files -----

    method BackupOne(side: Side, content: File) returns (alive: bool, item: Item)
      requires Fresh()
      modifies this`backups, this`names, this`budget
      ensures Fresh() && names >= old(names)
      ensures forall n :: n in old(backups) ==> n in backups && backups[n] == old(backups)[n]
      ensures alive ==> Restores(item, side, content, backups)
    {
      alive := true;
      item := Item(side, false, None, Absent);
      if content.Content? {
        var name;
        alive, name := CopyToBackup(content);
        if alive {
          item := Item(side, true, Some(name), backups[name]);
        }
      }
    }

    // ----- the upgrade -----

    /** `_upgrade_v2_pair` and `_upgrade_v2_minor_pair`: publish the verified shadows of both databases.
        However far it gets, the old pair stays recoverable until the manifest says complete. */
    method UpgradePair(newProxy: File, newDashboard: File) returns (outcome: Outcome)
      requires Settled()
      modifies this
      ensures outcome != Refused
      ensures outcome == Done ==> Settled() && proxy == newProxy && dashboard == newDashboard
      ensures outcome != Done ==>
              Safe(old(proxy), old(dashboard)) || (Settled() && proxy == newProxy && dashboard == newDashboard)
    {
      ghost var p, d := proxy, dashboard;
      var name := names;
      names := names + 1;
      var alive := WriteManifest(name, Manifest(Prepared, None));
      if !alive {
        return Interrupted;
      }
      var first, second;
      alive, first := BackupOne(TokenBoard, proxy);
      if !alive {
        return Interrupted;
      }
      alive, second := BackupOne(Dashboard, dashboard);
      if !alive {
        return Interrupted;
      }
      var items := Some([first, second]);
      assert Describes(Manifest(BackedUp, items), p, d, backups);
      alive := WriteManifest(name, Manifest(BackedUp, items));
      if !alive {
        return Interrupted;
      }
      assert IsThePending(name, p, d);
      outcome := Publish(name, items, newProxy, newDashboard, p, d);
    }

    /** The stages after the backup: each manifest write and each replacement may be the last. */
    method Publish(name: nat, items: Option<seq<Item>>, newProxy: File, newDashboard: File, ghost p: File,
            ghost d: File)
      returns (outcome: Outcome)
      requires Fresh() && IsThePending(name, p, d) && manifests[name] == Manifest(BackedUp, items)
      modifies this
      ensures outcome != Refused
      ensures outcome == Done ==> Settled() && proxy == newProxy && dashboard == newDashboard
      ensures outcome != Done ==> Pending(p, d) || (Settled() && proxy == newProxy && dashboard == newDashboard)
    {
      // Building, migrating and verifying the shadows touches neither database.
      var alive := Tick();
      if !alive {
        return Interrupted;
      }
      alive := WriteManifest(name, Manifest(Verified, items));
      assert IsThePending(name, p, d);
      if !alive {
        return Interrupted;
      }
      alive := ReplaceWithShadow(TokenBoard, newProxy);
      assert IsThePending(name, p, d);
      if !alive {
        return Interrupted;
      }
      alive := WriteManifest(name, Manifest(TokenBoardReplaced, items));
      assert IsThePending(name, p, d);
      if !alive {
        return Interrupted;
      }
      outcome := PublishDashboard(name, items, newProxy, newDashboard, p, d);
    }

    /** The stages once the proxy database is replaced. */
    method PublishDashboard(name: nat, items: Option<seq<Item>>, newProxy: File, newDashboard: File, ghost p: File,
            ghost d: File)
      returns (outcome: Outcome)
      requires Fresh() && IsThePending(name, p, d) && manifests[name] == Manifest(TokenBoardReplaced, items)
               && proxy == newProxy
      modifies this
      ensures outcome != Refused
      ensures outcome == Done ==> Settled() && proxy == newProxy && dashboard == newDashboard
      ensures outcome != Done ==> Pending(p, d) || (Settled() && proxy == newProxy && dashboard == newDashboard)
    {
      var alive := ReplaceWithShadow(Dashboard, newDashboard);
      assert IsThePending(name, p, d);
      if !alive {
        return Interrupted;
      }
      alive := WriteManifest(name, Manifest(DashboardReplaced, items));
      assert IsThePending(name, p, d);
      if !alive {
        return Interrupted;
      }
      alive := WriteManifest(name, Manifest(Complete, items));
      if !alive {
        assert IsThePending(name, p, d);
        return Interrupted;
      }
      // Reporting the result may still fail, but both databases are published.
      alive := Tick();
      outcome := if alive then Done else Interrupted;
    }

    // ----- recover_incomplete_manifests -----

    /** Restore one item of an unfinished manifest. */
    method RecoverItem(item: Item) returns (outcome: Outcome)
      modifies this`proxy, this`dashboard, this`budget
      ensures item.source == TokenBoard ==> dashboard == old(dashboard)
      ensures item.source == Dashboard ==> proxy == old(proxy)
      ensures forall content :: Restores(item, item.source, content, backups) ==>
                outcome != Refused
                && (outcome == Done ==> content == if item.source == TokenBoard then proxy else dashboard)
    {
      var alive;
      if item.existed {
        if item.backup.None? || item.backup.value !in backups || backups[item.backup.value].Absent? {
          return Refused;
        }
        var content := backups[item.backup.value];
        if content != item.sha {
          return Refused;
        }
        alive := Restore(item.source, content);
      } else {
        alive := Restore(item.source, Absent);
      }
      outcome := if alive then Done else Interrupted;
    }

    /** Restore one manifest's items in order, then mark it rolled back. */
    method RecoverManifest(name: nat) returns (outcome: Outcome)
      requires Fresh() && name in manifests && Unfinished(manifests[name])
      modifies this`proxy, this`dashboard, this`manifests, this`budget
      ensures forall p, d :: old(IsThePending(name, p, d)) ==>
                outcome != Refused
                && (outcome == Done ==> Settled() && proxy == p && dashboard == d)
                && (outcome == Interrupted ==> Pending(p, d))
      ensures outcome == Done ==> manifests == old(manifests)[name := old(manifests)[name].(stage := RecoveredRollback)]
      ensures outcome != Done ==> manifests == old(manifests)
    {
      var m := manifests[name];
      ghost var before := manifests;
      for k := 0 to |m.backups.value|
        invariant manifests == before && backups == old(backups)
        invariant forall p, d :: Describes(m, p, d, backups) ==> (k >= 1 ==> proxy == p) && (k >= 2 ==> dashboard == d)
      {
        outcome := RecoverItem(m.backups.value[k]);
        if outcome != Done {
          forall p, d | old(IsThePending(name, p, d))
            ensures outcome != Refused && Pending(p, d)
          {
            assert Describes(m, p, d, backups);
            assert IsThePending(name, p, d);
          }
          return;
        }
      }
      var alive := WriteManifest(name, m.(stage := RecoveredRollback));
      outcome := if alive then Done else Interrupted;
      if !alive {
        forall p, d | old(IsThePending(name, p, d))
          ensures Pending(p, d)
        {
          assert IsThePending(name, p, d);
        }
      }
    }

    /** Recovery over all manifests, in whatever order the directory lists them. From a safe disk it is
        never refused; interrupted, it leaves the disk safe; completed, it has put the pair back and
        leaves nothing to recover. A second recovery then changes nothing. */
    method Recover(ghost p: File, ghost d: File) returns (outcome: Outcome)
      requires Safe(p, d)
      modifies this`proxy, this`dashboard, this`manifests, this`budget
      ensures outcome != Refused && Safe(p, d)
      ensures outcome == Done ==> Settled() && proxy == p && dashboard == d
      ensures old(Settled()) ==>
                outcome == Done && manifests == old(manifests) && proxy == old(proxy) && dashboard == old(dashboard)
                && budget == old(budget)
    {
      var todo := manifests.Keys;
      while todo != {}
        invariant todo <= manifests.Keys && Safe(p, d)
        invariant forall n :: n in manifests && Unfinished(manifests[n]) ==> n in todo
        invariant old(Settled()) ==>
                    manifests == old(manifests) && proxy == old(proxy) && dashboard == old(dashboard)
                      && budget == old(budget)
        decreases |todo|
      {
        var name :| name in todo;
        todo := todo - {name};
        if Unfinished(manifests[name]) {
          assert IsThePending(name, p, d);
          outcome := RecoverManifest(name);
          if outcome != Done {
            return;
          }
        }
      }
      outcome := Done;
    }

    // ----- in-place migrations -----

    /** `apply_sql_migrations` without a manifest: create a missing file, then commit one migration after
        another. It stops after exactly as many of them as there are operations left. */
    method MigrateFile(schema: Schema, side: Side) returns (alive: bool)
      requires Lawful(schema)
      modifies this`proxy, this`dashboard, this`budget
      ensures var f := old(if side == TokenBoard then proxy else dashboard);
              var n := Least(old(budget), Ops(schema, side, f));
              && (if side == TokenBoard then proxy else dashboard) == AfterOps(schema, side, f, n)
              && (if side == TokenBoard then dashboard else proxy) ==
                 old(if side == TokenBoard then dashboard else proxy)
              && (alive <==> old(budget) >= Ops(schema, side, f)) && budget == old(budget) - n
    {
      ghost var f := if side == TokenBoard then proxy else dashboard;
      ghost var done: nat := 0;
      var file := if side == TokenBoard then proxy else dashboard;
      while Ops(schema, side, file) > 0
        invariant done <= Ops(schema, side, f) && file == AfterOps(schema, side, f, done)
                  && budget == old(budget) - done
        invariant Ops(schema, side, file) == Ops(schema, side, f) - done
        invariant file == if side == TokenBoard then proxy else dashboard
        invariant (if side == TokenBoard then dashboard else proxy) ==
                  old(if side == TokenBoard then dashboard else proxy)
        decreases Ops(schema, side, file)
      {
        OpsCountDown(schema, side, f, done + 1);
        alive := Tick();
        if !alive {
          return;
        }
        file := NextFile(schema, side, file);
        Put(side, file);
        done := done + 1;
      }
      alive := true;
    }

    /** The token board's file first, then the dashboard's. */
    method MigratePair(schema: Schema, onProxy: bool, onDashboard: bool) returns (alive: bool)
      requires Lawful(schema)
      modifies this`proxy, this`dashboard, this`budget
      ensures var steps := Steps(schema, old(proxy), old(dashboard), onProxy, onDashboard);
              && (proxy, dashboard) == Partial(schema, old(proxy), old(dashboard), onProxy, Least(old(budget), steps))
              && (alive <==> old(budget) >= steps)
    {
      alive := true;
      if onProxy {
        alive := MigrateFile(schema, TokenBoard);
      }
      if alive && onDashboard {
        alive := MigrateFile(schema, Dashboard);
      }
    }

    // ----- starting up -----

    /** Where a start-up from the pair (p, d) leaves the disk: at some pair of the trail, on disk or one
        recovery away, and at its goal unless the process died or raised midway. */
    ghost predicate LeftOnTrail(schema: Schema, p: File, d: File, outcome: Outcome, at: nat)
      requires Lawful(schema)
      reads this
    {
      && at < |Trail(schema, p, d)| && Safe(Trail(schema, p, d)[at].0, Trail(schema, p, d)[at].1)
      && (outcome != Interrupted ==>
            Settled() && (proxy, dashboard) == Goal(schema, p, d) && (outcome == Done <==> Completes(schema, p, d)))
    }

    /** A death in place leaves exactly the operations done before it. */
    ghost predicate StopsInPlace(schema: Schema, p: File, d: File, operations: nat, outcome: Outcome)
      reads this
    {
      var plan := PlanFor(schema, p, d);
      plan.MigrateInPlace? && operations < Steps(schema, p, d, plan.onProxy, plan.onDashboard) ==>
        outcome == Interrupted && Settled() && (proxy, dashboard) == Partial(schema, p, d, plan.onProxy, operations)
    }

    /** The pair is published through a manifest, from a trail that goes on with `next`. */
    method PublishNext(next: Pair) returns (outcome: Outcome, ghost hop: nat)
      requires Settled()
      modifies this
      ensures outcome != Refused && hop <= 1
      ensures outcome == Done ==> hop == 1 && Settled() && (proxy, dashboard) == next
      ensures hop == 0 ==> Safe(old(proxy), old(dashboard))
      ensures hop == 1 ==> Safe(next.0, next.1)
    {
      ghost var p, d := proxy, dashboard;
      outcome := UpgradePair(next.0, next.1);
      hop := if outcome == Done || !Safe(p, d) then 1 else 0;
    }

    /** `_upgrade_v2_pair` or `_upgrade_v2_minor_pair` as the last branch. */
    method Upgrade(schema: Schema) returns (outcome: Outcome, ghost at: nat)
      requires Lawful(schema) && Settled() && PlanFor(schema, proxy, dashboard) == Plan.Upgrade
      modifies this
      ensures LeftOnTrail(schema, old(proxy), old(dashboard), outcome, at)
    {
      ghost var p, d := proxy, dashboard;
      FileLawsOf(schema, p, d);
      CurrentIsKept(schema, schema.pair(p, d));
      outcome, at := PublishNext(schema.pair(proxy, dashboard));
    }

    /** Selected transitions publish a V1 pair, and the pair upgrade follows at once. */
    method TransitionAndUpgrade(schema: Schema) returns (outcome: Outcome, ghost at: nat)
      requires Lawful(schema) && Settled() && PlanFor(schema, proxy, dashboard) == Transition
      modifies this
      ensures LeftOnTrail(schema, old(proxy), old(dashboard), outcome, at)
    {
      ghost var p, d := proxy, dashboard;
      var t := schema.transitioned(proxy, dashboard);
      FileLawsOf(schema, t.0, t.1);
      CurrentIsKept(schema, schema.pair(t.0, t.1));
      outcome, at := PublishNext(t);
      if outcome == Done {
        ghost var hop: nat;
        outcome, hop := PublishNext(schema.pair(proxy, dashboard));
        at := 1 + hop;
      }
    }

    /** One V0 database is replaced by its V2 artifact, and the start-up goes on. */
    method ReplaceAndProceed(schema: Schema, side: Side) returns (outcome: Outcome, ghost at: nat)
      requires Lawful(schema) && Settled() && PlanFor(schema, proxy, dashboard) == ReplaceOne(side)
      modifies this
      ensures LeftOnTrail(schema, old(proxy), old(dashboard), outcome, at)
      decreases Unready(schema, proxy, dashboard), 0
    {
      ghost var p, d := proxy, dashboard;
      var q := Replaced(schema, side, proxy, dashboard);
      ReplacingReadies(schema, side, p, d);
      GoalAfterReplacing(schema, p, d, side);
      var alive := ReplaceWithShadow(side, if side == TokenBoard then q.0 else q.1);
      if !alive {
        return Interrupted, 0;
      }
      outcome, at := Proceed(schema);
      at := at + 1;
    }

    /** The in-place branches: missing files are created and the start-up goes on; a fresh or V1 pair is
        migrated and then upgraded through a manifest. */
    method MigrateAndProceed(schema: Schema, onProxy: bool, onDashboard: bool) returns (outcome: Outcome, ghost at: nat)
      requires Lawful(schema) && Settled() && PlanFor(schema, proxy, dashboard) == MigrateInPlace(onProxy, onDashboard)
      modifies this
      ensures LeftOnTrail(schema, old(proxy), old(dashboard), outcome, at)
      ensures StopsInPlace(schema, old(proxy), old(dashboard), old(budget), outcome)
      decreases Unready(schema, proxy, dashboard), 0
    {
      ghost var p, d, n := proxy, dashboard, Steps(schema, proxy, dashboard, onProxy, onDashboard);
      GoalAfterMigrating(schema, p, d, onProxy, onDashboard);
      at := Least(budget, n);
      PartialIsOnTrail(schema, p, d, onProxy, onDashboard, at);
      var alive := MigratePair(schema, onProxy, onDashboard);
      if !alive {
        return Interrupted, at;
      }
      ghost var next: nat;
      if onProxy && onDashboard {
        FileLawsOf(schema, proxy, dashboard);
        CurrentIsKept(schema, schema.pair(proxy, dashboard));
        outcome, next := PublishNext(schema.pair(proxy, dashboard));
      } else {
        MigratingReadies(schema, p, d, onProxy, onDashboard);
        outcome, next := Proceed(schema);
      }
      at := n + next;
      TrailGoesOn(schema, p, d, onProxy, onDashboard, next);
    }

    /** The branches after recovery. */
    method Proceed(schema: Schema) returns (outcome: Outcome, ghost at: nat)
      requires Lawful(schema) && Settled()
      modifies this
      ensures LeftOnTrail(schema, old(proxy), old(dashboard), outcome, at)
      ensures StopsInPlace(schema, old(proxy), old(dashboard), old(budget), outcome)
      ensures IsRefused(schema, old(proxy), old(dashboard)) ==>
                outcome == Refused && proxy == old(proxy) && dashboard == old(dashboard) && manifests == old(manifests)
      decreases Unready(schema, proxy, dashboard), 1
    {
      ghost var p, d := proxy, dashboard;
      if IsRefused(schema, p, d) {
        RefusedPlan(schema, p, d);
      }
      match PlanFor(schema, proxy, dashboard)
      case Raise => return Refused, 0;
      case Keep => return Done, 0;
      case Upgrade => outcome, at := Upgrade(schema);
      case Transition => outcome, at := TransitionAndUpgrade(schema);
      case ReplaceOne(side) => outcome, at := ReplaceAndProceed(schema, side);
      case MigrateInPlace(onProxy, onDashboard) => outcome, at := MigrateAndProceed(schema, onProxy, onDashboard);
    }

    /** `ensure_local_databases`: recover first, then take the branch of the pair. */
    method StartUp(schema: Schema, ghost p: File, ghost d: File) returns (outcome: Outcome, ghost at: nat)
      requires Lawful(schema) && Safe(p, d)
      modifies this
      ensures LeftOnTrail(schema, p, d, outcome, at)
      ensures old(Settled()) ==> StopsInPlace(schema, p, d, old(budget), outcome)
      ensures IsRefused(schema, p, d) ==>
                outcome != Done && (old(Settled()) || outcome == Refused ==>
                  outcome == Refused && Settled() && proxy == p && dashboard == d)
    {
      outcome := Recover(p, d);
      at := 0;
      if outcome == Done {
        outcome, at := Proceed(schema);
      }
    }

    /** A new process: its file operations end after `operations` more. */
    method NewProcess(operations: nat, ghost p: File, ghost d: File)
      requires Safe(p, d)
      modifies this`budget
      ensures Safe(p, d) && budget == operations
    {
      ghost var n: nat := 0;
      if Pending(p, d) {
        n :| IsThePending(n, p, d);
      }
      ghost var waiting := Pending(p, d);
      budget := operations;
      assert waiting ==> IsThePending(n, p, d);
    }

    /** Any number of start-ups, each dying after some number of file operations: each one starts from a
        pair on the trail of the one before, and the first to complete leaves the pair current. */
    method StartUps(budgets: seq<nat>, schema: Schema) returns (done: bool, ghost passed: seq<Pair>)
      requires Lawful(schema) && Settled()
      modifies this
      ensures IsPassage(schema, passed) && passed[0] == (old(proxy), old(dashboard))
      ensures var last := passed[|passed| - 1];
              Safe(last.0, last.1) && (done ==> Settled() && (proxy, dashboard) == last && BothCurrent(schema, last))
    {
      passed, done := [(proxy, dashboard)], false;
      for k := 0 to |budgets|
        invariant !done && IsPassage(schema, passed) && passed[0] == (old(proxy), old(dashboard))
        invariant Safe(passed[|passed| - 1].0, passed[|passed| - 1].1)
      {
        ghost var last := passed[|passed| - 1];
        NewProcess(budgets[k], last.0, last.1);
        var outcome;
        ghost var at: nat;
        outcome, at := StartUp(schema, last.0, last.1);
        if outcome == Done {
          GoalIsCurrentOrRefused(schema, last.0, last.1);
          PassageGrows(schema, passed, |Trail(schema, last.0, last.1)| - 1);
          passed := passed + [Goal(schema, last.0, last.1)];
          return true, passed;
        }
        PassageGrows(schema, passed, at);
        passed := passed + [Trail(schema, last.0, last.1)[at]];
      }
    }
  }
}
