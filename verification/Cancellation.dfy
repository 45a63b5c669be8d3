/** Scheduling an end-of-period deletion, and why it lets no further period be charged. */
module Cancellation {
  import opened Prelude
  import opened Calendar
  import opened UsageSnapshot
  import opened BillingUnits
  import opened Ledger
  import opened LedgerLaws
  import opened LedgerSettling
  import opened BillingRuns

  /** `_cancellation_end` for a subscription: a fresh observed reset that is still ahead owns the
      boundary, and the anchor calendar otherwise. */
  function CancellationEnd(immediate: bool, now: int, anchor: AnchorDay, s: Snapshot): int {
    if immediate then now
    else
      var observed := ObservedPeriodEnd(s, now);
      if observed.Some? && observed.value - 1 > now then observed.value - 1
      else PeriodStart(NextMonth(BillingPeriodMonth(now, anchor)), anchor) - 1
  }

  /** The second before the end of a recently reported period, when that is still ahead. */
  ghost predicate ReportedEnd(s: Snapshot, now: int, end: int) {
    exists o :: Reports(s, o) && Recent(now, o.checkedAt) && o.end - 1 == end && now < end
  }

  /** An immediate deletion ends now; a scheduled one at the reported end, and without one in the last
      second of the anchor period that holds the request. */
  ghost predicate Ends(immediate: bool, now: int, anchor: AnchorDay, s: Snapshot, end: int) {
    if immediate then end == now
    else ReportedEnd(s, now, end)
         || ((forall e :: !ReportedEnd(s, now, e)) && end == PeriodAt(now, anchor).end - 1)
  }

  /** A scheduled end is never past, and is the reported one or that of the anchor period. */
  lemma EndIsAhead(immediate: bool, now: int, anchor: AnchorDay, s: Snapshot)
    ensures now <= CancellationEnd(immediate, now, anchor, s)
    ensures Ends(immediate, now, anchor, s, CancellationEnd(immediate, now, anchor, s))
  {
    LabelsAgreeWithPeriods(now, anchor);
    PeriodContainsMoment(now, anchor);
    ObservedEndIsReported(s, now);
    var observed := ObservedPeriodEnd(s, now);
    if observed.Some? {
      assert forall o :: Reports(s, o) ==> o.end == observed.value;
    }
  }

  // ----- the scheduling loop of delete_account -----

  function UnitEnd(immediate: bool, c: Credential, now: int): int {
    if c.endsAt.Some? && c.endsAt.value > now then c.endsAt.value
    else CancellationEnd(immediate, now, DayOfMonth(c.validFrom.GetOr(DayOf(c.createdAt))), c.snapshot)
  }

  /** A credential keeps an end of its own that is ahead; otherwise the deletion gives it one, on its own
      anchor and snapshot. */
  ghost predicate IsEndOf(immediate: bool, c: Credential, now: int, end: int) {
    if c.endsAt.Some? && now < c.endsAt.value then end == c.endsAt.value
    else exists first ::
           StartsOn(first, c.validFrom, c.createdAt) && Ends(immediate, now, DayOfMonth(first), c.snapshot, end)
  }

  lemma EndOfCredential(immediate: bool, c: Credential, now: int)
    ensures IsEndOf(immediate, c, now, UnitEnd(immediate, c, now)) && now <= UnitEnd(immediate, c, now)
  {
    var first := c.validFrom.GetOr(DayOf(c.createdAt));
    EndIsAhead(immediate, now, DayOfMonth(first), c.snapshot);
    assert StartsOn(first, c.validFrom, c.createdAt);
  }

  /** What a schedule leaves: each running credential has its end, and nothing else of it changes. */
  ghost predicate IsScheduled(immediate: bool, c: Credential, now: int, after: Credential) {
    if Runs(c, now) then after.endsAt.Some? && IsEndOf(immediate, c, now, after.endsAt.value)
                         && after == c.(endsAt := after.endsAt)
    else after == c
  }

  predicate IsLatestEnd(immediate: bool, credentials: seq<Credential>, now: int, end: int) {
    (forall i :: 0 <= i < |credentials| && Live(credentials[i], now) ==> UnitEnd(immediate, credentials[i], now) <= end)
    && if exists i :: 0 <= i < |credentials| && Live(credentials[i], now) then
         exists i :: 0 <= i < |credentials| && Live(credentials[i], now)
           && UnitEnd(immediate, credentials[i], now) == end
       else end == now
  }

  /** The credential loop: each live credential gets its end, and the contract the latest of them. */
  method ScheduleEnds(immediate: bool, credentials: seq<Credential>, now: int)
    returns (scheduled: seq<Credential>, effective: int)
    ensures |scheduled| == |credentials|
    ensures forall i :: 0 <= i < |credentials| ==>
              scheduled[i] == if Live(credentials[i], now)
                then credentials[i].(endsAt := Some(UnitEnd(immediate, credentials[i], now))) else credentials[i]
    ensures IsLatestEnd(immediate, credentials, now, effective)
    ensures forall i :: 0 <= i < |credentials| ==> IsScheduled(immediate, credentials[i], now, scheduled[i])
    ensures forall i :: 0 <= i < |credentials| && Runs(credentials[i], now) ==>
              now <= scheduled[i].endsAt.value <= effective
    ensures effective == now
            || exists i :: 0 <= i < |credentials| && Runs(credentials[i], now) && scheduled[i].endsAt == Some(effective)
  {
    scheduled := credentials;
    effective := now;
    var any := false;
    for i := 0 to |credentials|
      invariant |scheduled| == |credentials|
      invariant forall k :: 0 <= k < |credentials| ==>
                  scheduled[k] == if k < i && Live(credentials[k], now)
                    then credentials[k].(endsAt := Some(UnitEnd(immediate, credentials[k], now))) else credentials[k]
      invariant any <==> exists k :: 0 <= k < i && Live(credentials[k], now)
      invariant forall k :: 0 <= k < i && Live(credentials[k], now) ==>
                UnitEnd(immediate, credentials[k], now) <= effective
      invariant if any then
                  exists k ::
                    0 <= k < i && Live(credentials[k], now) && UnitEnd(immediate, credentials[k], now) == effective
                else effective == now
    {
      var c := credentials[i];
      if Live(c, now) {
        var end := UnitEnd(immediate, c, now);
        scheduled := scheduled[i := c.(endsAt := Some(end))];
        if !any || end > effective {
          effective := end;
        }
        any := true;
      }
    }
    ScheduleStands(immediate, credentials, now, scheduled, effective);
  }

  lemma ScheduleStands(immediate: bool, credentials: seq<Credential>, now: int, scheduled: seq<Credential>,
          effective: int)
    requires |scheduled| == |credentials| && IsLatestEnd(immediate, credentials, now, effective)
    requires forall i :: 0 <= i < |credentials| ==>
               scheduled[i] == if Live(credentials[i], now)
                 then credentials[i].(endsAt := Some(UnitEnd(immediate, credentials[i], now))) else credentials[i]
    ensures forall i :: 0 <= i < |credentials| ==> IsScheduled(immediate, credentials[i], now, scheduled[i])
    ensures forall i :: 0 <= i < |credentials| && Runs(credentials[i], now) ==>
              now <= scheduled[i].endsAt.value <= effective
    ensures effective == now
            || exists i :: 0 <= i < |credentials| && Runs(credentials[i], now) && scheduled[i].endsAt == Some(effective)
  {
    forall i | 0 <= i < |credentials|
      ensures IsScheduled(immediate, credentials[i], now, scheduled[i])
      ensures Runs(credentials[i], now) ==> now <= scheduled[i].endsAt.value
    {
      EndOfCredential(immediate, credentials[i], now);
    }
  }

  /** The contract's end never cuts a credential short: the unit ends when the credential does. */
  lemma ContractEndCutsNothing(immediate: bool, credentials: seq<Credential>, now: int, effective: int, i: int)
    requires IsLatestEnd(immediate, credentials, now, effective) && 0 <= i < |credentials| && Live(credentials[i], now)
    ensures var end := UnitEnd(immediate, credentials[i], now); EarlierEnd(Some(effective), Some(end)) == Some(end)
    ensures now <= UnitEnd(immediate, credentials[i], now) <= effective
  {
    EndOfCredential(immediate, credentials[i], now);
  }

  // ----- on the anchor calendar -----

  /** The owner's rows were opened by the anchor calendar: each ends with the anchor period of a moment
      at which it had already begun. */
  ghost predicate OnCalendar(rows: seq<Charge>, owner: Owner, anchor: AnchorDay, last: int) {
    forall i :: 0 <= i < |rows| && rows[i].owner == owner ==> EndsPeriod(rows[i], anchor, last)
  }

  ghost predicate EndsPeriod(row: Charge, anchor: AnchorDay, last: int) {
    exists t :: row.start <= t <= last && row.end == PeriodAt(t, anchor).end
  }

  /** A unit that follows no snapshot and keeps its anchor extends the calendar. */
  lemma UnitKeepsCalendar(rows: seq<Charge>, unit: Unit, moment: int, prices: Prices, owner: Owner, anchor: AnchorDay,
          last: int)
    requires Tidy(rows, unit.config.owner, last) && last <= moment && OnCalendar(rows, owner, anchor, last)
    requires unit.config.owner == owner ==> unit.AnchorDay() == anchor && unit.observed.None? && unit.resumedAt.None?
    ensures OnCalendar(PostUnit(rows, unit, moment, prices), owner, anchor, moment)
  {
    var after := PostUnit(rows, unit, moment, prices);
    UnitExtends(rows, unit, moment, prices);
    UnitOpensAtMostOne(rows, unit, moment, prices, last);
    forall i | 0 <= i < |after| && after[i].owner == owner
      ensures EndsPeriod(after[i], anchor, moment)
    {
      if i < |rows| {
        assert SameFact(rows[i], after[i]) && EndsPeriod(rows[i], anchor, last);
        var t :| rows[i].start <= t <= last && rows[i].end == PeriodAt(t, anchor).end;
        assert after[i].start <= t <= moment && after[i].end == PeriodAt(t, anchor).end;
      } else {
        NewRowEndsPeriod(rows, unit, moment, prices, last);
        assert after[i].start <= moment && after[i].end == PeriodAt(moment, anchor).end;
      }
    }
  }

  lemma NewRowEndsPeriod(rows: seq<Charge>, unit: Unit, moment: int, prices: Prices, last: int)
    requires Tidy(rows, unit.config.owner, last) && last <= moment && unit.observed.None?
    requires |PostUnit(rows, unit, moment, prices)| > |rows|
    ensures var row := PostUnit(rows, unit, moment, prices)[|rows|];
            row.start <= moment && row.end == PeriodAt(moment, unit.AnchorDay()).end
  {
    UnitOpensAtMostOne(rows, unit, moment, prices, last);
    var period := ResolveUnitPeriod(rows, unit, moment).value;
    var row := Latest(rows, unit.config.owner, moment);
    if row.Some? && moment < row.value.end {
      LatestIsNewest(rows, unit.config.owner, last, moment);
    }
  }

  lemma {:induction false} UnitsKeepCalendar(rows: seq<Charge>, units: seq<Unit>, moment: int, prices: Prices,
          owner: Owner, anchor: AnchorDay, last: int)
    requires TidyAll(rows, last) && last <= moment && OnCalendar(rows, owner, anchor, last)
    requires forall u :: u in units && u.config.owner == owner ==>
             u.AnchorDay() == anchor && u.observed.None? && u.resumedAt.None?
    ensures OnCalendar(PostUnits(rows, units, moment, prices), owner, anchor, moment)
  {
    if units != [] {
      var init, unit := units[..|units| - 1], units[|units| - 1];
      var mid := PostUnits(rows, init, moment, prices);
      UnitsKeepCalendar(rows, init, moment, prices, owner, anchor, last);
      MaterializeStaysTidyAll(rows, init, moment, prices, last);
      assert Tidy(mid, unit.config.owner, moment);
      UnitKeepsCalendar(mid, unit, moment, prices, owner, anchor, moment);
    } else {
      LaterStillEnds(rows, owner, anchor, last, moment);
    }
  }

  lemma LaterStillEnds(rows: seq<Charge>, owner: Owner, anchor: AnchorDay, last: int, moment: int)
    requires last <= moment && OnCalendar(rows, owner, anchor, last)
    ensures OnCalendar(rows, owner, anchor, moment)
  {
    forall i | 0 <= i < |rows| && rows[i].owner == owner
      ensures EndsPeriod(rows[i], anchor, moment)
    {
      assert EndsPeriod(rows[i], anchor, last);
      var t :| rows[i].start <= t <= last && rows[i].end == PeriodAt(t, anchor).end;
      assert rows[i].start <= t <= moment && rows[i].end == PeriodAt(t, anchor).end;
    }
  }

  /** Every materialization of the owner keeps its anchor, and the owner has no snapshot. */
  predicate KeepsAnchor(e: Event, owner: Owner, anchor: AnchorDay) {
    && (e.Run? ==> forall i :: 0 <= i < |e.configs| && e.configs[i].owner == owner ==>
       DayOfMonth(e.configs[i].validFrom) == anchor)
    && (e.PollDone? ==> owner.credential != Some(e.uuid))
  }

  ghost predicate Unobserved(s: System, owner: Owner) {
    owner.credential.None? || SnapshotOf(s.snapshots, owner.credential.value).Missing?
  }

  lemma {:induction false} RunsKeepCalendar(s: System, events: seq<Event>, owner: Owner, anchor: AnchorDay)
    requires Possible(s, events) && TidyAll(s.rows, s.clock) && OnCalendar(s.rows, owner, anchor, s.clock)
             && Unobserved(s, owner)
    requires forall i :: 0 <= i < |events| ==> KeepsAnchor(events[i], owner, anchor)
    ensures var t := Execute(s, events); OnCalendar(t.rows, owner, anchor, t.clock) && Unobserved(t, owner)
    decreases |events|
  {
    if events != [] {
      var e, mid := events[0], Step(s, events[0]);
      StepIsSafe(s, e);
      StepKeepsCalendar(s, e, owner, anchor);
      RunsKeepCalendar(mid, events[1..], owner, anchor);
    }
  }

  lemma StepKeepsCalendar(s: System, e: Event, owner: Owner, anchor: AnchorDay)
    requires Enabled(s, e) && TidyAll(s.rows, s.clock) && OnCalendar(s.rows, owner, anchor, s.clock)
             && Unobserved(s, owner)
    requires KeepsAnchor(e, owner, anchor)
    ensures var t := Step(s, e); OnCalendar(t.rows, owner, anchor, t.clock) && Unobserved(t, owner)
  {
    var t := Step(s, e);
    if e.Run? {
      var units := UnitsNow(e.configs, s.snapshots);
      forall u | u in units && u.config.owner == owner
        ensures u.AnchorDay() == anchor && u.observed.None? && u.resumedAt.None?
      {
        var i :| 0 <= i < |units| && units[i] == u;
        assert u == UnitNow(e.configs[i], s.snapshots);
      }
      UnitsKeepCalendar(s.rows, units, e.at, s.prices, owner, anchor, s.clock);
      var posted := PostUnits(s.rows, units, e.at, s.prices);
      FreezeExtends(posted, ResolvedStarts(s.rows, units, e.at, s.prices), e.at);
      forall i | 0 <= i < |t.rows| && t.rows[i].owner == owner
        ensures EndsPeriod(t.rows[i], anchor, e.at)
      {
        assert SameFact(posted[i], t.rows[i]) && EndsPeriod(posted[i], anchor, e.at);
      }
    } else {
      LaterStillEnds(s.rows, owner, anchor, s.clock, t.clock);
    }
  }

  /** The row of a calendar owner that covers a moment ends with that moment's anchor period. */
  lemma CoveringRowEndsPeriod(row: Charge, anchor: AnchorDay, last: int, now: int)
    requires EndsPeriod(row, anchor, last) && last <= now && Covers(row, now)
    ensures row.end == PeriodAt(now, anchor).end
  {
    var t :| row.start <= t <= last && row.end == PeriodAt(t, anchor).end;
    PeriodContainsMoment(t, anchor);
    PeriodsTile(t, now, anchor);
  }

  /** Scheduled on the anchor calendar while a period is recorded, an end-of-period deletion ends one second
      before that period does, and not before now. */
  lemma ScheduledEndClosesPeriod(s: System, owner: Owner, anchor: AnchorDay, snapshot: Snapshot, i: int)
    requires OnCalendar(s.rows, owner, anchor, s.clock)
    requires 0 <= i < |s.rows| && s.rows[i].owner == owner && Covers(s.rows[i], s.clock)
    requires ObservedPeriodEnd(snapshot, s.clock).None?
    ensures s.clock <= CancellationEnd(false, s.clock, anchor, snapshot) == s.rows[i].end - 1
  {
    assert EndsPeriod(s.rows[i], anchor, s.clock);
    CoveringRowEndsPeriod(s.rows[i], anchor, s.clock, s.clock);
    EndIsAhead(false, s.clock, anchor, snapshot);
  }

  /** ... and no later run of any kind opens another period for the owner. */
  lemma ScheduledDeletionIsFinal(s: System, events: seq<Event>, owner: Owner, anchor: AnchorDay, snapshot: Snapshot,
                                 i: int, j: int)
    requires Possible(s, events) && TidyAll(s.rows, s.clock) && OnCalendar(s.rows, owner, anchor, s.clock)
    requires 0 <= i < |s.rows| && s.rows[i].owner == owner && Covers(s.rows[i], s.clock)
    requires ObservedPeriodEnd(snapshot, s.clock).None?
    requires forall k :: 0 <= k < |events| ==>
             EndsBy(events[k], owner, CancellationEnd(false, s.clock, anchor, snapshot))
    requires |s.rows| <= j < |Execute(s, events).rows|
    ensures Execute(s, events).rows[j].owner != owner
  {
    ScheduledEndClosesPeriod(s, owner, anchor, snapshot, i);
    EndedOwnerOpensNothing(s, events, owner, CancellationEnd(false, s.clock, anchor, snapshot), j);
  }

  /** At the end of its newest period a unit that nothing suspends opens another exactly when its
      scheduled end reaches that far, as it does when a later observed reset set the end. */
  lemma FollowingPeriodIff(rows: seq<Charge>, unit: Unit, last: int, i: int)
    requires Tidy(rows, unit.config.owner, last) && 0 <= i < |rows| && rows[i].owner == unit.config.owner
    requires forall k :: 0 <= k < |rows| && rows[k].owner == unit.config.owner ==> rows[k].end <= rows[i].end
    requires last <= rows[i].end && Midnight(unit.config.validFrom) <= rows[i].end
    requires !unit.LapseVerdictFresh(rows[i].end) && !AwaitsObservation(unit, rows[i].end)
    requires unit.resumedAt.None? || unit.resumedAt.value <= rows[i].end
    ensures Pending(rows, unit, rows[i].end) <==> unit.config.endsAt.None? || rows[i].end <= unit.config.endsAt.value
  {
    var moment, owner := rows[i].end, unit.config.owner;
    LatestIsNewest(rows, owner, last, moment);
    assert Latest(rows, owner, moment).value.end == moment;
    assert FindRow(rows, owner, moment) < 0 by {
      assert forall k :: 0 <= k < |rows| && rows[k].owner == owner ==> rows[k].start < rows[k].end <= moment;
    }
  }

  /** For a credential's unit as the query lists it: at the end of its newest period another opens exactly
      when the credential ends later than that, and the contract not earlier. */
  lemma FollowingPeriodOfCredential(rows: seq<Charge>, contract: Contract, c: Credential, last: int, i: int)
    requires var unit := CredentialUnit(contract, c);
             && Tidy(rows, unit.config.owner, last) && 0 <= i < |rows| && rows[i].owner == unit.config.owner
             && (forall k :: 0 <= k < |rows| && rows[k].owner == unit.config.owner ==> rows[k].end <= rows[i].end)
             && last <= rows[i].end && Midnight(unit.config.validFrom) <= rows[i].end
             && !unit.LapseVerdictFresh(rows[i].end) && !AwaitsObservation(unit, rows[i].end)
             && (unit.resumedAt.None? || unit.resumedAt.value <= rows[i].end)
    ensures Live(c, rows[i].end) && Pending(rows, CredentialUnit(contract, c), rows[i].end) <==>
            (c.endsAt.None? || rows[i].end < c.endsAt.value)
              && (contract.endsAt.None? || rows[i].end <= contract.endsAt.value)
  {
    FollowingPeriodIff(rows, CredentialUnit(contract, c), last, i);
  }
}
