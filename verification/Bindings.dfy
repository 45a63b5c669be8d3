/** Which agent software owns a subscription on which date, under edits of the software forms. */
module Bindings {
  import opened Prelude

  /** A row of `agent_subscription_bindings`; dates are day numbers, the end is exclusive. */
  datatype Binding = Binding(subscription: int, software: int, from: int, ends: Option<int>)

  predicate Covers(b: Binding, day: int) {
    b.from <= day && (b.ends.None? || b.ends.value > day)
  }

  ghost predicate OwnedThrough(b: Binding, subscription: int, software: int, day: int) {
    b.subscription == subscription && b.software == software && Covers(b, day)
  }

  /** Some interval of the software covers the day. */
  ghost predicate Owns(rows: seq<Binding>, subscription: int, software: int, day: int) {
    exists i :: 0 <= i < |rows| && OwnedThrough(rows[i], subscription, software, day)
  }

  ghost predicate NoFutureStarts(rows: seq<Binding>, today: int) {
    forall i :: 0 <= i < |rows| ==> rows[i].from <= today
  }

  /** UNIQUE(subscription_id, software_id, valid_from) */
  ghost predicate UniqueStarts(rows: seq<Binding>) {
    forall i, j :: 0 <= i < j < |rows| ==> !SameStart(rows[i], rows[j].subscription, rows[j].software, rows[j].from)
  }

  predicate SameStart(b: Binding, subscription: int, software: int, from: int) {
    b.subscription == subscription && b.software == software && b.from == from
  }

  // ----- the statements -----

  /** The effective rows of the software that the form no longer lists end today. */
  predicate Dropped(b: Binding, software: int, listed: seq<int>, today: int) {
    b.software == software && b.subscription !in listed && Covers(b, today)
  }

  /** The effective rows of any other software end today. */
  predicate Displaced(b: Binding, subscription: int, software: int, today: int) {
    b.subscription == subscription && b.software != software && Covers(b, today)
  }

  function EndDropped(rows: seq<Binding>, software: int, listed: seq<int>, today: int): seq<Binding> {
    if rows == [] then []
    else
      var last := rows[|rows| - 1];
      EndDropped(rows[..|rows| - 1], software, listed, today)
      + [if Dropped(last, software, listed, today) then last.(ends := Some(today)) else last]
  }

  function EndDisplaced(rows: seq<Binding>, subscription: int, software: int, today: int): seq<Binding> {
    if rows == [] then []
    else
      var last := rows[|rows| - 1];
      EndDisplaced(rows[..|rows| - 1], subscription, software, today)
      + [if Displaced(last, subscription, software, today) then last.(ends := Some(today)) else last]
  }

  /** `UPDATE ... SET ends_on=? WHERE software_id=? AND subscription_id=? AND <effective>` */
  function EndOne(rows: seq<Binding>, software: int, subscription: int, today: int): seq<Binding> {
    if rows == [] then []
    else
      var last := rows[|rows| - 1];
      EndOne(rows[..|rows| - 1], software, subscription, today)
      + [if last.software == software && last.subscription == subscription && Covers(last, today)
        then last.(ends := Some(today)) else last]
  }

  function StartedAt(rows: seq<Binding>, subscription: int, software: int, today: int): (at: Option<nat>)
    ensures at.Some? ==> at.value < |rows| && SameStart(rows[at.value], subscription, software, today)
    ensures at.None? ==> forall i :: 0 <= i < |rows| ==> !SameStart(rows[i], subscription, software, today)
  {
    if rows == [] then None
    else if SameStart(rows[|rows| - 1], subscription, software, today) then Some(|rows| - 1)
    else StartedAt(rows[..|rows| - 1], subscription, software, today)
  }

  /** Reopen the row that started today, or insert one. */
  function Begin(rows: seq<Binding>, subscription: int, software: int, today: int): seq<Binding> {
    var at := StartedAt(rows, subscription, software, today);
    if at.None? then rows + [Binding(subscription, software, today, None)]
    else rows[at.value := rows[at.value].(ends := None)]
  }

  function ClaimAll(rows: seq<Binding>, software: int, listed: seq<int>, today: int): seq<Binding> {
    if listed == [] then rows
    else
      var sid := listed[|listed| - 1];
      Begin(EndDisplaced(ClaimAll(rows, software, listed[..|listed| - 1], today), sid, software, today), sid,
        software, today)
  }

  function Replaced(rows: seq<Binding>, software: int, listed: seq<int>, today: int): seq<Binding> {
    ClaimAll(EndDropped(rows, software, listed, today), software, listed, today)
  }

  /** The deferred deletion of a subscription moves the end of its running rows. */
  function EndsMoved(rows: seq<Binding>, subscription: int, end: int, today: int): seq<Binding> {
    if rows == [] then []
    else
      var last := rows[|rows| - 1];
      EndsMoved(rows[..|rows| - 1], subscription, end, today)
      + [if last.subscription == subscription && (last.ends.None? || last.ends.value > today)
        then last.(ends := Some(end)) else last]
  }

  // ----- what a statement does to ownership -----

  lemma OwnsOneMore(rows: seq<Binding>, b: Binding, s: int, w: int, d: int)
    ensures Owns(rows + [b], s, w, d) <==> Owns(rows, s, w, d) || OwnedThrough(b, s, w, d)
  {
    var longer := rows + [b];
    if Owns(rows, s, w, d) {
      var i :| 0 <= i < |rows| && OwnedThrough(rows[i], s, w, d);
      assert longer[i] == rows[i];
    }
    if OwnedThrough(b, s, w, d) {
      assert longer[|rows|] == b;
    }
    if Owns(longer, s, w, d) {
      var i :| 0 <= i < |longer| && OwnedThrough(longer[i], s, w, d);
      assert i < |rows| ==> longer[i] == rows[i];
    }
  }

  lemma OwnsSplits(rows: seq<Binding>, s: int, w: int, d: int)
    requires rows != []
    ensures Owns(rows, s, w, d) <==> Owns(rows[..|rows| - 1], s, w, d) || OwnedThrough(rows[|rows| - 1], s, w, d)
  {
    assert rows == rows[..|rows| - 1] + [rows[|rows| - 1]];
    OwnsOneMore(rows[..|rows| - 1], rows[|rows| - 1], s, w, d);
  }

  /** Ending the dropped rows takes from the software, from today on, what the form does not list. */
  lemma {:induction false} DroppingEndsOwnership(rows: seq<Binding>, software: int, listed: seq<int>, today: int,
          s: int, w: int, d: int)
    requires NoFutureStarts(rows, today)
    ensures var after := EndDropped(rows, software, listed, today);
            && NoFutureStarts(after, today)
            && (Owns(after, s, w, d) <==> Owns(rows, s, w, d) && !(w == software && s !in listed && d >= today))
  {
    if rows != [] {
      var init, last, after := rows[..|rows| - 1], rows[|rows| - 1], EndDropped(rows, software, listed, today);
      DroppingEndsOwnership(init, software, listed, today, s, w, d);
      assert after[..|after| - 1] == EndDropped(init, software, listed, today);
      OwnsSplits(rows, s, w, d);
      OwnsSplits(after, s, w, d);
    }
  }

  lemma {:induction false} DisplacingEndsOwnership(rows: seq<Binding>, sub: int, software: int, today: int, s: int,
          w: int, d: int)
    requires NoFutureStarts(rows, today)
    ensures var after := EndDisplaced(rows, sub, software, today);
            && NoFutureStarts(after, today)
            && (Owns(after, s, w, d) <==> Owns(rows, s, w, d) && !(s == sub && w != software && d >= today))
  {
    if rows != [] {
      var init, last, after := rows[..|rows| - 1], rows[|rows| - 1], EndDisplaced(rows, sub, software, today);
      DisplacingEndsOwnership(init, sub, software, today, s, w, d);
      assert after[..|after| - 1] == EndDisplaced(init, sub, software, today);
      OwnsSplits(rows, s, w, d);
      OwnsSplits(after, s, w, d);
    }
  }

  lemma BeginningOwns(rows: seq<Binding>, sub: int, software: int, today: int, s: int, w: int, d: int)
    requires NoFutureStarts(rows, today)
    ensures var after := Begin(rows, sub, software, today);
            && NoFutureStarts(after, today)
            && (Owns(after, s, w, d) <==> Owns(rows, s, w, d) || (s == sub && w == software && d >= today))
  {
    var at, after := StartedAt(rows, sub, software, today), Begin(rows, sub, software, today);
    if at.None? {
      OwnsOneMore(rows, Binding(sub, software, today, None), s, w, d);
    } else {
      if Owns(rows, s, w, d) {
        var i :| 0 <= i < |rows| && OwnedThrough(rows[i], s, w, d);
        assert OwnedThrough(after[i], s, w, d);
      }
      if s == sub && w == software && d >= today {
        assert OwnedThrough(after[at.value], s, w, d);
      }
      if Owns(after, s, w, d) {
        var i :| 0 <= i < |after| && OwnedThrough(after[i], s, w, d);
        assert i != at.value ==> after[i] == rows[i];
      }
    }
  }

  /** From today on the software owns what it claims and nobody else does; everything else is as before. */
  lemma {:induction false} ClaimingOwns(rows: seq<Binding>, software: int, listed: seq<int>, today: int, s: int,
          w: int, d: int)
    requires NoFutureStarts(rows, today)
    ensures var after := ClaimAll(rows, software, listed, today);
            && NoFutureStarts(after, today)
            && (Owns(after, s, w, d) <==> if d >= today && s in listed then w == software else Owns(rows, s, w, d))
  {
    if listed != [] {
      var init, sid := listed[..|listed| - 1], listed[|listed| - 1];
      var before := ClaimAll(rows, software, init, today);
      ClaimingOwns(rows, software, init, today, s, w, d);
      DisplacingEndsOwnership(before, sid, software, today, s, w, d);
      BeginningOwns(EndDisplaced(before, sid, software, today), sid, software, today, s, w, d);
      assert s in listed <==> s in init || s == sid;
    }
  }

  /** The whole effect of a submitted form: dates before today keep their owners; from today on the
      software owns exactly what it lists, and the others what they owned and it does not list. */
  lemma FormSetsOwnership(rows: seq<Binding>, software: int, listed: seq<int>, today: int, s: int, w: int, d: int)
    requires NoFutureStarts(rows, today)
    ensures var after := Replaced(rows, software, listed, today);
            && NoFutureStarts(after, today)
            && (Owns(after, s, w, d) <==>
                if d < today then Owns(rows, s, w, d)
                else if w == software then s in listed
                else Owns(rows, s, w, d) && s !in listed)
  {
    var dropped := EndDropped(rows, software, listed, today);
    DroppingEndsOwnership(rows, software, listed, today, s, w, d);
    ClaimingOwns(dropped, software, listed, today, s, w, d);
  }

  /** Moving the end keeps the past, and lets today's owner keep the subscription until the end. */
  lemma {:induction false} MovingEndsOwnership(rows: seq<Binding>, sub: int, end: int, today: int, s: int,
          w: int, d: int)
    requires NoFutureStarts(rows, today) && today <= end
    ensures var after := EndsMoved(rows, sub, end, today);
            && NoFutureStarts(after, today)
            && (Owns(after, s, w, d) <==>
                if s != sub || d < today then Owns(rows, s, w, d) else Owns(rows, s, w, today) && d < end)
  {
    if rows != [] {
      var init, last, after := rows[..|rows| - 1], rows[|rows| - 1], EndsMoved(rows, sub, end, today);
      MovingEndsOwnership(init, sub, end, today, s, w, d);
      assert after[..|after| - 1] == EndsMoved(init, sub, end, today);
      OwnsSplits(rows, s, w, d);
      OwnsSplits(rows, s, w, today);
      OwnsSplits(after, s, w, d);
    }
  }

  // ----- the insert never breaks the unique constraint -----

  ghost predicate SameStarts(rows: seq<Binding>, after: seq<Binding>) {
    |rows| == |after| && forall i :: 0 <= i < |rows| ==>
      SameStart(after[i], rows[i].subscription, rows[i].software, rows[i].from)
  }

  lemma {:induction false} EndingKeepsStarts(rows: seq<Binding>, software: int, listed: seq<int>, sub: int, today: int)
    ensures SameStarts(rows, EndDropped(rows, software, listed, today))
    ensures SameStarts(rows, EndDisplaced(rows, sub, software, today))
  {
    if rows != [] {
      EndingKeepsStarts(rows[..|rows| - 1], software, listed, sub, today);
    }
  }

  lemma BeginningKeepsUnique(rows: seq<Binding>, sub: int, software: int, today: int)
    requires UniqueStarts(rows)
    ensures UniqueStarts(Begin(rows, sub, software, today))
  {
  }

  lemma SameStartsStayUnique(rows: seq<Binding>, after: seq<Binding>)
    requires UniqueStarts(rows) && SameStarts(rows, after)
    ensures UniqueStarts(after)
  {
    forall i, j | 0 <= i < j < |after|
      ensures !SameStart(after[i], after[j].subscription, after[j].software, after[j].from)
    {
      assert !SameStart(rows[i], rows[j].subscription, rows[j].software, rows[j].from);
    }
  }

  lemma {:induction false} ClaimingKeepsUnique(rows: seq<Binding>, software: int, listed: seq<int>, today: int)
    requires UniqueStarts(rows)
    ensures UniqueStarts(ClaimAll(rows, software, listed, today))
  {
    if listed != [] {
      var sid, before := listed[|listed| - 1], ClaimAll(rows, software, listed[..|listed| - 1], today);
      ClaimingKeepsUnique(rows, software, listed[..|listed| - 1], today);
      EndingKeepsStarts(before, software, [], sid, today);
      SameStartsStayUnique(before, EndDisplaced(before, sid, software, today));
      BeginningKeepsUnique(EndDisplaced(before, sid, software, today), sid, software, today);
    }
  }

  lemma FormKeepsUnique(rows: seq<Binding>, software: int, listed: seq<int>, today: int)
    requires UniqueStarts(rows)
    ensures UniqueStarts(Replaced(rows, software, listed, today))
  {
    EndingKeepsStarts(rows, software, listed, 0, today);
    SameStartsStayUnique(rows, EndDropped(rows, software, listed, today));
    ClaimingKeepsUnique(EndDropped(rows, software, listed, today), software, listed, today);
  }

  // ----- the finalizer forgets ended rows -----

  /** Whether a row ended before a day. */
  predicate EndedBefore(b: Binding, day: int) { b.ends.Some? && b.ends.value < day }

  /** `DELETE FROM agent_subscription_bindings WHERE ends_on IS NOT NULL AND ends_on<today` */
  function WithoutEnded(rows: seq<Binding>, today: int): seq<Binding> {
    if rows == [] then []
    else
      var rest, last := WithoutEnded(rows[..|rows| - 1], today), rows[|rows| - 1];
      if EndedBefore(last, today) then rest else rest + [last]
  }

  /** Some interval of the software covers the day and had not ended before `today`. */
  ghost predicate OwnsStill(rows: seq<Binding>, subscription: int, software: int, day: int, today: int) {
    exists i :: 0 <= i < |rows| && OwnedThrough(rows[i], subscription, software, day) && !EndedBefore(rows[i], today)
  }

  lemma OwnsStillSplits(rows: seq<Binding>, s: int, w: int, d: int, today: int)
    requires rows != []
    ensures var init, last := rows[..|rows| - 1], rows[|rows| - 1];
            OwnsStill(rows, s, w, d, today) <==>
            OwnsStill(init, s, w, d, today) || (OwnedThrough(last, s, w, d) && !EndedBefore(last, today))
  {
    var init, last := rows[..|rows| - 1], rows[|rows| - 1];
    if OwnsStill(init, s, w, d, today) {
      var i :| 0 <= i < |init| && OwnedThrough(init[i], s, w, d) && !EndedBefore(init[i], today);
      assert rows[i] == init[i];
    }
    if OwnsStill(rows, s, w, d, today) {
      var i :| 0 <= i < |rows| && OwnedThrough(rows[i], s, w, d) && !EndedBefore(rows[i], today);
      assert i < |init| ==> init[i] == rows[i];
    }
  }

  /** The finalizer drops exactly the ownership that rests on intervals ended before today; from the day
      before today on nothing changes. */
  lemma {:induction false} PruningDropsEnded(rows: seq<Binding>, today: int, s: int, w: int, d: int)
    ensures var after := WithoutEnded(rows, today);
            && (Owns(after, s, w, d) <==> OwnsStill(rows, s, w, d, today))
            && (d >= today - 1 ==> (Owns(after, s, w, d) <==> Owns(rows, s, w, d)))
  {
    if rows != [] {
      var after := WithoutEnded(rows, today);
      PruningDropsEnded(rows[..|rows| - 1], today, s, w, d);
      OwnsStillSplits(rows, s, w, d, today);
      OwnsSplits(rows, s, w, d);
      if !EndedBefore(rows[|rows| - 1], today) {
        assert after[..|after| - 1] == WithoutEnded(rows[..|rows| - 1], today);
        OwnsSplits(after, s, w, d);
      }
    }
  }

  lemma {:induction false} PruningAddsNothing(rows: seq<Binding>, today: int, b: Binding)
    ensures b in WithoutEnded(rows, today) <==> b in rows && !EndedBefore(b, today)
  {
    if rows != [] {
      PruningAddsNothing(rows[..|rows| - 1], today, b);
      assert rows == rows[..|rows| - 1] + [rows[|rows| - 1]];
    }
  }

  lemma {:induction false} PruningKeepsUnique(rows: seq<Binding>, today: int)
    requires UniqueStarts(rows)
    ensures UniqueStarts(WithoutEnded(rows, today))
  {
    if rows != [] {
      var init, last, after := rows[..|rows| - 1], rows[|rows| - 1], WithoutEnded(rows, today);
      PruningKeepsUnique(init, today);
      forall i | 0 <= i < |WithoutEnded(init, today)|
        ensures !SameStart(WithoutEnded(init, today)[i], last.subscription, last.software, last.from)
      {
        PruningAddsNothing(init, today, WithoutEnded(init, today)[i]);
        var k :| 0 <= k < |init| && init[k] == WithoutEnded(init, today)[i];
        assert rows[k] == init[k];
      }
    }
  }

  lemma {:induction false} MovingKeepsStarts(rows: seq<Binding>, subscription: int, end: int, today: int)
    ensures SameStarts(rows, EndsMoved(rows, subscription, end, today))
  {
    if rows != [] {
      MovingKeepsStarts(rows[..|rows| - 1], subscription, end, today);
    }
  }

  // ----- runs of edits -----

  datatype Edit =
    | Submitted(software: int, listed: seq<int>, today: int)
    | Deferred(subscription: int, end: int, today: int)
    | Pruned(today: int)

  function Apply(rows: seq<Binding>, e: Edit): seq<Binding> {
    match e
    case Submitted(software, listed, today) => Replaced(rows, software, listed, today)
    case Deferred(subscription, end, today) => EndsMoved(rows, subscription, end, today)
    case Pruned(today) => WithoutEnded(rows, today)
  }

  function ApplyAll(rows: seq<Binding>, edits: seq<Edit>): seq<Binding>
    decreases |edits|
  {
    if edits == [] then rows else ApplyAll(Apply(rows, edits[0]), edits[1..])
  }

  /** No deletion ends before its own day. */
  predicate Dated(e: Edit) {
    e.Deferred? ==> e.today <= e.end
  }

  /** Each edit is made no earlier than the one before. */
  ghost predicate Timely(since: int, edits: seq<Edit>)
    decreases |edits|
  {
    edits == [] || (since <= edits[0].today && Dated(edits[0]) && Timely(edits[0].today, edits[1..]))
  }

  /** At most one software owns a subscription on a date. */
  ghost predicate OneOwner(rows: seq<Binding>) {
    forall s, v, w, d :: Owns(rows, s, v, d) && Owns(rows, s, w, d) ==> v == w
  }

  /** Who owns what on every date after an edit. */
  lemma OwnershipAfter(rows: seq<Binding>, e: Edit, s: int, w: int, d: int)
    requires NoFutureStarts(rows, e.today) && Dated(e)
    ensures Owns(Apply(rows, e), s, w, d) <==>
            match e
            case Submitted(software, listed, today) =>
              if d < today then Owns(rows, s, w, d)
              else if w == software then s in listed
              else Owns(rows, s, w, d) && s !in listed
            case Deferred(subscription, end, today) =>
              if s != subscription || d < today then Owns(rows, s, w, d) else Owns(rows, s, w, today) && d < end
            case Pruned(today) => OwnsStill(rows, s, w, d, today)
    ensures e.Pruned? && d >= e.today - 1 ==> (Owns(Apply(rows, e), s, w, d) <==> Owns(rows, s, w, d))
    ensures d < e.today && Owns(Apply(rows, e), s, w, d) ==> Owns(rows, s, w, d)
  {
    match e
    case Submitted(software, listed, today) => FormSetsOwnership(rows, software, listed, today, s, w, d);
    case Deferred(subscription, end, today) => MovingEndsOwnership(rows, subscription, end, today, s, w, d);
    case Pruned(today) => PruningDropsEnded(rows, today, s, w, d);
  }

  lemma EditKeepsStarts(rows: seq<Binding>, e: Edit)
    requires NoFutureStarts(rows, e.today) && Dated(e)
    ensures NoFutureStarts(Apply(rows, e), e.today)
  {
    match e
    case Submitted(software, listed, today) => FormSetsOwnership(rows, software, listed, today, 0, 0, 0);
    case Deferred(subscription, end, today) => MovingEndsOwnership(rows, subscription, end, today, 0, 0, 0);
    case Pruned(today) =>
      forall i | 0 <= i < |WithoutEnded(rows, today)| ensures WithoutEnded(rows, today)[i].from <= today {
        PruningAddsNothing(rows, today, WithoutEnded(rows, today)[i]);
      }
  }

  lemma EditKeepsUnique(rows: seq<Binding>, e: Edit)
    requires UniqueStarts(rows)
    ensures UniqueStarts(Apply(rows, e))
  {
    match e
    case Submitted(software, listed, today) => FormKeepsUnique(rows, software, listed, today);
    case Deferred(subscription, end, today) =>
      MovingKeepsStarts(rows, subscription, end, today);
      SameStartsStayUnique(rows, EndsMoved(rows, subscription, end, today));
    case Pruned(today) => PruningKeepsUnique(rows, today);
  }

  lemma EditKeepsOneOwner(rows: seq<Binding>, e: Edit)
    requires OneOwner(rows) && NoFutureStarts(rows, e.today) && Dated(e)
    ensures OneOwner(Apply(rows, e))
  {
    forall s, v, w, d | Owns(Apply(rows, e), s, v, d) && Owns(Apply(rows, e), s, w, d) ensures v == w {
      OwnershipAfter(rows, e, s, v, d);
      OwnershipAfter(rows, e, s, w, d);
      if e.Pruned? {
        StillOwns(rows, s, v, d, e.today);
        StillOwns(rows, s, w, d, e.today);
      }
    }
  }

  lemma StillOwns(rows: seq<Binding>, s: int, w: int, d: int, today: int)
    ensures OwnsStill(rows, s, w, d, today) ==> Owns(rows, s, w, d)
  {
  }

  /** Over any timely run of forms, deferred deletions and finalizer passes at most one software owns a
      subscription on every date and no start is recorded twice. The dates before the run are never given
      to another owner; without a finalizer pass they keep theirs. */
  lemma {:induction false} RunsKeepOneOwner(rows: seq<Binding>, since: int, edits: seq<Edit>)
    requires OneOwner(rows) && UniqueStarts(rows) && NoFutureStarts(rows, since) && Timely(since, edits)
    ensures OneOwner(ApplyAll(rows, edits)) && UniqueStarts(ApplyAll(rows, edits))
    ensures forall s, w, d :: d < since && Owns(ApplyAll(rows, edits), s, w, d) ==> Owns(rows, s, w, d)
    ensures (forall i :: 0 <= i < |edits| ==> !edits[i].Pruned?) ==>
              forall s, w, d :: d < since ==> (Owns(ApplyAll(rows, edits), s, w, d) <==> Owns(rows, s, w, d))
    decreases |edits|
  {
    if edits != [] {
      var e := edits[0];
      EditKeepsOneOwner(rows, e);
      EditKeepsStarts(rows, e);
      EditKeepsUnique(rows, e);
      RunsKeepOneOwner(Apply(rows, e), e.today, edits[1..]);
      forall s, w, d | d < since
        ensures Owns(ApplyAll(rows, edits), s, w, d) ==> Owns(rows, s, w, d)
        ensures (forall i :: 0 <= i < |edits| ==> !edits[i].Pruned?) ==>
                  (Owns(ApplyAll(rows, edits), s, w, d) <==> Owns(rows, s, w, d))
      {
        OwnershipAfter(rows, e, s, w, d);
      }
    }
  }

  /** What a form ends today stays known through passes of the same day; the first pass of a later day
      forgets it, with the whole past of the software. */
  lemma EndedTodayIsForgotten(rows: seq<Binding>, subscription: int, software: int, from: int, today: int,
          later: int, d: int)
    requires from <= d < today < later
    requires rows == [Binding(subscription, software, from, None)]
    ensures var after := Replaced(rows, software, [], today);
            && Owns(rows, subscription, software, d) && Owns(after, subscription, software, d)
            && Owns(WithoutEnded(after, today), subscription, software, d)
            && !Owns(WithoutEnded(after, later), subscription, software, d)
  {
    var after := Replaced(rows, software, [], today);
    var b := Binding(subscription, software, from, None);
    assert rows[..0] == [] && Dropped(b, software, [], today);
    assert EndDropped(rows, software, [], today) == EndDropped([], software, [], today) + [b.(ends := Some(today))];
    assert after == [b.(ends := Some(today))];
    assert after[..0] == [] && OwnedThrough(rows[0], subscription, software, d)
      && OwnedThrough(after[0], subscription, software, d);
    assert !EndedBefore(after[0], today) && EndedBefore(after[0], later);
    assert WithoutEnded(after, today) == WithoutEnded([], today) + [after[0]];
    assert WithoutEnded(after, later) == WithoutEnded([], later);
  }

  // ----- forms while a deferred deletion runs -----

  /** The software a form of the run leaves with the subscription, if one does. */
  function LastClaim(claim: Option<int>, edits: seq<Edit>, subscription: int): Option<int> {
    if edits == [] then claim
    else
      var before := LastClaim(claim, edits[..|edits| - 1], subscription);
      match edits[|edits| - 1]
      case Submitted(software, listed, _) =>
        if subscription in listed then Some(software)
        else if before == Some(software) then None
        else before
      case Deferred(_, _, _) => before
      case Pruned(_) => before
  }

  ghost predicate OwnedByClaim(rows: seq<Binding>, subscription: int, claim: Option<int>, d: int) {
    forall w :: Owns(rows, subscription, w, d) <==> claim == Some(w)
  }

  lemma ClaimAfter(rows: seq<Binding>, e: Edit, subscription: int, claim: Option<int>, d: int)
    requires NoFutureStarts(rows, e.today) && Dated(e) && e.today <= d
    requires !(e.Deferred? && e.subscription == subscription)
    requires OwnedByClaim(rows, subscription, claim, d)
    ensures OwnedByClaim(Apply(rows, e), subscription, LastClaim(claim, [e], subscription), d)
  {
    assert [e][..0] == [];
    forall w
      ensures Owns(Apply(rows, e), subscription, w, d) <==> LastClaim(claim, [e], subscription) == Some(w)
    {
      OwnershipAfter(rows, e, subscription, w, d);
      assert Owns(rows, subscription, w, d) <==> claim == Some(w);
    }
  }

  lemma {:induction false} ClaimsCompose(claim: Option<int>, e: Edit, rest: seq<Edit>, subscription: int)
    ensures LastClaim(claim, [e] + rest, subscription) ==
            LastClaim(LastClaim(claim, [e], subscription), rest, subscription)
  {
    if rest == [] {
      assert [e] + rest == [e];
    } else {
      ClaimsCompose(claim, e, rest[..|rest| - 1], subscription);
      assert ([e] + rest)[..|rest|] == [e] + rest[..|rest| - 1];
    }
  }

  lemma {:induction false} ClaimsDecide(rows: seq<Binding>, since: int, edits: seq<Edit>, subscription: int,
          claim: Option<int>, d: int)
    requires NoFutureStarts(rows, since) && Timely(since, edits)
    requires forall i :: 0 <= i < |edits| ==>
               edits[i].today <= d && !(edits[i].Deferred? && edits[i].subscription == subscription)
    requires OwnedByClaim(rows, subscription, claim, d)
    ensures OwnedByClaim(ApplyAll(rows, edits), subscription, LastClaim(claim, edits, subscription), d)
    decreases |edits|
  {
    if edits != [] {
      var e := edits[0];
      ClaimAfter(rows, e, subscription, claim, d);
      EditKeepsStarts(rows, e);
      ClaimsDecide(Apply(rows, e), e.today, edits[1..], subscription, LastClaim(claim, [e], subscription), d);
      ClaimsCompose(claim, e, edits[1..], subscription);
      assert [e] + edits[1..] == edits;
    }
  }

  /** A deferred deletion leaves nobody the subscription from its end on, and what the later forms say of it
      alone decides who owns it then: a software does exactly when it claimed it last and has not dropped it. */
  lemma FormsOutliveDeletion(rows: seq<Binding>, subscription: int, end: int, today: int, edits: seq<Edit>, w: int,
          d: int)
    requires NoFutureStarts(rows, today) && today <= end <= d && Timely(today, edits)
    requires forall i :: 0 <= i < |edits| ==>
               edits[i].today <= d && !(edits[i].Deferred? && edits[i].subscription == subscription)
    ensures var after := ApplyAll(EndsMoved(rows, subscription, end, today), edits);
            Owns(after, subscription, w, d) <==> LastClaim(None, edits, subscription) == Some(w)
  {
    var moved := EndsMoved(rows, subscription, end, today);
    forall v
      ensures !Owns(moved, subscription, v, d)
    {
      MovingEndsOwnership(rows, subscription, end, today, subscription, v, d);
    }
    EditKeepsStarts(rows, Deferred(subscription, end, today));
    ClaimsDecide(moved, today, edits, subscription, None, d);
  }

  /** A form of any day before the end may still list the subscription, and its software then owns it past
      the end; from the end on a form is refused. */
  lemma FormBeforeTheEndIsAccepted(rows: seq<Binding>, subscriptions: map<int, Option<int>>, subscription: int,
          end: int, today: int, software: int, later: int, d: int)
    requires NoFutureStarts(rows, today) && today <= later && today <= end && end <= d && later <= d
    requires subscription in subscriptions && subscriptions[subscription] == Some(end)
    ensures Live(subscriptions, subscription, later) <==> later < end
    ensures Owns(Replaced(EndsMoved(rows, subscription, end, today), software, [subscription], later), subscription,
              software, d)
  {
    var e := Submitted(software, [subscription], later);
    assert [e][..0] == [] && [e][1..] == [];
    FormsOutliveDeletion(rows, subscription, end, today, [e], software, d);
  }

  // ----- the operation -----

  predicate Live(subscriptions: map<int, Option<int>>, sid: int, today: int) {
    sid in subscriptions && (subscriptions[sid].None? || subscriptions[sid].value > today)
  }

  /** The effective rows of the software end today for the subscriptions in `ended`. */
  predicate RowEnded(before: Binding, after: Binding, software: int, ended: set<int>, today: int) {
    after == if before.software == software && before.subscription in ended && Covers(before, today)
             then before.(ends := Some(today)) else before
  }

  ghost predicate RowsEnded(before: seq<Binding>, after: seq<Binding>, software: int, ended: set<int>, today: int) {
    |before| == |after| && forall i :: 0 <= i < |before| ==> RowEnded(before[i], after[i], software, ended, today)
  }

  lemma {:induction false} EndOneEnds(before: seq<Binding>, rows: seq<Binding>, software: int, ended: set<int>,
          sub: int, today: int)
    requires RowsEnded(before, rows, software, ended, today)
    ensures RowsEnded(before, EndOne(rows, software, sub, today), software, ended + {sub}, today)
  {
    if before != [] {
      var n := |before| - 1;
      EndOneEnds(before[..n], rows[..n], software, ended, sub, today);
      assert RowEnded(before[n], rows[n], software, ended, today);
    }
  }

  /** Ending every effective subscription the form does not list is ending the dropped rows. */
  lemma {:induction false} AllEndedIsDropped(before: seq<Binding>, rows: seq<Binding>, software: int, ended: set<int>,
          listed: seq<int>, today: int)
    requires RowsEnded(before, rows, software, ended, today)
    requires forall i :: 0 <= i < |before| && before[i].software == software && Covers(before[i], today) ==>
               (before[i].subscription in ended <==> before[i].subscription !in listed)
    ensures rows == EndDropped(before, software, listed, today)
  {
    if before != [] {
      var n := |before| - 1;
      AllEndedIsDropped(before[..n], rows[..n], software, ended, listed, today);
      assert RowEnded(before[n], rows[n], software, ended, today);
      assert rows == rows[..n] + [rows[n]];
    }
  }

  class BindingTable {
    var rows: seq<Binding>
    var subscriptions: map<int, Option<int>>

    /** `_replace_bindings`; None among the ids is a value that is no integer. */
    method ReplaceBindings(software: int, ids: seq<Option<int>>, today: int) returns (result: Result<seq<int>>)
      modifies this`rows
      ensures result.Ok? <==> forall i :: 0 <= i < |ids| ==> ids[i].Some? && Live(subscriptions, ids[i].value, today)
      ensures result.Ok? ==>
                (forall sid :: sid in result.value <==> Some(sid) in ids)
                && rows == Replaced(old(rows), software, result.value, today)
      ensures result.Err? ==> rows == old(rows)
    {
      var cleaned := [];
      for i := 0 to |ids|
        invariant forall k :: 0 <= k < i ==> ids[k].Some?
        invariant forall sid :: sid in cleaned <==> Some(sid) in ids[..i]
      {
        if ids[i].None? {
          return Err("the subscription id is invalid");
        }
        if ids[i].value !in cleaned {
          cleaned := cleaned + [ids[i].value];
        }
      }
      assert ids[..|ids|] == ids;
      assert forall sid :: sid in cleaned <==> Some(sid) in ids;
      if exists sid :: sid in cleaned && !Live(subscriptions, sid, today) {
        return Err("the subscription does not exist or is ending");
      }
      forall i | 0 <= i < |ids| ensures ids[i].value in cleaned {
        assert ids[i] in ids && ids[i] == Some(ids[i].value);
      }
      EndMissing(software, cleaned, today);
      for i := 0 to |cleaned|
        invariant rows == ClaimAll(EndDropped(old(rows), software, cleaned, today), software, cleaned[..i], today)
      {
        assert cleaned[..i + 1][..i] == cleaned[..i];
        rows := EndDisplaced(rows, cleaned[i], software, today);
        rows := Begin(rows, cleaned[i], software, today);
      }
      assert cleaned[..|cleaned|] == cleaned;
      return Ok(cleaned);
    }

    /** The loop over `set(existing) - set(cleaned)`, in any order. */
    method EndMissing(software: int, cleaned: seq<int>, today: int)
      modifies this`rows
      ensures rows == EndDropped(old(rows), software, cleaned, today)
    {
      var existing := set i | 0 <= i < |rows| && rows[i].software == software
        && Covers(rows[i], today) :: rows[i].subscription;
      var missing := existing - (set sid | sid in cleaned);
      var todo := missing;
      while todo != {}
        invariant todo <= missing && RowsEnded(old(rows), rows, software, missing - todo, today)
        decreases |todo|
      {
        var sid :| sid in todo;
        EndOneEnds(old(rows), rows, software, missing - todo, sid, today);
        assert missing - (todo - {sid}) == missing - todo + {sid};
        rows := EndOne(rows, software, sid, today);
        todo := todo - {sid};
      }
      assert missing - todo == missing;
      AllEndedIsDropped(old(rows), rows, software, missing, cleaned, today);
    }
  }
}
