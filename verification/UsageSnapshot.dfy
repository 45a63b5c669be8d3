/** The upstream-usage snapshot of one credential: how each poll outcome rewrites it, and what the
    stored snapshot says about the whole history of polls. */
module UsageSnapshot {
  import opened Prelude

  /** Instants here are epoch seconds; an upstream reset stamp is finer and counted in microseconds. */
  const MICROS := 1_000_000

  /** `format_utc` drops the fraction of a second. */
  function FormatUtc(micros: int): int { micros / MICROS }

  datatype Monthly = Monthly(start: Option<int>, end: Option<int>)

  /** The "subscription" entry of a payload: no such key, a verdict, or anything else. */
  datatype Verdict = Absent | Active | Inactive | Unrecognized

  /** A stored window, as parsed from the response body. */
  datatype Window = Window(percent: int, resetsAt: Option<int>)

  /** A stored payload, or no payload at all. `windows` maps the stored window names. */
  datatype Snapshot = Missing | Stored(
    checkedAt: Option<int>,
    error: Option<string>,
    errorAt: Option<int>,
    subscription: Verdict,
    resumedAt: Option<int>,
    windows: map<string, Window>,
    monthly: Option<Monthly>)

  /** What one query came back with. `Http` is any status but 200, with whether its body names the
      entitlement error; `Unusable` is a 200 whose body is no JSON, lacks "usage" or lacks a window. */
  datatype Reply =
    | NetworkError
    | Http(status: nat, entitlementBody: bool)
    | Unusable(message: string)
    | Complete(windows: map<string, Window>, resets: Option<int>)

  datatype Outcome = Outcome(at: int, reply: Reply)

  // ----- one poll -----

  function Digit(n: nat): char
    requires n < 10
  {
    "0123456789"[n]
  }

  /** `f"HTTP {status}"`: a status code has three digits. */
  function HttpMessage(status: nat): string
    requires 100 <= status < 1000
  {
    "HTTP " + [Digit(status / 100), Digit(status / 10 % 10), Digit(status % 10)]
  }

  predicate WellFormedReply(reply: Reply) {
    (reply.Http? ==> 100 <= reply.status < 1000 && reply.status != 200)
    && (reply.Unusable? ==> reply.message != "" && !("HTTP 403" <= reply.message))
  }

  /** `_entitlement_lapse` */
  predicate EntitlementLapse(reply: Reply) {
    reply.Http? && reply.status == 403 && reply.entitlementBody
  }

  function Message(reply: Reply): string
    requires WellFormedReply(reply) && !reply.Complete?
  {
    match reply
    case NetworkError => "network error"
    case Http(status, _) => HttpMessage(status)
    case Unusable(message) => message
  }

  /** `_prior_subscription`: a payload without the key but with an "HTTP 403" error counts as lapsed. */
  function PriorSubscription(prior: Snapshot): Option<Verdict> {
    match prior
    case Missing => None
    case Stored(_, error, _, subscription, _, _, _) =>
      match subscription
      case Active => Some(Active)
      case Inactive => Some(Inactive)
      case Absent => if error.Some? && "HTTP 403" <= error.value then Some(Inactive) else None
      case Unrecognized => None
  }

  /** `advance_monthly_period` */
  function AdvanceMonthlyPeriod(prior: Option<Monthly>, moment: int, resets: Option<int>): Option<Monthly> {
    var priorStart := if prior.Some? then prior.value.start else None;
    var priorEnd := if prior.Some? then prior.value.end else None;
    if priorStart.None? then
      if resets.None? then None else Some(Monthly(Some(moment), Some(FormatUtc(resets.value))))
    else
      var start := if priorEnd.Some? && moment >= priorEnd.value then priorEnd.value else priorStart.value;
      var end := if resets.Some? && resets.value > start * MICROS then Some(FormatUtc(resets.value)) else priorEnd;
      Some(Monthly(Some(start), end))
  }

  /** `_failure` */
  function Failure(prior: Snapshot, message: string, lapse: bool, at: int): Snapshot {
    var subscription := if lapse then Some(Inactive) else PriorSubscription(prior);
    Stored(
      if prior.Stored? then prior.checkedAt else None,
      Some(message), Some(at),
      if subscription.Some? then subscription.value else Absent,
      if prior.Stored? then prior.resumedAt else None,
      if prior.Stored? then prior.windows else map[],
      if prior.Stored? then prior.monthly else None)
  }

  /** `_query_usage` */
  function Poll(prior: Snapshot, outcome: Outcome): Snapshot
    requires WellFormedReply(outcome.reply)
  {
    if !outcome.reply.Complete? then
      Failure(prior, Message(outcome.reply), EntitlementLapse(outcome.reply), outcome.at)
    else
      var resumedAt :=
        if PriorSubscription(prior) == Some(Inactive) then Some(outcome.at)
        else if prior.Stored? then prior.resumedAt else None;
      Stored(Some(outcome.at), None, None, Active, resumedAt, outcome.reply.windows,
             AdvanceMonthlyPeriod(if prior.Stored? then prior.monthly else None, outcome.at, outcome.reply.resets))
  }

  lemma ForbiddenMessage(status: nat)
    requires 100 <= status < 1000
    ensures "HTTP 403" <= HttpMessage(status) <==> status == 403
  {
    var m := HttpMessage(status);
    assert "HTTP 403"[5] == '4' && "HTTP 403"[6] == '0' && "HTTP 403"[7] == '3';
    assert |m| == 8 && m[5] == Digit(status / 100) && m[6] == Digit(status / 10 % 10) && m[7] == Digit(status % 10);
    if status == 403 {
      assert m == "HTTP 403";
    }
    if "HTTP 403" <= m {
      assert m[5] == '4' && m[6] == '0' && m[7] == '3';
    }
  }

  lemma ForbiddenReply(reply: Reply)
    requires WellFormedReply(reply) && !reply.Complete?
    ensures "HTTP 403" <= Message(reply) <==> reply.Http? && reply.status == 403
  {
    if reply.Http? {
      ForbiddenMessage(reply.status);
    } else if reply.NetworkError? {
      assert "network error"[0] != "HTTP 403"[0];
    }
  }

  /** From any stored payload, legacy ones included, a poll changes the verdict that the next poll reads
      only by a success, by an entitlement refusal, or by a bare 403 where there was no verdict. */
  lemma VerdictStep(prior: Snapshot, outcome: Outcome)
    requires WellFormedReply(outcome.reply)
    ensures PriorSubscription(Poll(prior, outcome)) ==
            if outcome.reply.Complete? then Some(Active)
            else if outcome.reply == Http(403, true) then Some(Inactive)
            else if outcome.reply == Http(403, false) && PriorSubscription(prior).None? then Some(Inactive)
            else PriorSubscription(prior)
  {
    if !outcome.reply.Complete? {
      ForbiddenReply(outcome.reply);
    }
  }

  // ----- a whole history of polls -----

  ghost predicate WellFormed(history: seq<Outcome>) {
    forall i :: 0 <= i < |history| ==> WellFormedReply(history[i].reply)
  }

  /** The snapshot after a history of polls of a credential that had none. */
  function After(history: seq<Outcome>): Snapshot
    requires WellFormed(history)
  {
    if history == [] then Missing else Poll(After(history[..|history| - 1]), history[|history| - 1])
  }

  /** The index of the last poll that satisfies the test, or -1. */
  function LastSuccess(history: seq<Outcome>): (i: int)
    ensures -1 <= i < |history|
    ensures i >= 0 ==> history[i].reply.Complete?
    ensures forall j :: i < j < |history| ==> !history[j].reply.Complete?
  {
    if history == [] then -1
    else if history[|history| - 1].reply.Complete? then |history| - 1
    else LastSuccess(history[..|history| - 1])
  }

  ghost predicate LapsedAt(history: seq<Outcome>, i: int) {
    0 <= i < |history| && history[i].reply == Http(403, true)
  }

  ghost predicate ForbiddenAt(history: seq<Outcome>, i: int) {
    0 <= i < |history| && history[i].reply == Http(403, false)
  }

  /** An entitlement refusal that no later success has cleared. */
  ghost predicate Lapsed(history: seq<Outcome>) {
    exists i :: LastSuccess(history) < i && LapsedAt(history, i)
  }

  /** A credential that never had a success, and was once refused by a bare 403. */
  ghost predicate OnlyForbidden(history: seq<Outcome>) {
    LastSuccess(history) == -1 && exists i :: ForbiddenAt(history, i)
  }

  lemma LastOf(history: seq<Outcome>)
    requires history != []
    ensures var init, last := history[..|history| - 1], |history| - 1;
            (Lapsed(history) <==> (history[last].reply == Http(403, true)
              || (!history[last].reply.Complete? && Lapsed(init))))
            && (OnlyForbidden(history) <==> (LastSuccess(init) == -1 && !history[last].reply.Complete?
                                             && (history[last].reply == Http(403, false) || OnlyForbidden(init))))
  {
    var init, last := history[..|history| - 1], |history| - 1;
    forall i
      ensures LapsedAt(history, i) <==> LapsedAt(init, i) || (i == last && history[last].reply == Http(403, true))
      ensures ForbiddenAt(history, i) <==>
              ForbiddenAt(init, i) || (i == last && history[last].reply == Http(403, false))
    {
    }
    if history[last].reply == Http(403, true) {
      assert LapsedAt(history, last);
    }
    if history[last].reply == Http(403, false) {
      assert ForbiddenAt(history, last);
    }
    if !history[last].reply.Complete? && Lapsed(init) {
      var i :| LastSuccess(init) < i && LapsedAt(init, i);
      assert LapsedAt(history, i);
    }
    if OnlyForbidden(init) && !history[last].reply.Complete? {
      var i :| ForbiddenAt(init, i);
      assert ForbiddenAt(history, i);
    }
  }

  /** The verdict the next poll will read is exactly: lapsed after an uncleared entitlement refusal,
      or after a bare 403 when no poll ever succeeded; active after a success otherwise. */
  lemma {:induction false} VerdictIsHistory(history: seq<Outcome>)
    requires WellFormed(history)
    ensures PriorSubscription(After(history)) ==
            if Lapsed(history) || OnlyForbidden(history) then Some(Inactive)
            else if LastSuccess(history) >= 0 then Some(Active)
            else None
  {
    if history != [] {
      var init, last := history[..|history| - 1], history[|history| - 1];
      VerdictIsHistory(init);
      LastOf(history);
      VerdictStep(After(init), last);
    }
  }

  /** The verdict stored in the payload lags by one poll: it is lapsed only by an uncleared
      entitlement refusal, or when a bare 403 was already the fate of an earlier poll. */
  lemma StoredVerdictIsHistory(history: seq<Outcome>)
    requires WellFormed(history) && history != []
    ensures After(history).subscription.Inactive? <==>
            Lapsed(history) || (!history[|history| - 1].reply.Complete? && OnlyForbidden(history[..|history| - 1]))
  {
    VerdictIsHistory(history[..|history| - 1]);
    LastOf(history);
  }

  /** The documented rule, that only an entitlement refusal makes the verdict lapsed, holds of a
      history exactly when no bare 403 came to a credential that never had a success. */
  lemma OnlyEntitlementLapsesIff(history: seq<Outcome>)
    requires WellFormed(history)
    ensures (PriorSubscription(After(history)) == Some(Inactive) <==> Lapsed(history))
            <==> !OnlyForbidden(history) || Lapsed(history)
  {
    VerdictIsHistory(history);
  }

  /** A bare 403 and then a time-out make an unseen credential lapsed without any entitlement error. */
  lemma BareForbiddenLapses(at: int, later: int)
    ensures var history := [Outcome(at, Http(403, false)), Outcome(later, NetworkError)];
            WellFormed(history) && !Lapsed(history)
            && After(history).subscription == Inactive && After(history).errorAt == Some(later)
  {
    var first, second := Outcome(at, Http(403, false)), Outcome(later, NetworkError);
    var history := [first, second];
    assert history[..1] == [first] && [first][..0] == [];
    StoredVerdictIsHistory(history);
    assert LastSuccess([first]) == -1 && ForbiddenAt([first], 0);
    forall i
      ensures !LapsedAt(history, i)
    {
    }
  }

  // ----- the observation, the resume stamp and the windows -----

  lemma {:induction false} ObservationIsLastSuccess(history: seq<Outcome>)
    requires WellFormed(history)
    ensures var i, s := LastSuccess(history), After(history);
            if i == -1 then s.Missing? || (s.checkedAt == None && s.windows == map[] && s.monthly == None)
            else s.Stored? && s.checkedAt == Some(history[i].at) && s.windows == history[i].reply.windows
  {
    if history != [] {
      ObservationIsLastSuccess(history[..|history| - 1]);
    }
  }

  /** The error fields are those of the last poll, and absent exactly after a success. */
  lemma ErrorIsLastPoll(history: seq<Outcome>)
    requires WellFormed(history) && history != []
    ensures var last, s := history[|history| - 1], After(history);
            s.Stored? && (s.error.None? <==> last.reply.Complete?)
              && (s.errorAt == if last.reply.Complete? then None else Some(last.at))
  {
  }

  /** Poll `i` is a success that found the verdict lapsed. */
  ghost predicate ResumesAt(history: seq<Outcome>, i: int)
    requires WellFormed(history)
  {
    0 <= i < |history| && history[i].reply.Complete? && (Lapsed(history[..i]) || OnlyForbidden(history[..i]))
  }

  ghost predicate LastResume(history: seq<Outcome>, i: int)
    requires WellFormed(history)
  {
    ResumesAt(history, i) && forall j :: i < j < |history| ==> !ResumesAt(history, j)
  }

  ghost predicate StampedBy(history: seq<Outcome>, at: int)
    requires WellFormed(history)
  {
    exists i :: LastResume(history, i) && at == history[i].at
  }

  /** `resumed_at` is the moment of the latest success that found the verdict lapsed. */
  lemma {:induction false} ResumeStampIsHistory(history: seq<Outcome>)
    requires WellFormed(history)
    ensures var s := After(history);
            if s.Stored? && s.resumedAt.Some? then StampedBy(history, s.resumedAt.value)
            else forall i :: !ResumesAt(history, i)
  {
    if history != [] {
      var init, last := history[..|history| - 1], |history| - 1;
      ResumeStampIsHistory(init);
      VerdictIsHistory(init);
      forall i | i != last
        ensures ResumesAt(history, i) <==> ResumesAt(init, i)
      {
        EarlierResume(history, i);
      }
      var stamp := After(history).resumedAt;
      if ResumesAt(history, last) {
        assert LastResume(history, last) && stamp == Some(history[last].at);
      } else if stamp.Some? {
        var i :| LastResume(init, i) && stamp.value == init[i].at;
        assert LastResume(history, i);
      }
    }
  }

  lemma EarlierResume(history: seq<Outcome>, i: int)
    requires WellFormed(history) && history != [] && i != |history| - 1
    ensures ResumesAt(history, i) <==> ResumesAt(history[..|history| - 1], i)
  {
    if 0 <= i < |history| - 1 {
      assert history[..i] == history[..|history| - 1][..i];
    }
  }

  // ----- the monthly chain -----

  ghost predicate Forward(m: Option<Monthly>) {
    m.Some? ==> m.value.start.Some? && (m.value.end.Some? ==> m.value.start.value <= m.value.end.value)
  }

  /** One observation keeps the chain forward; its new start is the previous start or the previous
      end; and only a first observation at or after its own reset could break it. */
  lemma ChainStepsForward(prior: Option<Monthly>, moment: int, resets: Option<int>)
    requires Forward(prior)
    ensures var next := AdvanceMonthlyPeriod(prior, moment, resets);
            (Forward(next) <==> prior.Some? || resets.None? || moment <= FormatUtc(resets.value))
            && (prior.Some? ==>
                 next.Some? && next.value.start.value >= prior.value.start.value
                 && (next.value.start ==
                     if prior.value.end.Some? && prior.value.end.value <= moment then prior.value.end
                     else prior.value.start))
  {
  }

  /** Where the next period starts once there is a chain: at the previous end when it has come. */
  function ChainStart(start: int, end: Option<int>, moment: int): int {
    if end.Some? && moment >= end.value then end.value else start
  }

  predicate HasNoLength(m: Option<Monthly>) {
    m.Some? && m.value.start.Some? && m.value.start == m.value.end
  }

  /** A chain holds a period of no length exactly when: a first observation lies in the second of the
      reset it reports; or a reset past the new start lies inside the start's second; or no reset past
      the new start is reported and the new start is the previous end. */
  lemma ZeroLengthIff(prior: Option<Monthly>, moment: int, resets: Option<int>)
    ensures HasNoLength(AdvanceMonthlyPeriod(prior, moment, resets)) <==>
            if prior.None? || prior.value.start.None? then resets.Some? && FormatUtc(resets.value) == moment
            else
              var start := ChainStart(prior.value.start.value, prior.value.end, moment);
              if resets.Some? && resets.value > start * MICROS then resets.value < (start + 1) * MICROS
              else prior.value.end == Some(start)
  {
  }

  /** An input for each of the three: a first observation, a reset a fraction past the reached end, and a
      reached end without any reset. */
  lemma ZeroLengthPeriods(start: int, end: int, moment: int, fraction: int)
    requires start < end <= moment && 0 < fraction < MICROS
    ensures AdvanceMonthlyPeriod(None, moment, Some(moment * MICROS + fraction)) ==
            Some(Monthly(Some(moment), Some(moment)))
    ensures var prior := Some(Monthly(Some(start), Some(end)));
            AdvanceMonthlyPeriod(prior, moment, Some(end * MICROS + fraction))
            == AdvanceMonthlyPeriod(prior, moment, None) == Some(Monthly(Some(end), Some(end)))
  {
  }

  /** The first success that reports a reset did not report one in its own past. */
  ghost predicate FirstResetAhead(history: seq<Outcome>) {
    forall i :: 0 <= i < |history| && FirstReset(history, i) ==>
      history[i].at <= FormatUtc(history[i].reply.resets.value)
  }

  ghost predicate FirstReset(history: seq<Outcome>, i: int)
    requires 0 <= i < |history|
  {
    ReportsReset(history[i]) && forall j :: 0 <= j < i ==> !ReportsReset(history[j])
  }

  predicate ReportsReset(outcome: Outcome) {
    outcome.reply.Complete? && outcome.reply.resets.Some?
  }

  function MonthlyOf(s: Snapshot): Option<Monthly> {
    if s.Stored? then s.monthly else None
  }

  lemma {:induction false} ChainStartsWithReset(history: seq<Outcome>)
    requires WellFormed(history)
    ensures MonthlyOf(After(history)).Some? ==> MonthlyOf(After(history)).value.start.Some?
    ensures MonthlyOf(After(history)).None? <==> forall j :: 0 <= j < |history| ==> !ReportsReset(history[j])
  {
    if history != [] {
      var init := history[..|history| - 1];
      ChainStartsWithReset(init);
      assert forall j :: 0 <= j < |init| ==> init[j] == history[j];
    }
  }

  /** Over any history whose first reported reset was not past, the chain never runs backwards. */
  lemma {:induction false} ChainStaysForward(history: seq<Outcome>)
    requires WellFormed(history) && FirstResetAhead(history)
    ensures Forward(MonthlyOf(After(history)))
  {
    if history != [] {
      var init, last := history[..|history| - 1], history[|history| - 1];
      EarlierResetsAhead(history);
      ChainStaysForward(init);
      ChainStartsWithReset(init);
      if last.reply.Complete? {
        var prior := MonthlyOf(After(init));
        ChainStepsForward(prior, last.at, last.reply.resets);
        if prior.None? && last.reply.resets.Some? {
          assert forall j :: 0 <= j < |init| ==> !ReportsReset(init[j]) && init[j] == history[j];
          assert FirstReset(history, |init|);
        }
      }
    }
  }

  lemma EarlierResetsAhead(history: seq<Outcome>)
    requires WellFormed(history) && FirstResetAhead(history) && history != []
    ensures FirstResetAhead(history[..|history| - 1])
  {
    var init := history[..|history| - 1];
    forall i | 0 <= i < |init| && FirstReset(init, i)
      ensures init[i].at <= FormatUtc(init[i].reply.resets.value)
    {
      assert forall j :: 0 <= j < i ==> init[j] == history[j];
      assert FirstReset(history, i);
    }
  }

  // ----- what the chain's boundaries are -----

  /** Some success reported a reset in the second `t`. */
  ghost predicate Reported(history: seq<Outcome>, t: int) {
    exists i :: 0 <= i < |history| && ReportedBy(history[i], t)
  }

  ghost predicate ReportedBy(outcome: Outcome, t: int) {
    outcome.reply.Complete? && outcome.reply.resets.Some?
    && t * 1_000_000 <= outcome.reply.resets.value < (t + 1) * 1_000_000
  }

  /** The first success that reported a reset was polled at `t`. */
  ghost predicate Begun(history: seq<Outcome>, t: int) {
    exists i :: 0 <= i < |history| && FirstReset(history, i) && history[i].at == t
  }

  lemma ReportedGrows(history: seq<Outcome>, t: int)
    requires history != []
    ensures Reported(history[..|history| - 1], t) || ReportedBy(history[|history| - 1], t) ==> Reported(history, t)
    ensures Begun(history[..|history| - 1], t) ==> Begun(history, t)
  {
    var init := history[..|history| - 1];
    if Reported(init, t) {
      var i :| 0 <= i < |init| && ReportedBy(init[i], t);
      assert ReportedBy(history[i], t);
    }
    if Begun(init, t) {
      var i :| 0 <= i < |init| && FirstReset(init, i) && init[i].at == t;
      assert forall j :: 0 <= j < i ==> init[j] == history[j];
      assert FirstReset(history, i);
    }
  }

  /** Every period the chain ever holds ends at a reset that the upstream reported, and starts at one too
      or at the first poll that reported any. */
  lemma {:induction false} BoundariesAreReported(history: seq<Outcome>)
    requires WellFormed(history)
    ensures var m := MonthlyOf(After(history));
            m.Some? ==>
              m.value.start.Some? && m.value.end.Some? && Reported(history, m.value.end.value)
              && (Reported(history, m.value.start.value) || Begun(history, m.value.start.value))
  {
    if history != [] {
      var init, last := history[..|history| - 1], history[|history| - 1];
      BoundariesAreReported(init);
      ChainStartsWithReset(init);
      var m := MonthlyOf(After(history));
      if m.Some? {
        ReportedGrows(history, m.value.start.value);
        ReportedGrows(history, m.value.end.value);
        if MonthlyOf(After(init)).None? {
          assert forall j :: 0 <= j < |init| ==> !ReportsReset(init[j]) && init[j] == history[j];
          assert FirstReset(history, |init|);
        }
      }
    }
  }

  /** The polls are dated in order, none past `now`. */
  ghost predicate Dated(history: seq<Outcome>, now: int) {
    (forall i :: 0 <= i < |history| ==> history[i].at <= now)
    && forall i, j :: 0 <= i < j < |history| ==> history[i].at <= history[j].at
  }

  lemma {:induction false} ChainHasBegun(history: seq<Outcome>, now: int)
    requires WellFormed(history) && Dated(history, now)
    ensures var m := MonthlyOf(After(history)); m.Some? ==> m.value.start.Some? && m.value.start.value <= now
  {
    if history != [] {
      ChainHasBegun(history[..|history| - 1], now);
    }
  }

  /** After a success that reports a reset at or past its own second, the chain's period holds the poll:
      it has begun, and it ends at the reported reset. */
  lemma ObservationLiesInPeriod(history: seq<Outcome>, end: int)
    requires WellFormed(history) && history != [] && Dated(history, history[|history| - 1].at)
    requires ReportedBy(history[|history| - 1], end) && history[|history| - 1].at < end
    ensures var m, at := MonthlyOf(After(history)), history[|history| - 1].at;
            m.Some? && m.value.start.Some? && m.value.start.value <= at < end && m.value.end == Some(end)
  {
    var init, last := history[..|history| - 1], history[|history| - 1];
    ChainHasBegun(init, last.at);
    ChainStartsWithReset(init);
    StepHoldsMoment(MonthlyOf(After(init)), last.at, last.reply.resets.value, end);
  }

  lemma StepHoldsMoment(prior: Option<Monthly>, moment: int, reset: int, end: int)
    requires prior.Some? ==> prior.value.start.Some? && prior.value.start.value <= moment
    requires moment < end && end * 1_000_000 <= reset < (end + 1) * 1_000_000
    ensures var m := AdvanceMonthlyPeriod(prior, moment, Some(reset));
            m.Some? && m.value.start.Some? && m.value.start.value <= moment && m.value.end == Some(end)
  {
    assert FormatUtc(reset) == end;
  }

  // ----- resume stamps only move forward -----

  /** Once a success at `at` has found the verdict lapsed, every later snapshot resumes at `at` or after. */
  lemma {:induction false} ResumeNeverMovesBack(prior: Snapshot, later: seq<Outcome>, at: int)
    requires WellFormed(later) && (forall i :: 0 <= i < |later| ==> at <= later[i].at)
    requires prior.Stored? && prior.resumedAt.Some? && at <= prior.resumedAt.value
    ensures var s := PollAll(prior, later); s.Stored? && s.resumedAt.Some? && at <= s.resumedAt.value
  {
    if later != [] {
      ResumeNeverMovesBack(prior, later[..|later| - 1], at);
    }
  }

  function PollAll(prior: Snapshot, history: seq<Outcome>): Snapshot
    requires WellFormed(history)
  {
    if history == [] then prior else Poll(PollAll(prior, history[..|history| - 1]), history[|history| - 1])
  }
}
