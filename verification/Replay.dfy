/** Replay detection: how many usage records at the head of a forked or sub-agent rollout were
    inherited from its parent. */
module Replay {
  import opened Prelude
  import opened Transcript
  import opened SegmentMerge
  import opened SegmentLaws

  /** A token's logical time in milliseconds; `Never` is Python's float("inf"). */
  datatype Time = At(ms: int) | Never

  predicate NotAfter(t: Time, limit: int) { t.At? && t.ms <= limit }

  predicate Ordered(a: Time, b: Time) { b.Never? || (a.At? && a.ms <= b.ms) }

  /** A task_started or turn_started event and the number of token counts before it. */
  datatype Boundary = Boundary(rawTokenCount: nat, startedAt: Option<int>)

  /** `_timestamp_ms` is a parameter: it parses text that is not modelled. */
  type Clock = Json -> Option<int>

  function StampOf(record: Json, clock: Clock): Option<int> {
    if record.Object? then clock(Get(record.fields, "timestamp")) else None
  }

  /** The normalised dictionaries of a list of JSON values, in order. */
  function Dicts(values: seq<Json>): seq<Json> {
    if values == [] then []
    else
      var rest, last := Dicts(values[..|values| - 1]), values[|values| - 1];
      if last.Object? then rest + [NormalizeUsageRecord(last)] else rest
  }

  /** The payloads of the token_count records. */
  function TokensOf(records: seq<Json>): seq<Json> {
    if records == [] then []
    else
      var rest, last := TokensOf(records[..|records| - 1]), records[|records| - 1];
      if IsTokenCount(last) then rest + [Get(last.fields, "payload")] else rest
  }

  /** Where the token_count records stand. */
  function TokenPositions(records: seq<Json>): (positions: seq<nat>)
    ensures |positions| == |TokensOf(records)|
    ensures forall i :: 0 <= i < |positions| ==> positions[i] < |records|
  {
    if records == [] then []
    else
      var rest, last := TokenPositions(records[..|records| - 1]), |records| - 1;
      if IsTokenCount(records[last]) then rest + [last] else rest
  }

  /** The first position from `p` on that carries a timestamp, or the number of records. */
  function NextStamped(records: seq<Json>, clock: Clock, p: nat): (n: nat)
    requires p <= |records|
    ensures p <= n <= |records|
    ensures n < |records| ==> StampOf(records[n], clock).Some?
    ensures forall i :: p <= i < n ==> StampOf(records[i], clock).None?
    decreases |records| - p
  {
    if p == |records| || StampOf(records[p], clock).Some? then p else NextStamped(records, clock, p + 1)
  }

  /** The largest timestamp among the first `n` records. */
  function LatestStamp(records: seq<Json>, clock: Clock, n: nat): Option<int>
    requires n <= |records|
  {
    if n == 0 then None
    else
      var before := LatestStamp(records, clock, n - 1);
      match StampOf(records[n - 1], clock)
      case None => before
      case Some(ms) => if before.Some? && before.value > ms then before else Some(ms)
  }

  /** A token's time: the running maximum at the first timestamp at or after it. */
  function TimeOf(records: seq<Json>, clock: Clock, p: nat): Time
    requires p <= |records|
  {
    var n := NextStamped(records, clock, p);
    if n == |records| then Never else At(LatestStamp(records, clock, n + 1).GetOr(0))
  }

  function TimesOf(records: seq<Json>, clock: Clock): (times: seq<Time>)
    ensures |times| == |TokensOf(records)|
  {
    var positions := TokenPositions(records);
    seq(|positions|, i requires 0 <= i < |positions| => TimeOf(records, clock, positions[i]))
  }

  function StartsTask(record: Json): bool {
    HasType(record, "event_msg") && (HasPayloadType(record, "task_started") || HasPayloadType(record, "turn_started"))
  }

  function BoundariesOf(records: seq<Json>, clock: Clock): seq<Boundary> {
    if records == [] then []
    else
      var init, last := records[..|records| - 1], records[|records| - 1];
      BoundariesOf(init, clock) +
      if StartsTask(last) then [Boundary(|TokensOf(init)|,
        clock(Get(Get(last.fields, "payload").fields, "started_at")))] else []
  }

  // ----- token times never go back -----

  lemma {:induction false} LatestStampGrows(records: seq<Json>, clock: Clock, m: nat, n: nat)
    requires m <= n <= |records| && LatestStamp(records, clock, m).Some?
    ensures LatestStamp(records, clock, n).Some?
    ensures LatestStamp(records, clock, m).value <= LatestStamp(records, clock, n).value
    decreases n
  {
    if m < n {
      LatestStampGrows(records, clock, m, n - 1);
    }
  }

  lemma {:induction false} PositionsIncrease(records: seq<Json>, i: nat, j: nat)
    requires i < j < |TokenPositions(records)|
    ensures TokenPositions(records)[i] < TokenPositions(records)[j]
  {
    var init := records[..|records| - 1];
    if j < |TokenPositions(init)| {
      PositionsIncrease(init, i, j);
    }
  }

  lemma TimesNeverGoBack(records: seq<Json>, clock: Clock, i: nat, j: nat)
    requires i <= j < |TimesOf(records, clock)|
    ensures Ordered(TimesOf(records, clock)[i], TimesOf(records, clock)[j])
  {
    if i < j {
      PositionsIncrease(records, i, j);
      var p, q := TokenPositions(records)[i], TokenPositions(records)[j];
      var m, n := NextStamped(records, clock, p), NextStamped(records, clock, q);
      if n < |records| {
        assert m <= n;
        LatestStampGrows(records, clock, m + 1, n + 1);
      }
    }
  }

  /** `[fingerprint for fingerprint, timestamp in zip(...) if timestamp <= limit]` */
  function Cut(tokens: seq<Json>, times: seq<Time>, limit: int): seq<Json>
    requires |tokens| == |times|
  {
    if tokens == [] then []
    else
      var last := |tokens| - 1;
      Cut(tokens[..last], times[..last], limit) + if NotAfter(times[last], limit) then [tokens[last]] else []
  }

  lemma {:induction false} CutOfOrderedIsPrefix(tokens: seq<Json>, times: seq<Time>, limit: int)
    requires |tokens| == |times|
    requires forall i, j :: 0 <= i < j < |times| ==> Ordered(times[i], times[j])
    ensures Cut(tokens, times, limit) <= tokens
    ensures forall i :: 0 <= i < |tokens| ==> (NotAfter(times[i], limit) <==> i < |Cut(tokens, times, limit)|)
  {
    if tokens != [] {
      var last := |tokens| - 1;
      CutOfOrderedIsPrefix(tokens[..last], times[..last], limit);
      if NotAfter(times[last], limit) {
        forall i | 0 <= i < last
          ensures NotAfter(times[i], limit)
        {
          assert Ordered(times[i], times[last]);
        }
        assert last > 0 ==> NotAfter(times[..last][last - 1], limit);
        assert |Cut(tokens[..last], times[..last], limit)| == last;
      }
    }
  }

  /** The session-start cutoff keeps a prefix of the parent's tokens. */
  lemma SessionCutIsPrefix(records: seq<Json>, clock: Clock, limit: int)
    ensures Cut(TokensOf(records), TimesOf(records, clock), limit) <= TokensOf(records)
  {
    var times := TimesOf(records, clock);
    forall i, j | 0 <= i < j < |times|
      ensures Ordered(times[i], times[j])
    {
      TimesNeverGoBack(records, clock, i, j);
    }
    CutOfOrderedIsPrefix(TokensOf(records), times, limit);
  }

  // ----- the first session_meta record -----

  predicate Truthy(v: Json) {
    match v
    case Null => false
    case Bool(flag) => flag
    case Number(value) => value != 0.0
    case NonFinite => true
    case Text(text) => text != ""
    case List(items) => items != []
    case Object(fields) => fields != map[]
  }

  /** Python's `a or b`. */
  function Or(a: Json, b: Json): Json { if Truthy(a) then a else b }

  function FieldOf(v: Json, key: string): Json {
    if v.Object? then Get(v.fields, key) else Null
  }

  datatype Meta = Meta(sessionId: Json, forkedFrom: Json, parentThread: Json, isSubagent: bool, startedAt: Option<int>)

  const NO_META := Meta(Null, Null, Null, false, None)

  predicate IsMeta(record: Json) {
    HasType(record, "session_meta") && Get(record.fields, "payload").Object?
  }

  function ReadMeta(record: Json, clock: Clock): Meta
    requires IsMeta(record)
  {
    var meta := Get(record.fields, "payload").fields;
    var source := Get(meta, "source");
    var parent :=
      if source.Object? then
        Or(Or(Get(meta, "parent_thread_id"), Get(source.fields, "parent_thread_id")),
           FieldOf(FieldOf(Get(source.fields, "subagent"), "thread_spawn"), "parent_thread_id"))
      else Get(meta, "parent_thread_id");
    Meta(Or(Get(meta, "id"), Get(meta, "session_id")), Get(meta, "forked_from_id"), parent,
         Get(meta, "thread_source") == Text("subagent") || source == Text("subagent")
         || (source.Object? && "subagent" in source.fields) || parent != Null,
         clock(Or(Get(meta, "timestamp"), Get(record.fields, "timestamp"))))
  }

  function MetaCount(records: seq<Json>): nat {
    if records == [] then 0
    else MetaCount(records[..|records| - 1]) + if IsMeta(records[|records| - 1]) then 1 else 0
  }

  /** Only the first session_meta record describes the session. */
  function MetaOf(records: seq<Json>, clock: Clock): Meta {
    if records == [] then NO_META
    else
      var init, last := records[..|records| - 1], records[|records| - 1];
      if MetaCount(init) == 0 && IsMeta(last) then ReadMeta(last, clock) else MetaOf(init, clock)
  }

  /** `path.name` */
  function FileName(path: string): string {
    if path == "" then ""
    else if path[|path| - 1] == '/' then ""
    else FileName(path[..|path| - 1]) + [path[|path| - 1]]
  }

  predicate EndsWith(name: string, suffix: string) {
    |suffix| <= |name| && name[|name| - |suffix|..] == suffix
  }

  /** `_session_id_from_path`: the file name without ".jsonl.gz" or ".jsonl". */
  function SessionIdFromPath(path: string): string {
    var name := FileName(path);
    if EndsWith(name, ".jsonl.gz") then name[..|name| - 9]
    else if EndsWith(name, ".jsonl") then name[..|name| - 6]
    else name
  }

  /** What `_session_index` keeps of one logical session. */
  datatype Index = Index(
    path: string,
    size: nat,
    sessionId: Json,
    meta: Meta,
    metaCount: nat,
    tokens: seq<Json>,
    times: seq<Time>,
    boundaries: seq<Boundary>)

  function IndexOf(records: seq<Json>, path: string, size: nat, clock: Clock): Index {
    var meta := MetaOf(records, clock);
    Index(path, size, Or(meta.sessionId, Text(SessionIdFromPath(path))), meta, MetaCount(records),
          TokensOf(records), TimesOf(records, clock), BoundariesOf(records, clock))
  }

  // ----- reading one more record -----

  lemma {:induction false} LatestStampIsStable(records: seq<Json>, r: Json, clock: Clock, n: nat)
    requires n <= |records|
    ensures LatestStamp(records + [r], clock, n) == LatestStamp(records, clock, n)
  {
    if n > 0 {
      LatestStampIsStable(records, r, clock, n - 1);
    }
  }

  lemma NextStampedIsTheFirst(records: seq<Json>, clock: Clock, p: nat, n: nat)
    requires p <= n <= |records| && (n < |records| ==> StampOf(records[n], clock).Some?)
    requires forall i :: p <= i < n ==> StampOf(records[i], clock).None?
    ensures NextStamped(records, clock, p) == n
  {
    var m := NextStamped(records, clock, p);
    if m < |records| && n < |records| {
      assert StampOf(records[m], clock).Some? && StampOf(records[n], clock).Some?;
    }
  }

  /** One more record dates the waiting tokens if it is dated, and moves no other token. */
  lemma TimeGrows(records: seq<Json>, r: Json, clock: Clock, p: nat)
    requires p <= |records|
    ensures TimeOf(records + [r], clock, p) ==
            if TimeOf(records, clock, p).At? then TimeOf(records, clock, p)
            else if StampOf(r, clock).Some? then At(LatestStamp(records + [r], clock, |records| + 1).GetOr(0))
            else Never
  {
    if NextStamped(records, clock, p) < |records| {
      DatedStaysDated(records, r, clock, p);
    } else {
      WaitingIsDated(records, r, clock, p);
    }
  }

  lemma DatedStaysDated(records: seq<Json>, r: Json, clock: Clock, p: nat)
    requires p <= |records| && NextStamped(records, clock, p) < |records|
    ensures TimeOf(records, clock, p).At? && TimeOf(records + [r], clock, p) == TimeOf(records, clock, p)
  {
    var n := NextStamped(records, clock, p);
    assert StampOf(records[n], clock).Some?;
    NextStampedIsTheFirst(records + [r], clock, p, n);
    LatestStampIsStable(records, r, clock, n + 1);
  }

  lemma WaitingIsDated(records: seq<Json>, r: Json, clock: Clock, p: nat)
    requires p <= |records| == NextStamped(records, clock, p)
    ensures TimeOf(records, clock, p).Never?
    ensures TimeOf(records + [r], clock, p) ==
            if StampOf(r, clock).Some? then At(LatestStamp(records + [r], clock, |records| + 1).GetOr(0)) else Never
  {
    NextStampedIsTheFirst(records + [r], clock, p, if StampOf(r, clock).Some? then |records| else |records| + 1);
  }

  lemma TimesGrow(records: seq<Json>, r: Json, clock: Clock, filled: seq<Time>)
    requires |filled| == |TimesOf(records, clock)|
    requires forall i :: 0 <= i < |filled| ==>
               filled[i] == if TimesOf(records, clock)[i].Never? && StampOf(r, clock).Some?
                            then At(LatestStamp(records + [r], clock, |records| + 1).GetOr(0))
                            else TimesOf(records, clock)[i]
    ensures TimesOf(records + [r], clock) ==
            if !IsTokenCount(r) then filled
            else filled + [if StampOf(r, clock).Some? then At(LatestStamp(records + [r], clock, |records| + 1).GetOr(0))
              else Never]
  {
    var longer := records + [r];
    assert longer[..|records|] == records;
    var before, after := TokenPositions(records), TokenPositions(longer);
    assert after == before + if IsTokenCount(r) then [|records|] else [];
    forall i | 0 <= i < |before|
      ensures TimesOf(longer, clock)[i] == filled[i]
    {
      assert after[i] == before[i];
      TimeGrows(records, r, clock, before[i]);
    }
    if IsTokenCount(r) {
      TimeGrows(records, r, clock, |records|);
      assert NextStamped(records, clock, |records|) == |records|;
      assert after[|before|] == |records|;
    }
  }

  ghost predicate Waiting(pending: seq<nat>, times: seq<Time>) {
    (forall i :: i in pending ==> i < |times|)
    && forall i :: 0 <= i < |times| ==> (i in pending <==> times[i].Never?)
  }

  /** `for index in pending_token_times: token_times[index] = logical_timestamp` */
  method FillPending(times: seq<Time>, pending: seq<nat>, logical: int) returns (filled: seq<Time>)
    requires Waiting(pending, times)
    ensures |filled| == |times| && Waiting([], filled)
    ensures forall i :: 0 <= i < |times| ==> filled[i] == if times[i].Never? then At(logical) else times[i]
  {
    filled := times;
    for k := 0 to |pending|
      invariant |filled| == |times|
      invariant forall i :: 0 <= i < |times| ==> filled[i] == if i in pending[..k] then At(logical) else times[i]
    {
      assert pending[k] in pending;
      filled := filled[pending[k] := At(logical)];
    }
    assert pending[..|pending|] == pending;
  }

  /** The variables of the scan. */
  datatype Scan = Scan(tokens: seq<Json>, times: seq<Time>, pending: seq<nat>, logical: Option<int>)

  ghost predicate Scanned(scan: Scan, records: seq<Json>, clock: Clock) {
    scan.tokens == TokensOf(records) && scan.times == TimesOf(records, clock)
    && Waiting(scan.pending, scan.times) && scan.logical == LatestStamp(records, clock, |records|)
  }

  /** The scan between the timestamp of a record and its token. */
  ghost predicate StampRead(scan: Scan, records: seq<Json>, record: Json, clock: Clock) {
    && scan.tokens == TokensOf(records) && |scan.times| == |scan.tokens| && Waiting(scan.pending, scan.times)
    && (forall i :: 0 <= i < |scan.times| ==> scan.times[i] == Redated(records, record, clock, i))
    && scan.logical == LatestStamp(records + [record], clock, |records| + 1)
    && (StampOf(record, clock).Some? ==> scan.pending == [])
  }

  /** A token's time once one more record has been read. */
  function Redated(records: seq<Json>, record: Json, clock: Clock, i: nat): Time
    requires i < |TimesOf(records, clock)|
  {
    if TimesOf(records, clock)[i].Never? && StampOf(record, clock).Some?
    then At(LatestStamp(records + [record], clock, |records| + 1).GetOr(0))
    else TimesOf(records, clock)[i]
  }

  /** The timestamp part of one round of the scan. */
  method ReadStamp(before: Scan, record: Json, clock: Clock, ghost records: seq<Json>) returns (scan: Scan)
    requires Scanned(before, records, clock)
    ensures StampRead(scan, records, record, clock)
  {
    scan := before;
    LatestStampIsStable(records, record, clock, |records|);
    var stamp := StampOf(record, clock);
    if stamp.Some? {
      var logical := if scan.logical.Some? && scan.logical.value > stamp.value then scan.logical.value else stamp.value;
      var times := FillPending(scan.times, scan.pending, logical);
      scan := Scan(scan.tokens, times, [], Some(logical));
    }
  }

  lemma StampedIsDated(records: seq<Json>, record: Json, clock: Clock)
    requires StampOf(record, clock).Some?
    ensures LatestStamp(records + [record], clock, |records| + 1).Some?
  {
  }

  lemma TokensGrow(records: seq<Json>, record: Json)
    ensures TokensOf(records + [record]) ==
            TokensOf(records) + if IsTokenCount(record) then [Get(record.fields, "payload")] else []
  {
    assert (records + [record])[..|records|] == records;
  }

  lemma WaitingGrows(pending: seq<nat>, times: seq<Time>, next: Time)
    requires Waiting(pending, times)
    ensures Waiting(if next.Never? then pending + [|times|] else pending, times + [next])
  {
  }

  /** The token part. */
  method ReadToken(before: Scan, record: Json, clock: Clock, ghost records: seq<Json>) returns (scan: Scan)
    requires StampRead(before, records, record, clock)
    ensures Scanned(scan, records + [record], clock)
  {
    scan := before;
    TokensGrow(records, record);
    TimesGrow(records, record, clock, scan.times);
    if IsTokenCount(record) {
      var token := Get(record.fields, "payload");
      if StampOf(record, clock).None? {
        WaitingGrows(scan.pending, scan.times, Never);
        scan := Scan(scan.tokens + [token], scan.times + [Never], scan.pending + [|scan.times|], scan.logical);
      } else {
        StampedIsDated(records, record, clock);
        WaitingGrows(scan.pending, scan.times, At(scan.logical.value));
        scan := Scan(scan.tokens + [token], scan.times + [At(scan.logical.value)], scan.pending, scan.logical);
      }
    }
  }

  /** The timestamp and token part of one round of the scan. */
  method ScanRecord(before: Scan, record: Json, clock: Clock, ghost records: seq<Json>) returns (scan: Scan)
    requires Scanned(before, records, clock)
    ensures Scanned(scan, records + [record], clock)
  {
    scan := ReadStamp(before, record, clock, records);
    scan := ReadToken(scan, record, clock, records);
  }

  // ----- what an index says of its log, in the fields of the records alone -----

  predicate IsEmptyValue(v: Json) {
    v == Null || v == Bool(false) || v == Number(0.0) || v == Text("") || v == List([]) || v == Object(map[])
  }

  lemma TruthyIsNotEmpty(v: Json)
    ensures Truthy(v) <==> !IsEmptyValue(v)
  {
  }

  predicate IsA(record: Json, kind: string) {
    record.Object? && "type" in record.fields && record.fields["type"] == Text(kind)
  }

  predicate IsTokenEvent(record: Json) {
    IsA(record, "event_msg") && HasObject(record.fields, "payload") && IsA(record.fields["payload"], "token_count")
  }

  predicate IsTaskEvent(record: Json) {
    && IsA(record, "event_msg") && HasObject(record.fields, "payload")
    && (IsA(record.fields["payload"], "task_started") || IsA(record.fields["payload"], "turn_started"))
  }

  predicate IsMetaEvent(record: Json) { IsA(record, "session_meta") && HasObject(record.fields, "payload") }

  predicate IsDated(record: Json, clock: Clock, ms: int) {
    record.Object? && clock(if "timestamp" in record.fields then record.fields["timestamp"] else Null) == Some(ms)
  }

  /** `at` lists in order the records that pass the test. */
  ghost predicate Lists(records: seq<Json>, test: Json -> bool, at: seq<int>) {
    && (forall i, j :: 0 <= i < j < |at| ==> at[i] < at[j])
    && forall p :: p in at <==> 0 <= p < |records| && test(records[p])
  }

  /** `ms` is the largest stamp up to record `q`. */
  ghost predicate LargestUpTo(records: seq<Json>, clock: Clock, q: int, ms: int) {
    && (exists r :: 0 <= r <= q < |records| && IsDated(records[r], clock, ms))
    && forall r, other :: 0 <= r <= q && r < |records| && IsDated(records[r], clock, other) ==> other <= ms
  }

  /** Record `q` is the first from `p` on that has a stamp. */
  ghost predicate FirstDated(records: seq<Json>, clock: Clock, p: int, q: int) {
    && p <= q < |records| && 0 <= q && (exists ms :: IsDated(records[q], clock, ms))
    && forall r, ms :: p <= r < q && 0 <= r ==> !IsDated(records[r], clock, ms)
  }

  /** A token's time is the largest stamp up to the first stamped record from it on, and infinite without one. */
  ghost predicate IsTimeOf(records: seq<Json>, clock: Clock, p: int, time: Time) {
    match time
    case Never => forall q :: !FirstDated(records, clock, p, q)
    case At(ms) => exists q :: FirstDated(records, clock, p, q) && LargestUpTo(records, clock, q, ms)
  }

  ghost predicate TokensAreThose(item: Index, records: seq<Json>, clock: Clock, at: seq<int>) {
    && Lists(records, IsTokenEvent, at) && |at| == |item.tokens| == |item.times|
    && forall i :: 0 <= i < |at| ==>
         0 <= at[i] < |records| && IsTokenEvent(records[at[i]]) && item.tokens[i] == records[at[i]].fields["payload"]
         && IsTimeOf(records, clock, at[i], item.times[i])
  }

  /** A task's boundary counts the tokens before it. */
  ghost predicate IsBoundaryOf(b: Boundary, record: Json, clock: Clock, p: int, tokenAt: seq<int>)
    requires IsTaskEvent(record)
  {
    && b.rawTokenCount <= |tokenAt|
    && (forall t :: 0 <= t < |tokenAt| ==> (t < b.rawTokenCount <==> tokenAt[t] < p))
    && var payload := record.fields["payload"].fields;
    b.startedAt == clock(if "started_at" in payload then payload["started_at"] else Null)
  }

  ghost predicate TasksAreThose(item: Index, records: seq<Json>, clock: Clock, tokenAt: seq<int>, at: seq<int>) {
    && Lists(records, IsTaskEvent, at) && |at| == |item.boundaries|
    && forall i :: 0 <= i < |at| ==>
         && 0 <= at[i] < |records| && IsTaskEvent(records[at[i]])
         && IsBoundaryOf(item.boundaries[i], records[at[i]], clock, at[i], tokenAt)
  }

  /** `v` is the first of the two that is not empty, or the second. */
  predicate IsFirstOf(v: Json, a: Json, b: Json) { v == if IsEmptyValue(a) then b else a }

  predicate IsField(v: Json, fields: map<string, Json>, key: string) {
    v == if key in fields then fields[key] else Null
  }

  /** The parent thread a session_meta names: at the top, in its source, or in the source's spawn record. */
  ghost predicate NamesParent(meta: map<string, Json>, parent: Json) {
    exists top :: IsField(top, meta, "parent_thread_id")
      && if !HasObject(meta, "source") || !IsEmptyValue(top) then parent == top
         else
           var source := meta["source"].fields;
           exists inner :: IsField(inner, source, "parent_thread_id")
             && if !IsEmptyValue(inner) then parent == inner
                else if HasObject(source, "subagent") && HasObject(source["subagent"].fields, "thread_spawn")
                then IsField(parent, source["subagent"].fields["thread_spawn"].fields, "parent_thread_id")
                else parent == Null
  }

  predicate NamesSubagent(meta: map<string, Json>, parent: Json) {
    || ("thread_source" in meta && meta["thread_source"] == Text("subagent"))
    || ("source" in meta && meta["source"] == Text("subagent"))
    || (HasObject(meta, "source") && "subagent" in meta["source"].fields)
    || parent != Null
  }

  ghost predicate IsMetaOf(meta: Meta, record: Json, clock: Clock)
    requires IsMetaEvent(record)
  {
    var payload := record.fields["payload"].fields;
    && (exists id, other :: IsField(id, payload, "id") && IsField(other, payload, "session_id")
                            && IsFirstOf(meta.sessionId, id, other))
    && IsField(meta.forkedFrom, payload, "forked_from_id") && NamesParent(payload, meta.parentThread)
    && (meta.isSubagent <==> NamesSubagent(payload, meta.parentThread))
    && (exists own, outer, stamp :: IsField(own, payload, "timestamp") && IsField(outer, record.fields, "timestamp")
                                    && IsFirstOf(stamp, own, outer) && meta.startedAt == clock(stamp))
  }

  ghost predicate MetaIsThat(item: Index, records: seq<Json>, clock: Clock, at: seq<int>) {
    && Lists(records, IsMetaEvent, at) && item.metaCount == |at|
    && if at == [] then item.meta == Meta(Null, Null, Null, false, None)
       else 0 <= at[0] < |records| && IsMetaEvent(records[at[0]]) && IsMetaOf(item.meta, records[at[0]], clock)
  }

  /** `name` is what follows the last slash. */
  predicate IsFileName(path: string, name: string) {
    && |name| <= |path| && path[|path| - |name|..] == name && '/' !in name
    && (|name| < |path| ==> path[|path| - |name| - 1] == '/')
  }

  predicate IsStem(name: string, stem: string) {
    || name == stem + ".jsonl.gz"
    || (name == stem + ".jsonl" && !EndsIn(name, ".jsonl.gz"))
    || (name == stem && !EndsIn(name, ".jsonl.gz") && !EndsIn(name, ".jsonl"))
  }

  predicate EndsIn(name: string, suffix: string) {
    |suffix| <= |name| && name[|name| - |suffix|..] == suffix
  }

  ghost predicate IsIndexOf(item: Index, records: seq<Json>, path: string, size: nat, clock: Clock) {
    && item.path == path && item.size == size
    && (exists tokenAt, taskAt :: TokensAreThose(item, records, clock, tokenAt)
                                  && TasksAreThose(item, records, clock, tokenAt, taskAt))
    && (exists metaAt :: MetaIsThat(item, records, clock, metaAt))
    && exists name, stem :: IsFileName(path, name) && IsStem(name, stem)
                            && IsFirstOf(item.sessionId, item.meta.sessionId, Text(stem))
  }

  lemma TestsAgree(record: Json)
    ensures IsTokenEvent(record) <==> IsTokenCount(record)
    ensures IsTaskEvent(record) <==> StartsTask(record)
    ensures IsMetaEvent(record) <==> IsMeta(record)
    ensures forall clock, ms :: IsDated(record, clock, ms) <==> StampOf(record, clock) == Some(ms)
  {
  }

  lemma ListsOneMore(records: seq<Json>, test: Json -> bool, at: seq<int>)
    requires records != [] && Lists(records[..|records| - 1], test, at)
    ensures var n := |records| - 1; Lists(records, test, if test(records[n]) then at + [n] else at)
  {
    var n := |records| - 1;
    assert forall i :: 0 <= i < |at| ==> at[i] in at;
    assert forall p :: 0 <= p < n ==> records[..n][p] == records[p];
  }

  /** The positions of the records that pass a test. */
  function Positions(records: seq<Json>, test: Json -> bool): seq<int> {
    if records == [] then []
    else
      var n := |records| - 1;
      Positions(records[..n], test) + if test(records[n]) then [n] else []
  }

  lemma {:induction false} PositionsAreListed(records: seq<Json>, test: Json -> bool)
    ensures Lists(records, test, Positions(records, test))
  {
    if records != [] {
      PositionsAreListed(records[..|records| - 1], test);
      ListsOneMore(records, test, Positions(records[..|records| - 1], test));
    }
  }

  lemma {:induction false} TokensStandThere(records: seq<Json>)
    ensures TokenPositions(records) == Positions(records, IsTokenEvent)
    ensures forall i :: 0 <= i < |TokensOf(records)| ==>
              var p := TokenPositions(records)[i];
              IsTokenEvent(records[p]) && TokensOf(records)[i] == records[p].fields["payload"]
  {
    if records != [] {
      TokensStandThere(records[..|records| - 1]);
      TestsAgree(records[|records| - 1]);
    }
  }

  lemma NextStampedIsFirstDated(records: seq<Json>, clock: Clock, p: nat, q: int)
    requires p <= |records|
    ensures FirstDated(records, clock, p, q) <==> q == NextStamped(records, clock, p) && q < |records|
  {
    var n := NextStamped(records, clock, p);
    forall r | 0 <= r < |records|
      ensures StampOf(records[r], clock).Some? <==> exists ms :: IsDated(records[r], clock, ms)
    {
      TestsAgree(records[r]);
      if StampOf(records[r], clock).Some? {
        assert IsDated(records[r], clock, StampOf(records[r], clock).value);
      }
    }
  }

  lemma {:induction false} LatestIsLargest(records: seq<Json>, clock: Clock, n: nat)
    requires n <= |records|
    ensures LatestStamp(records, clock, n).None? ==>
              forall r, ms :: 0 <= r < n ==> !IsDated(records[r], clock, ms)
    ensures LatestStamp(records, clock, n).Some? ==>
              LargestUpTo(records, clock, n - 1, LatestStamp(records, clock, n).value)
  {
    if n > 0 {
      LatestIsLargest(records, clock, n - 1);
      TestsAgree(records[n - 1]);
      var before := LatestStamp(records, clock, n - 1);
      if before.Some? {
        var r :| 0 <= r <= n - 2 && IsDated(records[r], clock, before.value);
      }
    }
  }

  lemma TimeIsThat(records: seq<Json>, clock: Clock, p: nat)
    requires p <= |records|
    ensures IsTimeOf(records, clock, p, TimeOf(records, clock, p))
  {
    var n := NextStamped(records, clock, p);
    forall q
      ensures FirstDated(records, clock, p, q) <==> q == n && q < |records|
    {
      NextStampedIsFirstDated(records, clock, p, q);
    }
    if n < |records| {
      LatestIsLargest(records, clock, n + 1);
      TestsAgree(records[n]);
      assert IsDated(records[n], clock, StampOf(records[n], clock).value);
    }
  }

  /** A later token does not change what a task counts. */
  lemma BoundaryStays(b: Boundary, record: Json, clock: Clock, p: int, tokenAt: seq<int>, n: int)
    requires IsTaskEvent(record) && IsBoundaryOf(b, record, clock, p, tokenAt) && p < n
    ensures IsBoundaryOf(b, record, clock, p, tokenAt + [n])
  {
  }

  lemma NewBoundary(records: seq<Json>, clock: Clock, n: nat)
    requires n + 1 == |records| && IsTaskEvent(records[n])
    ensures var b := BoundariesOf(records, clock)[|BoundariesOf(records[..n], clock)|];
            IsBoundaryOf(b, records[n], clock, n, Positions(records[..n], IsTokenEvent))
  {
    var before := Positions(records[..n], IsTokenEvent);
    TestsAgree(records[n]);
    TokensStandThere(records[..n]);
    PositionsAreListed(records[..n], IsTokenEvent);
    assert forall t :: 0 <= t < |before| ==> before[t] in before;
  }

  lemma TaskIsNoToken(record: Json)
    ensures !(IsTaskEvent(record) && IsTokenEvent(record))
  {
    assert |"token_count"| == 11 && |"task_started"| == |"turn_started"| == 12;
  }

  ghost predicate BoundaryStands(records: seq<Json>, clock: Clock, b: Boundary, p: int) {
    && 0 <= p < |records| && IsTaskEvent(records[p])
    && IsBoundaryOf(b, records[p], clock, p, Positions(records, IsTokenEvent))
  }

  lemma StandingStays(records: seq<Json>, clock: Clock, b: Boundary, p: int)
    requires records != [] && BoundaryStands(records[..|records| - 1], clock, b, p)
    ensures BoundaryStands(records, clock, b, p)
  {
    var n := |records| - 1;
    if IsTokenEvent(records[n]) {
      BoundaryStays(b, records[p], clock, p, Positions(records[..n], IsTokenEvent), n);
    }
  }

  lemma {:induction false} BoundariesStandThere(records: seq<Json>, clock: Clock)
    ensures |BoundariesOf(records, clock)| == |Positions(records, IsTaskEvent)|
    ensures forall i :: 0 <= i < |BoundariesOf(records, clock)| ==>
              BoundaryStands(records, clock, BoundariesOf(records, clock)[i], Positions(records, IsTaskEvent)[i])
  {
    if records != [] {
      var n := |records| - 1;
      var before := BoundariesOf(records[..n], clock);
      BoundariesStandThere(records[..n], clock);
      TestsAgree(records[n]);
      forall i | 0 <= i < |before|
        ensures BoundaryStands(records, clock, before[i], Positions(records[..n], IsTaskEvent)[i])
      {
        StandingStays(records, clock, before[i], Positions(records[..n], IsTaskEvent)[i]);
      }
      if IsTaskEvent(records[n]) {
        NewBoundary(records, clock, n);
        TaskIsNoToken(records[n]);
      }
    }
  }

  lemma ReadMetaIsThat(record: Json, clock: Clock)
    requires IsMeta(record)
    ensures IsMetaEvent(record) && IsMetaOf(ReadMeta(record, clock), record, clock)
  {
    TestsAgree(record);
    var meta := record.fields["payload"].fields;
    var id, other := Get(meta, "id"), Get(meta, "session_id");
    var own, outer := Get(meta, "timestamp"), Get(record.fields, "timestamp");
    TruthyIsNotEmpty(id);
    TruthyIsNotEmpty(own);
    assert IsField(id, meta, "id") && IsField(other, meta, "session_id") && IsFirstOf(Or(id, other), id, other);
    assert IsField(own, meta, "timestamp") && IsField(outer, record.fields, "timestamp");
    assert IsFirstOf(Or(own, outer), own, outer);
    ParentIsNamed(meta, record, clock);
  }

  lemma ParentIsNamed(meta: map<string, Json>, record: Json, clock: Clock)
    requires IsMeta(record) && meta == record.fields["payload"].fields
    ensures NamesParent(meta, ReadMeta(record, clock).parentThread)
  {
    var top := Get(meta, "parent_thread_id");
    assert IsField(top, meta, "parent_thread_id");
    TruthyIsNotEmpty(top);
    if HasObject(meta, "source") {
      var inner := Get(meta["source"].fields, "parent_thread_id");
      assert IsField(inner, meta["source"].fields, "parent_thread_id");
      TruthyIsNotEmpty(inner);
    }
  }

  lemma {:induction false} MetaStandsThere(records: seq<Json>, clock: Clock)
    ensures MetaCount(records) == |Positions(records, IsMetaEvent)|
    ensures MetaCount(records) == 0 ==> MetaOf(records, clock) == NO_META
    ensures MetaCount(records) > 0 ==>
              var p := Positions(records, IsMetaEvent)[0];
              0 <= p < |records| && IsMetaEvent(records[p]) && IsMetaOf(MetaOf(records, clock), records[p], clock)
  {
    if records != [] {
      var n := |records| - 1;
      MetaStandsThere(records[..n], clock);
      TestsAgree(records[n]);
      if IsMeta(records[n]) {
        ReadMetaIsThat(records[n], clock);
      }
    }
  }

  lemma {:induction false} FileNameIsThat(path: string)
    ensures IsFileName(path, FileName(path))
  {
    if path == "" || path[|path| - 1] == '/' {
      NoName(path);
    } else {
      var init, c := path[..|path| - 1], path[|path| - 1];
      FileNameIsThat(init);
      NameGrows(init, FileName(init), c);
      assert path == init + [c];
    }
  }

  lemma NoName(path: string)
    requires path == "" || path[|path| - 1] == '/'
    ensures IsFileName(path, "") && FileName(path) == ""
  {
    assert path[|path|..] == "";
  }

  lemma NameGrows(path: string, name: string, c: char)
    requires IsFileName(path, name) && c != '/'
    ensures IsFileName(path + [c], name + [c])
  {
    assert (path + [c])[|path| - |name|..] == path[|path| - |name|..] + [c];
  }

  lemma StemIsThat(path: string)
    ensures IsStem(FileName(path), SessionIdFromPath(path))
  {
    var name := FileName(path);
    if EndsWith(name, ".jsonl.gz") {
      SuffixIsDropped(name, ".jsonl.gz");
    } else if EndsWith(name, ".jsonl") {
      SuffixIsDropped(name, ".jsonl");
    }
  }

  lemma SuffixIsDropped(name: string, suffix: string)
    requires EndsWith(name, suffix)
    ensures name == name[..|name| - |suffix|] + suffix
  {
  }

  /** The index of a log is what its records say. */
  lemma IndexIsThat(records: seq<Json>, path: string, size: nat, clock: Clock)
    ensures IsIndexOf(IndexOf(records, path, size, clock), records, path, size, clock)
  {
    var item := IndexOf(records, path, size, clock);
    var tokenAt, taskAt, metaAt := Positions(records, IsTokenEvent), Positions(records, IsTaskEvent),
      Positions(records, IsMetaEvent);
    PositionsAreListed(records, IsTokenEvent);
    PositionsAreListed(records, IsTaskEvent);
    PositionsAreListed(records, IsMetaEvent);
    TokensStandThere(records);
    forall i | 0 <= i < |tokenAt|
      ensures IsTimeOf(records, clock, tokenAt[i], item.times[i])
    {
      TimeIsThat(records, clock, TokenPositions(records)[i]);
    }
    assert TokensAreThose(item, records, clock, tokenAt);
    BoundariesStandThere(records, clock);
    forall i | 0 <= i < |taskAt|
      ensures BoundaryStands(records, clock, item.boundaries[i], taskAt[i])
    {
    }
    assert TasksAreThose(item, records, clock, tokenAt, taskAt);
    MetaStandsThere(records, clock);
    assert MetaIsThat(item, records, clock, metaAt);
    FileNameIsThat(path);
    StemIsThat(path);
    TruthyIsNotEmpty(item.meta.sessionId);
    assert IsFirstOf(item.sessionId, item.meta.sessionId, Text(SessionIdFromPath(path)));
  }

  /** The parsed values as the lines of a file. */
  ghost function AsLines(values: seq<Json>): (lines: seq<Line>)
    ensures |lines| == |values| && forall i :: 0 <= i < |values| ==> lines[i] == Parsed(values[i])
  {
    seq(|values|, i requires 0 <= i < |values| => Parsed(values[i]))
  }

  lemma {:induction false} DictsAreRecords(values: seq<Json>, lines: seq<Line>)
    requires |lines| == |values| && forall i :: 0 <= i < |values| ==> lines[i] == Parsed(values[i])
    ensures RecordsOf(lines) == Dicts(values)
  {
    if values != [] {
      DictsAreRecords(values[..|values| - 1], lines[..|values| - 1]);
    }
  }

  /** The index of a log is that of its dictionaries, each once, in order, and read as the normalisation law says. */
  ghost predicate IsIndexOfLog(item: Index, values: seq<Json>, path: string, size: nat, clock: Clock) {
    exists records, at ::
      && ListsDictionaries(AsLines(values), at) && IsReading(AsLines(values), records, at)
      && IsIndexOf(item, records, path, size, clock)
  }

  lemma LogIndexIsThat(values: seq<Json>, path: string, size: nat, clock: Clock)
    ensures IsIndexOfLog(IndexOf(Dicts(values), path, size, clock), values, path, size, clock)
    ensures ValidIndex(IndexOf(Dicts(values), path, size, clock))
  {
    DictsAreRecords(values, AsLines(values));
    var at := RecordsFollowLines(AsLines(values));
    IndexIsThat(Dicts(values), path, size, clock);
    IndexIsValid(Dicts(values), path, size, clock);
  }

  /** What one more record adds to the dictionaries, the meta and the task boundaries. */
  lemma RecordsGrow(values: seq<Json>, v: nat)
    requires v < |values|
    ensures Dicts(values[..v + 1]) ==
            Dicts(values[..v]) + if values[v].Object? then [NormalizeUsageRecord(values[v])] else []
  {
    assert values[..v + 1][..v] == values[..v];
  }

  lemma MetaGrows(records: seq<Json>, record: Json, clock: Clock)
    ensures MetaCount(records + [record]) == MetaCount(records) + if IsMeta(record) then 1 else 0
    ensures MetaOf(records + [record], clock) ==
            if MetaCount(records) == 0 && IsMeta(record) then ReadMeta(record, clock) else MetaOf(records, clock)
  {
    assert (records + [record])[..|records|] == records;
  }

  lemma BoundariesGrow(records: seq<Json>, record: Json, clock: Clock)
    ensures BoundariesOf(records + [record], clock) ==
            BoundariesOf(records, clock)
            + if StartsTask(record) then [Boundary(|TokensOf(records)|,
                                                   clock(Get(Get(record.fields, "payload").fields, "started_at")))]
              else []
  {
    assert (records + [record])[..|records|] == records;
  }

  ghost predicate Summed(records: seq<Json>, clock: Clock, metaCount: nat, meta: Meta, boundaries: seq<Boundary>) {
    && metaCount == MetaCount(records) && meta == MetaOf(records, clock)
    && boundaries == BoundariesOf(records, clock)
  }

  lemma SummedGrows(records: seq<Json>, record: Json, clock: Clock, metaCount: nat, meta: Meta,
          boundaries: seq<Boundary>)
    requires Summed(records, clock, metaCount, meta, boundaries)
    ensures Summed(records + [record], clock, metaCount + if IsMeta(record) then 1 else 0,
                   if metaCount == 0 && IsMeta(record) then ReadMeta(record, clock) else meta,
                   boundaries
                   + if StartsTask(record)
                     then [Boundary(|TokensOf(records)|,
                                    clock(Get(Get(record.fields, "payload").fields, "started_at")))]
                     else [])
  {
    MetaGrows(records, record, clock);
    BoundariesGrow(records, record, clock);
  }

  /** `_session_index` over the records of one logical session. */
  method SessionIndex(values: seq<Json>, path: string, size: nat, clock: Clock) returns (index: Index)
    ensures index == IndexOf(Dicts(values), path, size, clock) && ValidIndex(index)
    ensures IsIndexOfLog(index, values, path, size, clock)
  {
    var scan := Scan([], [], [], None);
    var meta, metaCount, boundaries := NO_META, 0, [];
    ghost var records: seq<Json> := [];
    for v := 0 to |values|
      invariant records == Dicts(values[..v])
      invariant Scanned(scan, records, clock)
      invariant Summed(records, clock, metaCount, meta, boundaries)
    {
      RecordsGrow(values, v);
      if values[v].Object? {
        var record := NormalizeUsageRecord(values[v]);
        SummedGrows(records, record, clock, metaCount, meta, boundaries);
        var rawTokenCount := |scan.tokens|;
        scan := ScanRecord(scan, record, clock, records);
        if IsMeta(record) {
          metaCount := metaCount + 1;
          if metaCount == 1 {
            meta := ReadMeta(record, clock);
          }
        }
        if StartsTask(record) {
          var startedAt := clock(Get(Get(record.fields, "payload").fields, "started_at"));
          boundaries := boundaries + [Boundary(rawTokenCount, startedAt)];
        }
        records := records + [record];
      }
    }
    assert values[..|values|] == values;
    LogIndexIsThat(values, path, size, clock);
    index := Index(path, size, Or(meta.sessionId, Text(SessionIdFromPath(path))), meta, metaCount, scan.tokens,
      scan.times, boundaries);
  }

  // ----- the two overlap searches -----

  /** The child's first `size` tokens are the parent's last ones. */
  predicate Overlaps(child: seq<Json>, parent: seq<Json>, size: nat) {
    size <= |child| && size <= |parent| && child[..size] == parent[|parent| - size..]
  }

  /** The child's first `size` tokens stand together somewhere in the parent. */
  predicate Inside(child: seq<Json>, parent: seq<Json>, size: nat) {
    size <= |child| && exists index :: 0 <= index <= |parent| - size && HoldsAt(child, parent, size, index)
  }

  predicate HoldsAt(child: seq<Json>, parent: seq<Json>, size: nat, index: int)
    requires size <= |child| && 0 <= index <= |parent| - size
  {
    parent[index..index + size] == child[..size]
  }

  lemma OverlapIsInside(child: seq<Json>, parent: seq<Json>, size: nat)
    requires Overlaps(child, parent, size)
    ensures Inside(child, parent, size)
  {
    assert parent[|parent| - size..] == parent[|parent| - size..|parent| - size + size];
    assert HoldsAt(child, parent, size, |parent| - size);
  }

  function Min(a: nat, b: nat): nat { if a < b then a else b }

  function Max(a: nat, b: nat): nat { if a < b then b else a }

  /** `_longest_prefix_suffix` */
  method LongestPrefixSuffix(child: seq<Json>, parent: seq<Json>) returns (size: nat)
    ensures Overlaps(child, parent, size)
    ensures forall n: nat :: Overlaps(child, parent, n) ==> n <= size
  {
    size := Min(|child|, |parent|);
    while size > 0
      invariant size <= |child| && size <= |parent|
      invariant forall n: nat :: Overlaps(child, parent, n) ==> n <= size
    {
      if child[..size] == parent[|parent| - size..] {
        return;
      }
      assert !Overlaps(child, parent, size);
      size := size - 1;
    }
  }

  /** `any(parent[index:index + size] == prefix for index in ...)` */
  method FoundInside(child: seq<Json>, parent: seq<Json>, size: nat) returns (found: bool)
    requires size <= |child| && size <= |parent|
    ensures found <==> Inside(child, parent, size)
  {
    for index := 0 to |parent| - size + 1
      invariant forall i :: 0 <= i < index ==> !HoldsAt(child, parent, size, i)
    {
      if parent[index..index + size] == child[..size] {
        assert HoldsAt(child, parent, size, index);
        return true;
      }
    }
    return false;
  }

  /** `_longest_prefix_inside` */
  method LongestPrefixInside(child: seq<Json>, parent: seq<Json>) returns (size: nat)
    ensures Inside(child, parent, size)
    ensures forall n: nat :: Inside(child, parent, n) ==> n <= size
  {
    size := Min(|child|, |parent|);
    while size > 0
      invariant size <= |child| && size <= |parent|
      invariant forall n: nat :: Inside(child, parent, n) ==> n <= size
    {
      var found := FoundInside(child, parent, size);
      if found {
        return;
      }
      size := size - 1;
    }
    assert HoldsAt(child, parent, 0, 0);
  }

  // ----- the skip count -----

  /** What the index of any session satisfies. */
  ghost predicate ValidIndex(item: Index) {
    |item.tokens| == |item.times|
    && (forall i, j :: 0 <= i < j < |item.times| ==> Ordered(item.times[i], item.times[j]))
    && (forall i :: 0 <= i < |item.boundaries| ==> item.boundaries[i].rawTokenCount <= |item.tokens|)
    && forall i, j :: 0 <= i < j < |item.boundaries| ==>
       item.boundaries[i].rawTokenCount <= item.boundaries[j].rawTokenCount
  }

  lemma {:induction false} BoundariesCountTokens(records: seq<Json>, clock: Clock, i: nat, j: nat)
    requires i <= j < |BoundariesOf(records, clock)|
    ensures BoundariesOf(records, clock)[i].rawTokenCount <= BoundariesOf(records, clock)[j].rawTokenCount <=
            |TokensOf(records)|
  {
    var init := records[..|records| - 1];
    if j < |BoundariesOf(init, clock)| {
      BoundariesCountTokens(init, clock, i, j);
    } else if i < j {
      BoundariesCountTokens(init, clock, i, i);
    }
  }

  lemma IndexIsValid(records: seq<Json>, path: string, size: nat, clock: Clock)
    ensures ValidIndex(IndexOf(records, path, size, clock))
  {
    var item := IndexOf(records, path, size, clock);
    forall i, j | 0 <= i < j < |item.times|
      ensures Ordered(item.times[i], item.times[j])
    {
      TimesNeverGoBack(records, clock, i, j);
    }
    forall i, j | 0 <= i <= j < |item.boundaries|
      ensures item.boundaries[i].rawTokenCount <= item.boundaries[j].rawTokenCount <= |item.tokens|
    {
      BoundariesCountTokens(records, clock, i, j);
    }
  }

  const OWN_TASK_TOLERANCE_MS := 5_000

  /** A task that began no earlier than the session and right after `skipped` tokens. */
  predicate IsMatching(item: Index, b: Boundary, skipped: nat) {
    b.rawTokenCount == skipped && b.startedAt.Some?
    && (item.meta.startedAt.None? || b.startedAt.value >= item.meta.startedAt.value)
  }

  /** A task that began within the tolerance of the session's own start. */
  predicate IsOwnTask(item: Index, b: Boundary) {
    b.startedAt.Some? && item.meta.startedAt.Some?
    && -OWN_TASK_TOLERANCE_MS <= b.startedAt.value - item.meta.startedAt.value <= OWN_TASK_TOLERANCE_MS
  }

  predicate HasMatching(item: Index, skipped: nat) {
    exists i :: 0 <= i < |item.boundaries| && IsMatching(item, item.boundaries[i], skipped)
  }

  predicate HasOwnTask(item: Index) {
    exists i :: 0 <= i < |item.boundaries| && IsOwnTask(item, item.boundaries[i])
  }

  /** The parent's tokens that existed when the child session started. */
  function ParentTokens(item: Index, parent: Option<Index>): seq<Json>
    requires parent.Some? ==> |parent.value.tokens| == |parent.value.times|
  {
    if parent.None? then []
    else if item.meta.startedAt.Some? then Cut(parent.value.tokens, parent.value.times, item.meta.startedAt.value)
    else parent.value.tokens
  }

  /** `n` is the length of the inherited head that the tokens alone show. */
  ghost predicate IsOverlap(item: Index, parent: Option<Index>, n: nat)
    requires parent.Some? ==> |parent.value.tokens| == |parent.value.times|
  {
    var tokens := ParentTokens(item, parent);
    if item.meta.isSubagent then Inside(item.tokens, tokens, n)
      && forall m: nat :: Inside(item.tokens, tokens, m) ==> m <= n
    else Overlaps(item.tokens, tokens, n) && forall m: nat :: Overlaps(item.tokens, tokens, m) ==> m <= n
  }

  /** A boundary that may raise the skip count above an overlap of `n` tokens. */
  predicate MayRaise(item: Index, parent: Option<Index>, n: nat, b: Boundary) {
    item.meta.isSubagent && !HasMatching(item, n)
    && if HasOwnTask(item) then IsOwnTask(item, b) else parent.None? && item.metaCount == 1
  }

  /** Boundary `i` may raise an overlap of `n` tokens to `skipped`. */
  predicate RaisedBy(item: Index, parent: Option<Index>, n: nat, skipped: nat, i: int) {
    0 <= i < |item.boundaries| && item.boundaries[i].rawTokenCount == skipped
      && MayRaise(item, parent, n, item.boundaries[i])
  }

  /** `skipped` is `n`, or the largest boundary count above it that may raise it. */
  ghost predicate Raises(item: Index, parent: Option<Index>, n: nat, skipped: nat) {
    && n <= skipped && (skipped == n || exists i :: RaisedBy(item, parent, n, skipped, i))
    && forall i :: 0 <= i < |item.boundaries| && MayRaise(item, parent, n, item.boundaries[i]) ==>
         item.boundaries[i].rawTokenCount <= skipped
  }

  /** The skip count is the overlap, or the largest boundary count that may raise it. */
  ghost predicate IsSkip(item: Index, parent: Option<Index>, n: nat, skipped: nat)
    requires parent.Some? ==> |parent.value.tokens| == |parent.value.times|
  {
    IsOverlap(item, parent, n) && Raises(item, parent, n, skipped)
  }

  lemma OverlapIsUnique(item: Index, parent: Option<Index>, m: nat, n: nat)
    requires parent.Some? ==> |parent.value.tokens| == |parent.value.times|
    requires IsOverlap(item, parent, m) && IsOverlap(item, parent, n)
    ensures m == n
  {
  }

  /** There is one skip count, and it never exceeds the child's tokens nor falls short of any child
      prefix that is a suffix of the cut parent. */
  lemma SkipIsBounded(item: Index, parent: Option<Index>, n: nat, skipped: nat)
    requires ValidIndex(item) && (parent.Some? ==> ValidIndex(parent.value)) && IsSkip(item, parent, n, skipped)
    ensures skipped <= |item.tokens|
    ensures forall m: nat :: Overlaps(item.tokens, ParentTokens(item, parent), m) ==> m <= skipped
    ensures parent.Some? ==> ParentTokens(item, parent) <= parent.value.tokens
    ensures forall other: nat, k: nat :: IsSkip(item, parent, k, other) ==> other == skipped
  {
    if parent.Some? && item.meta.startedAt.Some? {
      CutOfOrderedIsPrefix(parent.value.tokens, parent.value.times, item.meta.startedAt.value);
    }
    forall m: nat | Overlaps(item.tokens, ParentTokens(item, parent), m)
      ensures m <= skipped
    {
      OverlapIsInside(item.tokens, ParentTokens(item, parent), m);
    }
    forall other: nat, k: nat | IsSkip(item, parent, k, other)
      ensures other == skipped
    {
      OverlapIsUnique(item, parent, k, n);
    }
  }

  /** The last task boundary that satisfies the test, as `list[-1]` of a filtered list. */
  method LastOwnTask(item: Index) returns (last: int)
    ensures -1 <= last < |item.boundaries|
    ensures last == -1 <==> !HasOwnTask(item)
    ensures last >= 0 ==> IsOwnTask(item, item.boundaries[last])
    ensures forall i :: last < i < |item.boundaries| ==> !IsOwnTask(item, item.boundaries[i])
  {
    last := -1;
    for k := 0 to |item.boundaries|
      invariant -1 <= last < k
      invariant last >= 0 ==> IsOwnTask(item, item.boundaries[last])
      invariant forall i :: last < i < k ==> !IsOwnTask(item, item.boundaries[i])
    {
      if IsOwnTask(item, item.boundaries[k]) {
        last := k;
      }
    }
  }

  method LastMatching(item: Index, skipped: nat) returns (last: int)
    ensures -1 <= last < |item.boundaries|
    ensures last == -1 <==> !HasMatching(item, skipped)
    ensures last >= 0 ==> IsMatching(item, item.boundaries[last], skipped)
  {
    last := -1;
    for k := 0 to |item.boundaries|
      invariant -1 <= last < k
      invariant last >= 0 ==> IsMatching(item, item.boundaries[last], skipped)
      invariant forall i :: last < i < k ==> !IsMatching(item, item.boundaries[i], skipped)
    {
      if IsMatching(item, item.boundaries[k], skipped) {
        last := k;
      }
    }
  }

  method LargestBoundary(item: Index) returns (largest: nat)
    ensures largest == 0 || exists i :: 0 <= i < |item.boundaries| && item.boundaries[i].rawTokenCount == largest
    ensures forall i :: 0 <= i < |item.boundaries| ==> item.boundaries[i].rawTokenCount <= largest
  {
    largest := 0;
    for k := 0 to |item.boundaries|
      invariant largest == 0 || exists i :: 0 <= i < k && item.boundaries[i].rawTokenCount == largest
      invariant forall i :: 0 <= i < k ==> item.boundaries[i].rawTokenCount <= largest
    {
      largest := Max(largest, item.boundaries[k].rawTokenCount);
    }
  }

  /** The skip count of a child and its parent, for some overlap. */
  ghost predicate SkipFor(item: Index, parent: Option<Index>, skipped: nat) {
    (parent.Some? ==> |parent.value.tokens| == |parent.value.times|)
      && exists overlap :: IsSkip(item, parent, overlap, skipped)
  }

  /** The two searches: a subagent's overlap may lie anywhere in the parent. */
  method Overlap(item: Index, parent: Option<Index>) returns (n: nat)
    requires ValidIndex(item) && (parent.Some? ==> ValidIndex(parent.value))
    ensures IsOverlap(item, parent, n)
  {
    var tokens := ParentTokens(item, parent);
    n := LongestPrefixSuffix(item.tokens, tokens);
    if item.meta.isSubagent {
      var inside := LongestPrefixInside(item.tokens, tokens);
      OverlapIsInside(item.tokens, tokens, n);
      n := Max(n, inside);
    }
  }

  /** The task boundaries of a subagent: a matching one keeps the count, its own last task or, without a
      parent, its largest boundary may raise it. */
  method RaisedCount(item: Index, parent: Option<Index>, n: nat) returns (skipped: nat)
    requires ValidIndex(item) && item.meta.isSubagent
    ensures Raises(item, parent, n, skipped)
  {
    var matching := LastMatching(item, n);
    var own := LastOwnTask(item);
    skipped := n;
    if matching >= 0 {
      skipped := Max(n, item.boundaries[matching].rawTokenCount);
    } else if own >= 0 {
      skipped := Max(n, item.boundaries[own].rawTokenCount);
      OwnTaskRaises(item, parent, n, own);
    } else if parent.None? && item.metaCount == 1 {
      var largest := LargestBoundary(item);
      skipped := Max(n, largest);
      LargestRaises(item, parent, n, largest);
    }
  }

  lemma OwnTaskRaises(item: Index, parent: Option<Index>, n: nat, own: nat)
    requires ValidIndex(item) && item.meta.isSubagent && !HasMatching(item, n)
    requires own < |item.boundaries| && IsOwnTask(item, item.boundaries[own])
    requires forall i :: own < i < |item.boundaries| ==> !IsOwnTask(item, item.boundaries[i])
    ensures Raises(item, parent, n, Max(n, item.boundaries[own].rawTokenCount))
  {
    LaterCountsMore(item, own);
    assert HasOwnTask(item);
    assert RaisedBy(item, parent, n, item.boundaries[own].rawTokenCount, own);
  }

  lemma LargestRaises(item: Index, parent: Option<Index>, n: nat, largest: nat)
    requires item.meta.isSubagent && !HasMatching(item, n) && !HasOwnTask(item) && parent.None? && item.metaCount == 1
    requires largest == 0 || exists i :: 0 <= i < |item.boundaries| && item.boundaries[i].rawTokenCount == largest
    requires forall i :: 0 <= i < |item.boundaries| ==> item.boundaries[i].rawTokenCount <= largest
    ensures Raises(item, parent, n, Max(n, largest))
  {
    if largest > n {
      var i :| 0 <= i < |item.boundaries| && item.boundaries[i].rawTokenCount == largest;
      assert RaisedBy(item, parent, n, largest, i);
    }
  }

  /** One round of the second loop of `replay_skip_counts`. */
  method SkipCount(item: Index, parent: Option<Index>) returns (skipped: nat)
    requires ValidIndex(item) && (parent.Some? ==> ValidIndex(parent.value))
    ensures SkipFor(item, parent, skipped)
  {
    var overlap := Overlap(item, parent);
    skipped := overlap;
    if item.meta.isSubagent {
      skipped := RaisedCount(item, parent, overlap);
    }
    assert IsSkip(item, parent, overlap, skipped);
  }

  lemma LaterCountsMore(item: Index, own: nat)
    requires ValidIndex(item) && own < |item.boundaries|
    ensures forall i :: 0 <= i <= own ==> item.boundaries[i].rawTokenCount <= item.boundaries[own].rawTokenCount
  {
  }

  // ----- all files -----

  /** The most complete copy of a session: the largest, and the first read among equals. */
  function ParentCopy(indexes: seq<Index>, id: Json): Option<Index> {
    if indexes == [] then None
    else
      var before, last := ParentCopy(indexes[..|indexes| - 1], id), indexes[|indexes| - 1];
      if last.sessionId == id && (before.None? || last.size > before.value.size) then Some(last) else before
  }

  lemma {:induction false} ParentCopyIsLargest(indexes: seq<Index>, id: Json)
    ensures ParentCopy(indexes, id).Some? <==> exists i :: 0 <= i < |indexes| && indexes[i].sessionId == id
    ensures ParentCopy(indexes, id).Some? ==>
            ParentCopy(indexes, id).value in indexes && ParentCopy(indexes, id).value.sessionId == id
    ensures forall i :: 0 <= i < |indexes| && indexes[i].sessionId == id ==>
            indexes[i].size <= ParentCopy(indexes, id).value.size
  {
    if indexes != [] {
      ParentCopyIsLargest(indexes[..|indexes| - 1], id);
      assert indexes[|indexes| - 1] in indexes;
    }
  }

  function ParentId(item: Index): Json {
    Or(item.meta.forkedFrom, if item.meta.isSubagent then item.meta.parentThread else Null)
  }

  function ParentOf(indexes: seq<Index>, item: Index): Option<Index> {
    if Truthy(ParentId(item)) then ParentCopy(indexes, ParentId(item)) else None
  }

  method BySession(indexes: seq<Index>) returns (bySession: map<Json, Index>)
    ensures forall id :: (if id in bySession then Some(bySession[id]) else None) == ParentCopy(indexes, id)
  {
    bySession := map[];
    for k := 0 to |indexes|
      invariant forall id :: (if id in bySession then Some(bySession[id]) else None) == ParentCopy(indexes[..k], id)
    {
      assert indexes[..k + 1][..k] == indexes[..k];
      var item := indexes[k];
      assert (if item.sessionId in bySession then Some(bySession[item.sessionId]) else None) ==
        ParentCopy(indexes[..k], item.sessionId);
      if item.sessionId !in bySession || item.size > bySession[item.sessionId].size {
        bySession := bySession[item.sessionId := item];
      }
    }
    assert indexes[..|indexes|] == indexes;
  }

  ghost predicate IsSkipOf(indexes: seq<Index>, item: Index, skipped: nat) {
    SkipFor(item, ParentOf(indexes, item), skipped)
  }

  /** Whether `n` is the skip count of file `i`. */
  ghost function SkipsOf(indexes: seq<Index>): (nat, nat) -> bool {
    (i: nat, n: nat) => i < |indexes| && IsSkipOf(indexes, indexes[i], n)
  }

  /** Some file among the first `k` has this path and this skip count. */
  ghost predicate Reported(paths: seq<string>, skips: (nat, nat) -> bool, k: nat, path: string, n: nat)
    requires k <= |paths|
  {
    exists i: nat :: i < k && paths[i] == path && skips(i, n)
  }

  /** Every count is positive and some file's, and every file without one skips nothing. */
  ghost predicate Covered(paths: seq<string>, skips: (nat, nat) -> bool, k: nat, result: map<string, nat>)
    requires k <= |paths|
  {
    && (forall path :: path in result ==> result[path] > 0 && Reported(paths, skips, k, path, result[path]))
    && (forall i: nat :: i < k ==> paths[i] in result || skips(i, 0))
  }

  lemma CoverNext(paths: seq<string>, skips: (nat, nat) -> bool, k: nat, result: map<string, nat>, skipped: nat)
    requires k < |paths| && Covered(paths, skips, k, result) && skips(k, skipped)
    ensures Covered(paths, skips, k + 1, if skipped > 0 then result[paths[k] := skipped] else result)
  {
    var after := if skipped > 0 then result[paths[k] := skipped] else result;
    forall path | path in after
      ensures after[path] > 0 && Reported(paths, skips, k + 1, path, after[path])
    {
      assert (skipped > 0 && path == paths[k]) || Reported(paths, skips, k, path, result[path]);
    }
  }

  function PathsOf(indexes: seq<Index>): (paths: seq<string>)
    ensures |paths| == |indexes| && forall i :: 0 <= i < |indexes| ==> paths[i] == indexes[i].path
  {
    seq(|indexes|, i requires 0 <= i < |indexes| => indexes[i].path)
  }

  method SkipOfFile(indexes: seq<Index>, bySession: map<Json, Index>, item: Index) returns (skipped: nat)
    requires forall i :: 0 <= i < |indexes| ==> ValidIndex(indexes[i])
    requires ValidIndex(item)
    requires forall id :: (if id in bySession then Some(bySession[id]) else None) == ParentCopy(indexes, id)
    ensures IsSkipOf(indexes, item, skipped)
  {
    var id := ParentId(item);
    var parent := if Truthy(id) && id in bySession then Some(bySession[id]) else None;
    assert (if id in bySession then Some(bySession[id]) else None) == ParentCopy(indexes, id);
    ParentCopyIsLargest(indexes, id);
    skipped := SkipCount(item, parent);
    assert parent == ParentOf(indexes, item);
  }

  // ----- what a reported count means, in the fields of the indexes alone -----

  /** The session a file names as the one it continues: what it forked from, else a subagent's parent thread. */
  predicate Continues(item: Index, id: Json) {
    if IsEmptyValue(item.meta.forkedFrom)
    then item.meta.isSubagent && !IsEmptyValue(item.meta.parentThread) && id == item.meta.parentThread
    else id == item.meta.forkedFrom
  }

  /** File `j` is the parent of `item`: the first of the largest files of the session it continues. */
  ghost predicate IsParent(indexes: seq<Index>, item: Index, j: int) {
    && 0 <= j < |indexes| && Continues(item, indexes[j].sessionId)
    && forall k :: 0 <= k < |indexes| && indexes[k].sessionId == indexes[j].sessionId ==>
         indexes[k].size < indexes[j].size || (indexes[k].size == indexes[j].size && j <= k)
  }

  /** The child can have inherited the parent's first `c` tokens: those dated when it started, or all. */
  ghost predicate Inheritable(item: Index, parent: Index, c: nat) {
    && c <= |parent.tokens| == |parent.times|
    && if item.meta.startedAt.None? then c == |parent.tokens|
       else forall t :: 0 <= t < |parent.times| ==>
              (t < c <==> parent.times[t].At? && parent.times[t].ms <= item.meta.startedAt.value)
  }

  /** The child's first `n` tokens are the `n` that end at `end` in `known`. */
  predicate StandsAt(tokens: seq<Json>, known: seq<Json>, n: nat, end: int) {
    n <= |tokens| && n <= end <= |known| && tokens[..n] == known[end - n..end]
  }

  /** `n` is the longest head that a fork shares with the end of the known tokens, or a subagent with any
      part of them. */
  ghost predicate LongestHead(item: Index, known: seq<Json>, n: nat) {
    if item.meta.isSubagent then
      (exists end :: StandsAt(item.tokens, known, n, end))
      && forall m: nat, end :: StandsAt(item.tokens, known, m, end) ==> m <= n
    else
      StandsAt(item.tokens, known, n, |known|)
      && forall m: nat :: StandsAt(item.tokens, known, m, |known|) ==> m <= n
  }

  /** Some task of the child began, not before the child itself, right after `n` tokens. */
  ghost predicate TaskBeginsAfter(item: Index, n: nat) {
    exists i :: 0 <= i < |item.boundaries| && BeginsAfter(item, item.boundaries[i], n)
  }

  predicate BeginsAfter(item: Index, b: Boundary, n: nat) {
    b.rawTokenCount == n
    && match b.startedAt
       case None => false
       case Some(began) => item.meta.startedAt.None? || !(began < item.meta.startedAt.value)
  }

  /** The task began at most five seconds before or after the child. */
  predicate BeganWithChild(item: Index, b: Boundary) {
    match (b.startedAt, item.meta.startedAt)
    case (Some(began), Some(start)) => began < start + 5_001 && start < began + 5_001
    case _ => false
  }

  /** Task `i` is the last that began with the child. */
  ghost predicate LastWithChild(item: Index, i: int) {
    && 0 <= i < |item.boundaries| && BeganWithChild(item, item.boundaries[i])
    && forall k :: i < k < |item.boundaries| ==> !BeganWithChild(item, item.boundaries[k])
  }

  ghost predicate IsLargestOf(item: Index, n: nat, skipped: nat) {
    && n <= skipped && (forall i :: 0 <= i < |item.boundaries| ==> item.boundaries[i].rawTokenCount <= skipped)
    && (skipped == n || exists i :: 0 <= i < |item.boundaries| && item.boundaries[i].rawTokenCount == skipped)
  }

  /** How many of the child's tokens are not its own, given the tokens it can have inherited. */
  ghost predicate IsInherited(item: Index, known: seq<Json>, orphan: bool, skipped: nat) {
    exists n: nat :: LongestHead(item, known, n) && IsRaised(item, orphan, n, skipped)
  }

  /** A subagent's tasks may raise the head: none does if a task begins right after it, else the last task that
      began with the child, else, without a parent and with one session_meta, the latest task. */
  ghost predicate IsRaised(item: Index, orphan: bool, n: nat, skipped: nat) {
    if !item.meta.isSubagent || TaskBeginsAfter(item, n) then skipped == n
    else if exists i :: LastWithChild(item, i) then
      exists i :: LastWithChild(item, i) && skipped == Max(n, item.boundaries[i].rawTokenCount)
    else if orphan && item.metaCount == 1 then IsLargestOf(item, n, skipped)
    else skipped == n
  }

  ghost predicate IsCountOf(indexes: seq<Index>, item: Index, skipped: nat) {
    if forall j :: !IsParent(indexes, item, j) then IsInherited(item, [], true, skipped)
    else
      exists j, c: nat :: IsParent(indexes, item, j) && Inheritable(item, indexes[j], c)
                     && IsInherited(item, indexes[j].tokens[..c], false, skipped)
  }

  lemma {:induction false} ParentCopyIsFirst(indexes: seq<Index>, id: Json) returns (j: int)
    ensures ParentCopy(indexes, id).None? ==> forall k :: 0 <= k < |indexes| ==> indexes[k].sessionId != id
    ensures ParentCopy(indexes, id).Some? ==>
              0 <= j < |indexes| && indexes[j] == ParentCopy(indexes, id).value && indexes[j].sessionId == id
              && forall k :: 0 <= k < |indexes| && indexes[k].sessionId == id ==>
                   indexes[k].size < indexes[j].size || (indexes[k].size == indexes[j].size && j <= k)
  {
    j := -1;
    if indexes != [] {
      var n := |indexes| - 1;
      var before := ParentCopy(indexes[..n], id);
      j := ParentCopyIsFirst(indexes[..n], id);
      if indexes[n].sessionId == id && (before.None? || indexes[n].size > before.value.size) {
        j := n;
      }
    }
  }

  lemma ParentIsParent(indexes: seq<Index>, item: Index) returns (j: int)
    ensures ParentOf(indexes, item).None? ==> forall k :: !IsParent(indexes, item, k)
    ensures ParentOf(indexes, item).Some? ==> IsParent(indexes, item, j) && indexes[j] == ParentOf(indexes, item).value
  {
    TruthyIsNotEmpty(item.meta.forkedFrom);
    TruthyIsNotEmpty(item.meta.parentThread);
    j := ParentCopyIsFirst(indexes, ParentId(item));
  }

  lemma CutIsInheritable(item: Index, parent: Index) returns (c: nat)
    requires ValidIndex(parent)
    ensures Inheritable(item, parent, c) && ParentTokens(item, Some(parent)) == parent.tokens[..c]
  {
    if item.meta.startedAt.Some? {
      CutOfOrderedIsPrefix(parent.tokens, parent.times, item.meta.startedAt.value);
    }
    c := |ParentTokens(item, Some(parent))|;
  }

  lemma OverlapIsLongestHead(item: Index, parent: Option<Index>, n: nat)
    requires (parent.Some? ==> |parent.value.tokens| == |parent.value.times|) && IsOverlap(item, parent, n)
    ensures LongestHead(item, ParentTokens(item, parent), n)
  {
    var known := ParentTokens(item, parent);
    HeadStands(item.tokens, known, n);
    if item.meta.isSubagent {
      forall m: nat, end | StandsAt(item.tokens, known, m, end)
        ensures m <= n
      {
        HeadStands(item.tokens, known, m);
      }
    } else {
      forall m: nat | StandsAt(item.tokens, known, m, |known|)
        ensures m <= n
      {
        HeadStands(item.tokens, known, m);
      }
    }
  }

  lemma HeadStands(tokens: seq<Json>, known: seq<Json>, m: nat)
    ensures Overlaps(tokens, known, m) <==> StandsAt(tokens, known, m, |known|)
    ensures Inside(tokens, known, m) <==> exists end :: StandsAt(tokens, known, m, end)
  {
    if m <= |known| {
      assert known[|known| - m..] == known[|known| - m..|known|];
    }
    if Inside(tokens, known, m) {
      var index :| 0 <= index <= |known| - m && HoldsAt(tokens, known, m, index);
      assert StandsAt(tokens, known, m, index + m);
    }
    if end :| StandsAt(tokens, known, m, end) {
      assert HoldsAt(tokens, known, m, end - m);
    }
  }

  lemma OwnTaskIsWithChild(item: Index, b: Boundary)
    ensures IsOwnTask(item, b) <==> BeganWithChild(item, b)
  {
  }

  lemma {:induction false} LastOwnUpTo(item: Index, n: nat) returns (last: int)
    requires n <= |item.boundaries|
    ensures -1 <= last < n && (last >= 0 ==> BeganWithChild(item, item.boundaries[last]))
    ensures forall k :: last < k < n ==> !BeganWithChild(item, item.boundaries[k])
  {
    last := -1;
    if n > 0 {
      last := LastOwnUpTo(item, n - 1);
      if BeganWithChild(item, item.boundaries[n - 1]) {
        last := n - 1;
      }
    }
  }

  lemma HasOwnHasLast(item: Index)
    ensures HasOwnTask(item) <==> exists i :: LastWithChild(item, i)
  {
    var last := LastOwnUpTo(item, |item.boundaries|);
    if last >= 0 {
      assert LastWithChild(item, last);
    }
  }

  lemma RaisesIsRaised(item: Index, parent: Option<Index>, n: nat, skipped: nat)
    requires ValidIndex(item) && Raises(item, parent, n, skipped)
    ensures IsRaised(item, parent.None?, n, skipped)
  {
    HasOwnHasLast(item);
    assert HasMatching(item, n) <==> TaskBeginsAfter(item, n) by {
      assert forall i :: 0 <= i < |item.boundaries| ==>
                           (IsMatching(item, item.boundaries[i], n) <==> BeginsAfter(item, item.boundaries[i], n));
    }
    if item.meta.isSubagent && !HasMatching(item, n) && HasOwnTask(item) {
      var i :| LastWithChild(item, i);
      LaterCountsMore(item, i);
      assert MayRaise(item, parent, n, item.boundaries[i]);
    }
  }

  lemma SkipIsCount(indexes: seq<Index>, item: Index, skipped: nat)
    requires (forall i :: 0 <= i < |indexes| ==> ValidIndex(indexes[i])) && ValidIndex(item)
    requires IsSkipOf(indexes, item, skipped)
    ensures IsCountOf(indexes, item, skipped)
  {
    var parent := ParentOf(indexes, item);
    var j := ParentIsParent(indexes, item);
    var n: nat :| IsSkip(item, parent, n, skipped);
    OverlapIsLongestHead(item, parent, n);
    RaisesIsRaised(item, parent, n, skipped);
    assert IsInherited(item, ParentTokens(item, parent), parent.None?, skipped);
    if parent.Some? {
      var c := CutIsInheritable(item, indexes[j]);
      assert IsInherited(item, indexes[j].tokens[..c], false, skipped);
    }
  }

  ghost predicate DistinctPaths(indexes: seq<Index>) {
    forall i, j :: 0 <= i < j < |indexes| ==> indexes[i].path != indexes[j].path
  }

  /** File `i`'s count is reported under its path, or is zero and not reported. */
  ghost predicate ReportsCount(indexes: seq<Index>, i: nat, result: map<string, nat>)
    requires i < |indexes|
  {
    var path := indexes[i].path;
    && (path in result ==> result[path] > 0)
    && IsCountOf(indexes, indexes[i], if path in result then result[path] else 0)
  }

  ghost predicate ReportsCounts(indexes: seq<Index>, result: map<string, nat>) {
    forall i :: 0 <= i < |indexes| ==> ReportsCount(indexes, i, result)
  }

  lemma ReportedIsItsSkip(indexes: seq<Index>, result: map<string, nat>, i: nat)
    requires DistinctPaths(indexes) && i < |indexes|
    requires Covered(PathsOf(indexes), SkipsOf(indexes), |indexes|, result)
    ensures var path := indexes[i].path;
            && (path in result ==> result[path] > 0)
            && IsSkipOf(indexes, indexes[i], if path in result then result[path] else 0)
  {
    var paths, skips, path := PathsOf(indexes), SkipsOf(indexes), indexes[i].path;
    assert paths[i] == path;
    if path in result {
      assert Reported(paths, skips, |indexes|, path, result[path]);
      var k: nat :| k < |indexes| && paths[k] == path && skips(k, result[path]);
      assert indexes[k].path == indexes[i].path;
    } else {
      assert skips(i, 0);
    }
  }

  lemma CoveredReportsCounts(indexes: seq<Index>, result: map<string, nat>)
    requires DistinctPaths(indexes) && forall i :: 0 <= i < |indexes| ==> ValidIndex(indexes[i])
    requires Covered(PathsOf(indexes), SkipsOf(indexes), |indexes|, result)
    ensures ReportsCounts(indexes, result)
  {
    forall i | 0 <= i < |indexes|
      ensures ReportsCount(indexes, i, result)
    {
      ReportedIsItsSkip(indexes, result, i);
      SkipIsCount(indexes, indexes[i], if indexes[i].path in result then result[indexes[i].path] else 0);
    }
  }

  /** `replay_skip_counts`: every reported count is the skip count of a file with that path, and every
      file with a positive skip count is reported. */
  method ReplaySkipCounts(indexes: seq<Index>) returns (result: map<string, nat>)
    requires forall i :: 0 <= i < |indexes| ==> ValidIndex(indexes[i])
    ensures Covered(PathsOf(indexes), SkipsOf(indexes), |indexes|, result)
    ensures DistinctPaths(indexes) ==> ReportsCounts(indexes, result)
  {
    var bySession := BySession(indexes);
    ghost var paths, skips := PathsOf(indexes), SkipsOf(indexes);
    result := map[];
    for k := 0 to |indexes|
      invariant Covered(paths, skips, k, result)
    {
      var skipped := SkipOfFile(indexes, bySession, indexes[k]);
      assert skips(k, skipped);
      CoverNext(paths, skips, k, result, skipped);
      if skipped > 0 {
        result := result[indexes[k].path := skipped];
      }
    }
    if DistinctPaths(indexes) {
      CoveredReportsCounts(indexes, result);
    }
  }

  /** A reported count is at least the length of every head that the child shares with the end of the tokens it
      can have inherited, and a file that neither forked nor is a subagent has none. */
  lemma InheritedHeadIsCounted(indexes: seq<Index>, result: map<string, nat>, i: nat, j: nat, c: nat, n: nat)
    requires ReportsCounts(indexes, result) && i < |indexes|
    ensures IsParent(indexes, indexes[i], j) && Inheritable(indexes[i], indexes[j], c) && n > 0
            && StandsAt(indexes[i].tokens, indexes[j].tokens[..c], n, c) ==>
              indexes[i].path in result && n <= result[indexes[i].path]
    ensures IsEmptyValue(indexes[i].meta.forkedFrom) && !indexes[i].meta.isSubagent ==> indexes[i].path !in result
  {
    var item, path := indexes[i], indexes[i].path;
    var count := if path in result then result[path] else 0;
    assert ReportsCount(indexes, i, result) && IsCountOf(indexes, item, count);
    if IsParent(indexes, item, j) && Inheritable(item, indexes[j], c) {
      var p, d: nat :| IsParent(indexes, item, p) && Inheritable(item, indexes[p], d)
                       && IsInherited(item, indexes[p].tokens[..d], false, count);
      assert p == j && d == c by {
        OneParent(indexes, item, p, j);
        OneCut(item, indexes[j], c, d);
      }
    }
  }

  lemma OneParent(indexes: seq<Index>, item: Index, p: int, j: int)
    requires IsParent(indexes, item, p) && IsParent(indexes, item, j)
    ensures p == j
  {
  }

  lemma CutAt(item: Index, parent: Index, c: nat, t: nat)
    requires Inheritable(item, parent, c) && item.meta.startedAt.Some? && t < |parent.times|
    ensures t < c <==> NotAfter(parent.times[t], item.meta.startedAt.value)
  {
  }

  lemma OneCut(item: Index, parent: Index, c: nat, d: nat)
    requires Inheritable(item, parent, c) && Inheritable(item, parent, d)
    ensures c == d
  {
    var t := Min(c, d);
    if item.meta.startedAt.Some? && t < |parent.times| {
      CutAt(item, parent, c, t);
      CutAt(item, parent, d, t);
    }
  }

  // ----- a log read alone and the merge of its copies -----

  lemma {:induction false} DictsOfRecords(lines: seq<Line>, n: nat)
    requires n <= |RecordsOf(lines)|
    ensures Dicts(RecordsOf(lines)[..n]) == RecordsOf(lines)[..n]
  {
    if n > 0 {
      var part := RecordsOf(lines)[..n];
      assert part[..n - 1] == RecordsOf(lines)[..n - 1];
      DictsOfRecords(lines, n - 1);
      RecordsAreNormalized(lines, n - 1);
    }
  }

  /** Copies and shorter snapshots of a log leave the replay index of the log unchanged. */
  lemma CopiesLeaveTheIndexAlone(files: seq<seq<Line>>, l: nat, timestamp: Json -> Option<string>,
          value: seq<(Json, Context)>, path: string, size: nat, clock: Clock)
    requires PrefixesOf(RecordsOfAll(files), l) && IsMerge(RecordsOfAll(files), timestamp, value)
    ensures IndexOf(Dicts(RecordColumn(value)), path, size, clock) == IndexOf(RecordsOf(files[l]), path, size, clock)
  {
    PrefixesMergeToTheLongest(RecordsOfAll(files), l, timestamp, value);
    var records := RecordsOf(files[l]);
    assert RecordColumn(value) == records;
    DictsOfRecords(files[l], |records|);
    assert records[..|records|] == records;
  }
}
