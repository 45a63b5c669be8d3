/** Records of a Codex rollout: the JSON values the log lines parse to, the normalisation of durable
    usage records, and the model/service-tier context that accumulates along one file. */
module Transcript {
  import opened Prelude

  datatype Json =
    | Null
    | Bool(flag: bool)
    | Number(value: real)
    | NonFinite
    | Text(text: string)
    | List(items: seq<Json>)
    | Object(fields: map<string, Json>)

  /** One physical line: unreadable, or one JSON value. */
  datatype Line = Garbled | Parsed(value: Json)

  /** `dict.get` */
  function Get(fields: map<string, Json>, key: string): Json {
    if key in fields then fields[key] else Null
  }

  const USAGE_RECORD_FIELDS: set<string> := {
    "input_tokens", "output_tokens", "cached_input_tokens", "cache_read_input_tokens",
    "cache_write_input_tokens", "reasoning_output_tokens", "total_tokens"
  }

  /** `_pick_usage` */
  function PickUsage(usage: map<string, Json>): map<string, Json> {
    map key | key in usage && key in USAGE_RECORD_FIELDS && usage[key].Number? :: usage[key]
  }

  predicate NonNegative(value: Json) {
    value.Number? && value.value >= 0.0
  }

  predicate OptionalNonNegative(value: Json) {
    value.Null? || NonNegative(value)
  }

  /** The payload of a durable usage record that is well formed enough to be counted. */
  predicate CountablePayload(payload: Json) {
    payload.Object?
    && var usage, total := Get(payload.fields, "usage"), Get(payload.fields, "thread_token_usage");
    usage.Object? && total.Object?
    && var tokens := Get(total.fields, "total_tokens");
    tokens.Number? && tokens.value > 0.0
    && NonNegative(Get(usage.fields, "input_tokens")) && NonNegative(Get(usage.fields, "output_tokens"))
    && OptionalNonNegative(Get(usage.fields, "cached_input_tokens"))
    && OptionalNonNegative(Get(usage.fields, "reasoning_output_tokens"))
  }

  function TokenCountPayload(usage: map<string, Json>, total: map<string, Json>): Json {
    Object(map[
      "type" := Text("token_count"),
      "usage_record" := Bool(true),
      "info" := Object(map[
        "last_token_usage" := Object(PickUsage(usage)),
        "total_token_usage" := Object(PickUsage(total))])])
  }

  /** `normalize_usage_record` */
  function NormalizeUsageRecord(obj: Json): Json {
    if !obj.Object? || Get(obj.fields, "type") != Text("token_usage_record") then obj
    else
      var payload := Get(obj.fields, "payload");
      if !CountablePayload(payload) then obj
      else
        var usage, total := Get(payload.fields, "usage").fields, Get(payload.fields, "thread_token_usage").fields;
        Object(obj.fields["type" := Text("event_msg")]["payload" := TokenCountPayload(usage, total)])
  }

  predicate HasType(obj: Json, kind: string) {
    obj.Object? && Get(obj.fields, "type") == Text(kind)
  }

  predicate HasPayloadType(obj: Json, kind: string) {
    obj.Object? && HasType(Get(obj.fields, "payload"), kind)
  }

  /** A record that both usage parsers count. */
  predicate IsTokenCount(obj: Json) {
    HasType(obj, "event_msg") && HasPayloadType(obj, "token_count")
  }

  /** Normalising again changes nothing: the merge and the replay scan may both normalise. */
  lemma NormalizationIsIdempotent(obj: Json)
    ensures NormalizeUsageRecord(NormalizeUsageRecord(obj)) == NormalizeUsageRecord(obj)
  {
    assert Text("event_msg") != Text("token_usage_record") by {
      assert |"event_msg"| != |"token_usage_record"|;
    }
  }

  /** Exactly the token_count events and the well-formed durable records come out countable. */
  lemma CountedAfterNormalization(obj: Json)
    ensures IsTokenCount(NormalizeUsageRecord(obj)) <==>
            IsTokenCount(obj) || (HasType(obj, "token_usage_record") && CountablePayload(Get(obj.fields, "payload")))
  {
    assert |"event_msg"| != |"token_usage_record"|;
  }

  // ----- what a durable usage record is read as -----

  predicate HasObject(fields: map<string, Json>, key: string) { key in fields && fields[key].Object? }

  predicate HasAmount(fields: map<string, Json>, key: string) { key in fields && fields[key].Number? }

  /** A durable record that counts: a positive running total and no missing, negative or non-finite amount;
      the cached and the reasoning tokens may be absent or null. */
  ghost predicate IsCountedUsage(raw: Json) {
    && raw.Object? && "type" in raw.fields && raw.fields["type"] == Text("token_usage_record")
    && HasObject(raw.fields, "payload")
    && var payload := raw.fields["payload"].fields;
    && HasObject(payload, "usage") && HasObject(payload, "thread_token_usage")
    && var usage, total := payload["usage"].fields, payload["thread_token_usage"].fields;
    && HasAmount(total, "total_tokens") && !(total["total_tokens"].value <= 0.0)
    && HasAmount(usage, "input_tokens") && !(usage["input_tokens"].value < 0.0)
    && HasAmount(usage, "output_tokens") && !(usage["output_tokens"].value < 0.0)
    && ("cached_input_tokens" in usage ==> IsNullOrAmount(usage["cached_input_tokens"]))
    && ("reasoning_output_tokens" in usage ==> IsNullOrAmount(usage["reasoning_output_tokens"]))
  }

  predicate IsNullOrAmount(value: Json) {
    match value
    case Null => true
    case Number(amount) => !(amount < 0.0)
    case _ => false
  }

  predicate IsUsageField(key: string) {
    || key == "input_tokens" || key == "output_tokens" || key == "total_tokens"
    || key == "cached_input_tokens" || key == "cache_read_input_tokens" || key == "cache_write_input_tokens"
    || key == "reasoning_output_tokens"
  }

  /** `copy` holds the finite numbers that `usage` gives the seven usage fields, and nothing else. */
  ghost predicate IsUsageCopy(copy: Json, usage: map<string, Json>) {
    copy.Object? && forall key :: IsFieldCopy(copy.fields, usage, key)
  }

  predicate IsFieldCopy(copy: map<string, Json>, usage: map<string, Json>, key: string) {
    && (key in copy <==> IsUsageField(key) && HasAmount(usage, key))
    && (key in copy && key in usage ==> copy[key] == usage[key])
  }

  /** A token_count event whose last usage is that of the request, and whose total that of the thread. */
  ghost predicate StatesUsage(payload: Json, usage: map<string, Json>, total: map<string, Json>) {
    && payload.Object? && payload.fields.Keys == {"type", "usage_record", "info"}
    && payload.fields["type"] == Text("token_count") && payload.fields["usage_record"] == Bool(true)
    && payload.fields["info"].Object?
    && var info := payload.fields["info"].fields;
    && info.Keys == {"last_token_usage", "total_token_usage"}
    && IsUsageCopy(info["last_token_usage"], usage) && IsUsageCopy(info["total_token_usage"], total)
  }

  /** How a parsed line enters the transcript: a durable record that counts as the event that states its
      usage, with its other fields; anything else as it is. */
  ghost predicate IsReadAs(raw: Json, record: Json) {
    if !IsCountedUsage(raw) then record == raw
    else
      && record.Object? && record.fields.Keys == raw.fields.Keys
      && (forall key :: key in raw.fields && key != "type" && key != "payload" ==>
            record.fields[key] == raw.fields[key])
      && record.fields["type"] == Text("event_msg")
      && var payload := raw.fields["payload"].fields;
      StatesUsage(record.fields["payload"], payload["usage"].fields, payload["thread_token_usage"].fields)
  }

  lemma PickedIsCopied(usage: map<string, Json>)
    ensures IsUsageCopy(Object(PickUsage(usage)), usage)
  {
    forall key
      ensures IsFieldCopy(PickUsage(usage), usage, key)
    {
      assert IsUsageField(key) <==> key in USAGE_RECORD_FIELDS;
    }
  }

  lemma CountableIsCounted(raw: Json)
    ensures IsCountedUsage(raw) <==> HasType(raw, "token_usage_record") && CountablePayload(Get(raw.fields, "payload"))
  {
  }

  /** What normalisation makes of a line, field by field. */
  lemma NormalizationReadsAs(raw: Json)
    ensures IsReadAs(raw, NormalizeUsageRecord(raw))
  {
    CountableIsCounted(raw);
    if IsCountedUsage(raw) {
      var payload := raw.fields["payload"].fields;
      PickedIsCopied(payload["usage"].fields);
      PickedIsCopied(payload["thread_token_usage"].fields);
      UsageIsStated(payload["usage"].fields, payload["thread_token_usage"].fields);
    }
  }

  lemma UsageIsStated(usage: map<string, Json>, total: map<string, Json>)
    ensures StatesUsage(TokenCountPayload(usage, total), usage, total)
  {
    PickedIsCopied(usage);
    PickedIsCopied(total);
    var payload := TokenCountPayload(usage, total).fields;
    assert |"type"| == 4 && |"usage_record"| == 12 && |"last_token_usage"| == 16 && |"total_token_usage"| == 17;
  }

  // ----- the running context -----

  datatype Context = Context(model: Option<string>, tier: Option<Json>)

  const NO_CONTEXT := Context(None, None)

  function ApplySettings(context: Context, settings: map<string, Json>): Context {
    var model := Get(settings, "model");
    Context(if model.Text? then Some(model.text) else context.model,
            if "service_tier" in settings then Some(settings["service_tier"]) else context.tier)
  }

  function UpdateContext(context: Context, obj: Json): Context {
    if !obj.Object? then context
    else
      var payload := Get(obj.fields, "payload");
      if HasType(obj, "turn_context") then
        if payload.Object? then ApplySettings(context, payload.fields) else context
      else if HasType(obj, "event_msg") && HasType(payload, "thread_settings_applied") then
        var settings := Get(payload.fields, "thread_settings");
        if settings.Object? then ApplySettings(context, settings.fields) else context
      else context
  }

  /** Reading the context off the normalised records gives what the raw records give. */
  lemma ContextIgnoresNormalization(context: Context, obj: Json)
    ensures UpdateContext(context, NormalizeUsageRecord(obj)) == UpdateContext(context, obj)
  {
    assert |"token_usage_record"| != |"turn_context"| && |"token_usage_record"| != |"event_msg"|;
    assert |"event_msg"| != |"turn_context"|;
    assert |"token_count"| != |"thread_settings_applied"|;
  }

  /** The context in force after the last of `records`. */
  function ContextAfter(records: seq<Json>): Context {
    if records == [] then NO_CONTEXT
    else UpdateContext(ContextAfter(records[..|records| - 1]), records[|records| - 1])
  }

  /** The settings a record states: those of a turn, or those applied to the thread. */
  function SettingsOf(record: Json): Option<map<string, Json>> {
    if !(record.Object? && HasObject(record.fields, "payload") && "type" in record.fields) then None
    else
      var kind, payload := record.fields["type"], record.fields["payload"].fields;
      if kind == Text("turn_context") then Some(payload)
      else if kind == Text("event_msg") && "type" in payload && payload["type"] == Text("thread_settings_applied")
              && HasObject(payload, "thread_settings") then Some(payload["thread_settings"].fields)
      else None
  }

  predicate States(record: Json, key: string, value: Json) {
    SettingsOf(record).Some? && key in SettingsOf(record).value && SettingsOf(record).value[key] == value
  }

  predicate NamesModel(record: Json, model: string) { States(record, "model", Text(model)) }

  predicate NamesTier(record: Json, tier: Json) { States(record, "service_tier", tier) }

  /** Record `i` is the last to name a model, and names this one. */
  ghost predicate LastModel(records: seq<Json>, i: int, model: string) {
    && 0 <= i < |records| && NamesModel(records[i], model)
    && forall j, other :: i < j < |records| ==> !NamesModel(records[j], other)
  }

  ghost predicate LastTier(records: seq<Json>, i: int, tier: Json) {
    && 0 <= i < |records| && NamesTier(records[i], tier)
    && forall j, other :: i < j < |records| ==> !NamesTier(records[j], other)
  }

  lemma UpdateReadsSettings(context: Context, record: Json)
    ensures var after := UpdateContext(context, record);
            && (forall model :: NamesModel(record, model) ==> after.model == Some(model))
            && ((forall model :: !NamesModel(record, model)) ==> after.model == context.model)
            && (forall tier :: NamesTier(record, tier) ==> after.tier == Some(tier))
            && ((forall tier :: !NamesTier(record, tier)) ==> after.tier == context.tier)
  {
    var settings := SettingsOf(record);
    if settings.None? {
      assert UpdateContext(context, record) == context;
    } else {
      assert UpdateContext(context, record) == ApplySettings(context, settings.value);
      var model, tier := Get(settings.value, "model"), Get(settings.value, "service_tier");
      if model.Text? {
        assert NamesModel(record, model.text);
      }
      if "service_tier" in settings.value {
        assert NamesTier(record, tier);
      }
    }
  }

  lemma {:induction false} ModelIsLatest(records: seq<Json>)
    ensures ContextAfter(records).model.None? ==>
              forall i, model :: 0 <= i < |records| ==> !NamesModel(records[i], model)
    ensures ContextAfter(records).model.Some? ==> exists i :: LastModel(records, i, ContextAfter(records).model.value)
  {
    if records != [] {
      var n := |records| - 1;
      ModelIsLatest(records[..n]);
      UpdateReadsSettings(ContextAfter(records[..n]), records[n]);
      if model :| NamesModel(records[n], model) {
        assert ContextAfter(records).model == Some(model) && LastModel(records, n, model);
      } else if ContextAfter(records[..n]).model.Some? {
        var i :| LastModel(records[..n], i, ContextAfter(records[..n]).model.value);
        assert LastModel(records, i, ContextAfter(records[..n]).model.value);
      }
    }
  }

  lemma {:induction false} TierIsLatest(records: seq<Json>)
    ensures ContextAfter(records).tier.None? ==> forall i, tier :: 0 <= i < |records| ==> !NamesTier(records[i], tier)
    ensures ContextAfter(records).tier.Some? ==> exists i :: LastTier(records, i, ContextAfter(records).tier.value)
  {
    if records != [] {
      var n := |records| - 1;
      TierIsLatest(records[..n]);
      UpdateReadsSettings(ContextAfter(records[..n]), records[n]);
      if tier :| NamesTier(records[n], tier) {
        assert ContextAfter(records).tier == Some(tier) && LastTier(records, n, tier);
      } else if ContextAfter(records[..n]).tier.Some? {
        var i :| LastTier(records[..n], i, ContextAfter(records[..n]).tier.value);
        assert LastTier(records, i, ContextAfter(records[..n]).tier.value);
      }
    }
  }

  /** The context in force after some records is the last model and the last tier that any of them names. */
  lemma ContextIsLatest(records: seq<Json>)
    ensures ContextAfter(records).model.None? ==>
              forall i, model :: 0 <= i < |records| ==> !NamesModel(records[i], model)
    ensures ContextAfter(records).model.Some? ==> exists i :: LastModel(records, i, ContextAfter(records).model.value)
    ensures ContextAfter(records).tier.None? ==> forall i, tier :: 0 <= i < |records| ==> !NamesTier(records[i], tier)
    ensures ContextAfter(records).tier.Some? ==> exists i :: LastTier(records, i, ContextAfter(records).tier.value)
  {
    ModelIsLatest(records);
    TierIsLatest(records);
  }

  /** The normalised dictionaries of one file, in order. */
  function RecordsOf(lines: seq<Line>): seq<Json> {
    if lines == [] then []
    else
      var line := lines[|lines| - 1];
      var before := RecordsOf(lines[..|lines| - 1]);
      if line.Parsed? && line.value.Object? then before + [NormalizeUsageRecord(line.value)] else before
  }

  lemma {:induction false} RecordsAreNormalized(lines: seq<Line>, i: nat)
    requires i < |RecordsOf(lines)|
    ensures RecordsOf(lines)[i].Object? && NormalizeUsageRecord(RecordsOf(lines)[i]) == RecordsOf(lines)[i]
  {
    var before := RecordsOf(lines[..|lines| - 1]);
    if i < |before| {
      RecordsAreNormalized(lines[..|lines| - 1], i);
    } else {
      NormalizationIsIdempotent(lines[|lines| - 1].value);
    }
  }

  predicate IsDictionary(lines: seq<Line>, l: int) { 0 <= l < |lines| && lines[l].Parsed? && lines[l].value.Object? }

  ghost predicate LineIsReadAs(lines: seq<Line>, l: int, record: Json) {
    IsDictionary(lines, l) && IsReadAs(lines[l].value, record)
  }

  /** `at` lists the dictionaries among the lines, in order. */
  ghost predicate ListsDictionaries(lines: seq<Line>, at: seq<int>) {
    && (forall i, j :: 0 <= i < j < |at| ==> at[i] < at[j])
    && forall l :: l in at <==> IsDictionary(lines, l)
  }

  /** The records are what the listed lines are read as. */
  ghost predicate IsReading(lines: seq<Line>, records: seq<Json>, at: seq<int>) {
    |at| == |records| && forall i :: 0 <= i < |at| ==> LineIsReadAs(lines, at[i], records[i])
  }

  /** The records of a file are its dictionaries, each once and in order. */
  lemma {:induction false} RecordsFollowLines(lines: seq<Line>) returns (at: seq<int>)
    ensures ListsDictionaries(lines, at) && IsReading(lines, RecordsOf(lines), at)
  {
    at := [];
    if lines != [] {
      var n := |lines| - 1;
      var before := RecordsFollowLines(lines[..n]);
      DictionariesGrow(lines, before);
      ReadingGrows(lines, RecordsOf(lines[..n]), before);
      at := before;
      if IsDictionary(lines, n) {
        NormalizationReadsAs(lines[n].value);
        at := before + [n];
      }
    }
  }

  lemma DictionariesGrow(lines: seq<Line>, at: seq<int>)
    requires lines != [] && ListsDictionaries(lines[..|lines| - 1], at)
    ensures var n := |lines| - 1; ListsDictionaries(lines, if IsDictionary(lines, n) then at + [n] else at)
  {
    var n := |lines| - 1;
    assert forall i :: 0 <= i < |at| ==> at[i] in at && IsDictionary(lines[..n], at[i]);
    assert forall l :: IsDictionary(lines, l) <==> IsDictionary(lines[..n], l) || (l == n && IsDictionary(lines, n));
  }

  lemma ReadingGrows(lines: seq<Line>, records: seq<Json>, at: seq<int>)
    requires lines != [] && IsReading(lines[..|lines| - 1], records, at)
    ensures IsReading(lines, records, at)
  {
    forall i | 0 <= i < |at|
      ensures LineIsReadAs(lines, at[i], records[i])
    {
      LineStays(lines, at[i], records[i]);
    }
  }

  lemma LineStays(lines: seq<Line>, l: int, record: Json)
    requires lines != [] && LineIsReadAs(lines[..|lines| - 1], l, record)
    ensures LineIsReadAs(lines, l, record)
  {
    assert lines[..|lines| - 1][l] == lines[l];
  }
}
