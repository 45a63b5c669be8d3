/** Merging the physical copies and continuations of one Codex rollout into one transcript. */
module SegmentMerge {
  import opened Prelude
  import opened Transcript
  import opened PriorityTopology

  /** The `occurrence`-th appearance of one record within a file. A record stands for its own
      fingerprint: two records have equal fingerprints exactly when they are equal. */
  datatype Key = Key(record: Json, occurrence: nat)

  /** One record as a file contributes it to the graph. */
  datatype Entry = Entry(key: Key, previous: Option<Key>, context: Context)

  function KeyAt(records: seq<Json>, i: nat): Key
    requires i < |records|
  {
    Key(records[i], multiset(records[..i + 1])[records[i]])
  }

  function EntryAt(records: seq<Json>, i: nat): Entry
    requires i < |records|
  {
    Entry(KeyAt(records, i), if i == 0 then None else Some(KeyAt(records, i - 1)), ContextAfter(records[..i + 1]))
  }

  function Entries(records: seq<Json>): (entries: seq<Entry>)
    ensures |entries| == |records|
  {
    seq(|records|, i requires 0 <= i < |records| => EntryAt(records, i))
  }

  /** Every entry of every file, in the order the merge reads them. */
  function Stream(files: seq<seq<Json>>): seq<Entry> {
    if files == [] then [] else Stream(files[..|files| - 1]) + Entries(files[|files| - 1])
  }

  function KeysOf(s: seq<Entry>): set<Key> {
    if s == [] then {} else KeysOf(s[..|s| - 1]) + {s[|s| - 1].key}
  }

  /** The keys that directly follow key `k` in some file. */
  function Successors(s: seq<Entry>, k: Key): set<Key> {
    if s == [] then {}
    else Successors(s[..|s| - 1], k) + if s[|s| - 1].previous == Some(k) then {s[|s| - 1].key} else {}
  }

  /** The union of the files' record orders. */
  function GraphOf(s: seq<Entry>): Graph<Key> {
    Graph(KeysOf(s), map k | k in KeysOf(s) :: Successors(s, k))
  }

  /** Distinct keys in the order they were first read. */
  function FirstSeen(s: seq<Entry>): seq<Key> {
    if s == [] then []
    else
      var before, k := FirstSeen(s[..|s| - 1]), s[|s| - 1].key;
      if k in before then before else before + [k]
  }

  /** The context of the first entry that carries key `k`. */
  function FirstContext(s: seq<Entry>, k: Key): Context
    requires k in KeysOf(s)
  {
    var before := s[..|s| - 1];
    if k in KeysOf(before) then FirstContext(before, k) else s[|s| - 1].context
  }

  lemma {:induction false} KeyIsRead(s: seq<Entry>, i: nat)
    requires i < |s|
    ensures s[i].key in KeysOf(s)
  {
    if i < |s| - 1 {
      KeyIsRead(s[..|s| - 1], i);
    }
  }

  lemma {:induction false} ReadKeyHasEntry(s: seq<Entry>, k: Key) returns (i: nat)
    requires k in KeysOf(s)
    ensures i < |s| && s[i].key == k
  {
    i := |s| - 1;
    if s[i].key != k {
      i := ReadKeyHasEntry(s[..|s| - 1], k);
    }
  }

  lemma {:induction false} SuccessorIsRead(s: seq<Entry>, i: nat)
    requires i < |s| && s[i].previous.Some?
    ensures s[i].key in Successors(s, s[i].previous.value)
  {
    if i < |s| - 1 {
      SuccessorIsRead(s[..|s| - 1], i);
    }
  }

  lemma {:induction false} SuccessorHasEntry(s: seq<Entry>, k: Key, x: Key) returns (i: nat)
    requires x in Successors(s, k)
    ensures i < |s| && s[i].previous == Some(k) && s[i].key == x
  {
    i := |s| - 1;
    if !(s[i].previous == Some(k) && s[i].key == x) {
      i := SuccessorHasEntry(s[..|s| - 1], k, x);
    }
  }

  lemma {:induction false} PrefixKeysAreRead(s: seq<Entry>, n: nat)
    requires n <= |s|
    ensures KeysOf(s[..n]) <= KeysOf(s)
  {
    if n == |s| {
      assert s[..n] == s;
    } else {
      PrefixKeysAreRead(s[..|s| - 1], n);
      assert s[..|s| - 1][..n] == s[..n];
    }
  }

  /** The previous key of an entry has itself been read, and differs from the entry's key. */
  ghost predicate Linked(s: seq<Entry>) {
    s == []
    || (Linked(s[..|s| - 1])
        && var last := s[|s| - 1];
        last.previous.Some? ==> last.previous.value in KeysOf(s[..|s| - 1]) && last.previous.value != last.key)
  }

  lemma KeysWithinFileDiffer(records: seq<Json>, i: nat, j: nat)
    requires i < j < |records|
    ensures KeyAt(records, i) != KeyAt(records, j)
  {
    if records[i] == records[j] {
      var r := records[i];
      assert records[..j + 1] == records[..i + 1] + records[i + 1..j] + [r];
    }
  }

  lemma EntryFields(records: seq<Json>, i: nat)
    requires i < |records|
    ensures Entries(records)[i].key == KeyAt(records, i)
    ensures Entries(records)[i].previous == if i == 0 then None else Some(KeyAt(records, i - 1))
  {
  }

  /** Each entry that names a previous key names the key of the entry before it. */
  ghost predicate Chained(entries: seq<Entry>) {
    forall i :: 0 <= i < |entries| && entries[i].previous.Some? ==>
      i > 0 && entries[i].previous.value == entries[i - 1].key != entries[i].key
  }

  lemma EntriesAreChained(records: seq<Json>)
    ensures Chained(Entries(records))
  {
    var entries := Entries(records);
    forall i | 0 <= i < |entries| && entries[i].previous.Some?
      ensures i > 0 && entries[i].previous.value == entries[i - 1].key != entries[i].key
    {
      EntryFields(records, i);
      EntryFields(records, i - 1);
      KeysWithinFileDiffer(records, i - 1, i);
    }
  }

  lemma {:induction false} ChainStaysLinked(base: seq<Entry>, part: seq<Entry>, n: nat)
    requires Linked(base) && Chained(part) && n <= |part|
    ensures Linked(base + part[..n])
  {
    if n == 0 {
      assert base + part[..0] == base;
    } else {
      var before, e := base + part[..n - 1], part[n - 1];
      ChainStaysLinked(base, part, n - 1);
      assert base + part[..n] == before + [e];
      assert (before + [e])[..|before|] == before;
      if e.previous.Some? {
        assert before[|before| - 1] == part[n - 2];
        KeyIsRead(before, |before| - 1);
      }
    }
  }

  lemma {:induction false} StreamIsLinked(files: seq<seq<Json>>)
    ensures Linked(Stream(files))
  {
    if files != [] {
      var last := files[|files| - 1];
      StreamIsLinked(files[..|files| - 1]);
      EntriesAreChained(last);
      ChainStaysLinked(Stream(files[..|files| - 1]), Entries(last), |last|);
      assert Entries(last)[..|last|] == Entries(last);
    }
  }

  lemma {:induction false} UnreadHasNoSuccessors(s: seq<Entry>, k: Key)
    requires Linked(s) && k !in KeysOf(s)
    ensures Successors(s, k) == {}
  {
    if s != [] {
      UnreadHasNoSuccessors(s[..|s| - 1], k);
    }
  }

  lemma {:induction false} SuccessorsAreRead(s: seq<Entry>, k: Key)
    ensures Successors(s, k) <= KeysOf(s)
  {
    if s != [] {
      SuccessorsAreRead(s[..|s| - 1], k);
    }
  }

  lemma GraphIsWellFormed(s: seq<Entry>)
    ensures WellFormed(GraphOf(s))
  {
    forall k | k in KeysOf(s)
      ensures Successors(s, k) <= KeysOf(s)
    {
      SuccessorsAreRead(s, k);
    }
  }

  /** In the graph an edge is a pair of records that some file holds next to each other. */
  lemma EdgeIsAdjacency(s: seq<Entry>, a: Key, b: Key)
    requires Linked(s)
    ensures Edge(GraphOf(s), a, b) <==> exists i :: 0 <= i < |s| && s[i].previous == Some(a) && s[i].key == b
  {
    if Edge(GraphOf(s), a, b) {
      var i := SuccessorHasEntry(s, a, b);
    }
    if i :| 0 <= i < |s| && s[i].previous == Some(a) && s[i].key == b {
      SuccessorIsRead(s, i);
      if a !in KeysOf(s) {
        UnreadHasNoSuccessors(s, a);
      }
    }
  }

  lemma {:induction false} FirstSeenIsExact(s: seq<Entry>)
    ensures NoRepeats(FirstSeen(s)) && forall k :: k in FirstSeen(s) <==> k in KeysOf(s)
  {
    if s != [] {
      FirstSeenIsExact(s[..|s| - 1]);
    }
  }

  // ----- reading one more record into the graph -----

  /** The `nodes` dictionary: one map per field of its values, and the insertion order. */
  datatype Nodes = Nodes(
    succ: map<Key, set<Key>>,
    incoming: map<Key, int>,
    contexts: map<Key, Context>,
    ordinals: map<Key, int>,
    order: seq<Key>)

  const NO_NODES := Nodes(map[], map[], map[], map[], [])

  /** `if key not in nodes: nodes[key] = ...` */
  function AddNode(nodes: Nodes, key: Key, context: Context): Nodes {
    if key in nodes.succ then nodes
    else Nodes(nodes.succ[key := {}], nodes.incoming[key := 0], nodes.contexts[key := context],
               nodes.ordinals[key := |nodes.order|], nodes.order + [key])
  }

  /** Link the previous record of the file to this one, counting a new edge once. */
  function AddEdge(nodes: Nodes, previous: Option<Key>, key: Key): Nodes
    requires key in nodes.incoming && (previous.Some? ==> previous.value in nodes.succ)
  {
    if previous.Some? && previous.value != key && key !in nodes.succ[previous.value] then
      nodes.(succ := nodes.succ[previous.value := nodes.succ[previous.value] + {key}],
             incoming := nodes.incoming[key := nodes.incoming[key] + 1])
    else nodes
  }

  /** The dictionary keeps one slot of each kind per key it has seen. */
  ghost predicate Aligned(nodes: Nodes) {
    nodes.incoming.Keys == nodes.contexts.Keys == nodes.ordinals.Keys == nodes.succ.Keys
  }

  ghost predicate CanAdd(nodes: Nodes, e: Entry) {
    Aligned(nodes) && (e.previous.Some? ==> e.previous.value in nodes.succ && e.previous.value != e.key)
  }

  function AddEntry(nodes: Nodes, e: Entry): Nodes
    requires CanAdd(nodes, e)
  {
    AddEdge(AddNode(nodes, e.key, e.context), e.previous, e.key)
  }

  function SuccessorSet(nodes: Nodes, k: Key): set<Key> {
    if k in nodes.succ then nodes.succ[k] else {}
  }

  function Counter(nodes: Nodes, k: Key): int {
    if k in nodes.incoming then nodes.incoming[k] else 0
  }

  lemma AddedSlots(nodes: Nodes, e: Entry)
    requires CanAdd(nodes, e)
    ensures Aligned(AddEntry(nodes, e)) && AddEntry(nodes, e).succ.Keys == nodes.succ.Keys + {e.key}
  {
    var mid := AddNode(nodes, e.key, e.context);
    assert mid.succ.Keys == nodes.succ.Keys + {e.key};
    assert Aligned(mid);
  }

  lemma AddedSuccessors(nodes: Nodes, e: Entry, k: Key)
    requires CanAdd(nodes, e)
    ensures SuccessorSet(AddEntry(nodes, e), k) == SuccessorSet(nodes, k)
            + if e.previous == Some(k) then {e.key} else {}
  {
  }

  lemma AddedCounter(nodes: Nodes, e: Entry, n: Key)
    requires CanAdd(nodes, e)
    ensures Counter(AddEntry(nodes, e), n) == Counter(nodes, n) +
            if e.previous.Some? && n == e.key && n !in SuccessorSet(nodes, e.previous.value) then 1 else 0
  {
  }

  ghost predicate Represents(nodes: Nodes, s: seq<Entry>) {
    && Aligned(nodes)
    && nodes.succ.Keys == KeysOf(s)
    && (forall k {:trigger SuccessorSet(nodes, k)} :: SuccessorSet(nodes, k) == Successors(s, k))
    && (forall k {:trigger Counter(nodes, k)} :: Counter(nodes, k) == |Preds(GraphOf(s), k)|)
    && RepresentsOrder(nodes, s)
    && RepresentsContexts(nodes, s)
  }

  ghost predicate RepresentsOrder(nodes: Nodes, s: seq<Entry>) {
    nodes.order == FirstSeen(s)
    && forall i :: 0 <= i < |nodes.order| ==> nodes.order[i] in nodes.ordinals && nodes.ordinals[nodes.order[i]] == i
  }

  ghost predicate RepresentsContexts(nodes: Nodes, s: seq<Entry>) {
    nodes.contexts.Keys == KeysOf(s) && forall k :: k in nodes.contexts ==> nodes.contexts[k] == FirstContext(s, k)
  }

  lemma LastEntry(s: seq<Entry>, e: Entry)
    ensures (s + [e])[..|s + [e]| - 1] == s && (s + [e])[|s + [e]| - 1] == e
  {
  }

  lemma PredsGrow(s: seq<Entry>, e: Entry, n: Key)
    requires Linked(s + [e])
    ensures Preds(GraphOf(s + [e]), n) == Preds(GraphOf(s), n)
            + if e.previous.Some? && n == e.key then {e.previous.value} else {}
  {
    LastEntry(s, e);
    var before, after := GraphOf(s), GraphOf(s + [e]);
    forall p
      ensures p in Preds(after, n) <==> p in Preds(before, n) || (e.previous == Some(p) && n == e.key)
    {
      if p !in KeysOf(s) {
        UnreadHasNoSuccessors(s, p);
      }
      assert p in Preds(before, n) <==> p in KeysOf(s) && n in Successors(s, p);
      assert p in Preds(after, n) <==> p in KeysOf(s + [e]) && n in Successors(s + [e], p);
    }
  }

  lemma SizeWithOneMore<T>(a: set<T>, x: T)
    ensures |a + {x}| == |a| + if x in a then 0 else 1
  {
    if x in a {
      assert a + {x} == a;
    }
  }

  /** The in-degree of one node after an entry: it moves only when the entry brings a new edge. */
  lemma InDegreeGrows(s: seq<Entry>, e: Entry, n: Key)
    requires Linked(s + [e])
    ensures |Preds(GraphOf(s + [e]), n)| == |Preds(GraphOf(s), n)| +
            if e.previous.Some? && n == e.key && n !in Successors(s, e.previous.value) then 1 else 0
  {
    PredsGrow(s, e, n);
    LastEntry(s, e);
    if e.previous.Some? && n == e.key {
      var p := e.previous.value;
      assert p in Preds(GraphOf(s), n) <==> n in Successors(s, p);
      SizeWithOneMore(Preds(GraphOf(s), n), p);
    }
  }

  lemma OrderIsRepresented(nodes: Nodes, s: seq<Entry>, e: Entry)
    requires CanAdd(nodes, e) && nodes.succ.Keys == KeysOf(s) && RepresentsOrder(nodes, s)
    ensures RepresentsOrder(AddEntry(nodes, e), s + [e])
  {
    LastEntry(s, e);
    FirstSeenIsExact(s);
    var after := AddEntry(nodes, e);
    assert e.key in nodes.order <==> e.key in nodes.succ;
    if e.key in nodes.succ {
      assert after.order == nodes.order && after.ordinals == nodes.ordinals;
    } else {
      assert after.order == nodes.order + [e.key] && after.ordinals == nodes.ordinals[e.key := |nodes.order|];
      assert forall i :: 0 <= i < |nodes.order| ==> nodes.order[i] in nodes.order;
    }
  }

  lemma ContextsAreRepresented(nodes: Nodes, s: seq<Entry>, e: Entry)
    requires CanAdd(nodes, e) && nodes.succ.Keys == KeysOf(s) && RepresentsContexts(nodes, s)
    ensures RepresentsContexts(AddEntry(nodes, e), s + [e])
  {
    LastEntry(s, e);
    var after := AddEntry(nodes, e);
    assert after.contexts == if e.key in nodes.succ then nodes.contexts else nodes.contexts[e.key := e.context];
    assert after.contexts.Keys == KeysOf(s + [e]);
    forall k | k in after.contexts
      ensures after.contexts[k] == FirstContext(s + [e], k)
    {
      assert FirstContext(s + [e], k) == if k in KeysOf(s) then FirstContext(s, k) else e.context;
    }
  }

  /** Adding the node and the edge of one entry keeps the dictionary equal to the graph read so far. */
  lemma EntryIsRepresented(nodes: Nodes, s: seq<Entry>, e: Entry)
    requires Represents(nodes, s) && Linked(s + [e])
    ensures CanAdd(nodes, e) && Represents(AddEntry(nodes, e), s + [e])
  {
    LastEntry(s, e);
    var after := AddEntry(nodes, e);
    AddedSlots(nodes, e);
    OrderIsRepresented(nodes, s, e);
    ContextsAreRepresented(nodes, s, e);
    forall k
      ensures SuccessorSet(after, k) == Successors(s + [e], k)
    {
      AddedSuccessors(nodes, e, k);
    }
    forall k
      ensures Counter(after, k) == |Preds(GraphOf(s + [e]), k)|
    {
      AddedCounter(nodes, e, k);
      InDegreeGrows(s, e, k);
    }
  }

  // ----- reading the files -----

  lemma EntryStays(records: seq<Json>, r: Json, i: nat)
    requires i < |records|
    ensures EntryAt(records + [r], i) == EntryAt(records, i)
  {
    var longer := records + [r];
    assert longer[..i + 1] == records[..i + 1];
    if i > 0 {
      assert longer[..i] == records[..i];
    }
  }

  lemma EntriesAppend(records: seq<Json>, r: Json)
    ensures Entries(records + [r]) == Entries(records) + [EntryAt(records + [r], |records|)]
  {
    forall i | 0 <= i < |records|
      ensures Entries(records + [r])[i] == Entries(records)[i]
    {
      EntryStays(records, r, i);
    }
  }

  /** The first session_meta record of the first file sorts before everything else. */
  function CanonicalKey(records: seq<Json>): Option<Key> {
    if records == [] then None
    else
      var last := |records| - 1;
      var before := CanonicalKey(records[..last]);
      if before.None? && HasType(records[last], "session_meta") then Some(KeyAt(records, last)) else before
  }

  function Canonical(files: seq<seq<Json>>): Option<Key> {
    if files == [] then None else CanonicalKey(files[0])
  }

  function RecordsOfAll(files: seq<seq<Line>>): (all: seq<seq<Json>>)
    ensures |all| == |files|
  {
    seq(|files|, i requires 0 <= i < |files| => RecordsOf(files[i]))
  }

  lemma NextRecord(base: seq<Entry>, records: seq<Json>, r: Json)
    requires Linked(base)
    ensures var e := EntryAt(records + [r], |records|);
            base + Entries(records + [r]) == base + Entries(records) + [e] && Linked(base + Entries(records) + [e])
  {
    var part, before, e := Entries(records + [r]), Entries(records), EntryAt(records + [r], |records|);
    assert part == before + [e] by {
      EntriesAppend(records, r);
    }
    assert base + part == base + before + [e];
    EntriesAreChained(records + [r]);
    ChainStaysLinked(base, part, |records| + 1);
    assert part[..|records| + 1] == part;
  }

  /** The variables that accumulate along one file. */
  datatype Reader = Reader(occurrences: map<Json, nat>, previous: Option<Key>, context: Context)

  const NEW_FILE := Reader(map[], None, NO_CONTEXT)

  function Occurrences(reader: Reader, r: Json): nat {
    if r in reader.occurrences then reader.occurrences[r] else 0
  }

  ghost predicate Follows(reader: Reader, records: seq<Json>) {
    && reader.context == ContextAfter(records)
    && reader.previous == (if records == [] then None else Some(KeyAt(records, |records| - 1)))
    && forall r {:trigger Occurrences(reader, r)} :: Occurrences(reader, r) == multiset(records)[r]
  }

  function Advance(reader: Reader, obj: Json): (Key, Reader) {
    var record := NormalizeUsageRecord(obj);
    var key := Key(record, Occurrences(reader, record) + 1);
    (key, Reader(reader.occurrences[record := key.occurrence], Some(key), UpdateContext(reader.context, obj)))
  }

  lemma AdvanceFollows(reader: Reader, records: seq<Json>, obj: Json)
    requires Follows(reader, records)
    ensures var longer := records + [NormalizeUsageRecord(obj)];
            var (key, after) := Advance(reader, obj);
            Follows(after, longer) && EntryAt(longer, |records|) == Entry(key, reader.previous, after.context)
  {
    var record := NormalizeUsageRecord(obj);
    var longer := records + [record];
    var (key, after) := Advance(reader, obj);
    assert longer[..|records|] == records && longer[..|records| + 1] == longer;
    ContextIgnoresNormalization(reader.context, obj);
    assert multiset(longer)[record] == multiset(records)[record] + 1;
    if records != [] {
      assert records[..|records|] == records;
      assert KeyAt(longer, |records| - 1) == KeyAt(records, |records| - 1);
    }
    forall r
      ensures Occurrences(after, r) == multiset(longer)[r]
    {
      assert Occurrences(reader, r) == multiset(records)[r];
    }
  }

  lemma CanonicalGrows(records: seq<Json>, r: Json)
    ensures CanonicalKey(records + [r]) ==
            if CanonicalKey(records).None? && HasType(r, "session_meta") then Some(KeyAt(records + [r], |records|))
            else CanonicalKey(records)
  {
    assert (records + [r])[..|records|] == records;
  }

  /** Enter one record: its node if it is new, and its edge from the file's previous record. */
  method ReadRecord(before: Nodes, key: Key, previous: Option<Key>, context: Context,
                    ghost base: seq<Entry>, ghost records: seq<Json>, ghost record: Json)
    returns (nodes: Nodes)
    requires Represents(before, base + Entries(records)) && Linked(base)
    requires EntryAt(records + [record], |records|) == Entry(key, previous, context)
    ensures Represents(nodes, base + Entries(records + [record]))
  {
    NextRecord(base, records, record);
    EntryIsRepresented(before, base + Entries(records), Entry(key, previous, context));
    nodes := AddNode(before, key, context);
    nodes := AddEdge(nodes, previous, key);
  }

  /** The dictionary, the canonical key and the running variables after the first records of a file. */
  ghost predicate Reading(nodes: Nodes, canonical: Option<Key>, reader: Reader, first: bool, earlier: Option<Key>,
                          base: seq<Entry>, records: seq<Json>) {
    && Represents(nodes, base + Entries(records)) && Follows(reader, records)
    && canonical == if first then CanonicalKey(records) else earlier
  }

  lemma FileBegins(nodes: Nodes, canonical: Option<Key>, first: bool, base: seq<Entry>)
    requires Represents(nodes, base) && (first ==> canonical == None)
    ensures Reading(nodes, canonical, NEW_FILE, first, canonical, base, [])
  {
    assert base + Entries([]) == base;
  }

  /** One dictionary line of a file: its record enters the dictionary and the running variables move on. */
  method ReadObject(before: Nodes, canonicalBefore: Option<Key>, first: bool, readerBefore: Reader, value: Json,
          ghost earlier: Option<Key>, ghost base: seq<Entry>, ghost records: seq<Json>)
    returns (nodes: Nodes, canonical: Option<Key>, reader: Reader)
    requires value.Object? && Linked(base)
    requires Reading(before, canonicalBefore, readerBefore, first, earlier, base, records)
    ensures Reading(nodes, canonical, reader, first, earlier, base, records + [NormalizeUsageRecord(value)])
  {
    ghost var record := NormalizeUsageRecord(value);
    AdvanceFollows(readerBefore, records, value);
    CanonicalGrows(records, record);
    var (key, after) := Advance(readerBefore, value);
    canonical := canonicalBefore;
    if first && canonical == None && HasType(key.record, "session_meta") {
      canonical := Some(key);
    }
    nodes := ReadRecord(before, key, readerBefore.previous, after.context, base, records, record);
    reader := after;
  }

  /** Read one physical file into the dictionary. */
  method ReadFile(before: Nodes, canonicalBefore: Option<Key>, first: bool, lines: seq<Line>, ghost base: seq<Entry>)
    returns (nodes: Nodes, canonical: Option<Key>)
    requires Represents(before, base) && Linked(base) && (first ==> canonicalBefore == None)
    ensures Represents(nodes, base + Entries(RecordsOf(lines)))
    ensures canonical == if first then CanonicalKey(RecordsOf(lines)) else canonicalBefore
  {
    nodes, canonical := before, canonicalBefore;
    var reader := NEW_FILE;
    ghost var records: seq<Json> := [];
    FileBegins(before, canonicalBefore, first, base);
    for l := 0 to |lines|
      invariant records == RecordsOf(lines[..l])
      invariant Reading(nodes, canonical, reader, first, canonicalBefore, base, records)
    {
      assert lines[..l + 1][..l] == lines[..l];
      if lines[l].Parsed? && lines[l].value.Object? {
        nodes, canonical, reader := ReadObject(nodes, canonical, first, reader, lines[l].value, canonicalBefore,
          base, records);
        records := records + [NormalizeUsageRecord(lines[l].value)];
      }
    }
    assert lines[..|lines|] == lines;
  }

  // ----- the merge -----

  const NO_STAMP := "9999-12-31T23:59:59.999999Z"

  /** `value or "9999-12-31T23:59:59.999999Z"` */
  function StampText(stamp: Option<string>): string {
    if stamp.Some? && stamp.value != "" then stamp.value else NO_STAMP
  }

  /** `sort_key`; `ordinal` counts the distinct keys read before this one. */
  function SortKey(key: Key, ordinal: int, canonical: Option<Key>, timestamp: Json -> Option<string>): Rank {
    if canonical == Some(key) then Rank(0, "", -1)
    else Rank(1, StampText(timestamp(if key.record.Object? then Get(key.record.fields, "timestamp") else Null)),
      ordinal)
  }

  function Ranks(ordinals: map<Key, int>, canonical: Option<Key>, timestamp: Json -> Option<string>): map<Key, Rank> {
    map key | key in ordinals :: SortKey(key, ordinals[key], canonical, timestamp)
  }

  function IndexIn(order: seq<Key>, k: Key): (i: int)
    requires k in order
    ensures 0 <= i < |order| && order[i] == k
  {
    if order[|order| - 1] == k then |order| - 1 else IndexIn(order[..|order| - 1], k)
  }

  function OrdinalsOf(s: seq<Entry>): map<Key, int> {
    var order := FirstSeen(s);
    map key | key in order :: IndexIn(order, key)
  }

  /** The rank every node of the merged graph sorts by. */
  function RankOf(files: seq<seq<Json>>, timestamp: Json -> Option<string>): map<Key, Rank> {
    Ranks(OrdinalsOf(Stream(files)), Canonical(files), timestamp)
  }

  lemma RanksAreInjective(files: seq<seq<Json>>, timestamp: Json -> Option<string>)
    ensures Ranked(GraphOf(Stream(files)), RankOf(files, timestamp))
  {
    var s, rank := Stream(files), RankOf(files, timestamp);
    FirstSeenIsExact(s);
    assert OrdinalsOf(s).Keys == KeysOf(s);
    forall a, b | a in KeysOf(s) && b in KeysOf(s) && rank[a] == rank[b]
      ensures a == b
    {
      var order := FirstSeen(s);
      if rank[a].group == 1 {
        assert IndexIn(order, a) == IndexIn(order, b);
      }
    }
  }

  lemma OrdinalsAreRepresented(nodes: Nodes, s: seq<Entry>)
    requires RepresentsOrder(nodes, s) && nodes.ordinals.Keys == KeysOf(s)
    ensures nodes.ordinals == OrdinalsOf(s)
  {
    FirstSeenIsExact(s);
    OrdinalsAreIndices(FirstSeen(s), nodes.ordinals);
  }

  lemma OrdinalsAreIndices(order: seq<Key>, ordinals: map<Key, int>)
    requires NoRepeats(order) && (forall k :: k in ordinals <==> k in order)
    requires forall i :: 0 <= i < |order| ==> ordinals[order[i]] == i
    ensures ordinals == map key | key in order :: IndexIn(order, key)
  {
    forall k | k in ordinals
      ensures ordinals[k] == IndexIn(order, k)
    {
      assert order[IndexIn(order, k)] == k;
    }
  }

  /** The order a merge of these files may produce. */
  ghost predicate MergedOrder(files: seq<seq<Json>>, timestamp: Json -> Option<string>, out: seq<Key>) {
    Ranked(GraphOf(Stream(files)), RankOf(files, timestamp))
    && PriorityOrder(GraphOf(Stream(files)), RankOf(files, timestamp), out)
    && Exhausted(GraphOf(Stream(files)), out)
  }

  lemma ReadyToEmit(nodes: Nodes, s: seq<Entry>)
    requires Represents(nodes, s)
    ensures Graph(nodes.succ.Keys, nodes.succ) == GraphOf(s) && WellFormed(GraphOf(s))
    ensures CountsPending(GraphOf(s), nodes.incoming, {})
  {
    GraphIsWellFormed(s);
    forall k | k in nodes.succ
      ensures nodes.succ[k] == Successors(s, k)
    {
      assert SuccessorSet(nodes, k) == Successors(s, k);
    }
    assert nodes.succ == GraphOf(s).succ;
    forall n | n in KeysOf(s)
      ensures nodes.incoming[n] == |Preds(GraphOf(s), n) - {}|
    {
      assert Counter(nodes, n) == |Preds(GraphOf(s), n)|;
      assert Preds(GraphOf(s), n) - {} == Preds(GraphOf(s), n);
    }
  }

  /** The keys, in order, whose counter is zero. */
  method ZeroKeys(order: seq<Key>, incoming: map<Key, int>) returns (ready: seq<Key>)
    requires NoRepeats(order) && forall k :: k in order ==> k in incoming
    ensures NoRepeats(ready) && forall k :: k in ready <==> k in order && incoming[k] == 0
  {
    ready := [];
    for i := 0 to |order|
      invariant NoRepeats(ready)
      invariant forall k :: k in ready <==> k in order[..i] && incoming[k] == 0
    {
      assert order[i] !in order[..i] && order[i] in order;
      if incoming[order[i]] == 0 {
        ready := ready + [order[i]];
      }
      assert order[..i + 1] == order[..i] + [order[i]];
    }
    assert order[..|order|] == order;
  }

  /** `[key for key, node in nodes.items() if node["incoming"] == 0]` */
  method CollectReady(nodes: Nodes, ghost s: seq<Entry>) returns (ready: seq<Key>)
    requires Represents(nodes, s)
    ensures GraphOf(s).nodes <= nodes.incoming.Keys && ZeroCounters(GraphOf(s), nodes.incoming, ready)
  {
    FirstSeenIsExact(s);
    ready := ZeroKeys(nodes.order, nodes.incoming);
  }

  method BuildGraph(files: seq<seq<Line>>) returns (nodes: Nodes, canonical: Option<Key>)
    ensures Represents(nodes, Stream(RecordsOfAll(files))) && canonical == Canonical(RecordsOfAll(files))
  {
    nodes, canonical := NO_NODES, None;
    ghost var all := RecordsOfAll(files);
    NothingRead();
    for f := 0 to |files|
      invariant Represents(nodes, Stream(all[..f]))
      invariant canonical == Canonical(all[..f])
    {
      StreamIsLinked(all[..f]);
      nodes, canonical := ReadFile(nodes, canonical, f == 0, files[f], Stream(all[..f]));
      assert all[..f + 1][..f] == all[..f];
    }
    assert all[..|files|] == all;
  }

  lemma NothingRead()
    ensures Represents(NO_NODES, [])
  {
    forall k
      ensures |Preds(GraphOf([]), k)| == 0
    {
      assert Preds(GraphOf([]), k) == {};
    }
  }

  /** Order the nodes of a finished graph. */
  method OrderNodes(nodes: Nodes, canonical: Option<Key>, timestamp: Json -> Option<string>,
          ghost files: seq<seq<Json>>)
    returns (order: seq<Key>)
    requires Represents(nodes, Stream(files)) && canonical == Canonical(files)
    ensures MergedOrder(files, timestamp, order) && Elements(order) <= nodes.contexts.Keys
    ensures |order| == |nodes.succ| <==> Acyclic(GraphOf(Stream(files)))
    ensures |order| == |nodes.succ| <==> Elements(order) == KeysOf(Stream(files))
  {
    ghost var s := Stream(files);
    ReadyToEmit(nodes, s);
    OrdinalsAreRepresented(nodes, s);
    RanksAreInjective(files, timestamp);
    var ready := CollectReady(nodes, s);
    var rank := Ranks(nodes.ordinals, canonical, timestamp);
    order := EmitByPriority(Graph(nodes.succ.Keys, nodes.succ), rank, nodes.incoming, ready);
    OrderIsDistinct(GraphOf(s), rank, order);
    CompleteIffAcyclic(GraphOf(s), rank, order);
    assert |nodes.succ| == |nodes.succ.Keys|;
  }

  /** `value` is the transcript of the complete order of these files. */
  ghost predicate IsMerge(files: seq<seq<Json>>, timestamp: Json -> Option<string>, value: seq<(Json, Context)>) {
    exists out :: MergedOrder(files, timestamp, out) && Elements(out) == KeysOf(Stream(files))
      && IsEmitted(files, out, value)
  }

  ghost predicate IsEmitted(files: seq<seq<Json>>, out: seq<Key>, value: seq<(Json, Context)>) {
    |value| == |out|
    && forall i :: 0 <= i < |out| ==>
         out[i] in KeysOf(Stream(files)) && value[i] == (out[i].record, FirstContext(Stream(files), out[i]))
  }

  /** Pair each emitted record with the context stored in its node. */
  method CollectResult(order: seq<Key>, nodes: Nodes, ghost files: seq<seq<Json>>) returns (value: seq<(Json, Context)>)
    requires RepresentsContexts(nodes, Stream(files)) && Elements(order) <= nodes.contexts.Keys
    ensures IsEmitted(files, order, value)
  {
    value := [];
    for i := 0 to |order|
      invariant |value| == i
      invariant forall j :: 0 <= j < i ==>
                  order[j] in KeysOf(Stream(files))
                    && value[j] == (order[j].record, FirstContext(Stream(files), order[j]))
    {
      assert order[i] in Elements(order);
      value := value + [(order[i].record, nodes.contexts[order[i]])];
    }
  }

  // ----- where stream entries come from -----

  lemma {:induction false} StreamEntryHasFile(files: seq<seq<Json>>, j: nat) returns (f: nat, i: nat)
    requires j < |Stream(files)|
    ensures f < |files| && i < |files[f]| && Stream(files)[j] == Entries(files[f])[i]
  {
    var last := |files| - 1;
    var base := Stream(files[..last]);
    if j < |base| {
      f, i := StreamEntryHasFile(files[..last], j);
    } else {
      f, i := last, j - |base|;
    }
  }

  lemma {:induction false} FileEntryIsStreamed(files: seq<seq<Json>>, f: nat, i: nat) returns (j: nat)
    requires f < |files| && i < |files[f]|
    ensures j < |Stream(files)| && Stream(files)[j] == Entries(files[f])[i]
  {
    var last := |files| - 1;
    if f == last {
      j := |Stream(files[..last])| + i;
    } else {
      j := FileEntryIsStreamed(files[..last], f, i);
    }
  }

  // ----- what is emitted -----

  /** Some line of some file is read as this record. */
  ghost predicate FromSomeLine(files: seq<seq<Line>>, record: Json) {
    exists f, l :: 0 <= f < |files| && LineIsReadAs(files[f], l, record)
  }

  ghost predicate Emits(value: seq<(Json, Context)>, record: Json) {
    exists j :: 0 <= j < |value| && value[j].0 == record
  }

  /** The emitted records are what the dictionaries of the files are read as, and each of these is emitted. */
  ghost predicate EmitsTheLines(files: seq<seq<Line>>, value: seq<(Json, Context)>) {
    && (forall j :: 0 <= j < |value| ==> FromSomeLine(files, value[j].0))
    && forall f, l :: 0 <= f < |files| && IsDictionary(files[f], l) ==>
         exists record :: LineIsReadAs(files[f], l, record) && Emits(value, record)
  }

  lemma EmittedIsRead(files: seq<seq<Line>>, out: seq<Key>, value: seq<(Json, Context)>, j: nat)
    requires IsEmitted(RecordsOfAll(files), out, value) && j < |value|
    ensures FromSomeLine(files, value[j].0)
  {
    var all := RecordsOfAll(files);
    var i := ReadKeyHasEntry(Stream(all), out[j]);
    var f, n := StreamEntryHasFile(all, i);
    EntryFields(all[f], n);
    var at := RecordsFollowLines(files[f]);
    assert LineIsReadAs(files[f], at[n], all[f][n]);
  }

  lemma ReadIsEmitted(files: seq<seq<Line>>, out: seq<Key>, value: seq<(Json, Context)>, f: nat, l: int)
    requires IsEmitted(RecordsOfAll(files), out, value) && Elements(out) == KeysOf(Stream(RecordsOfAll(files)))
    requires f < |files| && IsDictionary(files[f], l)
    ensures exists record :: LineIsReadAs(files[f], l, record) && Emits(value, record)
  {
    var all := RecordsOfAll(files);
    var at := RecordsFollowLines(files[f]);
    var n :| 0 <= n < |at| && at[n] == l;
    var j := FileEntryIsStreamed(all, f, n);
    EntryFields(all[f], n);
    KeyIsRead(Stream(all), j);
    assert KeyAt(all[f], n) in Elements(out);
    var k :| 0 <= k < |out| && out[k] == KeyAt(all[f], n);
    assert value[k].0 == all[f][n];
    assert LineIsReadAs(files[f], l, all[f][n]) && Emits(value, all[f][n]);
  }

  lemma MergeEmitsTheLines(files: seq<seq<Line>>, timestamp: Json -> Option<string>, value: seq<(Json, Context)>)
    requires IsMerge(RecordsOfAll(files), timestamp, value)
    ensures EmitsTheLines(files, value)
  {
    var all := RecordsOfAll(files);
    var out :| MergedOrder(all, timestamp, out) && Elements(out) == KeysOf(Stream(all)) && IsEmitted(all, out, value);
    forall j | 0 <= j < |value|
      ensures FromSomeLine(files, value[j].0)
    {
      EmittedIsRead(files, out, value, j);
    }
    forall f, l | 0 <= f < |files| && IsDictionary(files[f], l)
      ensures exists record :: LineIsReadAs(files[f], l, record) && Emits(value, record)
    {
      ReadIsEmitted(files, out, value, f, l);
    }
  }

  /** `merge_codex_records`: the conflict error exactly when the union of the files' orders is cyclic,
      and otherwise the records and contexts of the complete priority order. */
  method MergeCodexRecords(files: seq<seq<Line>>, timestamp: Json -> Option<string>)
    returns (result: Result<seq<(Json, Context)>>)
    ensures result.Err? <==> !Acyclic(GraphOf(Stream(RecordsOfAll(files))))
    ensures result.Ok? ==> IsMerge(RecordsOfAll(files), timestamp, result.value) && EmitsTheLines(files, result.value)
  {
    ghost var all := RecordsOfAll(files);
    var nodes, canonical := BuildGraph(files);
    var order := OrderNodes(nodes, canonical, timestamp, all);
    if |order| != |nodes.succ| {
      return Err("Codex continuation copies have conflicting record order");
    }
    var value := CollectResult(order, nodes, all);
    MergeEmitsTheLines(files, timestamp, value);
    result := Ok(value);
  }
}
