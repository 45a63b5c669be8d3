/** What a merged transcript is: unique, order-preserving, and free of double counting. */
module SegmentLaws {
  import opened Prelude
  import opened Transcript
  import opened PriorityTopology
  import opened SegmentMerge
  import opened TextOrder
  import Timestamps

  /** The nodes are exactly the distinct record occurrences of the files. */
  lemma NodesAreOccurrences(files: seq<seq<Json>>, k: Key)
    ensures k in KeysOf(Stream(files))
            <==> exists f, i :: 0 <= f < |files| && 0 <= i < |files[f]| && KeyAt(files[f], i) == k
  {
    if k in KeysOf(Stream(files)) {
      var j := ReadKeyHasEntry(Stream(files), k);
      var f, i := StreamEntryHasFile(files, j);
      EntryFields(files[f], i);
    }
    if f, i :| 0 <= f < |files| && 0 <= i < |files[f]| && KeyAt(files[f], i) == k {
      var j := FileEntryIsStreamed(files, f, i);
      EntryFields(files[f], i);
      KeyIsRead(Stream(files), j);
    }
  }

  /** The edges are exactly the adjacent pairs of the files. */
  lemma EdgesAreAdjacencies(files: seq<seq<Json>>, a: Key, b: Key)
    ensures Edge(GraphOf(Stream(files)), a, b) <==>
            exists f, i :: 0 <= f < |files| && 0 < i < |files[f]| && KeyAt(files[f], i - 1) == a
              && KeyAt(files[f], i) == b
  {
    var s := Stream(files);
    StreamIsLinked(files);
    EdgeIsAdjacency(s, a, b);
    if Edge(GraphOf(s), a, b) {
      var j :| 0 <= j < |s| && s[j].previous == Some(a) && s[j].key == b;
      var f, i := StreamEntryHasFile(files, j);
      EntryFields(files[f], i);
      assert KeyAt(files[f], i - 1) == a;
    }
    if f, i :| 0 <= f < |files| && 0 < i < |files[f]| && KeyAt(files[f], i - 1) == a && KeyAt(files[f], i) == b {
      var j := FileEntryIsStreamed(files, f, i);
      EntryFields(files[f], i);
      assert s[j].previous == Some(a) && s[j].key == b;
    }
  }

  // ----- uniqueness -----

  /** Two merges of the same files are the same transcript. */
  lemma MergeIsUnique(files: seq<seq<Json>>, timestamp: Json -> Option<string>, v: seq<(Json, Context)>,
          w: seq<(Json, Context)>)
    requires IsMerge(files, timestamp, v) && IsMerge(files, timestamp, w)
    ensures v == w
  {
    var a :| MergedOrder(files, timestamp, a) && Elements(a) == KeysOf(Stream(files)) && IsEmitted(files, a, v);
    var b :| MergedOrder(files, timestamp, b) && Elements(b) == KeysOf(Stream(files)) && IsEmitted(files, b, w);
    OrderIsUnique(GraphOf(Stream(files)), RankOf(files, timestamp), a, b);
  }

  // ----- every file's order survives -----

  function Keys(records: seq<Json>): (keys: seq<Key>)
    ensures |keys| == |records|
  {
    if records == [] then []
    else Keys(records[..|records| - 1]) + [KeyAt(records, |records| - 1)]
  }

  lemma {:induction false} KeysAt(records: seq<Json>, i: nat)
    requires i < |records|
    ensures Keys(records)[i] == KeyAt(records, i)
  {
    if i < |records| - 1 {
      KeysAt(records[..|records| - 1], i);
      assert records[..|records| - 1][..i + 1] == records[..i + 1];
    }
  }

  /** `at` lists increasing positions of `out` that hold exactly `keys`. */
  ghost predicate Embeds(keys: seq<Key>, out: seq<Key>, at: seq<int>) {
    |at| == |keys|
    && (forall i :: 0 <= i < |at| ==> 0 <= at[i] < |out| && out[at[i]] == keys[i])
    && forall i, j :: 0 <= i < j < |at| ==> at[i] < at[j]
  }

  ghost predicate Survives(keys: seq<Key>, out: seq<Key>) {
    exists at :: Embeds(keys, out, at)
  }

  /** A file's record is emitted, and its predecessor in the file earlier. */
  lemma RecordFollowsPredecessor(files: seq<seq<Json>>, timestamp: Json -> Option<string>, out: seq<Key>, f: nat,
          n: nat)
    returns (i: int, j: int)
    requires MergedOrder(files, timestamp, out) && Elements(out) == KeysOf(Stream(files))
    requires f < |files| && n < |files[f]|
    ensures 0 <= j < |out| && out[j] == KeyAt(files[f], n)
    ensures n > 0 ==> 0 <= i < j && out[i] == KeyAt(files[f], n - 1)
  {
    var k := KeyAt(files[f], n);
    NodesAreOccurrences(files, k);
    assert k in Elements(out);
    j :| 0 <= j < |out| && out[j] == k;
    i := 0;
    if n > 0 {
      var before := KeyAt(files[f], n - 1);
      EdgesAreAdjacencies(files, before, k);
      NodesAreOccurrences(files, before);
      OrderRespectsEdges(GraphOf(Stream(files)), RankOf(files, timestamp), out, before, j);
      i :| 0 <= i < j && out[i] == before;
    }
  }

  lemma EmbeddingExtends(keys: seq<Key>, out: seq<Key>, at: seq<int>, n: nat, i: int, j: int)
    requires n < |keys| && Embeds(keys[..n], out, at) && NoRepeats(out)
    requires 0 <= j < |out| && out[j] == keys[n]
    requires n > 0 ==> 0 <= i < j && out[i] == keys[n - 1]
    ensures Embeds(keys[..n + 1], out, at + [j])
  {
    if n > 0 {
      assert out[at[n - 1]] == keys[..n][n - 1] == out[i];
    }
  }

  lemma MergedIsDistinct(files: seq<seq<Json>>, timestamp: Json -> Option<string>, out: seq<Key>)
    requires MergedOrder(files, timestamp, out)
    ensures NoRepeats(out)
  {
    OrderIsDistinct(GraphOf(Stream(files)), RankOf(files, timestamp), out);
  }

  lemma WholePrefixEmbeds(keys: seq<Key>, out: seq<Key>, at: seq<int>)
    requires Embeds(keys[..|keys|], out, at)
    ensures Survives(keys, out)
  {
    assert keys[..|keys|] == keys;
  }

  lemma {:induction false} FilePrefixEmbeds(files: seq<seq<Json>>, timestamp: Json -> Option<string>, out: seq<Key>,
                                            f: nat, keys: seq<Key>, n: nat)
    returns (at: seq<int>)
    requires MergedOrder(files, timestamp, out) && Elements(out) == KeysOf(Stream(files)) && NoRepeats(out)
    requires f < |files| && |keys| == |files[f]| && n <= |keys|
    requires forall i :: 0 <= i < |keys| ==> keys[i] == KeyAt(files[f], i)
    ensures Embeds(keys[..n], out, at)
  {
    if n == 0 {
      at := [];
    } else {
      at := FilePrefixEmbeds(files, timestamp, out, f, keys, n - 1);
      var i, j := RecordFollowsPredecessor(files, timestamp, out, f, n - 1);
      EmbeddingExtends(keys, out, at, n - 1, i, j);
      at := at + [j];
    }
  }

  lemma KeysSurvive(files: seq<seq<Json>>, timestamp: Json -> Option<string>, out: seq<Key>, f: nat, keys: seq<Key>)
    requires MergedOrder(files, timestamp, out) && Elements(out) == KeysOf(Stream(files))
    requires f < |files| && |keys| == |files[f]|
    requires forall i :: 0 <= i < |keys| ==> keys[i] == KeyAt(files[f], i)
    ensures Survives(keys, out)
  {
    MergedIsDistinct(files, timestamp, out);
    var at := FilePrefixEmbeds(files, timestamp, out, f, keys, |keys|);
    WholePrefixEmbeds(keys, out, at);
  }

  /** Each file's key sequence is a subsequence of the merged order. */
  lemma FileOrderSurvives(files: seq<seq<Json>>, timestamp: Json -> Option<string>, out: seq<Key>, f: nat)
    requires MergedOrder(files, timestamp, out) && Elements(out) == KeysOf(Stream(files)) && f < |files|
    ensures Survives(Keys(files[f]), out)
  {
    forall i | 0 <= i < |files[f]|
      ensures Keys(files[f])[i] == KeyAt(files[f], i)
    {
      KeysAt(files[f], i);
    }
    KeysSurvive(files, timestamp, out, f, Keys(files[f]));
  }

  /** An arrangement of all nodes, each once, in which every file's order survives. */
  ghost predicate CommonOrder(files: seq<seq<Json>>, out: seq<Key>) {
    NoRepeats(out) && Elements(out) == KeysOf(Stream(files))
    && forall f :: 0 <= f < |files| ==> Survives(Keys(files[f]), out)
  }

  lemma CommonOrderRespectsEdges(files: seq<seq<Json>>, out: seq<Key>, i: int, j: int)
    requires CommonOrder(files, out) && 0 <= i < |out| && 0 <= j < |out|
    requires Edge(GraphOf(Stream(files)), out[i], out[j])
    ensures i < j
  {
    EdgesAreAdjacencies(files, out[i], out[j]);
    var f, n :| 0 <= f < |files| && 0 < n < |files[f]| && KeyAt(files[f], n - 1) == out[i]
      && KeyAt(files[f], n) == out[j];
    assert Survives(Keys(files[f]), out);
    var keys := KeysWith(files[f], n, out[i], out[j]);
    SurvivingPairRises(keys, out, n, i, j);
  }

  lemma KeysWith(records: seq<Json>, n: int, a: Key, b: Key) returns (keys: seq<Key>)
    requires 0 < n < |records| && KeyAt(records, n - 1) == a && KeyAt(records, n) == b
    ensures keys == Keys(records) && keys[n - 1] == a && keys[n] == b
  {
    keys := Keys(records);
    KeysAt(records, n - 1);
    KeysAt(records, n);
  }

  lemma SurvivingPairRises(keys: seq<Key>, out: seq<Key>, n: int, i: int, j: int)
    requires Survives(keys, out) && NoRepeats(out) && 0 < n < |keys| && 0 <= i < |out| && 0 <= j < |out|
    requires keys[n - 1] == out[i] && keys[n] == out[j]
    ensures i < j
  {
    var at :| Embeds(keys, out, at);
    assert out[at[n - 1]] == out[i] && out[at[n]] == out[j];
  }

  lemma {:induction false} CyclePositionsRise(files: seq<seq<Json>>, out: seq<Key>, c: seq<Key>, n: nat)
    returns (i: int, j: int)
    requires CommonOrder(files, out) && IsCycle(GraphOf(Stream(files)), c) && n < |c|
    ensures 0 <= i <= j < |out| && out[i] == c[0] && out[j] == c[n]
  {
    assert c[n] in Elements(out) && c[0] in Elements(out);
    if n == 0 {
      i :| 0 <= i < |out| && out[i] == c[0];
      j := i;
    } else {
      var k;
      i, k := CyclePositionsRise(files, out, c, n - 1);
      j :| 0 <= j < |out| && out[j] == c[n];
      CommonOrderRespectsEdges(files, out, k, j);
    }
  }

  lemma CompleteOrderIsCommon(files: seq<seq<Json>>, timestamp: Json -> Option<string>, out: seq<Key>)
    requires MergedOrder(files, timestamp, out) && Elements(out) == KeysOf(Stream(files))
    ensures CommonOrder(files, out)
  {
    OrderIsDistinct(GraphOf(Stream(files)), RankOf(files, timestamp), out);
    forall f | 0 <= f < |files|
      ensures Survives(Keys(files[f]), out)
    {
      FileOrderSurvives(files, timestamp, out, f);
    }
  }

  lemma CommonOrderHasNoCycle(files: seq<seq<Json>>, out: seq<Key>, c: seq<Key>)
    requires CommonOrder(files, out)
    ensures !IsCycle(GraphOf(Stream(files)), c)
  {
    if IsCycle(GraphOf(Stream(files)), c) {
      var i, j := CyclePositionsRise(files, out, c, |c| - 1);
      CommonOrderRespectsEdges(files, out, j, i);
    }
  }

  /** The merge succeeds exactly when some arrangement of all records respects every file. */
  lemma ConflictIffNoCommonOrder(files: seq<seq<Json>>)
    ensures Acyclic(GraphOf(Stream(files))) <==> exists order :: CommonOrder(files, order)
  {
    var g, timestamp := GraphOf(Stream(files)), (stamp: Json) => None;
    GraphIsWellFormed(Stream(files));
    RanksAreInjective(files, timestamp);
    var out := OrderExists(g, RankOf(files, timestamp));
    CompleteIffAcyclic(g, RankOf(files, timestamp), out);
    if Acyclic(g) {
      CompleteOrderIsCommon(files, timestamp, out);
    } else if order :| CommonOrder(files, order) {
      var c :| IsCycle(g, c);
      CommonOrderHasNoCycle(files, order, c);
    }
  }

  // ----- multiplicity -----

  function MaxCount(files: seq<seq<Json>>, r: Json): nat {
    if files == [] then 0
    else
      var rest, here := MaxCount(files[..|files| - 1], r), multiset(files[|files| - 1])[r];
      if here > rest then here else rest
  }

  lemma {:induction false} MaxCountIsAttained(files: seq<seq<Json>>, r: Json) returns (f: int)
    ensures forall g :: 0 <= g < |files| ==> multiset(files[g])[r] <= MaxCount(files, r)
    ensures MaxCount(files, r) > 0 ==> 0 <= f < |files| && multiset(files[f])[r] == MaxCount(files, r)
  {
    f := -1;
    if files != [] {
      f := MaxCountIsAttained(files[..|files| - 1], r);
      if multiset(files[|files| - 1])[r] == MaxCount(files, r) {
        f := |files| - 1;
      }
    }
  }

  lemma {:induction false} OccurrenceHasIndex(records: seq<Json>, r: Json, n: nat) returns (i: nat)
    requires 1 <= n <= multiset(records)[r]
    ensures i < |records| && KeyAt(records, i) == Key(r, n)
  {
    var last := |records| - 1;
    var init := records[..last];
    assert records == init + [records[last]];
    if n <= multiset(init)[r] {
      i := OccurrenceHasIndex(init, r, n);
      assert records[..i + 1] == init[..i + 1];
    } else {
      i := last;
      assert records[..last + 1] == records;
    }
  }

  lemma OccurrenceIsInRange(records: seq<Json>, i: nat)
    requires i < |records|
    ensures 1 <= KeyAt(records, i).occurrence <= multiset(records)[records[i]]
  {
    assert records[..i + 1][i] == records[i];
    assert records == records[..i + 1] + records[i + 1..];
  }

  /** A record's nodes are numbered from one to its largest count in any file. */
  lemma NodesOfOneRecord(files: seq<seq<Json>>, r: Json, n: nat)
    ensures Key(r, n) in KeysOf(Stream(files)) <==> 1 <= n <= MaxCount(files, r)
  {
    NodesAreOccurrences(files, Key(r, n));
    var f := MaxCountIsAttained(files, r);
    if 1 <= n <= MaxCount(files, r) {
      var i := OccurrenceHasIndex(files[f], r, n);
    }
    if g, i :| 0 <= g < |files| && 0 <= i < |files[g]| && KeyAt(files[g], i) == Key(r, n) {
      OccurrenceIsInRange(files[g], i);
    }
  }

  function Numbered(r: Json, n: nat): set<Key> {
    if n == 0 then {} else Numbered(r, n - 1) + {Key(r, n)}
  }

  lemma {:induction false} NumberedIsExact(r: Json, n: nat)
    ensures |Numbered(r, n)| == n && forall k :: k in Numbered(r, n) <==> k.record == r && 1 <= k.occurrence <= n
  {
    if n > 0 {
      NumberedIsExact(r, n - 1);
    }
  }

  function RecordsIn(out: seq<Key>): seq<Json> {
    if out == [] then [] else RecordsIn(out[..|out| - 1]) + [out[|out| - 1].record]
  }

  function NodesWith(out: seq<Key>, r: Json): set<Key> {
    if out == [] then {}
    else NodesWith(out[..|out| - 1], r) + if out[|out| - 1].record == r then {out[|out| - 1]} else {}
  }

  lemma {:induction false} NodesWithIsExact(out: seq<Key>, r: Json, k: Key)
    ensures k in NodesWith(out, r) <==> k in out && k.record == r
  {
    if out != [] {
      NodesWithIsExact(out[..|out| - 1], r, k);
      assert out == out[..|out| - 1] + [out[|out| - 1]];
    }
  }

  lemma {:induction false} CountIsCardinality(out: seq<Key>, r: Json)
    requires NoRepeats(out)
    ensures multiset(RecordsIn(out))[r] == |NodesWith(out, r)|
  {
    if out != [] {
      CountIsCardinality(out[..|out| - 1], r);
      NodesWithIsExact(out[..|out| - 1], r, out[|out| - 1]);
    }
  }

  lemma {:induction false} EmittedRecords(files: seq<seq<Json>>, out: seq<Key>, value: seq<(Json, Context)>, n: nat)
    requires IsEmitted(files, out, value) && n <= |out|
    ensures |RecordsIn(out[..n])| == n && forall i :: 0 <= i < n ==> RecordsIn(out[..n])[i] == value[i].0
  {
    if n > 0 {
      EmittedRecords(files, out, value, n - 1);
      assert out[..n][..n - 1] == out[..n - 1];
    }
  }

  function RecordColumn(value: seq<(Json, Context)>): seq<Json> {
    seq(|value|, i requires 0 <= i < |value| => value[i].0)
  }

  /** Each record occurs in the merge as often as in the file that holds it most often, never as
      often as in all files together. */
  lemma MultiplicityIsTheMaximum(files: seq<seq<Json>>, timestamp: Json -> Option<string>, value: seq<(Json, Context)>,
          r: Json)
    requires IsMerge(files, timestamp, value)
    ensures multiset(RecordColumn(value))[r] == MaxCount(files, r)
  {
    var out :| MergedOrder(files, timestamp, out) && Elements(out) == KeysOf(Stream(files))
      && IsEmitted(files, out, value);
    OrderIsDistinct(GraphOf(Stream(files)), RankOf(files, timestamp), out);
    ColumnCount(files, out, value, r);
  }

  lemma ColumnCount(files: seq<seq<Json>>, out: seq<Key>, value: seq<(Json, Context)>, r: Json)
    requires NoRepeats(out) && Elements(out) == KeysOf(Stream(files)) && IsEmitted(files, out, value)
    ensures multiset(RecordColumn(value))[r] == MaxCount(files, r)
  {
    EmittedRecords(files, out, value, |out|);
    assert out[..|out|] == out;
    assert RecordColumn(value) == RecordsIn(out);
    CountIsCardinality(out, r);
    NodesAreNumbered(files, out, r);
    NumberedIsExact(r, MaxCount(files, r));
  }

  lemma NodesAreNumbered(files: seq<seq<Json>>, out: seq<Key>, r: Json)
    requires Elements(out) == KeysOf(Stream(files))
    ensures NodesWith(out, r) == Numbered(r, MaxCount(files, r))
  {
    NumberedIsExact(r, MaxCount(files, r));
    forall k
      ensures k in NodesWith(out, r) <==> k in Numbered(r, MaxCount(files, r))
    {
      NodesWithIsExact(out, r, k);
      NodesOfOneRecord(files, r, k.occurrence);
      assert k in out <==> k in Elements(out);
      assert k.record == r ==> k == Key(r, k.occurrence);
    }
  }

  // ----- copies and prefixes of one log -----

  /** Every file is a prefix of file `l`: a live log, its copies, and shorter snapshots of it. */
  ghost predicate PrefixesOf(files: seq<seq<Json>>, l: nat) {
    l < |files| && forall f :: 0 <= f < |files| ==> files[f] <= files[l]
  }

  lemma PrefixKey(short: seq<Json>, long: seq<Json>, i: nat)
    requires short <= long && i < |short|
    ensures KeyAt(short, i) == KeyAt(long, i) && short[..i + 1] == long[..i + 1]
  {
    assert short[..i + 1] == long[..i + 1];
  }

  lemma PrefixNodes(files: seq<seq<Json>>, l: nat, k: Key)
    requires PrefixesOf(files, l)
    ensures k in KeysOf(Stream(files)) <==> exists i :: 0 <= i < |files[l]| && KeyAt(files[l], i) == k
  {
    NodesAreOccurrences(files, k);
    if f, i :| 0 <= f < |files| && 0 <= i < |files[f]| && KeyAt(files[f], i) == k {
      PrefixKey(files[f], files[l], i);
    }
  }

  lemma PrefixEdge(files: seq<seq<Json>>, l: nat, a: Key, i: nat)
    requires PrefixesOf(files, l) && i < |files[l]|
    ensures Edge(GraphOf(Stream(files)), a, KeyAt(files[l], i)) <==> i > 0 && a == KeyAt(files[l], i - 1)
  {
    var b := KeyAt(files[l], i);
    EdgesAreAdjacencies(files, a, b);
    if f, j :| 0 <= f < |files| && 0 < j < |files[f]| && KeyAt(files[f], j - 1) == a && KeyAt(files[f], j) == b {
      PreviousInPrefix(files[f], files[l], j, i);
    }
  }

  lemma PreviousInPrefix(short: seq<Json>, long: seq<Json>, j: nat, i: nat)
    requires short <= long && 0 < j < |short| && i < |long| && KeyAt(short, j) == KeyAt(long, i)
    ensures i == j && KeyAt(short, j - 1) == KeyAt(long, i - 1)
  {
    PrefixKey(short, long, j);
    PrefixKey(short, long, j - 1);
    SameKeySameIndex(long, i, j);
  }

  lemma SameKeySameIndex(records: seq<Json>, i: nat, j: nat)
    requires i < |records| && j < |records| && KeyAt(records, i) == KeyAt(records, j)
    ensures i == j
  {
    if i < j {
      KeysWithinFileDiffer(records, i, j);
    } else if j < i {
      KeysWithinFileDiffer(records, j, i);
    }
  }

  lemma KeyIsIn(records: seq<Json>, n: nat, k: Key)
    requires n <= |records|
    ensures k in Elements(Keys(records)[..n]) <==> exists i :: 0 <= i < n && KeyAt(records, i) == k
  {
    if k in Keys(records)[..n] {
      var i :| 0 <= i < n && Keys(records)[i] == k;
      KeysAt(records, i);
    }
    if i :| 0 <= i < n && KeyAt(records, i) == k {
      KeysAt(records, i);
      assert Keys(records)[..n][i] == k;
    }
  }

  lemma PredsInLongest(files: seq<seq<Json>>, l: nat, i: nat)
    requires PrefixesOf(files, l) && i < |files[l]|
    ensures Preds(GraphOf(Stream(files)), KeyAt(files[l], i)) == if i > 0 then {KeyAt(files[l], i - 1)} else {}
  {
    var g, k := GraphOf(Stream(files)), KeyAt(files[l], i);
    forall p
      ensures p in Preds(g, k) <==> i > 0 && p == KeyAt(files[l], i - 1)
    {
      PrefixEdge(files, l, p, i);
      PrefixNodes(files, l, p);
    }
  }

  /** After the first `n` records of the longest file only its next record is ready. */
  lemma OnlyNextIsReady(files: seq<seq<Json>>, l: nat, n: nat, k: Key)
    requires PrefixesOf(files, l) && n <= |files[l]|
    ensures Ready(GraphOf(Stream(files)), Elements(Keys(files[l])[..n]), k)
            <==> n < |files[l]| && k == KeyAt(files[l], n)
  {
    var long := files[l];
    PrefixNodes(files, l, k);
    if i :| 0 <= i < |long| && KeyAt(long, i) == k {
      ReadyAtItsTurn(files, l, n, i);
      if n < |long| && k == KeyAt(long, n) {
        SameKeySameIndex(long, i, n);
      }
    }
  }

  lemma ReadyAtItsTurn(files: seq<seq<Json>>, l: nat, n: nat, i: nat)
    requires PrefixesOf(files, l) && n <= |files[l]| && i < |files[l]|
    ensures Ready(GraphOf(Stream(files)), Elements(Keys(files[l])[..n]), KeyAt(files[l], i)) <==> i == n
  {
    var long := files[l];
    PrefixNodes(files, l, KeyAt(long, i));
    PredsInLongest(files, l, i);
    AmongTheFirst(long, n, i);
    if i > 0 {
      AmongTheFirst(long, n, i - 1);
    }
    ReadyInTurn(GraphOf(Stream(files)), Elements(Keys(long)[..n]), KeyAt(long, i),
      KeyAt(long, if i > 0 then i - 1 else 0), n, i);
  }

  /** A node with at most one predecessor, when the first `n` of a line are emitted and it stands at `i`. */
  lemma ReadyInTurn(g: Graph<Key>, emitted: set<Key>, k: Key, previous: Key, n: nat, i: nat)
    requires k in g.nodes && Preds(g, k) == if i > 0 then {previous} else {}
    requires (k in emitted <==> i < n) && (i > 0 ==> (previous in emitted <==> i - 1 < n))
    ensures Ready(g, emitted, k) <==> i == n
  {
    if i > 0 {
      assert Preds(g, k) <= emitted <==> previous in emitted;
    }
  }

  lemma AmongTheFirst(records: seq<Json>, n: nat, i: nat)
    requires n <= |records| && i < |records|
    ensures KeyAt(records, i) in Elements(Keys(records)[..n]) <==> i < n
  {
    KeyIsIn(records, n, KeyAt(records, i));
    if i < n {
      KeysAt(records, i);
      assert Keys(records)[..n][i] == KeyAt(records, i);
    } else if KeyAt(records, i) in Elements(Keys(records)[..n]) {
      var j :| 0 <= j < n && KeyAt(records, j) == KeyAt(records, i);
      SameKeySameIndex(records, j, i);
    }
  }

  /** The longest file's own order is the merged order. */
  lemma LongestFileIsTheOrder(files: seq<seq<Json>>, l: nat, timestamp: Json -> Option<string>)
    requires PrefixesOf(files, l)
    ensures MergedOrder(files, timestamp, Keys(files[l])) && Elements(Keys(files[l])) == KeysOf(Stream(files))
  {
    var g, rank, out := GraphOf(Stream(files)), RankOf(files, timestamp), Keys(files[l]);
    RanksAreInjective(files, timestamp);
    forall i | 0 <= i < |out|
      ensures Chosen(g, rank, Elements(out[..i]), out[i])
    {
      KeysAt(files[l], i);
      OnlyNextIsReady(files, l, i, out[i]);
      forall other | Ready(g, Elements(out[..i]), other)
        ensures other == out[i]
      {
        OnlyNextIsReady(files, l, i, other);
      }
    }
    assert out[..|out|] == out;
    forall k
      ensures !Ready(g, Elements(out), k)
    {
      OnlyNextIsReady(files, l, |out|, k);
    }
    forall k
      ensures k in Elements(out) <==> k in KeysOf(Stream(files))
    {
      KeyIsIn(files[l], |out|, k);
      PrefixNodes(files, l, k);
    }
  }

  lemma {:induction false} FirstContextHasEntry(s: seq<Entry>, k: Key) returns (i: nat)
    requires k in KeysOf(s)
    ensures i < |s| && s[i].key == k && s[i].context == FirstContext(s, k)
  {
    var before := s[..|s| - 1];
    if k in KeysOf(before) {
      i := FirstContextHasEntry(before, k);
    } else {
      i := |s| - 1;
    }
  }

  lemma EntryContext(records: seq<Json>, i: nat)
    requires i < |records|
    ensures Entries(records)[i].context == ContextAfter(records[..i + 1])
  {
  }

  lemma PrefixContext(files: seq<seq<Json>>, l: nat, i: nat)
    requires PrefixesOf(files, l) && i < |files[l]|
    ensures KeyAt(files[l], i) in KeysOf(Stream(files))
    ensures FirstContext(Stream(files), KeyAt(files[l], i)) == ContextAfter(files[l][..i + 1])
  {
    var k := KeyAt(files[l], i);
    PrefixNodes(files, l, k);
    var j := FirstContextHasEntry(Stream(files), k);
    var f, n := StreamEntryHasFile(files, j);
    ContextInPrefix(files[f], files[l], n, i);
  }

  lemma ContextInPrefix(short: seq<Json>, long: seq<Json>, n: nat, i: nat)
    requires short <= long && n < |short| && i < |long| && EntryAt(short, n).key == KeyAt(long, i)
    ensures EntryAt(short, n).context == ContextAfter(long[..i + 1])
  {
    EntryFields(short, n);
    EntryContext(short, n);
    PrefixKey(short, long, n);
    SameKeySameIndex(long, i, n);
  }

  /** Copies, shorter snapshots and a single file never conflict, and merge to the longest file
      with the contexts that file alone would give. */
  lemma PrefixesMergeToTheLongest(files: seq<seq<Json>>, l: nat, timestamp: Json -> Option<string>,
          value: seq<(Json, Context)>)
    requires PrefixesOf(files, l)
    ensures Acyclic(GraphOf(Stream(files)))
    ensures IsMerge(files, timestamp, value) ==>
              |value| == |files[l]|
              && forall i :: 0 <= i < |value| ==> value[i] == (files[l][i], ContextAfter(files[l][..i + 1]))
  {
    var s, out := Stream(files), Keys(files[l]);
    LongestFileIsTheOrder(files, l, timestamp);
    GraphIsWellFormed(s);
    CompleteIffAcyclic(GraphOf(s), RankOf(files, timestamp), out);
    if IsMerge(files, timestamp, value) {
      var other :| MergedOrder(files, timestamp, other) && Elements(other) == KeysOf(s)
        && IsEmitted(files, other, value);
      OrderIsUnique(GraphOf(s), RankOf(files, timestamp), out, other);
      forall i | 0 <= i < |value|
        ensures value[i] == (files[l][i], ContextAfter(files[l][..i + 1]))
      {
        KeysAt(files[l], i);
        PrefixContext(files, l, i);
      }
    }
  }

  // ----- contexts -----

  lemma {:induction false} OldContextStays(s: seq<Entry>, part: seq<Entry>, k: Key)
    requires k in KeysOf(s)
    ensures k in KeysOf(s + part) && FirstContext(s + part, k) == FirstContext(s, k)
  {
    if part == [] {
      assert s + part == s;
    } else {
      OldContextStays(s, part[..|part| - 1], k);
      assert (s + part)[..|s + part| - 1] == s + part[..|part| - 1];
    }
  }

  lemma {:induction false} NewContextIsRead(s: seq<Entry>, part: seq<Entry>, k: Key, n: nat)
    requires k !in KeysOf(s) && n < |part| && part[n].key == k && forall i :: 0 <= i < n ==> part[i].key != k
    ensures k in KeysOf(s + part) && FirstContext(s + part, k) == part[n].context
  {
    var init := part[..|part| - 1];
    assert (s + part)[..|s + part| - 1] == s + init;
    if n < |init| {
      NewContextIsRead(s, init, k, n);
    } else {
      NotYetRead(s, init, k);
    }
  }

  lemma NotYetRead(s: seq<Entry>, part: seq<Entry>, k: Key)
    requires k !in KeysOf(s) && forall i :: 0 <= i < |part| ==> part[i].key != k
    ensures k !in KeysOf(s + part)
  {
    if k in KeysOf(s + part) {
      var j := ReadKeyHasEntry(s + part, k);
      if j < |s| {
        KeyIsRead(s, j);
      }
    }
  }

  ghost predicate NoneHolds(files: seq<seq<Json>>, k: Key) {
    forall e, i :: 0 <= e < |files| && 0 <= i < |files[e]| ==> KeyAt(files[e], i) != k
  }

  /** File `f` is the first that holds the key, at place `n` and in this context. */
  ghost predicate FirstHolds(files: seq<seq<Json>>, f: nat, n: nat, k: Key, context: Context) {
    f < |files| && n < |files[f]| && KeyAt(files[f], n) == k && NoneHolds(files[..f], k)
    && context == ContextAfter(files[f][..n + 1])
  }

  lemma StillFirst(files: seq<seq<Json>>, f: nat, n: nat, k: Key, context: Context)
    requires FirstHolds(files, f, n, k, context) && f < |files| - 1
    ensures FirstHolds(files[..|files| - 1], f, n, k, context)
  {
    assert files[..|files| - 1][..f] == files[..f];
  }

  /** The key is a node of the merge, and its record is emitted in this context. */
  ghost predicate EmittedIn(files: seq<seq<Json>>, k: Key, context: Context) {
    k in KeysOf(Stream(files)) && FirstContext(Stream(files), k) == context
  }

  /** A record is emitted with the context of the first file that holds it, at its place in that file. */
  lemma {:induction false} FirstFileGivesContext(files: seq<seq<Json>>, f: nat, n: nat, k: Key, context: Context)
    requires FirstHolds(files, f, n, k, context)
    ensures EmittedIn(files, k, context)
  {
    var last := |files| - 1;
    if f < last {
      StillFirst(files, f, n, k, context);
      FirstFileGivesContext(files[..last], f, n, k, context);
      LaterFileKeepsContext(files, k, context);
    } else {
      LastFileGivesContext(files, n, k, context);
    }
  }

  lemma LastFileGivesContext(files: seq<seq<Json>>, n: nat, k: Key, context: Context)
    requires files != [] && FirstHolds(files, |files| - 1, n, k, context)
    ensures EmittedIn(files, k, context)
  {
    NewFileGivesContext(files[..|files| - 1], files[|files| - 1], n, k);
  }

  lemma LaterFileKeepsContext(files: seq<seq<Json>>, k: Key, context: Context)
    requires files != [] && EmittedIn(files[..|files| - 1], k, context)
    ensures EmittedIn(files, k, context)
  {
    OldContextStays(Stream(files[..|files| - 1]), Entries(files[|files| - 1]), k);
  }

  lemma NewFileGivesContext(before: seq<seq<Json>>, records: seq<Json>, n: nat, k: Key)
    requires n < |records| && KeyAt(records, n) == k && NoneHolds(before, k)
    ensures k in KeysOf(Stream(before) + Entries(records))
    ensures FirstContext(Stream(before) + Entries(records), k) == ContextAfter(records[..n + 1])
  {
    NodesAreOccurrences(before, k);
    forall i | 0 <= i < n
      ensures Entries(records)[i].key != k
    {
      EntryFields(records, i);
      if KeyAt(records, i) == k {
        SameKeySameIndex(records, i, n);
      }
    }
    EntryFields(records, n);
    EntryContext(records, n);
    NewContextIsRead(Stream(before), Entries(records), k, n);
  }

  // ----- what sorts first -----

  /** Record `i` is the first session_meta. */
  ghost predicate FirstMeta(records: seq<Json>, i: int) {
    && 0 <= i < |records| && HasType(records[i], "session_meta")
    && forall j :: 0 <= j < i ==> !HasType(records[j], "session_meta")
  }

  ghost predicate FirstMetaKey(records: seq<Json>, key: Key) {
    exists i :: FirstMeta(records, i) && KeyAt(records, i) == key
  }

  ghost predicate NoMeta(records: seq<Json>) {
    forall i :: 0 <= i < |records| ==> !HasType(records[i], "session_meta")
  }

  lemma FirstMetaStays(records: seq<Json>, key: Key)
    requires records != [] && FirstMetaKey(records[..|records| - 1], key)
    ensures FirstMetaKey(records, key)
  {
    var init := records[..|records| - 1];
    var i :| FirstMeta(init, i) && KeyAt(init, i) == key;
    assert init[..i + 1] == records[..i + 1];
    assert FirstMeta(records, i) && KeyAt(records, i) == key;
  }

  lemma LastMetaIsFirst(records: seq<Json>)
    requires records != [] && NoMeta(records[..|records| - 1]) && HasType(records[|records| - 1], "session_meta")
    ensures FirstMetaKey(records, KeyAt(records, |records| - 1))
  {
    assert FirstMeta(records, |records| - 1);
  }

  /** The canonical key is that of the first session_meta record. */
  lemma {:induction false} CanonicalIsFirstMeta(records: seq<Json>)
    ensures match CanonicalKey(records)
            case None => NoMeta(records)
            case Some(key) => FirstMetaKey(records, key)
  {
    if records != [] {
      var init := records[..|records| - 1];
      CanonicalIsFirstMeta(init);
      if CanonicalKey(init).Some? {
        FirstMetaStays(records, CanonicalKey(init).value);
      } else if HasType(records[|records| - 1], "session_meta") {
        LastMetaIsFirst(records);
      }
    }
  }

  /** The first session_meta record of the first file sorts before every other record. */
  lemma CanonicalSortsFirst(key: Key, other: Key, i: int, j: int, timestamp: Json -> Option<string>)
    requires other != key
    ensures Below(SortKey(key, i, Some(key), timestamp), SortKey(other, j, Some(key), timestamp))
  {
  }

  /** Of two records the one read first, over all files in order, has the smaller ordinal. */
  lemma OrdinalsFollowReading(s: seq<Entry>, i: nat, j: nat)
    requires i < j < |s| && s[i].key != s[j].key && forall h :: 0 <= h < j ==> s[h].key != s[j].key
    ensures s[i].key in OrdinalsOf(s) && s[j].key in OrdinalsOf(s)
    ensures OrdinalsOf(s)[s[i].key] < OrdinalsOf(s)[s[j].key]
  {
    var before := s[..j];
    FirstSeenIsExact(s);
    SeenIsPrefix(s, j);
    SeenIsPrefix(s, j + 1);
    KeyIsRead(before, i);
    FirstSeenIsExact(before);
    NewKeyIsLast(s, j);
    PrefixComesFirst(FirstSeen(s), FirstSeen(before), s[i].key, s[j].key);
  }

  lemma NewKeyIsLast(s: seq<Entry>, j: nat)
    requires j < |s| && forall h :: 0 <= h < j ==> s[h].key != s[j].key
    ensures FirstSeen(s[..j + 1]) == FirstSeen(s[..j]) + [s[j].key]
  {
    assert s[..j + 1][..j] == s[..j];
    FirstSeenIsExact(s[..j]);
    if s[j].key in KeysOf(s[..j]) {
      var h := ReadKeyHasEntry(s[..j], s[j].key);
    }
  }

  lemma PrefixComesFirst(order: seq<Key>, seen: seq<Key>, a: Key, b: Key)
    requires NoRepeats(order) && seen + [b] <= order && a in seen
    ensures a in order && b in order && IndexIn(order, a) < IndexIn(order, b)
  {
    assert order[|seen|] == b;
    assert order[IndexIn(seen, a)] == a;
  }

  lemma {:induction false} SeenIsPrefix(s: seq<Entry>, n: nat)
    requires n <= |s|
    ensures FirstSeen(s[..n]) <= FirstSeen(s)
  {
    if n < |s| {
      var init := s[..|s| - 1];
      SeenIsPrefix(init, n);
      assert init[..n] == s[..n];
    } else {
      assert s[..n] == s;
    }
  }

  // ----- timestamps as sort keys -----

  /** The record has no timestamp that can be read. */
  ghost predicate Unstamped(key: Key, timestamp: Json -> Option<string>) {
    && key.record.Object?
    && (timestamp(Get(key.record.fields, "timestamp")) == None
        || timestamp(Get(key.record.fields, "timestamp")) == Some(""))
  }

  lemma UnstampedRank(key: Key, ordinal: int, canonical: Option<Key>, timestamp: Json -> Option<string>)
    requires canonical != Some(key) && Unstamped(key, timestamp)
    ensures SortKey(key, ordinal, canonical, timestamp) == Rank(1, NO_STAMP, ordinal)
  {
  }

  lemma StampedRank(key: Key, ordinal: int, canonical: Option<Key>, timestamp: Json -> Option<string>, x: int)
    requires canonical != Some(key) && key.record.Object? && Timestamps.IsInstant(x)
    requires timestamp(Get(key.record.fields, "timestamp")) == Some(Timestamps.Written(x))
    ensures SortKey(key, ordinal, canonical, timestamp) == Rank(1, StampText(Some(Timestamps.Written(x))), ordinal)
  {
  }

  lemma TextsDecide(a: string, b: string, i: int, j: int)
    ensures Below(Rank(1, a, i), Rank(1, b, j)) <==> Before(a, b) || (a == b && i < j)
  {
  }

  /** Where a record without a timestamp sorts: after one stamped with any second but the last of the year
      9999, and before one stamped with that. */
  lemma MissingStampIsNotLast(a: Key, b: Key, i: int, j: int, canonical: Option<Key>, timestamp: Json -> Option<string>,
          x: int)
    requires canonical != Some(a) && canonical != Some(b) && Unstamped(b, timestamp)
    requires Timestamps.IsInstant(x) && a.record.Object?
    requires timestamp(Get(a.record.fields, "timestamp")) == Some(Timestamps.Written(x))
    ensures Below(SortKey(a, i, canonical, timestamp), SortKey(b, j, canonical, timestamp))
            <==> x < Timestamps.LAST_SECOND
    ensures Below(SortKey(b, j, canonical, timestamp), SortKey(a, i, canonical, timestamp))
            <==> x == Timestamps.LAST_SECOND
  {
    var stamp := StampText(Some(Timestamps.Written(x)));
    StampedRank(a, i, canonical, timestamp, x);
    UnstampedRank(b, j, canonical, timestamp);
    MissingTextIsNotLast(x);
    TextsDecide(stamp, NO_STAMP, i, j);
    TextsDecide(NO_STAMP, stamp, j, i);
  }

  /** Records without timestamps sort by reading order among themselves. */
  lemma MissingStampsSortByReading(a: Key, b: Key, i: int, j: int, canonical: Option<Key>,
          timestamp: Json -> Option<string>)
    requires canonical != Some(a) && canonical != Some(b) && Unstamped(a, timestamp) && Unstamped(b, timestamp)
    ensures Below(SortKey(a, i, canonical, timestamp), SortKey(b, j, canonical, timestamp)) <==> i < j
  {
    UnstampedRank(a, i, canonical, timestamp);
    UnstampedRank(b, j, canonical, timestamp);
    OneTextDecides(SortKey(a, i, canonical, timestamp), SortKey(b, j, canonical, timestamp));
  }

  lemma OneTextDecides(a: Rank, b: Rank)
    requires a.group == b.group && a.stamp == b.stamp
    ensures Below(a, b) <==> a.ordinal < b.ordinal
  {
    BelowIsTotal(Rank(a.group, a.stamp, 0), Rank(a.group, a.stamp, 0));
  }

  lemma MissingTextIsNotLast(x: int)
    requires Timestamps.IsInstant(x)
    ensures var stamp := StampText(Some(Timestamps.Written(x)));
            && (Before(stamp, NO_STAMP) <==> x < Timestamps.LAST_SECOND)
            && (Before(NO_STAMP, stamp) <==> x == Timestamps.LAST_SECOND) && stamp != NO_STAMP
  {
    assert NO_STAMP == "9999-12-31T23:59:59" + ("." + "999999Z");
    Timestamps.FractionOfTheLastSecond(x, "999999Z");
  }

  /** Records with timestamps sort as their instants do, and by reading order within one second. */
  lemma StampsSortByTime(a: Key, b: Key, i: int, j: int, canonical: Option<Key>, timestamp: Json -> Option<string>,
          x: int, y: int)
    requires canonical != Some(a) && canonical != Some(b)
    requires Timestamps.IsInstant(x) && Timestamps.IsInstant(y) && a.record.Object? && b.record.Object?
    requires timestamp(Get(a.record.fields, "timestamp")) == Some(Timestamps.Written(x))
    requires timestamp(Get(b.record.fields, "timestamp")) == Some(Timestamps.Written(y))
    ensures Below(SortKey(a, i, canonical, timestamp), SortKey(b, j, canonical, timestamp))
            <==> x < y || (x == y && i < j)
  {
    Timestamps.WrittenKeepsOrder(x, y);
  }
}
