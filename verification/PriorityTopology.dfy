/** Topological ordering with a priority: what an order has to satisfy, why at most one order
    satisfies it, and why an order is incomplete exactly when the graph has a cycle. */
module PriorityTopology {
  import opened TextOrder

  /** A node's place in the ready list: compared by group, then stamp text, then ordinal. */
  datatype Rank = Rank(group: int, stamp: string, ordinal: int)

  predicate Below(a: Rank, b: Rank) {
    a.group < b.group
    || (a.group == b.group && (Before(a.stamp, b.stamp) || (a.stamp == b.stamp && a.ordinal < b.ordinal)))
  }

  lemma BelowIsTotal(a: Rank, b: Rank)
    ensures Below(a, b) || a == b || Below(b, a)
    ensures !(Below(a, b) && Below(b, a))
  {
    BeforeIsTotal(a.stamp, b.stamp);
  }

  lemma NotBelowIsTransitive(a: Rank, b: Rank, c: Rank)
    requires !Below(b, a) && !Below(c, b)
    ensures !Below(c, a)
  {
    BeforeIsTotal(a.stamp, b.stamp);
    BeforeIsTotal(b.stamp, c.stamp);
    BeforeIsTotal(a.stamp, c.stamp);
    if Before(a.stamp, b.stamp) && Before(b.stamp, c.stamp) {
      BeforeIsTransitive(a.stamp, b.stamp, c.stamp);
    }
  }

  datatype Graph<K> = Graph(nodes: set<K>, succ: map<K, set<K>>)

  ghost predicate WellFormed<K(!new)>(g: Graph<K>) {
    g.succ.Keys == g.nodes && forall n :: n in g.nodes ==> g.succ[n] <= g.nodes
  }

  predicate Edge<K(==)>(g: Graph<K>, a: K, b: K) {
    a in g.succ && b in g.succ[a]
  }

  ghost function Preds<K(!new)>(g: Graph<K>, n: K): set<K> {
    set p | p in g.nodes && Edge(g, p, n)
  }

  function Elements<K>(s: seq<K>): set<K> {
    set x | x in s
  }

  ghost predicate NoRepeats<K>(s: seq<K>) {
    forall i, j :: 0 <= i < j < |s| ==> s[i] != s[j]
  }

  /** A node may be emitted once all its predecessors have been. */
  ghost predicate Ready<K(!new)>(g: Graph<K>, emitted: set<K>, n: K) {
    n in g.nodes && n !in emitted && Preds(g, n) <= emitted
  }

  ghost predicate Ranked<K(!new)>(g: Graph<K>, rank: map<K, Rank>) {
    rank.Keys == g.nodes && forall a, b :: a in g.nodes && b in g.nodes && rank[a] == rank[b] ==> a == b
  }

  /** Node `n` is ready and ranks below every other ready node. */
  ghost predicate Chosen<K(!new)>(g: Graph<K>, rank: map<K, Rank>, emitted: set<K>, n: K)
    requires Ranked(g, rank)
  {
    Ready(g, emitted, n)
    && forall other :: Ready(g, emitted, other) && other != n ==> Below(rank[n], rank[other])
  }

  ghost predicate PriorityOrder<K(!new)>(g: Graph<K>, rank: map<K, Rank>, out: seq<K>)
    requires Ranked(g, rank)
  {
    forall i :: 0 <= i < |out| ==> Chosen(g, rank, Elements(out[..i]), out[i])
  }

  ghost predicate Exhausted<K(!new)>(g: Graph<K>, out: seq<K>) {
    forall n :: !Ready(g, Elements(out), n)
  }

  ghost predicate IsCycle<K(!new)>(g: Graph<K>, c: seq<K>) {
    |c| > 0
    && (forall i :: 0 <= i < |c| ==> c[i] in g.nodes)
    && (forall i :: 0 <= i < |c| - 1 ==> Edge(g, c[i], c[i + 1]))
    && Edge(g, c[|c| - 1], c[0])
  }

  ghost predicate Acyclic<K(!new)>(g: Graph<K>) {
    forall c :: !IsCycle(g, c)
  }

  // ----- facts about one order -----

  lemma OrderIsDistinct<K(!new)>(g: Graph<K>, rank: map<K, Rank>, out: seq<K>)
    requires Ranked(g, rank) && PriorityOrder(g, rank, out)
    ensures NoRepeats(out) && Elements(out) <= g.nodes
  {
    forall i, j | 0 <= i < j < |out|
      ensures out[i] != out[j]
    {
      assert out[..j][i] == out[i];
      assert Chosen(g, rank, Elements(out[..j]), out[j]);
    }
    forall x | x in out
      ensures x in g.nodes
    {
      var i :| 0 <= i < |out| && out[i] == x;
      assert Chosen(g, rank, Elements(out[..i]), out[i]);
    }
  }

  /** An edge's source is emitted before its target. */
  lemma OrderRespectsEdges<K(!new)>(g: Graph<K>, rank: map<K, Rank>, out: seq<K>, a: K, j: int)
    requires Ranked(g, rank) && PriorityOrder(g, rank, out)
    requires 0 <= j < |out| && a in g.nodes && Edge(g, a, out[j])
    ensures exists i :: 0 <= i < j && out[i] == a
  {
    assert Chosen(g, rank, Elements(out[..j]), out[j]);
    assert a in Preds(g, out[j]);
    assert a in out[..j];
    var i :| 0 <= i < j && out[..j][i] == a;
    assert out[i] == a;
  }

  lemma {:induction false} SizeOfElements<K>(s: seq<K>)
    requires NoRepeats(s)
    ensures |Elements(s)| == |s|
  {
    if s == [] {
      assert Elements(s) == {};
    } else {
      var init := s[..|s| - 1];
      SizeOfElements(init);
      assert Elements(s) == Elements(init) + {s[|s| - 1]};
      assert s[|s| - 1] !in Elements(init);
    }
  }

  // ----- uniqueness -----

  lemma ChosenIsUnique<K(!new)>(g: Graph<K>, rank: map<K, Rank>, emitted: set<K>, x: K, y: K)
    requires Ranked(g, rank) && Chosen(g, rank, emitted, x) && Chosen(g, rank, emitted, y)
    ensures x == y
  {
    BelowIsTotal(rank[x], rank[y]);
  }

  lemma NextAgrees<K(!new)>(g: Graph<K>, rank: map<K, Rank>, a: seq<K>, b: seq<K>, i: nat)
    requires Ranked(g, rank) && PriorityOrder(g, rank, a) && PriorityOrder(g, rank, b)
    requires i < |a| && i < |b| && a[..i] == b[..i]
    ensures a[i] == b[i]
  {
    ChosenIsUnique(g, rank, Elements(a[..i]), a[i], b[i]);
  }

  lemma {:induction false} OrdersAgree<K(!new)>(g: Graph<K>, rank: map<K, Rank>, a: seq<K>, b: seq<K>, n: nat)
    requires Ranked(g, rank) && PriorityOrder(g, rank, a) && PriorityOrder(g, rank, b)
    requires n <= |a| && n <= |b|
    ensures a[..n] == b[..n]
  {
    if n > 0 {
      var i := n - 1;
      OrdersAgree(g, rank, a, b, i);
      NextAgrees(g, rank, a, b, i);
      OneMoreAgrees(a, b, i);
    }
  }

  lemma OneMoreAgrees<K>(a: seq<K>, b: seq<K>, i: nat)
    requires i < |a| && i < |b| && a[..i] == b[..i] && a[i] == b[i]
    ensures a[..i + 1] == b[..i + 1]
  {
    assert a[..i + 1] == a[..i] + [a[i]] && b[..i + 1] == b[..i] + [b[i]];
  }

  lemma ExhaustedIsLongest<K(!new)>(g: Graph<K>, rank: map<K, Rank>, a: seq<K>, b: seq<K>)
    requires Ranked(g, rank) && PriorityOrder(g, rank, a) && PriorityOrder(g, rank, b)
    requires Exhausted(g, a)
    ensures |b| <= |a|
  {
    var n := if |a| < |b| then |a| else |b|;
    OrdersAgree(g, rank, a, b, n);
    assert n == |a| ==> a[..n] == a;
  }

  /** The exhausted order of a ranked graph is unique. */
  lemma OrderIsUnique<K(!new)>(g: Graph<K>, rank: map<K, Rank>, a: seq<K>, b: seq<K>)
    requires Ranked(g, rank) && PriorityOrder(g, rank, a) && PriorityOrder(g, rank, b)
    requires Exhausted(g, a) && Exhausted(g, b)
    ensures a == b
  {
    ExhaustedIsLongest(g, rank, a, b);
    ExhaustedIsLongest(g, rank, b, a);
    OrdersAgree(g, rank, a, b, |a|);
    assert a[..|a|] == a && b[..|b|] == b;
  }

  // ----- existence -----

  lemma {:induction false} LeastOf<K(!new)>(g: Graph<K>, rank: map<K, Rank>, among: set<K>) returns (least: K)
    requires Ranked(g, rank) && among != {} && among <= g.nodes
    ensures least in among && forall other :: other in among ==> !Below(rank[other], rank[least])
    decreases |among|
  {
    var some :| some in among;
    var rest := among - {some};
    if rest == {} {
      least := some;
      assert among == rest + {some};
      BelowIsTotal(rank[some], rank[some]);
    } else {
      var first := LeastOf(g, rank, rest);
      least := if Below(rank[first], rank[some]) then first else some;
      forall other | other in among
        ensures !Below(rank[other], rank[least])
      {
        BelowIsTotal(rank[first], rank[some]);
        BelowIsTotal(rank[some], rank[some]);
        if other != some && least == some {
          NotBelowIsTransitive(rank[some], rank[first], rank[other]);
        }
      }
    }
  }

  lemma NextIsChosen<K(!new)>(g: Graph<K>, rank: map<K, Rank>, emitted: set<K>) returns (next: K)
    requires Ranked(g, rank) && exists n :: Ready(g, emitted, n)
    ensures Chosen(g, rank, emitted, next)
  {
    var waiting := set n | n in g.nodes && Ready(g, emitted, n);
    var some :| Ready(g, emitted, some);
    assert some in waiting;
    next := LeastOf(g, rank, waiting);
    forall other | Ready(g, emitted, other) && other != next
      ensures Below(rank[next], rank[other])
    {
      assert other in waiting;
      BelowIsTotal(rank[next], rank[other]);
    }
  }

  /** Every order can be carried on until no node is ready. */
  lemma {:induction false} OrderGoesOn<K(!new)>(g: Graph<K>, rank: map<K, Rank>, out: seq<K>) returns (full: seq<K>)
    requires Ranked(g, rank) && PriorityOrder(g, rank, out)
    ensures PriorityOrder(g, rank, full) && Exhausted(g, full)
    decreases |g.nodes - Elements(out)|
  {
    if Exhausted(g, out) {
      full := out;
    } else {
      var next := NextIsChosen(g, rank, Elements(out));
      AppendKeepsOrder(g, rank, out, next);
      assert Elements(out + [next]) == Elements(out) + {next};
      ProperSubsetIsSmaller(g.nodes - Elements(out + [next]), g.nodes - Elements(out));
      full := OrderGoesOn(g, rank, out + [next]);
    }
  }

  /** A ranked graph has an exhausted order. */
  lemma OrderExists<K(!new)>(g: Graph<K>, rank: map<K, Rank>) returns (out: seq<K>)
    requires Ranked(g, rank)
    ensures PriorityOrder(g, rank, out) && Exhausted(g, out)
  {
    out := OrderGoesOn(g, rank, []);
  }

  // ----- incomplete exactly when cyclic -----

  lemma {:induction false} CycleIsNeverEmitted<K(!new)>(g: Graph<K>, rank: map<K, Rank>, out: seq<K>, c: seq<K>,
          k: int, i: int)
    requires Ranked(g, rank) && PriorityOrder(g, rank, out) && IsCycle(g, c)
    requires 0 <= k < |c| && 0 <= i < |out|
    ensures out[i] != c[k]
    decreases i
  {
    if out[i] == c[k] {
      var before := if k == 0 then |c| - 1 else k - 1;
      assert Edge(g, c[before], c[k]);
      OrderRespectsEdges(g, rank, out, c[before], i);
      var j :| 0 <= j < i && out[j] == c[before];
      CycleIsNeverEmitted(g, rank, out, c, before, j);
    }
  }

  ghost predicate HasPredIn<K(!new)>(g: Graph<K>, rest: set<K>, n: K) {
    exists p :: p in rest && Edge(g, p, n)
  }

  /** Every node of `rest` has a predecessor in `rest`. */
  ghost predicate EveryOneHasPred<K(!new)>(g: Graph<K>, rest: set<K>) {
    forall n {:trigger HasPredIn(g, rest, n)} :: n in rest ==> HasPredIn(g, rest, n)
  }

  /** A nonempty path through nodes of `rest`, none of them twice. */
  ghost predicate IsPath<K(!new)>(g: Graph<K>, rest: set<K>, path: seq<K>) {
    && |path| > 0 && NoRepeats(path) && Elements(path) <= rest
    && forall i :: 0 <= i < |path| - 1 ==> Edge(g, path[i], path[i + 1])
  }

  lemma PathCloses<K(!new)>(g: Graph<K>, rest: set<K>, path: seq<K>, j: nat)
    requires rest <= g.nodes && IsPath(g, rest, path) && j < |path| && Edge(g, path[j], path[0])
    ensures IsCycle(g, path[..j + 1])
  {
    forall i | 0 <= i <= j
      ensures path[i] in g.nodes
    {
      assert path[i] in Elements(path);
    }
  }

  lemma PathGrows<K(!new)>(g: Graph<K>, rest: set<K>, path: seq<K>, p: K)
    requires IsPath(g, rest, path) && p in rest && p !in path && Edge(g, p, path[0])
    ensures IsPath(g, rest, [p] + path)
    ensures rest - Elements([p] + path) < rest - Elements(path)
  {
    var longer := [p] + path;
    assert Elements(longer) == Elements(path) + {p};
    assert forall i :: 0 < i < |longer| ==> longer[i] == path[i - 1];
  }

  /** A path that can only be extended backwards inside a finite set runs into itself. */
  lemma {:induction false} BackwardWalkCloses<K(!new)>(g: Graph<K>, rest: set<K>, path: seq<K>) returns (c: seq<K>)
    requires rest <= g.nodes && EveryOneHasPred(g, rest) && IsPath(g, rest, path)
    ensures IsCycle(g, c)
    decreases |rest - Elements(path)|
  {
    assert path[0] in Elements(path) && HasPredIn(g, rest, path[0]);
    var p :| p in rest && Edge(g, p, path[0]);
    if p in path {
      var j :| 0 <= j < |path| && path[j] == p;
      PathCloses(g, rest, path, j);
      c := path[..j + 1];
    } else {
      PathGrows(g, rest, path, p);
      ProperSubsetIsSmaller(rest - Elements([p] + path), rest - Elements(path));
      c := BackwardWalkCloses(g, rest, [p] + path);
    }
  }

  lemma StuckMeansCycle<K(!new)>(g: Graph<K>, out: seq<K>) returns (c: seq<K>)
    requires WellFormed(g) && Exhausted(g, out) && !(g.nodes <= Elements(out))
    ensures IsCycle(g, c)
  {
    var rest := g.nodes - Elements(out);
    forall n | n in rest
      ensures HasPredIn(g, rest, n)
    {
      assert !Ready(g, Elements(out), n);
      var p :| p in Preds(g, n) && p !in Elements(out);
      assert p in rest && Edge(g, p, n);
    }
    assert rest != {} by {
      var x :| x in g.nodes && x !in Elements(out);
      assert x in rest;
    }
    var start :| start in rest;
    c := BackwardWalkCloses(g, rest, [start]);
  }

  /** An exhausted order emits every node exactly when the graph has no cycle. */
  lemma CompleteIffAcyclic<K(!new)>(g: Graph<K>, rank: map<K, Rank>, out: seq<K>)
    requires WellFormed(g) && Ranked(g, rank) && PriorityOrder(g, rank, out) && Exhausted(g, out)
    ensures |out| == |g.nodes| <==> Acyclic(g)
    ensures |out| == |g.nodes| <==> Elements(out) == g.nodes
  {
    OrderIsDistinct(g, rank, out);
    SizeOfElements(out);
    if Elements(out) != g.nodes {
      var c := StuckMeansCycle(g, out);
      assert Elements(out) < g.nodes;
      ProperSubsetIsSmaller(Elements(out), g.nodes);
    } else if !Acyclic(g) {
      var c :| IsCycle(g, c);
      assert c[0] in out;
      var i :| 0 <= i < |out| && out[i] == c[0];
      CycleIsNeverEmitted(g, rank, out, c, 0, i);
    }
  }

  lemma ProperSubsetIsSmaller<K>(a: set<K>, b: set<K>)
    requires a < b
    ensures |a| < |b|
  {
    var x :| x in b && x !in a;
    assert |a + {x}| == |a| + 1;
    assert a + {x} <= b;
    SubsetIsNotLarger(a + {x}, b);
  }

  lemma SubsetIsNotLarger<K>(a: set<K>, b: set<K>)
    requires a <= b
    ensures |a| <= |b|
  {
    assert |b| == |a| + |b - a| by {
      assert b == a + (b - a);
    }
  }

  // ----- the ready list -----

  ghost predicate SortedByRank<K>(s: seq<K>, rank: map<K, Rank>)
    requires forall x :: x in s ==> x in rank
  {
    forall i, j :: 0 <= i < j < |s| ==> !Below(rank[s[j]], rank[s[i]])
  }

  function InsertByRank<K(==)>(x: K, s: seq<K>, rank: map<K, Rank>): (r: seq<K>)
    requires x in rank && forall y :: y in s ==> y in rank
    ensures multiset(r) == multiset(s) + multiset{x}
    ensures forall y :: y in r ==> y == x || y in s
  {
    if s == [] || Below(rank[x], rank[s[0]]) then [x] + s
    else
      assert s == [s[0]] + s[1..];
      [s[0]] + InsertByRank(x, s[1..], rank)
  }

  /** `ready.sort(key=sort_key)` */
  function SortByRank<K(==)>(s: seq<K>, rank: map<K, Rank>): (r: seq<K>)
    requires forall y :: y in s ==> y in rank
    ensures multiset(r) == multiset(s)
    ensures forall y :: y in r ==> y in s
  {
    if s == [] then []
    else
      assert s == [s[0]] + s[1..];
      InsertByRank(s[0], SortByRank(s[1..], rank), rank)
  }

  lemma HeadKeepsSorted<K>(x: K, s: seq<K>, rank: map<K, Rank>)
    requires x in rank && (forall y :: y in s ==> y in rank) && SortedByRank(s, rank)
    requires s != [] && Below(rank[x], rank[s[0]])
    ensures SortedByRank([x] + s, rank)
  {
    BelowIsTotal(rank[x], rank[s[0]]);
    forall j | 0 <= j < |s|
      ensures !Below(rank[s[j]], rank[x])
    {
      if j > 0 {
        NotBelowIsTransitive(rank[x], rank[s[0]], rank[s[j]]);
      }
    }
  }

  lemma {:induction false} InsertKeepsSorted<K>(x: K, s: seq<K>, rank: map<K, Rank>)
    requires x in rank && (forall y :: y in s ==> y in rank) && SortedByRank(s, rank)
    ensures SortedByRank(InsertByRank(x, s, rank), rank)
  {
    if s != [] && Below(rank[x], rank[s[0]]) {
      HeadKeepsSorted(x, s, rank);
    } else if s != [] {
      InsertKeepsSorted(x, s[1..], rank);
      var rest := InsertByRank(x, s[1..], rank);
      forall j | 0 <= j < |rest|
        ensures !Below(rank[rest[j]], rank[s[0]])
      {
        assert rest[j] in rest;
      }
    }
  }

  lemma {:induction false} SortSorts<K>(s: seq<K>, rank: map<K, Rank>)
    requires forall y :: y in s ==> y in rank
    ensures SortedByRank(SortByRank(s, rank), rank)
  {
    if s != [] {
      SortSorts(s[1..], rank);
      InsertKeepsSorted(s[0], SortByRank(s[1..], rank), rank);
    }
  }

  lemma SortKeepsElements<K(!new)>(s: seq<K>, rank: map<K, Rank>)
    requires (forall y :: y in s ==> y in rank) && NoRepeats(s)
    ensures |SortByRank(s, rank)| == |s| && NoRepeats(SortByRank(s, rank))
    ensures forall y :: y in SortByRank(s, rank) <==> y in s
  {
    var r := SortByRank(s, rank);
    assert |multiset(r)| == |multiset(s)|;
    forall y
      ensures y in r <==> y in s
    {
      assert y in multiset(r) <==> y in multiset(s);
    }
    forall x
      ensures multiset(r)[x] <= 1
    {
      OccursOnce(s, x);
    }
    OnceMeansDistinct(r);
  }

  lemma {:induction false} OccursOnce<K>(s: seq<K>, x: K)
    requires NoRepeats(s)
    ensures multiset(s)[x] <= 1
  {
    if s != [] {
      OccursOnce(s[1..], x);
      assert s == [s[0]] + s[1..];
    }
  }

  lemma OnceMeansDistinct<K(!new)>(s: seq<K>)
    requires forall x :: multiset(s)[x] <= 1
    ensures NoRepeats(s)
  {
    forall i, j | 0 <= i < j < |s|
      ensures s[i] != s[j]
    {
      var front, back := s[..j], s[j..];
      assert s == front + back && front[i] == s[i] && back[0] == s[j];
      assert front[i] in multiset(front) && back[0] in multiset(back);
      assert multiset(s)[s[i]] == multiset(front)[s[i]] + multiset(back)[s[i]];
    }
  }

  // ----- Kahn's algorithm -----

  ghost predicate CountsPending<K(!new)>(g: Graph<K>, incoming: map<K, int>, emitted: set<K>) {
    g.nodes <= incoming.Keys
    && forall n :: n in g.nodes && n !in emitted ==> incoming[n] == |Preds(g, n) - emitted|
  }

  lemma HeadIsChosen<K(!new)>(g: Graph<K>, rank: map<K, Rank>, emitted: set<K>, ready: seq<K>)
    requires Ranked(g, rank) && ready != []
    requires NoRepeats(ready) && forall n :: n in ready <==> Ready(g, emitted, n)
    requires (forall x :: x in ready ==> x in rank) && SortedByRank(ready, rank)
    ensures Chosen(g, rank, emitted, ready[0])
  {
    assert ready[0] in ready;
    forall other | Ready(g, emitted, other) && other != ready[0]
      ensures Below(rank[ready[0]], rank[other])
    {
      var j :| 0 <= j < |ready| && ready[j] == other;
      assert !Below(rank[ready[j]], rank[ready[0]]);
      BelowIsTotal(rank[ready[0]], rank[other]);
    }
  }

  lemma AppendKeepsOrder<K(!new)>(g: Graph<K>, rank: map<K, Rank>, out: seq<K>, key: K)
    requires Ranked(g, rank) && PriorityOrder(g, rank, out) && Chosen(g, rank, Elements(out), key)
    ensures PriorityOrder(g, rank, out + [key])
  {
    var longer := out + [key];
    forall i | 0 <= i < |longer|
      ensures Chosen(g, rank, Elements(longer[..i]), longer[i])
    {
      assert longer[..i] == out[..i];
      if i == |out| {
        assert out[..i] == out;
      }
    }
  }

  lemma TargetsAreUnemitted<K(!new)>(g: Graph<K>, rank: map<K, Rank>, out: seq<K>)
    requires Ranked(g, rank) && PriorityOrder(g, rank, out) && out != []
    ensures forall n :: Edge(g, out[|out| - 1], n) ==> n !in out
  {
    var last := |out| - 1;
    OrderIsDistinct(g, rank, out);
    forall n | Edge(g, out[last], n)
      ensures n !in out
    {
      if n in out {
        var j :| 0 <= j < |out| && out[j] == n;
        assert out[last] in Elements(out);
        OrderRespectsEdges(g, rank, out, out[last], j);
      }
    }
  }

  /** What emitting `key` does to one counter ... */
  lemma EmissionCountsDown<K(!new)>(g: Graph<K>, emitted: set<K>, key: K, n: K)
    requires key in g.nodes && key !in emitted
    ensures |Preds(g, n) - emitted| == |Preds(g, n) - (emitted + {key})| + if Edge(g, key, n) then 1 else 0
  {
    var now := emitted + {key};
    if Edge(g, key, n) {
      assert Preds(g, n) - emitted == (Preds(g, n) - now) + {key};
    } else {
      assert Preds(g, n) - emitted == Preds(g, n) - now;
    }
  }

  /** ... and to one node's readiness. */
  lemma EmissionUnlocks<K(!new)>(g: Graph<K>, emitted: set<K>, key: K, n: K)
    requires key in g.nodes && key !in emitted
    ensures Ready(g, emitted, n) && n != key <==> Ready(g, emitted + {key}, n) && !Edge(g, key, n)
  {
    assert key in Preds(g, n) <==> Edge(g, key, n);
  }

  /** The counters while the successors of the last emitted key are being counted down. */
  ghost predicate CountsPartly<K(!new)>(g: Graph<K>, incoming: map<K, int>, now: set<K>, pending: set<K>) {
    g.nodes <= incoming.Keys
    && forall n :: n in g.nodes && n !in now ==> incoming[n] == |Preds(g, n) - now| + if n in pending then 1 else 0
  }

  ghost predicate ReadyPartly<K(!new)>(g: Graph<K>, ready: seq<K>, now: set<K>, pending: set<K>) {
    NoRepeats(ready) && forall n :: n in ready <==> Ready(g, now, n) && n !in pending
  }

  lemma CountdownStarts<K(!new)>(g: Graph<K>, emitted: set<K>, key: K, counts: map<K, int>, rest: seq<K>)
    requires WellFormed(g) && key in g.nodes && key !in emitted
    requires CountsPending(g, counts, emitted)
    requires NoRepeats(rest) && forall n :: n in rest <==> Ready(g, emitted, n) && n != key
    ensures CountsPartly(g, counts, emitted + {key}, g.succ[key])
    ensures ReadyPartly(g, rest, emitted + {key}, g.succ[key])
  {
    var now := emitted + {key};
    forall n | n in g.nodes && n !in now
      ensures counts[n] == |Preds(g, n) - now| + if n in g.succ[key] then 1 else 0
    {
      EmissionCountsDown(g, emitted, key, n);
    }
    forall n
      ensures n in rest <==> Ready(g, now, n) && n !in g.succ[key]
    {
      EmissionUnlocks(g, emitted, key, n);
    }
  }

  lemma ZeroMeansReady<K(!new)>(g: Graph<K>, now: set<K>, n: K)
    requires n in g.nodes && n !in now
    ensures |Preds(g, n) - now| == 0 <==> Ready(g, now, n)
  {
    var rest := Preds(g, n) - now;
    if |rest| == 0 {
      assert rest == {};
      forall p | p in Preds(g, n)
        ensures p in now
      {
        assert p !in rest;
      }
    }
    assert Preds(g, n) <= now ==> rest == {};
  }

  lemma CountdownStepsCounts<K(!new)>(g: Graph<K>, now: set<K>, pending: set<K>, n: K, incoming: map<K, int>)
    requires n in pending && n in g.nodes && CountsPartly(g, incoming, now, pending)
    ensures CountsPartly(g, incoming[n := incoming[n] - 1], now, pending - {n})
  {
  }

  lemma CountdownStepsReady<K(!new)>(g: Graph<K>, now: set<K>, pending: set<K>, n: K, ready: seq<K>, zero: bool)
    requires n in pending && ReadyPartly(g, ready, now, pending) && (zero <==> Ready(g, now, n))
    ensures ReadyPartly(g, if zero then ready + [n] else ready, now, pending - {n})
  {
    var longer := if zero then ready + [n] else ready;
    assert n !in ready;
    forall x
      ensures x in longer <==> Ready(g, now, x) && x !in pending - {n}
    {
      assert x in longer <==> x in ready || (zero && x == n);
    }
  }

  /** Count the successors of an emitted key down, and append each one whose counter reaches zero.
      The successor set is walked in an arbitrary order. */
  method CountSuccessorsDown<K(==, !new)>(g: Graph<K>, ghost emitted: set<K>, key: K, counts: map<K, int>, rest: seq<K>)
    returns (incoming: map<K, int>, ready: seq<K>)
    requires WellFormed(g) && key in g.nodes && key !in emitted
    requires CountsPending(g, counts, emitted)
    requires forall n :: Edge(g, key, n) ==> n !in emitted && n != key
    requires NoRepeats(rest) && forall n :: n in rest <==> Ready(g, emitted, n) && n != key
    ensures CountsPending(g, incoming, emitted + {key})
    ensures NoRepeats(ready) && forall n :: n in ready <==> Ready(g, emitted + {key}, n)
  {
    ghost var now := emitted + {key};
    CountdownStarts(g, emitted, key, counts, rest);
    incoming, ready := counts, rest;
    var pending := g.succ[key];
    while pending != {}
      invariant pending <= g.succ[key]
      invariant CountsPartly(g, incoming, now, pending) && ReadyPartly(g, ready, now, pending)
      decreases |pending|
    {
      var successor :| successor in pending;
      assert Edge(g, key, successor);
      CountdownStepsCounts(g, now, pending, successor, incoming);
      ZeroMeansReady(g, now, successor);
      CountdownStepsReady(g, now, pending, successor, ready, incoming[successor] == 1);
      pending := pending - {successor};
      incoming := incoming[successor := incoming[successor] - 1];
      if incoming[successor] == 0 {
        ready := ready + [successor];
      }
    }
  }

  /** `ready.sort(key=sort_key); key = ready.pop(0)` */
  method PopLeast<K(==, !new)>(g: Graph<K>, rank: map<K, Rank>, ghost emitted: set<K>, ready: seq<K>)
    returns (key: K, rest: seq<K>)
    requires Ranked(g, rank) && ready != [] && ReadyPartly(g, ready, emitted, {})
    ensures Chosen(g, rank, emitted, key)
    ensures NoRepeats(rest) && forall n :: n in rest <==> Ready(g, emitted, n) && n != key
  {
    assert forall n :: n in ready ==> n in rank;
    SortSorts(ready, rank);
    SortKeepsElements(ready, rank);
    var ordered := SortByRank(ready, rank);
    HeadIsChosen(g, rank, emitted, ordered);
    key, rest := ordered[0], ordered[1..];
    assert ordered == [key] + rest;
  }

  /** What holds between two rounds of the emission loop. */
  ghost predicate Round<K(!new)>(g: Graph<K>, rank: map<K, Rank>, out: seq<K>, incoming: map<K, int>, ready: seq<K>)
    requires Ranked(g, rank)
  {
    PriorityOrder(g, rank, out)
    && CountsPending(g, incoming, Elements(out))
    && ReadyPartly(g, ready, Elements(out), {})
  }

  /** One round: sort the ready list, emit its head, count the head's successors down. */
  method EmitLeast<K(==, !new)>(g: Graph<K>, rank: map<K, Rank>, ghost out: seq<K>, counts: map<K, int>, before: seq<K>)
    returns (key: K, incoming: map<K, int>, ready: seq<K>)
    requires WellFormed(g) && Ranked(g, rank) && Round(g, rank, out, counts, before) && before != []
    ensures Round(g, rank, out + [key], incoming, ready)
    ensures Elements(out + [key]) == Elements(out) + {key} && key in g.nodes - Elements(out)
  {
    var rest;
    key, rest := PopLeast(g, rank, Elements(out), before);
    AppendKeepsOrder(g, rank, out, key);
    TargetsAreUnemitted(g, rank, out + [key]);
    assert Elements(out + [key]) == Elements(out) + {key};
    incoming, ready := CountSuccessorsDown(g, Elements(out), key, counts, rest);
  }

  ghost predicate ZeroCounters<K(!new)>(g: Graph<K>, counts: map<K, int>, first: seq<K>)
    requires g.nodes <= counts.Keys
  {
    NoRepeats(first) && forall n :: n in first <==> n in g.nodes && counts[n] == 0
  }

  lemma FirstRound<K(!new)>(g: Graph<K>, rank: map<K, Rank>, counts: map<K, int>, first: seq<K>)
    requires Ranked(g, rank) && CountsPending(g, counts, {}) && ZeroCounters(g, counts, first)
    ensures Round(g, rank, [], counts, first)
  {
    assert Elements<K>([]) == {};
    forall n
      ensures n in first <==> Ready(g, {}, n)
    {
      if n in g.nodes {
        ZeroMeansReady(g, {}, n);
      }
    }
  }

  lemma LastRound<K(!new)>(g: Graph<K>, rank: map<K, Rank>, out: seq<K>, counts: map<K, int>)
    requires Ranked(g, rank) && Round(g, rank, out, counts, [])
    ensures PriorityOrder(g, rank, out) && Exhausted(g, out)
  {
    forall n
      ensures !Ready(g, Elements(out), n)
    {
      assert n !in [];
    }
  }

  /** The emission loop: it ends with the exhausted priority order, whatever order the successor
      sets were walked in. */
  method EmitByPriority<K(==, !new)>(g: Graph<K>, rank: map<K, Rank>, counts: map<K, int>, first: seq<K>)
    returns (out: seq<K>)
    requires WellFormed(g) && Ranked(g, rank)
    requires CountsPending(g, counts, {}) && ZeroCounters(g, counts, first)
    ensures PriorityOrder(g, rank, out) && Exhausted(g, out)
  {
    out := [];
    var incoming, ready := counts, first;
    FirstRound(g, rank, counts, first);
    while ready != []
      invariant Round(g, rank, out, incoming, ready)
      decreases |g.nodes - Elements(out)|
    {
      var key;
      key, incoming, ready := EmitLeast(g, rank, out, incoming, ready);
      SmallerLeft(g.nodes, Elements(out), key);
      out := out + [key];
    }
    LastRound(g, rank, out, incoming);
  }

  lemma SmallerLeft<K>(nodes: set<K>, emitted: set<K>, key: K)
    requires key in nodes - emitted
    ensures |nodes - (emitted + {key})| < |nodes - emitted|
  {
    assert nodes - (emitted + {key}) == (nodes - emitted) - {key};
  }
}
