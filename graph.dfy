/**
 * The child relation of one hierarchy (roles or resources) and the distance resolver over it.
 * A node is identified by its name, which is unique within its kind; the graph maps a name
 * to the ordered list of its children.  Distance is computed breadth-first with a visited set,
 * so it terminates on every graph, and is proved to be the shortest hop count.
 */
module Graph {

  import opened Wrappers

  type Graph = map<string, seq<string>>

  /** The children of `n`; a name that is not a key has none. */
  function Children(g: Graph, n: string): seq<string>
  {
    if n in g then g[n] else []
  }

  /** Every name the graph mentions, as a parent or as a child. */
  function Nodes(g: Graph): set<string>
  {
    g.Keys + set p, c | p in g && c in g[p] :: c
  }

  /** The nodes one child edge below some node of `s`. */
  function Step(g: Graph, s: set<string>): set<string>
  {
    set p, c | p in s && c in Children(g, p) :: c
  }

  /** The nodes reachable from `from` along at most `k` child edges (the reference definition). */
  ghost function Within(g: Graph, from: string, k: nat): set<string>
  {
    if k == 0 then {from} else Within(g, from, k - 1) + Step(g, Within(g, from, k - 1))
  }

  /** `d` is the length of a shortest chain of child edges from `from` down to `to`. */
  ghost predicate IsShortest(g: Graph, from: string, to: string, d: nat)
  {
    to in Within(g, from, d) && (d == 0 || to !in Within(g, from, d - 1))
  }

  ghost predicate Reachable(g: Graph, from: string, to: string)
  {
    exists k: nat :: to in Within(g, from, k)
  }

  /** No node can be reached again from one of its own children. */
  ghost predicate Acyclic(g: Graph)
  {
    forall p, c, k: nat :: c in Children(g, p) ==> p !in Within(g, c, k)
  }

  /**
   * One level of the breadth-first traversal: `frontier` is the level at depth `k`, `visited`
   * every shallower node.  Stops at the first level holding `to`, or when a level is empty.
   */
  function Search(g: Graph, to: string, frontier: set<string>, visited: set<string>, k: nat): (r: Option<nat>)
    requires frontier !! visited
    ensures r.Some? ==> r.value >= k
    ensures r == Some(k) <==> to in frontier
    decreases |(Nodes(g) + frontier) - visited|
  {
    if to in frontier then Some(k)
    else if frontier == {} then None
    else
      var next := Step(g, frontier) - visited - frontier;
      StepInNodes(g, frontier);
      SmallerWhenRemoving((Nodes(g) + frontier) - visited, frontier);
      assert (Nodes(g) + next) - (visited + frontier) == ((Nodes(g) + frontier) - visited) - frontier;
      Search(g, to, next, visited + frontier, k + 1)
  }

  /** The hop distance from `from` down to `to`, or None when `to` is not a descendant. */
  function Distance(g: Graph, from: string, to: string): (r: Option<nat>)
    ensures r == Some(0) <==> from == to
  {
    Search(g, to, {from}, {}, 0)
  }

  /** One level of the traversal: it moves on to the unvisited children, and the measure shrinks. */
  lemma SearchProgress(g: Graph, to: string, frontier: set<string>, visited: set<string>, k: nat)
    requires frontier !! visited && frontier != {} && to !in frontier
    ensures Step(g, frontier) - visited - frontier !! visited + frontier
    ensures Search(g, to, frontier, visited, k) == Search(g, to, Step(g, frontier) - visited - frontier, visited + frontier, k + 1)
    ensures |(Nodes(g) + (Step(g, frontier) - visited - frontier)) - (visited + frontier)| < |(Nodes(g) + frontier) - visited|
  {
    var next := Step(g, frontier) - visited - frontier;
    StepInNodes(g, frontier);
    SmallerWhenRemoving((Nodes(g) + frontier) - visited, frontier);
    assert (Nodes(g) + next) - (visited + frontier) == ((Nodes(g) + frontier) - visited) - frontier;
  }

  lemma StepInNodes(g: Graph, s: set<string>)
    ensures Step(g, s) <= Nodes(g)
  {
  }

  lemma SmallerWhenRemoving(x: set<string>, f: set<string>)
    requires f != {} && f <= x
    ensures |x - f| < |x|
  {
    var e :| e in f;
    assert x == (x - f) + f;
  }

  /** The nodes strictly shallower than level `k` of the traversal from `from`. */
  ghost function Before(g: Graph, from: string, k: nat): set<string>
  {
    if k == 0 then {} else Within(g, from, k - 1)
  }

  lemma StepUnion(g: Graph, a: set<string>, b: set<string>)
    ensures Step(g, a + b) == Step(g, a) + Step(g, b)
  {
  }

  lemma StepMono(g: Graph, a: set<string>, b: set<string>)
    requires a <= b
    ensures Step(g, a) <= Step(g, b)
  {
  }

  lemma {:induction false} WithinMono(g: Graph, from: string, m: nat, n: nat)
    requires m <= n
    ensures Within(g, from, m) <= Within(g, from, n)
    decreases n - m
  {
    if m < n {
      WithinMono(g, from, m, n - 1);
    }
  }

  /** Once a level adds nothing new, no later level does. */
  lemma {:induction false} WithinStable(g: Graph, from: string, j: nat, m: nat)
    requires Within(g, from, j + 1) == Within(g, from, j)
    requires j <= m
    ensures Within(g, from, m) == Within(g, from, j)
    decreases m - j
  {
    if j < m {
      WithinStable(g, from, j, m - 1);
    }
  }

  /** When level `k` has nothing new, `to` (not among the shallower nodes) is never reached. */
  lemma {:induction false} ExhaustedLevel(g: Graph, from: string, to: string, k: nat)
    requires Within(g, from, k) <= Before(g, from, k)
    requires to !in Before(g, from, k)
    ensures forall m: nat :: to !in Within(g, from, m)
  {
    assert k > 0;
    var last := Within(g, from, k - 1);
    assert Before(g, from, k) == last;
    WithinMono(g, from, k - 1, k);
    assert Within(g, from, k) == last;
    assert to !in last;
    forall m: nat ensures to !in Within(g, from, m) {
      if m <= k - 1 {
        WithinMono(g, from, m, k - 1);
      } else {
        WithinStable(g, from, k - 1, m);
      }
    }
  }

  /** The new nodes one step below level `k` form level `k + 1`. */
  lemma NextLevel(g: Graph, from: string, frontier: set<string>, visited: set<string>, k: nat)
    requires visited == Before(g, from, k)
    requires frontier == Within(g, from, k) - visited
    ensures visited + frontier == Within(g, from, k) == Before(g, from, k + 1)
    ensures Step(g, frontier) - visited - frontier == Within(g, from, k + 1) - Within(g, from, k)
  {
    assert visited <= Within(g, from, k) by {
      if k > 0 { WithinMono(g, from, k - 1, k); }
    }
    StepUnion(g, visited, frontier);
    assert Step(g, visited) <= Within(g, from, k);
  }

  /** `r` is the right answer to "how far below `from` is `to`". */
  ghost predicate Answers(g: Graph, from: string, to: string, r: Option<nat>)
  {
    match r
    case Some(d) => IsShortest(g, from, to, d)
    case None => forall m: nat :: to !in Within(g, from, m)
  }

  /** Level `k` of the traversal: the nodes first reached after `k` hops. */
  ghost function Level(g: Graph, from: string, k: nat): set<string>
  {
    Within(g, from, k) - Before(g, from, k)
  }

  /** The traversal levels are exactly the layers of `Within`. */
  lemma {:induction false} SearchIsShortest(g: Graph, from: string, to: string, k: nat)
    requires to !in Before(g, from, k)
    ensures Answers(g, from, to, Search(g, to, Level(g, from, k), Before(g, from, k), k))
    decreases |(Nodes(g) + Level(g, from, k)) - Before(g, from, k)|
  {
    if to in Level(g, from, k) {
      FoundAtLevel(g, from, to, k);
    } else if Level(g, from, k) == {} {
      EmptyLevel(g, from, to, k);
    } else {
      SearchNextLevel(g, from, to, k);
      SearchIsShortest(g, from, to, k + 1);
    }
  }

  lemma FoundAtLevel(g: Graph, from: string, to: string, k: nat)
    requires to in Level(g, from, k)
    ensures Answers(g, from, to, Search(g, to, Level(g, from, k), Before(g, from, k), k))
  {
    assert IsShortest(g, from, to, k);
  }

  lemma EmptyLevel(g: Graph, from: string, to: string, k: nat)
    requires to !in Before(g, from, k) && Level(g, from, k) == {}
    ensures Answers(g, from, to, Search(g, to, Level(g, from, k), Before(g, from, k), k))
  {
    assert Within(g, from, k) <= Before(g, from, k) by {
      forall x | x in Within(g, from, k) ensures x in Before(g, from, k) {
        assert x !in Level(g, from, k);
      }
    }
    ExhaustedLevel(g, from, to, k);
  }

  /** A level without `to` hands the search on to the next level. */
  lemma SearchNextLevel(g: Graph, from: string, to: string, k: nat)
    requires to !in Before(g, from, k) && to !in Level(g, from, k) && Level(g, from, k) != {}
    ensures to !in Before(g, from, k + 1)
    ensures Search(g, to, Level(g, from, k), Before(g, from, k), k) == Search(g, to, Level(g, from, k + 1), Before(g, from, k + 1), k + 1)
    ensures |(Nodes(g) + Level(g, from, k + 1)) - Before(g, from, k + 1)| < |(Nodes(g) + Level(g, from, k)) - Before(g, from, k)|
  {
    var frontier, visited := Level(g, from, k), Before(g, from, k);
    NextLevel(g, from, frontier, visited, k);
    SearchProgress(g, to, frontier, visited, k);
  }

  lemma ShortestUnique(g: Graph, from: string, to: string, d1: nat, d2: nat)
    requires IsShortest(g, from, to, d1) && IsShortest(g, from, to, d2)
    ensures d1 == d2
  {
    if d1 < d2 {
      FoundEarlier(g, from, to, d1, d2);
    } else if d2 < d1 {
      FoundEarlier(g, from, to, d2, d1);
    }
  }

  /** A node found within `lo` hops is not first found at any larger hop count. */
  lemma FoundEarlier(g: Graph, from: string, to: string, lo: nat, hi: nat)
    requires lo < hi && to in Within(g, from, lo)
    ensures !IsShortest(g, from, to, hi)
  {
    WithinMono(g, from, lo, hi - 1);
  }

  /**
   * Breadth-first Distance agrees with the reference definition: it is Some(d) exactly when d is
   * the shortest hop count, and None exactly when `to` is not reachable at all.
   */
  lemma DistanceIsShortest(g: Graph, from: string, to: string)
    ensures forall d: nat :: Distance(g, from, to) == Some(d) <==> IsShortest(g, from, to, d)
    ensures Distance(g, from, to).None? <==> !Reachable(g, from, to)
  {
    assert Level(g, from, 0) == {from};
    SearchIsShortest(g, from, to, 0);
    forall d: nat | IsShortest(g, from, to, d) ensures Distance(g, from, to) == Some(d) {
      if Distance(g, from, to).Some? {
        ShortestUnique(g, from, to, d, Distance(g, from, to).value);
      }
    }
  }

  lemma DistanceFound(g: Graph, from: string, to: string)
    requires Distance(g, from, to).Some?
    ensures to in Within(g, from, Distance(g, from, to).value)
  {
    DistanceIsShortest(g, from, to);
  }

  /** Anything within k hops has a distance of at most k. */
  lemma DistanceAtMost(g: Graph, from: string, to: string, k: nat)
    requires to in Within(g, from, k)
    ensures Distance(g, from, to).Some? && Distance(g, from, to).value <= k
  {
    DistanceIsShortest(g, from, to);
    assert Reachable(g, from, to);
    var d := Distance(g, from, to).value;
    assert IsShortest(g, from, to, d);
    if d > k {
      FoundEarlier(g, from, to, k, d);
    }
  }

  lemma {:induction false} WithinTransitive(g: Graph, a: string, b: string, c: string, k1: nat, k2: nat)
    requires b in Within(g, a, k1) && c in Within(g, b, k2)
    ensures c in Within(g, a, k1 + k2)
    decreases k2
  {
    if k2 == 0 {
      assert c == b;
    } else {
      var j: nat := k2 - 1;
      var n: nat := k1 + j;
      assert n + 1 == k1 + k2;
      if c in Within(g, b, j) {
        WithinTransitive(g, a, b, c, k1, j);
        WithinMono(g, a, n, n + 1);
      } else {
        var p :| p in Within(g, b, j) && c in Children(g, p);
        WithinTransitive(g, a, b, p, k1, j);
        ChildInNext(g, a, n, p, c);
      }
    }
  }

  /** A child of a node within k hops is within k + 1 hops. */
  lemma ChildInNext(g: Graph, from: string, k: nat, p: string, c: string)
    requires p in Within(g, from, k) && c in Children(g, p)
    ensures c in Within(g, from, k + 1)
  {
    assert c in Step(g, Within(g, from, k));
  }

  /** A descendant of a descendant is a descendant, and distances add up at most. */
  lemma DistanceTransitive(g: Graph, a: string, b: string, c: string)
    requires Distance(g, a, b).Some? && Distance(g, b, c).Some?
    ensures Distance(g, a, c).Some?
    ensures Distance(g, a, c).value <= Distance(g, a, b).value + Distance(g, b, c).value
  {
    DistanceFound(g, a, b);
    DistanceFound(g, b, c);
    WithinTransitive(g, a, b, c, Distance(g, a, b).value, Distance(g, b, c).value);
    DistanceAtMost(g, a, c, Distance(g, a, b).value + Distance(g, b, c).value);
  }

  /** A child is one hop below its parent, and a descendant's child at most one hop further. */
  lemma DistanceToChild(g: Graph, a: string, p: string, c: string)
    requires Distance(g, a, p).Some? && c in Children(g, p)
    ensures Distance(g, p, c) == (if p == c then Some(0) else Some(1))
    ensures Distance(g, a, c).Some? && Distance(g, a, c).value <= Distance(g, a, p).value + 1
  {
    assert c in Within(g, p, 1);
    DistanceAtMost(g, p, c, 1);
    DistanceTransitive(g, a, p, c);
  }

  /** A path that leaves `a` does so through one of its children. */
  lemma {:induction false} FirstStep(g: Graph, a: string, x: string, k: nat)
    requires x in Within(g, a, k + 1) && x != a
    ensures exists c :: c in Children(g, a) && x in Within(g, c, k)
    decreases k
  {
    if k == 0 {
      assert x in Children(g, a) && x in Within(g, x, 0);
    } else if x in Within(g, a, k) {
      FirstStep(g, a, x, k - 1);
      var c :| c in Children(g, a) && x in Within(g, c, k - 1);
      WithinMono(g, c, k - 1, k);
    } else {
      var p :| p in Within(g, a, k) && x in Children(g, p);
      if p == a {
        assert x in Within(g, x, 0);
        WithinMono(g, x, 0, k);
      } else {
        FirstStep(g, a, p, k - 1);
        var c :| c in Children(g, a) && p in Within(g, c, k - 1);
        assert x in Within(g, c, k);
      }
    }
  }

  /** In an acyclic hierarchy no node lies below one of its own strict descendants. */
  lemma NeverUpward(g: Graph, a: string, d: string)
    requires Acyclic(g)
    requires Distance(g, a, d).Some? && a != d
    ensures Distance(g, d, a).None?
  {
    if Distance(g, d, a).Some? {
      var c, n := UpwardMakesCycle(g, a, d);
      assert false;
    }
  }

  /** A way back up from a strict descendant closes a cycle through one of the children. */
  lemma UpwardMakesCycle(g: Graph, a: string, d: string) returns (c: string, n: nat)
    requires Distance(g, a, d).Some? && a != d && Distance(g, d, a).Some?
    ensures c in Children(g, a) && a in Within(g, c, n)
  {
    var down, up := Distance(g, a, d).value, Distance(g, d, a).value;
    DistanceFound(g, a, d);
    DistanceFound(g, d, a);
    c, n := CycleThroughChild(g, a, d, down, up);
  }

  lemma CycleThroughChild(g: Graph, a: string, d: string, down: nat, up: nat) returns (c: string, n: nat)
    requires a != d && d in Within(g, a, down) && a in Within(g, d, up)
    ensures c in Children(g, a) && a in Within(g, c, n)
  {
    var k: nat := if down == 0 then 0 else down - 1;
    assert d in Within(g, a, k + 1) by {
      WithinMono(g, a, down, k + 1);
    }
    FirstStep(g, a, d, k);
    c :| c in Children(g, a) && d in Within(g, c, k);
    WithinTransitive(g, c, d, a, k, up);
    n := k + up;
  }

  /** Everything below `from` stays inside any child-closed set holding `from`. */
  lemma {:induction false} WithinClosed(g: Graph, from: string, s: set<string>, k: nat)
    requires from in s
    requires forall p, c :: p in s && c in Children(g, p) ==> c in s
    ensures Within(g, from, k) <= s
  {
    if k > 0 {
      WithinClosed(g, from, s, k - 1);
    }
  }

  /** A node outside a child-closed set around `from` is not below `from`. */
  lemma OutsideClosedUnreachable(g: Graph, from: string, to: string, s: set<string>)
    requires from in s && to !in s
    requires forall p, c :: p in s && c in Children(g, p) ==> c in s
    ensures Distance(g, from, to).None?
  {
    if Distance(g, from, to).Some? {
      DistanceFound(g, from, to);
      WithinClosed(g, from, s, Distance(g, from, to).value);
    }
  }

  /** A name the graph never mentions is below nothing but itself. */
  lemma DistanceStaysInGraph(g: Graph, from: string, to: string)
    requires Distance(g, from, to).Some?
    ensures to == from || to in Nodes(g)
  {
    DistanceFound(g, from, to);
    StepInNodes(g, Within(g, from, Distance(g, from, to).value));
    WithinClosed(g, from, Nodes(g) + {from}, Distance(g, from, to).value);
  }

  /** Every edge of `g` runs from a node to one of strictly lower rank. */
  ghost predicate RankedBy(g: Graph, rank: map<string, nat>)
  {
    forall p, c :: p in g && c in g[p] ==> p in rank && c in rank && rank[c] < rank[p]
  }

  /** A graph whose edges all descend in some rank has no cycle. */
  lemma RankedIsAcyclic(g: Graph, rank: map<string, nat>)
    requires RankedBy(g, rank)
    ensures Acyclic(g)
  {
    forall p, c, k: nat | c in Children(g, p) ensures p !in Within(g, c, k) {
      WithinRank(g, rank, c, k);
    }
  }

  lemma {:induction false} WithinRank(g: Graph, rank: map<string, nat>, c: string, k: nat)
    requires RankedBy(g, rank)
    requires c in rank
    ensures forall x :: x in Within(g, c, k) ==> x in rank && rank[x] <= rank[c]
  {
    if k > 0 {
      var w := Within(g, c, k - 1);
      WithinRank(g, rank, c, k - 1);
      forall x | x in Step(g, w) ensures x in rank && rank[x] <= rank[c] {
        var p :| p in w && x in Children(g, p);
        assert p in g && x in g[p];
      }
      assert Within(g, c, k) == w + Step(g, w);
    }
  }
}
