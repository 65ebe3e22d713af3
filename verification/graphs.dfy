/** Dependency graphs over task keys: paths, reachability, acyclicity and topological orders.
    Everything here is stated over paths, independently of the planner's algorithms. */
module Graphs {
  import opened Vocabulary

  /** Maps a task key to the set of keys it depends on. A key outside the map has no dependencies. */
  type Graph = map<Key, set<Key>>

  predicate Edge(g: Graph, a: Key, b: Key) {
    a in g && b in g[a]
  }

  ghost predicate IsPath(g: Graph, p: seq<Key>) {
    && |p| >= 1
    && forall i | 0 <= i < |p| - 1 :: Edge(g, p[i], p[i + 1])
  }

  ghost predicate PathFromTo(g: Graph, p: seq<Key>, a: Key, b: Key) {
    IsPath(g, p) && |p| >= 2 && p[0] == a && p[|p| - 1] == b
  }

  /** `a` depends on `b` through one or more dependency edges. */
  ghost predicate Reaches(g: Graph, a: Key, b: Key) {
    exists p :: PathFromTo(g, p, a, b)
  }

  ghost predicate Acyclic(g: Graph) {
    forall k :: !Reaches(g, k, k)
  }

  predicate NoDuplicates<T(==)>(s: seq<T>) {
    forall i, j | 0 <= i < j < |s| :: s[i] != s[j]
  }

  /** Every key comes after all of its dependencies. */
  ghost predicate Topological(g: Graph, order: seq<Key>) {
    && NoDuplicates(order)
    && forall i, d | 0 <= i < |order| && Edge(g, order[i], d) :: d in order[..i]
  }

  /** `h` has every edge of `g`. */
  ghost predicate SubGraph(g: Graph, h: Graph) {
    forall a, b | Edge(g, a, b) :: Edge(h, a, b)
  }

  lemma EdgeReaches(g: Graph, a: Key, b: Key)
    requires Edge(g, a, b)
    ensures Reaches(g, a, b)
  {
    assert PathFromTo(g, [a, b], a, b);
  }

  lemma PathConcat(g: Graph, p: seq<Key>, q: seq<Key>, a: Key, b: Key, c: Key)
    requires PathFromTo(g, p, a, b) && PathFromTo(g, q, b, c)
    ensures PathFromTo(g, p + q[1..], a, c)
  {
  }

  lemma ReachesTransitive(g: Graph, a: Key, b: Key, c: Key)
    requires Reaches(g, a, b) && Reaches(g, b, c)
    ensures Reaches(g, a, c)
  {
    var p :| PathFromTo(g, p, a, b);
    var q :| PathFromTo(g, q, b, c);
    PathConcat(g, p, q, a, b, c);
  }

  /** A path starts with an edge; what follows is either nothing or a shorter path. */
  lemma ReachesFirstEdge(g: Graph, a: Key, b: Key) returns (m: Key)
    requires Reaches(g, a, b)
    ensures Edge(g, a, m) && (m == b || Reaches(g, m, b))
  {
    var p :| PathFromTo(g, p, a, b);
    m := p[1];
    assert Edge(g, p[0], p[1]);
    if |p| > 2 {
      var q := p[1..];
      forall i | 0 <= i < |q| - 1 ensures Edge(g, q[i], q[i + 1]) {
        assert q[i] == p[i + 1] && q[i + 1] == p[i + 2];
      }
      assert PathFromTo(g, q, m, b);
    }
  }

  /** A path ends with an edge. */
  lemma ReachesLastEdge(g: Graph, a: Key, b: Key) returns (m: Key)
    requires Reaches(g, a, b)
    ensures Edge(g, m, b) && (m == a || Reaches(g, a, m))
  {
    var p :| PathFromTo(g, p, a, b);
    m := p[|p| - 2];
    assert Edge(g, p[|p| - 2], p[|p| - 2 + 1]);
    if |p| > 2 {
      assert PathFromTo(g, p[..|p| - 1], a, m);
    }
  }

  lemma ReachesMonotone(g: Graph, h: Graph, a: Key, b: Key)
    requires SubGraph(g, h) && Reaches(g, a, b)
    ensures Reaches(h, a, b)
  {
    var p :| PathFromTo(g, p, a, b);
    assert forall i | 0 <= i < |p| - 1 :: Edge(g, p[i], p[i + 1]) ==> Edge(h, p[i], p[i + 1]);
    assert PathFromTo(h, p, a, b);
  }

  ghost function IndexIn(order: seq<Key>, k: Key): (i: nat)
    requires k in order
    ensures i < |order| && order[i] == k
  {
    var i :| 0 <= i < |order| && order[i] == k;
    i
  }

  /** Along any path positions in a topological order strictly decrease. */
  lemma {:induction false} PathDescends(g: Graph, order: seq<Key>, p: seq<Key>, i: nat)
    requires Topological(g, order) && IsPath(g, p)
    requires i < |order| && p[0] == order[i]
    ensures |p| >= 2 ==> p[|p| - 1] in order[..i]
    decreases |p|
  {
    if |p| >= 2 {
      assert Edge(g, p[0], p[0 + 1]);
      assert p[1] in order[..i];
      var j := IndexIn(order[..i], p[1]);
      var q := p[1..];
      forall k | 0 <= k < |q| - 1 ensures Edge(g, q[k], q[k + 1]) {
        assert q[k] == p[k + 1] && q[k + 1] == p[k + 2];
      }
      PathDescends(g, order, q, j);
      if |q| >= 2 {
        assert order[..j] <= order[..i];
      }
    }
  }

  lemma TopologicalAppend(g: Graph, order: seq<Key>, node: Key)
    requires Topological(g, order) && node !in order
    requires forall d | Edge(g, node, d) :: d in order
    ensures Topological(g, order + [node])
  {
    var longer := order + [node];
    forall i, d | 0 <= i < |longer| && Edge(g, longer[i], d) ensures d in longer[..i] {
      if i < |order| {
        assert longer[..i] == order[..i] && longer[i] == order[i];
      } else {
        assert longer[..i] == order;
      }
    }
  }

  /** A topological order of all keys rules out every cycle. */
  lemma TopologicalIsAcyclic(g: Graph, order: seq<Key>)
    requires Topological(g, order)
    requires forall k | k in g :: k in order
    ensures Acyclic(g)
  {
    forall k ensures !Reaches(g, k, k) {
      if Reaches(g, k, k) {
        var p :| PathFromTo(g, p, k, k);
        assert Edge(g, p[0], p[0 + 1]);
        var i := IndexIn(order, k);
        PathDescends(g, order, p, i);
      }
    }
  }

  /** A measure that drops along every edge drops along every path. */
  lemma {:induction false} RankDescends(g: Graph, rank: Key -> nat, p: seq<Key>)
    requires forall a, b | Edge(g, a, b) :: rank(b) < rank(a)
    requires IsPath(g, p) && |p| >= 2
    ensures rank(p[|p| - 1]) < rank(p[0])
    decreases |p|
  {
    assert Edge(g, p[0], p[0 + 1]);
    if |p| > 2 {
      var q := p[1..];
      forall i | 0 <= i < |q| - 1 ensures Edge(g, q[i], q[i + 1]) {
        assert q[i] == p[i + 1] && q[i + 1] == p[i + 2];
      }
      RankDescends(g, rank, q);
    }
  }

  lemma RankedIsAcyclic(g: Graph, rank: Key -> nat)
    requires forall a, b | Edge(g, a, b) :: rank(b) < rank(a)
    ensures Acyclic(g)
  {
    forall k ensures !Reaches(g, k, k) {
      if Reaches(g, k, k) {
        var p :| PathFromTo(g, p, k, k);
        RankDescends(g, rank, p);
      }
    }
  }

  // --- growing a graph ---

  /** A path that starts outside a new key nobody depends on never meets it. */
  lemma {:induction false} PathAvoidsNewKey(g: Graph, k: Key, deps: set<Key>, p: seq<Key>)
    requires forall x :: !Edge(g, x, k)
    requires IsPath(g[k := deps], p) && p[0] != k
    ensures IsPath(g, p)
    decreases |p|
  {
    if |p| >= 2 {
      assert Edge(g[k := deps], p[0], p[0 + 1]);
      assert Edge(g, p[0], p[1]);
      var q := p[1..];
      forall i | 0 <= i < |q| - 1 ensures Edge(g[k := deps], q[i], q[i + 1]) {
        assert q[i] == p[i + 1] && q[i + 1] == p[i + 2];
      }
      PathAvoidsNewKey(g, k, deps, q);
      forall i | 0 <= i < |p| - 1 ensures Edge(g, p[i], p[i + 1]) {
        if i > 0 {
          assert Edge(g, q[i - 1], q[i - 1 + 1]);
        }
      }
    }
  }

  /** Adding a key nobody depends on changes no other key's reachability. */
  lemma NewKeyKeepsReachability(g: Graph, k: Key, deps: set<Key>, x: Key, y: Key)
    requires k !in g && (forall z :: !Edge(g, z, k)) && x != k
    ensures Reaches(g[k := deps], x, y) <==> Reaches(g, x, y)
  {
    if Reaches(g[k := deps], x, y) {
      var p :| PathFromTo(g[k := deps], p, x, y);
      PathAvoidsNewKey(g, k, deps, p);
      assert PathFromTo(g, p, x, y);
    }
    if Reaches(g, x, y) {
      ReachesMonotone(g, g[k := deps], x, y);
    }
  }

  lemma NewKeyKeepsAcyclicity(g: Graph, k: Key, deps: set<Key>)
    requires k !in g && (forall z :: !Edge(g, z, k)) && k !in deps
    ensures Acyclic(g[k := deps]) <==> Acyclic(g)
  {
    var h := g[k := deps];
    forall x | x != k ensures Reaches(h, x, x) <==> Reaches(g, x, x) {
      NewKeyKeepsReachability(g, k, deps, x, x);
    }
    if Reaches(h, k, k) {
      var m := ReachesLastEdge(h, k, k);
      assert m != k ==> Edge(g, m, k);
    }
    if Reaches(g, k, k) {
      var m := ReachesFirstEdge(g, k, k);
    }
  }

  /** `h` is `g` with an edge to `target` added at every key of `sources`. */
  ghost predicate Redirected(g: Graph, h: Graph, sources: set<Key>, target: Key) {
    forall x, y :: Edge(h, x, y) <==> Edge(g, x, y) || (x in sources && y == target)
  }

  /** While the target reaches no source, nothing after the target uses a new edge. */
  lemma {:induction false} PathFromTargetIsOld(g: Graph, h: Graph, sources: set<Key>, target: Key, p: seq<Key>)
    requires Redirected(g, h, sources, target) && target !in sources
    requires forall s | s in sources :: !Reaches(g, target, s)
    requires IsPath(h, p) && (p[0] == target || Reaches(g, target, p[0]))
    ensures IsPath(g, p)
    decreases |p|
  {
    if |p| >= 2 {
      assert Edge(h, p[0], p[0 + 1]);
      assert Edge(g, p[0], p[1]);
      EdgeReaches(g, p[0], p[1]);
      if p[0] != target {
        ReachesTransitive(g, target, p[0], p[1]);
      }
      var q := p[1..];
      forall i | 0 <= i < |q| - 1 ensures Edge(h, q[i], q[i + 1]) {
        assert q[i] == p[i + 1] && q[i + 1] == p[i + 2];
      }
      PathFromTargetIsOld(g, h, sources, target, q);
      forall i | 0 <= i < |p| - 1 ensures Edge(g, p[i], p[i + 1]) {
        if i > 0 {
          assert Edge(g, q[i - 1], q[i - 1 + 1]);
        }
      }
    }
  }

  lemma SubPath(g: Graph, p: seq<Key>, i: nat, j: nat)
    requires IsPath(g, p) && i < j < |p|
    ensures Reaches(g, p[i], p[j])
  {
    var q := p[i..j + 1];
    forall k | 0 <= k < |q| - 1 ensures Edge(g, q[k], q[k + 1]) {
      assert q[k] == p[i + k] && q[k + 1] == p[i + k + 1];
    }
    assert PathFromTo(g, q, p[i], p[j]);
  }

  /** A cycle through a new edge makes the target reach a source. */
  lemma NewCycleNeedsFeedback(g: Graph, h: Graph, sources: set<Key>, target: Key, p: seq<Key>, k: Key, i: nat)
    requires Redirected(g, h, sources, target) && target !in sources
    requires PathFromTo(h, p, k, k) && i < |p| - 1 && !Edge(g, p[i], p[i + 1])
    ensures p[i] in sources && Reaches(h, target, p[i])
  {
    assert Edge(h, p[i], p[i + 1]);
    if i + 1 < |p| - 1 {
      SubPath(h, p, i + 1, |p| - 1);
    }
    if 0 < i {
      SubPath(h, p, 0, i);
    }
    if i + 1 < |p| - 1 && 0 < i {
      ReachesTransitive(h, target, k, p[i]);
    }
  }

  /** Redirecting keys to `target` keeps a graph acyclic exactly when `target` reaches none of them. */
  lemma RedirectedIsAcyclicIff(g: Graph, h: Graph, sources: set<Key>, target: Key)
    requires Redirected(g, h, sources, target) && target !in sources && Acyclic(g)
    ensures Acyclic(h) <==> forall s | s in sources :: !Reaches(g, target, s)
  {
    if s :| s in sources && Reaches(g, target, s) {
      ReachesMonotone(g, h, target, s);
      EdgeReaches(h, s, target);
      ReachesTransitive(h, target, s, target);
    } else {
      forall k ensures !Reaches(h, k, k) {
        if Reaches(h, k, k) {
          var p :| PathFromTo(h, p, k, k);
          assert !Reaches(g, k, k);
          assert !PathFromTo(g, p, k, k);
          var i :| 0 <= i < |p| - 1 && !Edge(g, p[i], p[i + 1]);
          NewCycleNeedsFeedback(g, h, sources, target, p, k, i);
          var q :| PathFromTo(h, q, target, p[i]);
          PathFromTargetIsOld(g, h, sources, target, q);
          assert PathFromTo(g, q, target, p[i]);
        }
      }
    }
  }
}
