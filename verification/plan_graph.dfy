/** The two graph algorithms of plan validation: the depth-first cycle check and the in-place
    transitive closure behind the safety order. */
module PlanGraph {
  import opened Graphs
  import opened Vocabulary

  datatype Verdict = Accepted | CycleThrough(node: Key)

  /** `finished` holds the visited keys in the order their visits returned. */
  ghost predicate SearchState(graph: Graph, visited: set<Key>, stack: set<Key>, finished: seq<Key>) {
    && (forall k :: k in visited <==> k in finished)
    && visited !! stack
    && Topological(graph, finished)
  }

  lemma LeaveKeepsState(graph: Graph, visited: set<Key>, stack: set<Key>, finished: seq<Key>, node: Key)
    requires SearchState(graph, visited, stack, finished) && node in stack
    requires forall d | Edge(graph, node, d) :: d in visited
    ensures SearchState(graph, visited + {node}, stack - {node}, finished + [node])
  {
    assert node !in finished;
    TopologicalAppend(graph, finished, node);
  }

  /** Every key on the stack depends on `node`. */
  ghost predicate StackReaches(graph: Graph, stack: set<Key>, node: Key) {
    forall k | k in stack :: Reaches(graph, k, node)
  }

  lemma StackReachesDependency(graph: Graph, stack: set<Key>, node: Key, next: Key)
    requires StackReaches(graph, stack, node) && Edge(graph, node, next)
    ensures StackReaches(graph, stack + {node}, next)
  {
    EdgeReaches(graph, node, next);
    forall k | k in stack ensures Reaches(graph, k, next) {
      ReachesTransitive(graph, k, node, next);
    }
  }

  /** The mutable state shared by the nested visits of the cycle check. */
  class CycleCheck {
    const graph: Graph
    var visited: set<Key>
    var stack: set<Key>
    ghost var finished: seq<Key>

    constructor (graph: Graph)
      ensures this.graph == graph && Valid() && stack == {} && visited == {} && finished == []
    {
      this.graph := graph;
      visited, stack := {}, {};
      finished := [];
    }

    ghost predicate Valid()
      reads this
    {
      SearchState(graph, visited, stack, finished)
    }

    method Visit(node: Key) returns (verdict: Verdict)
      requires Valid() && StackReaches(graph, stack, node)
      modifies this
      ensures verdict.CycleThrough? ==> Reaches(graph, verdict.node, verdict.node)
      ensures verdict.Accepted? ==>
        Valid() && stack == old(stack) && old(visited) <= visited && node in visited
      decreases graph.Keys - stack
    {
      if node in stack {
        return CycleThrough(node);
      }
      if node in visited {
        return Accepted;
      }
      stack := stack + {node};
      var dependencies := if node in graph then graph[node] else {};
      var todo := dependencies;
      while todo != {}
        invariant Valid() && stack == old(stack) + {node}
        invariant todo <= dependencies && old(visited) <= visited && dependencies - todo <= visited
        decreases todo
      {
        var next :| next in todo;
        StackReachesDependency(graph, old(stack), node, next);
        assert node in graph.Keys - old(stack);
        verdict := Visit(next);
        if verdict.CycleThrough? {
          return;
        }
        todo := todo - {next};
      }
      LeaveKeepsState(graph, visited, stack, finished, node);
      stack := stack - {node};
      visited := visited + {node};
      finished := finished + [node];
      verdict := Accepted;
    }
  }

  /** Accepts exactly the acyclic graphs. Acceptance yields a topological order of the keys;
      a rejection names a key that lies on a cycle. */
  method AssertAcyclic(graph: Graph) returns (verdict: Verdict, ghost order: seq<Key>)
    ensures verdict.Accepted? <==> Acyclic(graph)
    ensures verdict.Accepted? ==> Topological(graph, order) && forall k | k in graph :: k in order
    ensures verdict.CycleThrough? ==> Reaches(graph, verdict.node, verdict.node)
  {
    var check := new CycleCheck(graph);
    var todo := graph.Keys;
    order := [];
    while todo != {}
      invariant fresh(check) && check.graph == graph && check.Valid() && check.stack == {} && todo <= graph.Keys
      invariant forall k | k in graph.Keys - todo :: k in check.visited
      decreases todo
    {
      var key :| key in todo;
      verdict := check.Visit(key);
      if verdict.CycleThrough? {
        return;
      }
      todo := todo - {key};
    }
    order := check.finished;
    assert forall k | k in graph :: k in check.visited;
    TopologicalIsAcyclic(graph, order);
    verdict := Accepted;
  }

  // --- the transitive closure ---

  /** `wider` is `deps` together with everything `reach` holds for one of them. */
  ghost predicate Widened(reach: Graph, deps: set<Key>, wider: set<Key>) {
    && deps <= wider
    && (forall d | d in deps && d in reach :: reach[d] <= wider)
    && (forall x | x in wider :: x in deps || exists d :: d in deps && Edge(reach, d, x))
  }

  method Widen(reach: Graph, deps: set<Key>) returns (wider: set<Key>)
    ensures Widened(reach, deps, wider)
  {
    wider := deps;
    var todo := deps;
    while todo != {}
      invariant todo <= deps <= wider
      invariant forall d | d in deps && d !in todo && d in reach :: reach[d] <= wider
      invariant forall x | x in wider :: x in deps || exists d :: d in deps && Edge(reach, d, x)
      decreases todo
    {
      var d :| d in todo;
      if d in reach {
        assert forall x | x in reach[d] :: Edge(reach, d, x);
        wider := wider + reach[d];
      }
      todo := todo - {d};
    }
  }

  ghost function AllDependencies(graph: Graph): set<Key> {
    set k, d | k in graph && d in graph[k] :: d
  }

  ghost function Unconnected(graph: Graph, reach: Graph): set<(Key, Key)> {
    set k, d | k in graph && d in AllDependencies(graph) && !Edge(reach, k, d) :: (k, d)
  }

  /** The number of pairs not yet known to be connected: the measure of the fixpoint loop. */
  ghost function Missing(graph: Graph, reach: Graph): nat {
    |Unconnected(graph, reach)|
  }

  lemma ProperSubsetIsSmaller<T>(a: set<T>, b: set<T>)
    requires a < b
    ensures |a| < |b|
  {
    assert b == a + (b - a);
  }

  /** `reach` lies between the edges of `graph` and its reachability relation. */
  ghost predicate Approximates(graph: Graph, reach: Graph) {
    && reach.Keys == graph.Keys
    && (forall k | k in graph :: graph[k] <= reach[k])
    && (forall k, x | k in graph && x in reach[k] :: Reaches(graph, k, x))
  }

  ghost predicate ClosedAt(reach: Graph, k: Key) {
    k in reach && forall d | d in reach[k] && d in reach :: reach[d] <= reach[k]
  }

  lemma WidenedIsSound(graph: Graph, reach: Graph, k: Key, wider: set<Key>)
    requires Approximates(graph, reach) && k in graph && Widened(reach, reach[k], wider)
    ensures forall x | x in wider :: Reaches(graph, k, x)
  {
    forall x | x in wider ensures Reaches(graph, k, x) {
      if x !in reach[k] {
        var d :| d in reach[k] && Edge(reach, d, x);
        ReachesTransitive(graph, k, d, x);
      }
    }
  }

  lemma ReachedIsDependency(graph: Graph, k: Key, x: Key)
    requires Reaches(graph, k, x)
    ensures x in AllDependencies(graph)
  {
    var m := ReachesLastEdge(graph, k, x);
  }

  lemma {:induction false} ClosedContainsPath(graph: Graph, reach: Graph, p: seq<Key>)
    requires Approximates(graph, reach)
    requires forall k | k in graph :: ClosedAt(reach, k)
    requires IsPath(graph, p) && |p| >= 2
    ensures p[0] in reach && p[|p| - 1] in reach[p[0]]
    decreases |p|
  {
    assert Edge(graph, p[0], p[0 + 1]);
    if |p| > 2 {
      assert Edge(graph, p[1], p[1 + 1]);
      var q := p[1..];
      forall i | 0 <= i < |q| - 1 ensures Edge(graph, q[i], q[i + 1]) {
        assert q[i] == p[i + 1] && q[i + 1] == p[i + 2];
      }
      ClosedContainsPath(graph, reach, q);
      assert p[1] in reach[p[0]] && q[|q| - 1] in reach[p[1]];
      assert ClosedAt(reach, p[0]);
    }
  }

  lemma ClosedIsReachability(graph: Graph, reach: Graph)
    requires Approximates(graph, reach)
    requires forall k | k in graph :: ClosedAt(reach, k)
    ensures forall k, x | k in graph :: x in reach[k] <==> Reaches(graph, k, x)
  {
    forall k, x | k in graph ensures x in reach[k] <==> Reaches(graph, k, x) {
      if Reaches(graph, k, x) {
        var p :| PathFromTo(graph, p, k, x);
        ClosedContainsPath(graph, reach, p);
      }
    }
  }

  lemma WideningConnects(graph: Graph, reach: Graph, k: Key, wider: set<Key>, gained: Key)
    requires k in graph && k in reach && reach[k] <= wider
    requires gained in wider && gained !in reach[k] && gained in AllDependencies(graph)
    ensures Missing(graph, reach[k := wider]) < Missing(graph, reach)
  {
    var before, after := Unconnected(graph, reach), Unconnected(graph, reach[k := wider]);
    assert (k, gained) in before && (k, gained) !in after;
    assert after <= before;
    ProperSubsetIsSmaller(after, before);
  }

  lemma WideningApproximates(graph: Graph, reach: Graph, k: Key, wider: set<Key>)
    requires Approximates(graph, reach) && k in graph && Widened(reach, reach[k], wider)
    ensures Approximates(graph, reach[k := wider])
  {
    WidenedIsSound(graph, reach, k, wider);
  }

  /** Widening an entry keeps the approximation; if it changes the entry it connects a new pair,
      and if it does not the entry was closed. */
  lemma WideningProgress(graph: Graph, reach: Graph, k: Key, wider: set<Key>)
    requires Approximates(graph, reach) && k in graph && Widened(reach, reach[k], wider)
    ensures Approximates(graph, reach[k := wider])
    ensures wider != reach[k] ==> Missing(graph, reach[k := wider]) < Missing(graph, reach)
    ensures wider == reach[k] ==> ClosedAt(reach, k)
  {
    WideningApproximates(graph, reach, k, wider);
    if wider != reach[k] {
      var gained :| gained in wider && gained !in reach[k];
      assert gained in AllDependencies(graph) by {
        WidenedIsSound(graph, reach, k, wider);
        ReachedIsDependency(graph, k, gained);
      }
      WideningConnects(graph, reach, k, wider, gained);
    }
  }

  /** One walk over the table, each entry widened in place from the entries as they are then. */
  method Sweep(keys: seq<Key>, graph: Graph, reach0: Graph) returns (reach: Graph, changed: bool)
    requires forall k :: k in graph <==> k in keys
    requires Approximates(graph, reach0)
    ensures Approximates(graph, reach)
    ensures !changed ==> forall k | k in graph :: ClosedAt(reach, k)
    ensures changed ==> Missing(graph, reach) < Missing(graph, reach0)
    ensures !changed ==> reach == reach0
  {
    reach, changed := reach0, false;
    for i := 0 to |keys|
      invariant Approximates(graph, reach)
      invariant !changed ==> reach == reach0 && forall j | 0 <= j < i :: ClosedAt(reach, keys[j])
      invariant changed ==> Missing(graph, reach) < Missing(graph, reach0)
    {
      var k := keys[i];
      var wider := Widen(reach, reach[k]);
      WideningProgress(graph, reach, k, wider);
      if wider != reach[k] {
        reach := reach[k := wider];
        changed := true;
      }
    }
  }

  /** The in-place fixpoint terminates with exactly the reachability relation. `keys` is the
      order in which the table is walked. */
  method TransitiveClosure(keys: seq<Key>, graph: Graph) returns (reach: Graph)
    requires forall k :: k in graph <==> k in keys
    ensures reach.Keys == graph.Keys
    ensures forall k, x | k in graph :: x in reach[k] <==> Reaches(graph, k, x)
  {
    reach := graph;
    forall k, x | k in graph && x in graph[k] ensures Reaches(graph, k, x) {
      EdgeReaches(graph, k, x);
    }
    var changed := true;
    while changed
      invariant Approximates(graph, reach)
      invariant !changed ==> forall k | k in graph :: ClosedAt(reach, k)
      decreases Missing(graph, reach), changed
    {
      reach, changed := Sweep(keys, graph, reach);
    }
    ClosedIsReachability(graph, reach);
  }
}
