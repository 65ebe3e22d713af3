/** How deep a task lies in the dependency order, and the longest dependency chain below it. */
module TaskLevels {
  import opened TaskRows

  /** (dependent, prerequisite) task indices. */
  type Edge = (nat, nat)

  function EdgesOf(deps: seq<Dependency>): (edges: seq<Edge>)
    ensures |edges| == |deps|
  {
    seq(|deps|, j requires 0 <= j < |deps| => (deps[j].dependent, deps[j].prerequisite))
  }

  /** `rank` is higher on every dependent than on its prerequisites. */
  ghost predicate Ranked(edges: seq<Edge>, rank: nat -> nat) {
    forall j | 0 <= j < |edges| :: rank(edges[j].1) < rank(edges[j].0)
  }

  ghost predicate Needs(edges: seq<Edge>, x: nat, y: nat) {
    exists j | 0 <= j < |edges| :: edges[j] == (x, y)
  }

  ghost function Level(edges: seq<Edge>, rank: nat -> nat, t: nat): nat
    requires Ranked(edges, rank)
    decreases rank(t), |edges| + 1
  {
    LevelUpTo(edges, rank, t, |edges|)
  }

  /** One more than the highest level among the prerequisites of `t` in the first `n` edges. */
  ghost function LevelUpTo(edges: seq<Edge>, rank: nat -> nat, t: nat, n: nat): nat
    requires Ranked(edges, rank) && n <= |edges|
    decreases rank(t), n
  {
    if n == 0 then 0
    else
      var rest := LevelUpTo(edges, rank, t, n - 1);
      if edges[n - 1].0 == t && rest < Level(edges, rank, edges[n - 1].1) + 1
      then Level(edges, rank, edges[n - 1].1) + 1 else rest
  }

  lemma {:induction false} LevelUpToIsMax(edges: seq<Edge>, rank: nat -> nat, t: nat, n: nat)
    requires Ranked(edges, rank) && n <= |edges|
    ensures forall j | 0 <= j < n && edges[j].0 == t :: Level(edges, rank, edges[j].1) < LevelUpTo(edges, rank, t, n)
    ensures LevelUpTo(edges, rank, t, n) > 0 ==>
      exists j | 0 <= j < n :: edges[j].0 == t && Level(edges, rank, edges[j].1) + 1 == LevelUpTo(edges, rank, t, n)
    decreases n
  {
    if n > 0 {
      LevelUpToIsMax(edges, rank, t, n - 1);
    }
  }

  lemma LevelAbovePrerequisites(edges: seq<Edge>, rank: nat -> nat, x: nat, y: nat)
    requires Ranked(edges, rank) && Needs(edges, x, y)
    ensures Level(edges, rank, y) < Level(edges, rank, x)
  {
    LevelUpToIsMax(edges, rank, x, |edges|);
    var j :| 0 <= j < |edges| && edges[j] == (x, y);
    assert edges[j].0 == x;
  }

  lemma LevelComesFromPrerequisite(edges: seq<Edge>, rank: nat -> nat, x: nat) returns (y: nat)
    requires Ranked(edges, rank) && Level(edges, rank, x) > 0
    ensures Needs(edges, x, y) && Level(edges, rank, y) + 1 == Level(edges, rank, x)
  {
    LevelUpToIsMax(edges, rank, x, |edges|);
    var j :| 0 <= j < |edges| && edges[j].0 == x && Level(edges, rank, edges[j].1) + 1 == LevelUpTo(edges, rank, x, |edges|);
    y := edges[j].1;
    assert edges[j] == (x, y);
  }

  /** Every level below a task's own is the level of one of its direct or indirect prerequisites. */
  lemma {:induction false} LowerLevelsExist(edges: seq<Edge>, rank: nat -> nat, x: nat, level: nat, size: nat) returns (y: nat)
    requires Ranked(edges, rank) && level <= Level(edges, rank, x) && x < size
    requires forall j | 0 <= j < |edges| :: edges[j].1 < size
    ensures Level(edges, rank, y) == level && y < size
    decreases Level(edges, rank, x)
  {
    if level == Level(edges, rank, x) {
      y := x;
    } else {
      var below := LevelComesFromPrerequisite(edges, rank, x);
      var j :| 0 <= j < |edges| && edges[j] == (x, below);
      y := LowerLevelsExist(edges, rank, below, level, size);
    }
  }

  /** Each task of the chain needs the next. */
  ghost predicate DependencyChain(edges: seq<Edge>, chain: seq<nat>) {
    chain != [] && forall i | 0 <= i < |chain| - 1 :: Needs(edges, chain[i], chain[i + 1])
  }

  lemma {:induction false} ChainFitsLevel(edges: seq<Edge>, rank: nat -> nat, chain: seq<nat>)
    requires Ranked(edges, rank) && DependencyChain(edges, chain)
    ensures |chain| <= Level(edges, rank, chain[0]) + 1
    decreases |chain|
  {
    if |chain| > 1 {
      assert Needs(edges, chain[0], chain[0 + 1]);
      LevelAbovePrerequisites(edges, rank, chain[0], chain[1]);
      var tail := chain[1..];
      forall i | 0 <= i < |tail| - 1 ensures Needs(edges, tail[i], tail[i + 1]) {
        assert tail[i] == chain[i + 1] && tail[i + 1] == chain[i + 2];
      }
      ChainFitsLevel(edges, rank, tail);
    }
  }

  lemma {:induction false} LevelHasChain(edges: seq<Edge>, rank: nat -> nat, t: nat) returns (chain: seq<nat>)
    requires Ranked(edges, rank)
    ensures DependencyChain(edges, chain) && chain[0] == t && |chain| == Level(edges, rank, t) + 1
    decreases Level(edges, rank, t)
  {
    chain := [t];
    if Level(edges, rank, t) > 0 {
      var y := LevelComesFromPrerequisite(edges, rank, t);
      var rest := LevelHasChain(edges, rank, y);
      chain := [t] + rest;
      forall i | 0 <= i < |chain| - 1 ensures Needs(edges, chain[i], chain[i + 1]) {
        if i > 0 {
          assert chain[i] == rest[i - 1] && chain[i + 1] == rest[i - 1 + 1];
        }
      }
    }
  }

  /** `length` is the number of tasks on the longest chain among the tasks below `size`. */
  ghost predicate LongestChain(edges: seq<Edge>, size: nat, length: nat) {
    && (length > 0 ==> exists chain :: DependencyChain(edges, chain) && chain[0] < size && |chain| == length)
    && (forall chain | DependencyChain(edges, chain) && chain[0] < size :: |chain| <= length)
  }

  /** The longest chain has one task more than the highest level. */
  lemma HighestLevelIsLongestChain(edges: seq<Edge>, rank: nat -> nat, size: nat, length: nat)
    requires Ranked(edges, rank)
    requires forall t: nat | t < size :: Level(edges, rank, t) < length
    requires length > 0 ==> exists t: nat | t < size :: Level(edges, rank, t) + 1 == length
    ensures LongestChain(edges, size, length)
  {
    forall chain | DependencyChain(edges, chain) && chain[0] < size ensures |chain| <= length {
      ChainFitsLevel(edges, rank, chain);
    }
    if length > 0 {
      var t: nat :| t < size && Level(edges, rank, t) + 1 == length;
      var chain := LevelHasChain(edges, rank, t);
    }
  }
}
