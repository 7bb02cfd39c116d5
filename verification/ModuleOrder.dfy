/** Ordering the modules of a program: every module behind its dependencies. */
module ModuleOrder {
  import opened Words

  /** The dependencies of each module, by number; `None` is a null pointer. */
  type Graph = seq<seq<Option<nat>>>

  /** Dependencies are modules of the graph. */
  predicate Closed(g: Graph) {
    forall a, i :: 0 <= a < |g| && 0 <= i < |g[a]| && g[a][i].Some? ==> g[a][i].value < |g|
  }

  predicate Edge(g: Graph, a: nat, b: nat) {
    a < |g| && Some(b) in g[a]
  }

  predicate Walk(g: Graph, w: seq<nat>) {
    forall i :: 0 <= i < |w| - 1 ==> Edge(g, w[i], w[i + 1])
  }

  ghost predicate Cyclic(g: Graph) {
    exists w: seq<nat> :: |w| >= 2 && w[0] == w[|w| - 1] && Walk(g, w)
  }

  predicate NoRepeats(s: seq<nat>) {
    forall i, j :: 0 <= i < j < |s| ==> s[i] != s[j]
  }

  /** Every module of the list stands behind all its dependencies. */
  ghost predicate Ordered(g: Graph, s: seq<nat>) {
    forall i, b :: 0 <= i < |s| && Edge(g, s[i], b) ==> b in s[..i]
  }

  lemma AppendOrdered(g: Graph, s: seq<nat>, m: nat)
    requires Ordered(g, s) && forall b :: Edge(g, m, b) ==> b in s
    ensures Ordered(g, s + [m])
  {
    var t := s + [m];
    forall i, b | 0 <= i < |t| && Edge(g, t[i], b)
      ensures b in t[..i]
    {
      assert t[..i] == s[..i];
    }
  }

  /** In an ordered list that holds a whole walk, positions fall along it. */
  lemma {:induction false} WalkFalls(g: Graph, s: seq<nat>, w: seq<nat>, n: nat, i: nat) returns (j: nat)
    requires Ordered(g, s) && NoRepeats(s) && Walk(g, w) && 0 < n < |w| && i < |s| && s[i] == w[0]
    ensures j < i && s[j] == w[n]
  {
    if n == 1 {
      assert Edge(g, w[0], w[1]);
      j :| 0 <= j < i && s[..i][j] == w[1];
    } else {
      var k := WalkFalls(g, s, w, n - 1, i);
      assert Edge(g, w[n - 1], w[n - 1 + 1]);
      j :| 0 <= j < k && s[..k][j] == w[n];
    }
  }

  /** A graph whose modules can all be put in order has no cycle. */
  lemma OrderedAcyclic(g: Graph, s: seq<nat>)
    requires Ordered(g, s) && NoRepeats(s) && forall m: nat :: m < |g| ==> m in s
    ensures !Cyclic(g)
  {
    if Cyclic(g) {
      var w: seq<nat> :| |w| >= 2 && w[0] == w[|w| - 1] && Walk(g, w);
      assert Edge(g, w[0], w[0 + 1]);
      assert w[0] in s;
      var i :| 0 <= i < |s| && s[i] == w[0];
      var j := WalkFalls(g, s, w, |w| - 1, i);
    }
  }

  function Elements(s: seq<nat>): set<nat> {
    set i | 0 <= i < |s| :: s[i]
  }

  lemma AppendElements(s: seq<nat>, m: nat)
    ensures Elements(s + [m]) == Elements(s) + {m}
  {
    var t := s + [m];
    forall x | x in Elements(s) + {m}
      ensures x in Elements(t)
    {
      if x == m {
        assert t[|s|] == m;
      } else {
        var i :| 0 <= i < |s| && s[i] == x;
        assert t[i] == x;
      }
    }
  }

  /** The state of the sort; `path` is the chain of modules that are being visited. */
  ghost predicate SortInv(g: Graph, path: seq<nat>, stack: set<nat>, visited: set<nat>, ordered: seq<nat>, errors: nat) {
    && Closed(g)
    && stack == Elements(path) && Walk(g, path) && (forall m :: m in stack ==> m < |g|)
    && visited == Elements(ordered) && NoRepeats(ordered) && (forall m :: m in visited ==> m < |g|)
    && visited !! stack
    && (errors == 0 ==> Ordered(g, ordered))
    && (errors > 0 ==> Cyclic(g))
  }

  /** Module `a` is opened. */
  lemma Opened(g: Graph, path: seq<nat>, stack: set<nat>, visited: set<nat>, ordered: seq<nat>, errors: nat, a: nat)
    requires SortInv(g, path, stack, visited, ordered, errors) && a < |g| && a !in stack && a !in visited
    requires path != [] ==> Edge(g, path[|path| - 1], a)
    ensures SortInv(g, path + [a], stack + {a}, visited, ordered, errors)
    ensures |stack + {a}| <= |g| && |stack + {a}| == |stack| + 1
  {
    AppendElements(path, a);
    UpToSize(stack + {a}, |g|);
  }

  /** Module `a` is finished. */
  lemma Finished(g: Graph, path: seq<nat>, stack: set<nat>, visited: set<nat>, ordered: seq<nat>, errors: nat, a: nat)
    requires SortInv(g, path + [a], stack + {a}, visited, ordered, errors) && a !in stack
    requires stack == Elements(path)
    requires errors == 0 ==> forall b :: Edge(g, a, b) ==> b in visited
    ensures SortInv(g, path, stack, visited + {a}, ordered + [a], errors)
  {
    AppendElements(ordered, a);
    forall i | 0 <= i < |path| - 1
      ensures Edge(g, path[i], path[i + 1])
    {
      assert (path + [a])[i] == path[i] && (path + [a])[i + 1] == path[i + 1];
    }
    if errors == 0 {
      forall b | Edge(g, a, b)
        ensures b in ordered
      {
        assert b in Elements(ordered);
      }
      AppendOrdered(g, ordered, a);
    }
    assert a !in Elements(ordered);
    forall i | 0 <= i < |ordered|
      ensures ordered[i] != a
    {
      assert ordered[i] in Elements(ordered);
    }
  }

  lemma EdgesOf(g: Graph, a: nat, visited: set<nat>)
    requires a < |g| && forall j :: 0 <= j < |g[a]| && g[a][j].Some? ==> g[a][j].value in visited
    ensures forall b :: Edge(g, a, b) ==> b in visited
  {
  }

  class ModuleSorter {
    const g: Graph
    var visited: set<nat>
    var stack: set<nat>
    var ordered: seq<nat>
    var errors: nat

    constructor (graph: Graph)
      requires Closed(graph)
      ensures g == graph && Inv([]) && ordered == [] && errors == 0
    {
      g, visited, stack, ordered, errors := graph, {}, {}, [], 0;
    }

    ghost predicate Inv(path: seq<nat>)
      reads this
    {
      SortInv(g, path, stack, visited, ordered, errors)
    }

    /** Visit a module after everything it depends on. */
    method Dfs(m: Option<nat>, ghost path: seq<nat>)
      requires Inv(path) && (m.Some? ==> m.value < |g|)
      requires m.Some? && path != [] ==> Edge(g, path[|path| - 1], m.value)
      modifies this`visited, this`stack, this`ordered, this`errors
      ensures Inv(path) && stack == old(stack)
      ensures old(ordered) <= ordered && old(visited) <= visited && old(errors) <= errors
      ensures m.Some? ==> m.value in visited || (m.value in stack && errors > 0)
      decreases |g| - |stack|
    {
      hide SortInv;
      if m.None? || m.value in visited {
        return;
      }
      var a := m.value;
      if a in stack {
        StackPath(g, path, stack, visited, ordered, errors, a);
        OneMoreError(g, path, stack, visited, ordered, errors, a);
        errors := errors + 1;
        return;
      }
      InvFacts(g, path, stack, visited, ordered, errors, a);
      Opened(g, path, stack, visited, ordered, errors, a);
      stack := stack + {a};
      for i := 0 to |g[a]|
        invariant Inv(path + [a]) && stack == old(stack) + {a}
        invariant old(ordered) <= ordered && old(visited) <= visited && old(errors) <= errors
        invariant errors == 0 ==> forall j :: 0 <= j < i && g[a][j].Some? ==> g[a][j].value in visited
      {
        DependencyFits(g, path, a, i);
        Dfs(g[a][i], path + [a]);
      }
      if errors == 0 {
        EdgesOf(g, a, visited);
      }
      Finished(g, path, old(stack), visited, ordered, errors, a);
      stack := stack - {a};
      assert stack == old(stack);
      visited := visited + {a};
      ordered := ordered + [a];
    }

    /** `topo_sort`: all modules, each once, an error exactly if there is a
        cycle, and without an error every module behind its dependencies. */
    method TopoSort(roots: seq<nat>)
      requires Inv([]) && ordered == [] && errors == 0
      requires forall m: nat :: m in roots <==> m < |g|
      modifies this`visited, this`stack, this`ordered, this`errors
      ensures NoRepeats(ordered)
      ensures forall m: nat :: m in ordered <==> m < |g|
      ensures errors > 0 <==> Cyclic(g)
      ensures errors == 0 ==> Ordered(g, ordered)
    {
      hide Ordered, Cyclic;
      for i := 0 to |roots|
        invariant Inv([]) && forall j :: 0 <= j < i ==> roots[j] in visited
      {
        assert roots[i] in roots;
        Dfs(Some(roots[i]), []);
      }
      forall m: nat
        ensures m in ordered <==> m < |g|
      {
        assert m in ordered <==> m in Elements(ordered);
        assert m in roots <==> m < |g|;
      }
      if errors == 0 {
        OrderedAcyclic(g, ordered);
      }
    }
  }

  /** The dependencies of the module that has just been opened. */
  lemma DependencyFits(g: Graph, path: seq<nat>, a: nat, i: nat)
    requires a < |g| && i < |g[a]|
    ensures g[a][i].Some? ==> Edge(g, (path + [a])[|path + [a]| - 1], g[a][i].value)
    ensures Closed(g) && g[a][i].Some? ==> g[a][i].value < |g|
  {
  }

  lemma InvFacts(g: Graph, path: seq<nat>, stack: set<nat>, visited: set<nat>, ordered: seq<nat>, errors: nat, a: nat)
    requires SortInv(g, path, stack, visited, ordered, errors)
    ensures Closed(g) && stack == Elements(path)
  {
  }

  lemma StackPath(g: Graph, path: seq<nat>, stack: set<nat>, visited: set<nat>, ordered: seq<nat>, errors: nat, a: nat)
    requires SortInv(g, path, stack, visited, ordered, errors) && a in stack
    ensures path != []
  {
  }

  lemma OneMoreError(g: Graph, path: seq<nat>, stack: set<nat>, visited: set<nat>, ordered: seq<nat>, errors: nat, a: nat)
    requires SortInv(g, path, stack, visited, ordered, errors) && a in stack && path != [] && Edge(g, path[|path| - 1], a)
    ensures SortInv(g, path, stack, visited, ordered, errors + 1)
  {
    FoundCycle(g, path, a);
  }

  /** A dependency on a module that is still being visited closes a cycle. */
  lemma FoundCycle(g: Graph, path: seq<nat>, a: nat)
    requires path != [] && Walk(g, path) && a in Elements(path) && Edge(g, path[|path| - 1], a)
    ensures Cyclic(g)
  {
    var i :| 0 <= i < |path| && path[i] == a;
    var w := path[i..] + [a];
    forall k | 0 <= k < |w| - 1
      ensures Edge(g, w[k], w[k + 1])
    {
      assert w[k] == path[i + k];
      if k < |w| - 2 {
        assert Edge(g, path[i + k], path[i + k + 1]);
      }
    }
    assert Walk(g, w);
  }
}
