/** Call-graph pruning: `remove_unused_functions`. */
module Pruning {
  import opened Words
  import opened Ir
  import opened IrObjects
  import opened WellFormed
  import opened Compaction
  import opened Relabeling

  predicate EndsWithMain(name: string) {
    |name| >= 4 && name[|name| - 4..] == "main"
  }

  predicate IsEntryRoot(f: Fn) {
    || f.isEntry
    || f.isExtern
    || f.syscallNumber >= 0
    || f.exportName != ""
    || f.importDll != ""
    || EndsWithMain(f.name)
  }

  /** Function `g` is called from a root through at most `k` calls. */
  ghost predicate ReachWithin(p: Program, k: nat, g: nat)
    decreases k
  {
    && g < |p.functions|
    && (IsEntryRoot(p.functions[g]) ||
        (k > 0 && exists f: nat :: ReachWithin(p, k - 1, f) && g in CallsOf(p.functions[f].body)))
  }

  ghost predicate Reachable(p: Program, g: nat) {
    exists k: nat :: ReachWithin(p, k, g)
  }

  lemma ReachableCall(p: Program, f: nat, g: nat)
    requires Reachable(p, f) && f < |p.functions| && g in CallsOf(p.functions[f].body) && g < |p.functions|
    ensures Reachable(p, g)
  {
    var k: nat :| ReachWithin(p, k, f);
    assert ReachWithin(p, k + 1, g);
  }

  lemma ReachableRoot(p: Program, g: nat)
    requires g < |p.functions| && IsEntryRoot(p.functions[g])
    ensures Reachable(p, g)
  {
    assert ReachWithin(p, 0, g);
  }

  lemma {:induction false} ReachedIsKept(p: Program, keep: seq<bool>, k: nat, g: nat)
    requires ReachWithin(p, k, g) && |keep| == |p.functions|
    requires forall i :: 0 <= i < |keep| && IsEntryRoot(p.functions[i]) ==> keep[i]
    requires forall i, c :: 0 <= i < |keep| && keep[i] && c in CallsOf(p.functions[i].body) && c < |keep| ==> keep[c]
    ensures keep[g]
    decreases k
  {
    if !IsEntryRoot(p.functions[g]) {
      var f: nat :| ReachWithin(p, k - 1, f) && g in CallsOf(p.functions[f].body);
      ReachedIsKept(p, keep, k - 1, f);
    }
  }

  // --- the same, spelled out ---

  /** Functions that stay whether they are called or not: entry and external
      functions, system calls, exported and imported ones, and those with a name
      that ends in `main`. */
  predicate MustStay(f: Fn) {
    || f.isEntry || f.isExtern || f.syscallNumber >= 0 || f.exportName != "" || f.importDll != ""
    || NamedMain(f.name)
  }

  /** The name ends in `main`. */
  predicate NamedMain(name: string) {
    |name| >= 4 && name[|name| - 4..] == "main"
  }

  lemma RootsStay(f: Fn)
    ensures IsEntryRoot(f) <==> MustStay(f)
  {
  }

  /** A chain of calls from a function that must stay. */
  ghost predicate CallChain(p: Program, path: seq<nat>) {
    && |path| > 0 && (forall i :: 0 <= i < |path| ==> path[i] < |p.functions|)
    && MustStay(p.functions[path[0]])
    && forall i :: 0 <= i < |path| - 1 ==> path[i + 1] in CallsOf(p.functions[path[i]].body)
  }

  ghost predicate CalledFromRoot(p: Program, g: nat) {
    exists path :: |path| > 0 && CallChain(p, path) && path[|path| - 1] == g
  }

  lemma {:induction false} ReachChain(p: Program, k: nat, g: nat) returns (path: seq<nat>)
    requires ReachWithin(p, k, g)
    ensures CallChain(p, path) && path[|path| - 1] == g
    decreases k
  {
    hide MustStay, IsEntryRoot;
    RootsStay(p.functions[g]);
    if IsEntryRoot(p.functions[g]) {
      path := [g];
    } else {
      var f: nat :| ReachWithin(p, k - 1, f) && g in CallsOf(p.functions[f].body);
      path := ReachChain(p, k - 1, f);
      path := path + [g];
    }
  }

  lemma {:induction false} ChainReaches(p: Program, path: seq<nat>)
    requires CallChain(p, path)
    ensures ReachWithin(p, |path| - 1, path[|path| - 1])
    decreases |path|
  {
    hide MustStay, IsEntryRoot;
    var last := |path| - 1;
    if last == 0 {
      RootsStay(p.functions[path[0]]);
    } else {
      ChainReaches(p, path[..last]);
      assert path[last] in CallsOf(p.functions[path[last - 1]].body);
    }
  }

  lemma ChainNotEmpty(p: Program, path: seq<nat>)
    requires CallChain(p, path)
    ensures |path| > 0
  {
  }

  lemma ReachableIs(p: Program, g: nat)
    ensures Reachable(p, g) <==> CalledFromRoot(p, g)
  {
    hide CallChain, ReachWithin;
    if Reachable(p, g) {
      var k: nat :| ReachWithin(p, k, g);
      var path := ReachChain(p, k, g);
      ChainNotEmpty(p, path);
    }
    if CalledFromRoot(p, g) {
      var path :| |path| > 0 && CallChain(p, path) && path[|path| - 1] == g;
      ChainReaches(p, path);
      var k: nat := |path| - 1;
      assert ReachWithin(p, k, g);
    }
  }

  /** Which functions no root reaches. */
  ghost function Unreached(p: Program): (dead: seq<bool>)
    ensures |dead| == |p.functions|
    ensures forall g :: 0 <= g < |dead| ==> (dead[g] <==> !Reachable(p, g))
  {
    seq(|p.functions|, g requires 0 <= g < |p.functions| => !Reachable(p, g))
  }

  /** The new numbers of the elements that are not dead. */
  function NewNumbers(dead: seq<bool>): (m: map<nat, nat>)
    ensures forall i :: i in m <==> 0 <= i < |dead| && !dead[i]
    ensures forall i :: i in m ==> m[i] == Pos(dead, i)
  {
    map i: nat | i < |dead| && !dead[i] :: Pos(dead, i)
  }

  function PruneMap(dead: seq<bool>): Remap {
    Remap(NewNumbers(dead), map[], map[])
  }

  /** Every function under its new number; the erased ones still present. */
  function Renumbered(fs: seq<Fn>, dead: seq<bool>): (out: seq<Fn>)
    requires |fs| == |dead|
    ensures |out| == |fs|
    ensures forall i :: 0 <= i < |fs| ==>
              out[i] == fs[i].(id := Pos(dead, i), body := RelabelBody(PruneMap(dead), fs[i].body))
  {
    seq(|fs|, i requires 0 <= i < |fs| =>
      fs[i].(id := Pos(dead, i), body := RelabelBody(PruneMap(dead), fs[i].body)))
  }

  /** The program with only the reachable functions, renumbered. */
  ghost function Pruned(p: Program): Program {
    var dead := Unreached(p);
    if true !in dead then p
    else p.(functions := Compact(Renumbered(p.functions, dead), dead))
  }

  /** Every function's id is its index. */
  predicate IdsAreIndices(p: Program) {
    forall k :: 0 <= k < |p.functions| ==> p.functions[k].id == k
  }

  /** Whenever a function is erased, all ids are indices afterwards; otherwise
      they stay as they were. */
  lemma PrunedIds(p: Program)
    ensures true in Unreached(p) || IdsAreIndices(p) ==> IdsAreIndices(Pruned(p))
  {
    hide Reachable, RelabelBody, Kept;
    var dead := Unreached(p);
    if true in dead {
      var fs := Renumbered(p.functions, dead);
      forall k | 0 <= k < |Pruned(p).functions|
        ensures Pruned(p).functions[k].id == k
      {
        var g := KeptOrigin(fs, dead, |fs|, k);
      }
    }
  }

  // --- pruning does not change runs ---

  ghost function ReachableSet(p: Program): (ks: set<nat>)
    ensures forall g: nat :: g in ks <==> g < |p.functions| && Reachable(p, g)
  {
    set g: nat | g < |p.functions| && Reachable(p, g)
  }

  lemma CompactRelabeled(p: Program)
    requires WfProgram(p)
    ensures true in Unreached(p) ==> Relabeled(p, Pruned(p), PruneMap(Unreached(p)), ReachableSet(p))
  {
    var dead := Unreached(p);
    var p' := Pruned(p);
    var ks := ReachableSet(p);
    if true in dead {
      var fs := Renumbered(p.functions, dead);
      forall g | g in ks
        ensures Ren(NewNumbers(dead), g) < |p'.functions|
        ensures SameFn(PruneMap(dead), p.functions[g], p'.functions[Ren(NewNumbers(dead), g)])
        ensures forall i :: 0 <= i < |p.functions[g].body| ==>
                  Agrees(p, p', PruneMap(dead), ks, p.functions[g].body[i])
      {
        CompactAt(fs, dead, g);
        forall i | 0 <= i < |p.functions[g].body|
          ensures Agrees(p, p', PruneMap(dead), ks, p.functions[g].body[i])
        {
          var inst := p.functions[g].body[i];
          assert IdsInRange(p, inst);
          if inst.Call? {
            assert inst.funcId in CallsOf(p.functions[g].body);
            ReachableCall(p, g, inst.funcId);
          }
        }
      }
    }
  }

  // --- the pass ---

  /** A worklist state: the marked functions are reachable, the roots are marked,
      and the calls of a marked function are marked unless it is waiting. */
  ghost predicate WorkInv(p: Program, keep: seq<bool>, work: seq<nat>) {
    && |keep| == |p.functions|
    && (forall i :: 0 <= i < |keep| && keep[i] ==> Reachable(p, i))
    && (forall i :: i in work ==> i < |keep| && keep[i])
    && (forall i :: 0 <= i < |keep| && IsEntryRoot(p.functions[i]) ==> keep[i])
    && (forall i, c :: 0 <= i < |keep| && keep[i] && i !in work && c in CallsOf(p.functions[i].body) && c < |keep| ==> keep[c])
  }

  function CountFalse(s: seq<bool>): nat {
    if |s| == 0 then 0 else CountFalse(s[..|s| - 1]) + (if s[|s| - 1] then 0 else 1)
  }

  lemma {:induction false} CountSet(s: seq<bool>, i: nat)
    requires i < |s| && !s[i]
    ensures CountFalse(s[i := true]) == CountFalse(s) - 1
  {
    var n := |s| - 1;
    if i < n {
      CountSet(s[..n], i);
      assert s[i := true][..n] == s[..n][i := true];
    } else {
      assert s[i := true][..n] == s[..n];
    }
  }

  /** The worklist loop: marks exactly the reachable functions. */
  method MarkReachable(p: Program) returns (keep: seq<bool>)
    ensures |keep| == |p.functions| && forall g :: 0 <= g < |keep| ==> (keep[g] <==> Reachable(p, g))
  {
    var size := |p.functions|;
    keep := seq(size, _ => false);
    var work: seq<nat> := [];
    for i := 0 to size
      invariant |keep| == size && |work| <= i
      invariant forall j :: 0 <= j < size ==> (keep[j] <==> j < i && IsEntryRoot(p.functions[j]))
      invariant forall j :: j in work <==> 0 <= j < i && IsEntryRoot(p.functions[j])
    {
      if IsEntryRoot(p.functions[i]) {
        keep := keep[i := true];
        work := work + [i];
      }
    }
    forall i | 0 <= i < size && keep[i]
      ensures Reachable(p, i)
    {
      ReachableRoot(p, i);
    }
    while work != []
      invariant WorkInv(p, keep, work)
      decreases CountFalse(keep), |work|
    {
      var index := work[|work| - 1];
      ghost var before := work;
      work := work[..|work| - 1];
      assert before == work + [index] && index in before;
      keep, work := MarkCalls(p, keep, work, index);
    }
    forall g | 0 <= g < size && Reachable(p, g)
      ensures keep[g]
    {
      var k: nat :| ReachWithin(p, k, g);
      ReachedIsKept(p, keep, k, g);
    }
  }

  /** The calls of `index`, all but the last `m` instructions of which are done. */
  ghost predicate CallsMarked(p: Program, keep: seq<bool>, index: nat, m: nat)
    requires index < |p.functions| == |keep| && m <= |p.functions[index].body|
  {
    forall j :: 0 <= j < m && p.functions[index].body[j].Call? && p.functions[index].body[j].funcId < |keep| ==>
      keep[p.functions[index].body[j].funcId]
  }

  method MarkCalls(p: Program, keep0: seq<bool>, work0: seq<nat>, index: nat) returns (keep: seq<bool>, work: seq<nat>)
    requires index < |p.functions| && WorkInv(p, keep0, work0 + [index])
    ensures WorkInv(p, keep, work)
    ensures CountFalse(keep) < CountFalse(keep0) || (keep == keep0 && work == work0)
  {
    keep, work := keep0, work0;
    var body := p.functions[index].body;
    assert index in work0 + [index];
    for m := 0 to |body|
      invariant WorkInv(p, keep, work + [index])
      invariant CallsMarked(p, keep, index, m)
      invariant CountFalse(keep) < CountFalse(keep0) || (keep == keep0 && work == work0)
    {
      if body[m].Call? && body[m].funcId < |keep| && !keep[body[m].funcId] {
        var c := body[m].funcId;
        assert c in CallsOf(body);
        ReachableCall(p, index, c);
        CountSet(keep, c);
        MarkOne(p, keep, work, index, c);
        keep, work := keep[c := true], work + [c];
      }
    }
    forall c | c in CallsOf(body) && c < |keep|
      ensures keep[c]
    {
      var j :| 0 <= j < |body| && body[j].Call? && body[j].funcId == c;
    }
    assert forall i :: i in work + [index] <==> i in work || i == index;
  }

  lemma MarkOne(p: Program, keep: seq<bool>, work: seq<nat>, index: nat, c: nat)
    requires WorkInv(p, keep, work + [index]) && c < |keep| && !keep[c] && Reachable(p, c)
    ensures WorkInv(p, keep[c := true], work + [c] + [index])
  {
    assert forall i :: i in work + [index] ==> i in work + [c] + [index];
    assert c in work + [c] + [index];
    assert forall i :: i in work + [c] + [index] ==> i in work + [index] || i == c;
  }

  /** Every call of one function gets the new number of its callee. */
  method RelabelCalls(fn: IrFunction, remap: seq<nat>, ghost m: Remap)
    requires m.strings == map[] && m.globals == map[]
    requires forall i :: 0 <= i < |fn.body| && fn.body[i].Call? ==>
               fn.body[i].funcId < |remap| && remap[fn.body[i].funcId] == Ren(m.fns, fn.body[i].funcId)
    modifies fn`body
    ensures fn.body == RelabelBody(m, old(fn.body))
  {
    var k := 0;
    while k < |fn.body|
      invariant k <= |fn.body| == |old(fn.body)|
      invariant forall i :: 0 <= i < k ==> fn.body[i] == RelabelInst(m, old(fn.body)[i])
      invariant forall i :: k <= i < |fn.body| ==> fn.body[i] == old(fn.body)[i]
    {
      if fn.body[k].Call? {
        fn.body := fn.body[k := fn.body[k].(funcId := remap[fn.body[k].funcId])];
      }
      k := k + 1;
    }
  }

  lemma KeptDistinct(fs: seq<IrFunction>, dead: seq<bool>)
    requires Distinct(fs) && |fs| == |dead|
    ensures Distinct(Compact(fs, dead))
    ensures forall k :: 0 <= k < |Compact(fs, dead)| ==> Compact(fs, dead)[k] in fs
  {
    var out := Compact(fs, dead);
    forall k | 0 <= k < |out|
      ensures out[k] in fs
    {
      var i := KeptOrigin(fs, dead, |fs|, k);
    }
    forall k, l | 0 <= k < l < |out|
      ensures out[k] != out[l]
    {
      var i := KeptOrigin(fs, dead, |fs|, k);
      var j := KeptOrigin(fs, dead, |fs|, l);
      if j <= i {
        PosMonotone(dead, j, i);
      }
    }
  }

  lemma KeptMembers(fs: seq<IrFunction>, dead: seq<bool>)
    requires Distinct(fs) && |fs| == |dead|
    ensures forall g :: 0 <= g < |fs| ==> (fs[g] in Compact(fs, dead) <==> !dead[g])
  {
    var out := Compact(fs, dead);
    forall g | 0 <= g < |fs|
      ensures fs[g] in out <==> !dead[g]
    {
      if !dead[g] {
        CompactAt(fs, dead, g);
      }
      if fs[g] in out {
        var k :| 0 <= k < |out| && out[k] == fs[g];
        var i := KeptOrigin(fs, dead, |fs|, k);
      }
    }
  }

  lemma {:induction false} KeptViews(fs: seq<IrFunction>, dead: seq<bool>, values: seq<Fn>, n: nat)
    requires n <= |fs| == |dead| == |values|
    requires forall i :: 0 <= i < |fs| && !dead[i] ==> fs[i].View() == values[i]
    ensures Views(Kept(fs, dead, n)) == Kept(values, dead, n)
  {
    if n > 0 {
      KeptViews(fs, dead, values, n - 1);
    }
  }

  /** The calls of a reachable function go to reachable functions. */
  lemma CallsKept(p: Program, dead: seq<bool>, g: nat, i: nat)
    requires WfProgram(p) && dead == Unreached(p) && g < |dead| && !dead[g]
    requires i < |p.functions[g].body| && p.functions[g].body[i].Call?
    ensures p.functions[g].body[i].funcId < |dead| && !dead[p.functions[g].body[i].funcId]
  {
    var c := p.functions[g].body[i].funcId;
    assert IdsInRange(p, p.functions[g].body[i]);
    assert c in CallsOf(p.functions[g].body);
    ReachableCall(p, g, c);
  }

  lemma CallsMapped(p: Program, dead: seq<bool>, g: nat, remap: seq<nat>)
    requires WfProgram(p) && dead == Unreached(p) && g < |dead| == |remap| && !dead[g]
    requires forall j :: 0 <= j < |dead| && !dead[j] ==> remap[j] == Pos(dead, j)
    ensures forall i :: 0 <= i < |p.functions[g].body| && p.functions[g].body[i].Call? ==>
              p.functions[g].body[i].funcId < |remap| &&
              remap[p.functions[g].body[i].funcId] == Ren(NewNumbers(dead), p.functions[g].body[i].funcId)
  {
    forall i | 0 <= i < |p.functions[g].body| && p.functions[g].body[i].Call?
      ensures p.functions[g].body[i].funcId < |dead| && !dead[p.functions[g].body[i].funcId]
    {
      CallsKept(p, dead, g, i);
    }
  }

  lemma PosInjective(dead: seq<bool>, j: nat)
    requires j < |dead| && !dead[j]
    ensures forall i :: 0 <= i < |dead| && !dead[i] && i != j ==> Pos(dead, i) != Pos(dead, j)
  {
    forall i | 0 <= i < |dead| && !dead[i] && i != j
      ensures Pos(dead, i) != Pos(dead, j)
    {
      if i < j {
        PosMonotone(dead, i, j);
      } else {
        PosMonotone(dead, j, i);
      }
    }
  }

  /** The third loop of the pass: every kept function gets its calls renumbered. */
  method RelabelKept(fs: seq<IrFunction>, functions: seq<IrFunction>, remap: seq<nat>,
                     ghost p: Program, ghost dead: seq<bool>)
    requires WfProgram(p) && dead == Unreached(p) && |fs| == |dead| == |remap|
    requires Distinct(fs) && functions == Kept(fs, dead, |fs|)
    requires forall j :: 0 <= j < |fs| && !dead[j] ==>
               remap[j] == Pos(dead, j) && fs[j].View() == p.functions[j].(id := Pos(dead, j))
    modifies fs
    ensures Views(functions) == Compact(Renumbered(p.functions, dead), dead)
  {
    hide WfProgram, Reachable, Pos, Kept, Distinct, RelabelBody;
    ghost var values := Renumbered(p.functions, dead);
    var k := 0;
    while k < |functions|
      invariant k <= |functions|
      invariant forall j :: 0 <= j < |fs| && !dead[j] ==>
                  fs[j].View() == if Pos(dead, j) < k then values[j] else p.functions[j].(id := Pos(dead, j))
    {
      ghost var j := KeptOrigin(fs, dead, |fs|, k);
      CallsMapped(p, dead, j, remap);
      RelabelCalls(functions[k], remap, PruneMap(dead));
      PosInjective(dead, j);
      k := k + 1;
    }
    forall j | 0 <= j < |fs| && !dead[j]
      ensures fs[j].View() == values[j]
    {
      CompactAt(fs, dead, j);
    }
    KeptViews(fs, dead, values, |fs|);
  }

  /** The kept functions, renumbered. */
  method KeepOnly(fs: seq<IrFunction>, keep: seq<bool>, ghost p0: Program) returns (functions: seq<IrFunction>)
    requires Distinct(fs) && WfProgram(p0) && Views(fs) == p0.functions
    requires |keep| == |fs| && forall g :: 0 <= g < |keep| ==> keep[g] == !Unreached(p0)[g]
    modifies fs
    ensures Distinct(functions) && forall k :: 0 <= k < |functions| ==> functions[k] in fs
    ensures Views(functions) == Compact(Renumbered(p0.functions, Unreached(p0)), Unreached(p0))
    ensures forall g :: 0 <= g < |fs| ==> (fs[g] in functions <==> keep[g])
  {
    hide WfProgram, Reachable, Renumbered;
    KeptDistinct(fs, Unreached(p0));
    KeptMembers(fs, Unreached(p0));
    var remap;
    functions, remap := NumberKept(fs, keep, p0.functions, Unreached(p0));
    RelabelKept(fs, functions, remap, p0, Unreached(p0));
  }

  lemma AllKept(keep: seq<bool>)
    requires false !in keep
    ensures forall g :: 0 <= g < |keep| ==> keep[g]
  {
    forall g | 0 <= g < |keep|
      ensures keep[g]
    {
      assert keep[g] in keep;
    }
  }

  lemma MarkedStay(p: Program, keep: seq<bool>)
    requires |keep| == |p.functions| && forall g :: 0 <= g < |keep| ==> (keep[g] <==> Reachable(p, g))
    ensures forall g :: 0 <= g < |keep| ==> (keep[g] <==> CalledFromRoot(p, g))
  {
    hide Reachable, CalledFromRoot;
    forall g | 0 <= g < |keep|
      ensures keep[g] <==> CalledFromRoot(p, g)
    {
      ReachableIs(p, g);
    }
  }

  /** `remove_unused_functions`. */
  method RemoveUnusedFunctions(p: IrProgram)
    requires Distinct(p.functions) && WfProgram(p.View())
    modifies p`functions, p.functions
    ensures Distinct(p.functions)
    ensures forall k :: 0 <= k < |p.functions| ==> p.functions[k] in old(p.functions)
    ensures p.View() == Pruned(old(p.View()))
    ensures |p.functions| < |old(p.functions)| || IdsAreIndices(old(p.View())) ==> IdsAreIndices(p.View())
    ensures forall g :: 0 <= g < |old(p.functions)| ==>
              (old(p.functions)[g] in p.functions <==> CalledFromRoot(old(p.View()), g))
  {
    hide WfProgram, Pruned, Reachable, Renumbered, Compact, Unreached, CalledFromRoot;
    ghost var p0 := p.View();
    ghost var fs := p.functions;
    var keep := MarkReachable(p.View());
    PrunedIs(p0, keep);
    PrunedIds(p0);
    MarkedStay(p0, keep);
    if false in keep {
      var k :| 0 <= k < |keep| && !keep[k];
      assert Unreached(p0)[k];
      var functions := KeepOnly(p.functions, keep, p0);
      p.functions := functions;
    } else {
      AllKept(keep);
    }
  }

  method SetId(fn: IrFunction, id: nat)
    modifies fn`id
    ensures fn.View() == old(fn.View()).(id := id)
  {
    fn.id := id;
  }

  lemma PrunedIs(p: Program, keep: seq<bool>)
    requires |keep| == |p.functions| && forall g :: 0 <= g < |keep| ==> (keep[g] <==> Reachable(p, g))
    ensures |Unreached(p)| == |keep| && forall g :: 0 <= g < |keep| ==> keep[g] == !Unreached(p)[g]
    ensures Pruned(p) == if false !in keep then p
                         else p.(functions := Compact(Renumbered(p.functions, Unreached(p)), Unreached(p)))
  {
    hide Reachable, Renumbered, Kept;
    var dead := Unreached(p);
    if false in keep {
      var g :| 0 <= g < |keep| && !keep[g];
      assert dead[g];
    } else {
      forall g | 0 <= g < |dead|
        ensures !dead[g]
      {
        assert keep[g] in keep;
      }
    }
  }

  /** The second loop of the pass: kept functions move together and get their new ids. */
  method NumberKept(fs: seq<IrFunction>, keep: seq<bool>, ghost was: seq<Fn>, ghost dead: seq<bool>)
    returns (functions: seq<IrFunction>, remap: seq<nat>)
    requires Distinct(fs) && was == Views(fs)
    requires |keep| == |dead| == |fs| && forall g :: 0 <= g < |keep| ==> keep[g] == !dead[g]
    modifies fs
    ensures functions == Kept(fs, dead, |fs|) && |remap| == |fs|
    ensures forall j :: 0 <= j < |dead| && !dead[j] ==> remap[j] == Pos(dead, j)
    ensures forall j :: 0 <= j < |dead| && !dead[j] ==> fs[j].View() == was[j].(id := Pos(dead, j))
  {
    hide Kept, Pos;
    remap := seq(|fs|, _ => 0);
    functions := [];
    var i := 0;
    KeptNone(fs, dead);
    while i < |fs|
      invariant i <= |fs| == |remap|
      invariant functions == Kept(fs, dead, i)
      invariant forall j :: 0 <= j < i && keep[j] ==> remap[j] == Pos(dead, j)
      invariant forall j :: 0 <= j < |fs| ==>
                  fs[j].View() == if j < i && keep[j] then was[j].(id := Pos(dead, j)) else was[j]
    {
      KeptNext(fs, dead, i);
      if keep[i] {
        remap := remap[i := |functions|];
        functions := functions + [fs[i]];
        SetId(fs[i], remap[i]);
      }
      i := i + 1;
    }
  }
}
