/** The optimizer as a whole: `optimize`. */
module Optimizer {
  import opened Words
  import opened Ir
  import opened IrObjects
  import opened Semantics
  import opened WellFormed
  import opened Compaction
  import opened Simulation
  import opened Rewriting
  import opened Refinement
  import opened Relabeling
  import opened FoldPass
  import opened DeadInstPass
  import opened DeadStorePass
  import opened Pruning
  import opened Tables
  import opened LabelPass

  datatype OptLevel = O0 | O1 | O2 | O3

  /** The passes switched off by the QUANT_SKIP environment variable. */
  datatype Skips = Skips(fold: bool, dead: bool, dse: bool, prune: bool)

  // --- renumbered programs stay well formed ---

  lemma {:induction false} FlowRelabel(m: Remap, body: seq<Inst>, pc: nat)
    requires pc <= |body|
    ensures Flow(RelabelBody(m, body), pc) == Flow(body, pc)
  {
    if pc > 0 {
      RelabelShape(m, body[pc - 1]);
      FlowRelabel(m, body, pc - 1);
    }
  }

  lemma {:induction false} LabelsRelabel(m: Remap, body: seq<Inst>, n: nat)
    requires n <= |body|
    ensures LabelCount(RelabelBody(m, body), n) == LabelCount(body, n)
  {
    if n > 0 {
      LabelsRelabel(m, body, n - 1);
    }
  }

  lemma RelabelInstKind(m: Remap, inst: Inst)
    ensures Def(RelabelInst(m, inst)) == Def(inst) && Uses(RelabelInst(m, inst)) == Uses(inst)
    ensures IsTerminator(RelabelInst(m, inst)) == IsTerminator(inst)
    ensures inst.LabelMark? || RelabelInst(m, inst).LabelMark? ==> RelabelInst(m, inst) == inst
    ensures inst.AddrOf? || RelabelInst(m, inst).AddrOf? ==> RelabelInst(m, inst) == inst
  {
  }

  lemma WfRelabel(m: Remap, f: Fn)
    requires WfFn(f)
    ensures WfFn(f.(body := RelabelBody(m, f.body)))
    ensures AddrTaken(RelabelBody(m, f.body)) == AddrTaken(f.body)
  {
    hide RelabelInst;
    var body := f.body;
    var body' := RelabelBody(m, body);
    forall i | 0 <= i < |body|
      ensures Def(body'[i]) == Def(body[i]) && Uses(body'[i]) == Uses(body[i])
      ensures IsTerminator(body'[i]) == IsTerminator(body[i])
      ensures body[i].LabelMark? || body'[i].LabelMark? ==> body'[i] == body[i]
      ensures body[i].AddrOf? || body'[i].AddrOf? ==> body'[i] == body[i]
    {
      RelabelInstKind(m, body[i]);
    }
    forall i | 0 <= i <= |body|
      ensures Flow(body', i) == Flow(body, i)
    {
      FlowRelabel(m, body, i);
    }
    LabelsRelabel(m, body, |body|);
  }

  lemma WfPruned(p: Program)
    requires WfProgram(p)
    ensures WfProgram(Pruned(p))
  {
    hide WfFn, Pruned, Unreached;
    var p' := Pruned(p);
    if true in Unreached(p) {
      forall k: nat | k < |p'.functions|
        ensures WfFn(p'.functions[k])
        ensures forall i :: 0 <= i < |p'.functions[k].body| ==> IdsInRange(p', p'.functions[k].body[i])
      {
        WfPrunedAt(p, k);
      }
    } else {
      PrunedSame(p);
    }
  }

  lemma PrunedSame(p: Program)
    requires true !in Unreached(p)
    ensures Pruned(p) == p
  {
  }

  lemma WfPrunedAt(p: Program, k: nat)
    requires WfProgram(p) && true in Unreached(p) && k < |Pruned(p).functions|
    ensures WfFn(Pruned(p).functions[k])
    ensures forall i :: 0 <= i < |Pruned(p).functions[k].body| ==> IdsInRange(Pruned(p), Pruned(p).functions[k].body[i])
  {
    hide WfFn, WfProgram, Relabeled, Reachable, IdsInRange, Kept;
    var dead := Unreached(p);
    CompactRelabeled(p);
    var g := KeptOrigin(Renumbered(p.functions, dead), dead, |p.functions|, k);
    WfRenumbered(p, Pruned(p), PruneMap(dead), ReachableSet(p), g, k);
  }

  /** A renumbered function is well formed, with its new ids in range. */
  lemma WfRenumbered(p: Program, p': Program, m: Remap, ks: set<nat>, g: nat, k: nat)
    requires WfProgram(p) && Relabeled(p, p', m, ks) && g in ks && k == Ren(m.fns, g)
    ensures k < |p'.functions| && WfFn(p'.functions[k])
    ensures AddrTaken(p'.functions[k].body) == AddrTaken(p.functions[g].body)
    ensures forall i :: 0 <= i < |p'.functions[k].body| ==> IdsInRange(p', p'.functions[k].body[i])
  {
    var f := p.functions[g];
    WfRelabel(m, f);
    WfFnOfBody(f.(body := RelabelBody(m, f.body)), p'.functions[k]);
    forall i | 0 <= i < |f.body|
      ensures IdsInRange(p', RelabelInst(m, f.body[i]))
    {
      assert Agrees(p, p', m, ks, f.body[i]);
    }
  }

  lemma WfFnOfBody(f: Fn, f': Fn)
    requires WfFn(f) && f'.body == f.body
    ensures WfFn(f')
  {
  }

  // --- what the optimizer promises ---

  ghost predicate SameIdentity(f: Fn, f': Fn) {
    f' == f.(id := f'.id, body := f'.body)
  }

  /** Every run of a kept function that does not trap is the same run of its
      counterpart: same effects in the same order, same result. */
  ghost predicate RunsKept(p: Program, p': Program, m: map<nat, nat>) {
    forall env: Env, g: nat, args: seq<Word>, h: History, n: nat {:trigger g in m, RunFn(env, p, g, args, h, n)} ::
      g in m && EnvFits(env, p', AllFns(p')) && RunFn(env, p, g, args, h, n) != Stuck ==>
        RunFn(env, p', m[g], args, h, n) == RunFn(env, p, g, args, h, n)
  }

  /** `m` gives the new number of every kept function. */
  ghost predicate Optimized(p: Program, p': Program, m: map<nat, nat>) {
    && (forall g :: g in m ==> g < |p.functions| && m[g] < |p'.functions|
                               && SameIdentity(p.functions[g], p'.functions[m[g]]))
    && (forall g: nat :: g < |p.functions| && MustStay(p.functions[g]) ==> g in m)
    && (forall g, g' :: g in m && g' in m && g < g' ==> m[g] < m[g'])
    && (forall k: nat :: k < |p'.functions| ==> k in m.Values)
    && RunsKept(p, p', m)
  }

  // --- which functions are kept ---

  /** The rounds change no call. */
  lemma ChainsSame(p: Program, p': Program, path: seq<nat>)
    requires Refines(p, p') && |p.functions| == |p'.functions|
    ensures CallChain(p, path) <==> CallChain(p', path)
  {
    hide RunsRefine;
    forall g | 0 <= g < |p.functions|
      ensures CallsOf(p'.functions[g].body) == CallsOf(p.functions[g].body)
      ensures MustStay(p'.functions[g]) == MustStay(p.functions[g])
    {
      assert SameShell(p.functions[g], p'.functions[g]);
    }
  }

  /** Exactly the functions that calls reach from one that must stay, or all. */
  ghost predicate KeptNumbers(p: Program, m: map<nat, nat>, pruned: bool) {
    forall g: nat :: g in m <==> g < |p.functions| && (pruned ==> CalledFromRoot(p, g))
  }

  lemma PrunedNumbers(p: Program, p1: Program)
    requires Refines(p, p1)
    ensures KeptNumbers(p, PruneNumbers(p1), true)
  {
    hide Refines, CallChain, Reachable;
    RefinesSize(p, p1);
    forall g: nat | g < |p.functions|
      ensures Reachable(p1, g) <==> CalledFromRoot(p, g)
    {
      ReachableIs(p1, g);
      forall path
        ensures CallChain(p, path) <==> CallChain(p1, path)
      {
        ChainsSame(p, p1, path);
      }
    }
    var dead := Unreached(p1);
    if true !in dead {
      forall g: nat | g < |dead|
        ensures Reachable(p1, g)
      {
        assert dead[g] in dead;
      }
    }
  }

  lemma AllNumbers(p: Program)
    ensures KeptNumbers(p, Identity(|p.functions|), false)
  {
  }

  function Itself(g: nat): nat {
    g
  }

  function Identity(n: nat): (m: map<nat, nat>)
    ensures forall g: nat :: g in m <==> g < n
    ensures forall g :: g in m ==> m[g] == g
  {
    map g: nat | g < n :: Itself(g)
  }

  /** The numbering after pruning. */
  ghost function PruneNumbers(p: Program): map<nat, nat> {
    if true !in Unreached(p) then Identity(|p.functions|) else NewNumbers(Unreached(p))
  }

  lemma ClosedAll(p: Program)
    requires WfProgram(p)
    ensures Closed(p, AllFns(p))
  {
    hide WfFn;
    forall g, c | g in AllFns(p) && c in CallsOf(p.functions[g].body)
      ensures c in AllFns(p)
    {
      var i :| 0 <= i < |p.functions[g].body| && p.functions[g].body[i].Call? && p.functions[g].body[i].funcId == c;
      assert IdsInRange(p, p.functions[g].body[i]);
    }
  }

  lemma ClosedReachable(p: Program)
    requires WfProgram(p)
    ensures Closed(p, ReachableSet(p))
  {
    hide WfFn;
    forall g, c | g in ReachableSet(p) && c in CallsOf(p.functions[g].body)
      ensures c in ReachableSet(p)
    {
      var i :| 0 <= i < |p.functions[g].body| && p.functions[g].body[i].Call? && p.functions[g].body[i].funcId == c;
      assert IdsInRange(p, p.functions[g].body[i]);
      ReachableCall(p, g, c);
    }
  }

  lemma ClosedBefore(p: Program, p': Program, ks: set<nat>)
    requires Refines(p, p') && Closed(p', ks)
    ensures Closed(p, ks)
  {
    assert forall g :: g in ks ==> SameShell(p.functions[g], p'.functions[g]);
  }

  lemma RefinesSize(p: Program, p': Program)
    requires Refines(p, p')
    ensures |p'.functions| == |p.functions|
  {
  }

  /** The rounds alone. */
  lemma RoundsKeep(p: Program, p': Program)
    requires Refines(p, p') && WfProgram(p')
    ensures Optimized(p, p', Identity(|p.functions|))
  {
    hide WfFn;
    var m := Identity(|p.functions|);
    ClosedAll(p');
    ClosedBefore(p, p', AllFns(p'));
    forall env: Env, g: nat, args: seq<Word>, h: History, n: nat
      | g in m && EnvFits(env, p', AllFns(p')) && RunFn(env, p, g, args, h, n) != Stuck
      ensures RunFn(env, p', m[g], args, h, n) == RunFn(env, p, g, args, h, n)
    {
      assert Closed(p, AllFns(p'));
      assert g in AllFns(p');
    }
    forall g | 0 <= g < |p.functions|
      ensures SameIdentity(p.functions[g], p'.functions[g])
    {
      assert SameShell(p.functions[g], p'.functions[g]);
    }
    forall k: nat | k < |p'.functions|
      ensures k in m.Values
    {
      assert k in m && m[k] == k;
    }
  }

  /** Rounds followed by pruning. */
  lemma PruneKeeps(p: Program, p1: Program)
    requires Refines(p, p1) && WfProgram(p1)
    ensures Optimized(p, Pruned(p1), PruneNumbers(p1))
  {
    hide WfProgram, Reachable, Refines, RunsKept, SameIdentity, Compact, Renumbered;
    var dead := Unreached(p1);
    if true !in dead {
      assert Pruned(p1) == p1;
      assert |p1.functions| == |p.functions| by { RefinesSize(p, p1); }
      RoundsKeep(p, p1);
    } else {
      PrunedShape(p, p1);
      PrunedRuns(p, p1);
    }
  }

  lemma PrunedShape(p: Program, p1: Program)
    requires Refines(p, p1) && true in Unreached(p1)
    ensures var m, p' := NewNumbers(Unreached(p1)), Pruned(p1);
      && (forall g :: g in m ==> g < |p.functions| && m[g] < |p'.functions|
                                 && SameIdentity(p.functions[g], p'.functions[m[g]]))
      && (forall g: nat :: g < |p.functions| && MustStay(p.functions[g]) ==> g in m)
      && (forall g, g' :: g in m && g' in m && g < g' ==> m[g] < m[g'])
      && (forall k: nat :: k < |p'.functions| ==> k in m.Values)
  {
    hide Reachable, RunsRefine, Kept, Pos, RelabelBody;
    var dead := Unreached(p1);
    var m := NewNumbers(dead);
    var p' := Pruned(p1);
    var fs := Renumbered(p1.functions, dead);
    forall g | g in m
      ensures m[g] < |p'.functions| && SameIdentity(p.functions[g], p'.functions[m[g]])
    {
      CompactAt(fs, dead, g);
      assert SameShell(p.functions[g], p1.functions[g]);
    }
    forall g: nat | g < |p.functions| && MustStay(p.functions[g])
      ensures g in m
    {
      assert SameShell(p.functions[g], p1.functions[g]);
      RootsStay(p1.functions[g]);
      ReachableRoot(p1, g);
    }
    forall g, g' | g in m && g' in m && g < g'
      ensures m[g] < m[g']
    {
      PosMonotone(dead, g, g');
    }
    forall k: nat | k < |p'.functions|
      ensures k in m.Values
    {
      var g := KeptOrigin(fs, dead, |fs|, k);
      assert g in m && m[g] == k;
    }
  }

  lemma PrunedRuns(p: Program, p1: Program)
    requires Refines(p, p1) && WfProgram(p1) && true in Unreached(p1)
    ensures RunsKept(p, Pruned(p1), NewNumbers(Unreached(p1)))
  {
    hide WfFn, Reachable;
    var dead := Unreached(p1);
    var m := NewNumbers(dead);
    var p' := Pruned(p1);
    var ks := ReachableSet(p1);
    ClosedReachable(p1);
    ClosedBefore(p, p1, ks);
    CompactRelabeled(p1);
    forall env: Env, g: nat, args: seq<Word>, h: History, n: nat
      | g in m && EnvFits(env, p', AllFns(p')) && RunFn(env, p, g, args, h, n) != Stuck
      ensures RunFn(env, p', m[g], args, h, n) == RunFn(env, p, g, args, h, n)
    {
      EnvBefore(env, p1, p', PruneMap(dead), ks);
      assert g in ks && RunFn(env, p1, g, args, h, n) == RunFn(env, p, g, args, h, n);
      RunRelabel(env, p1, p', PruneMap(dead), ks, g, args, h, n);
    }
  }

  lemma EnvBefore(env: Env, p: Program, p': Program, m: Remap, ks: set<nat>)
    requires WfProgram(p) && Relabeled(p, p', m, ks) && EnvFits(env, p', AllFns(p'))
    ensures EnvFits(env, p, ks)
  {
    hide WfProgram;
    forall g, l | g in ks && InMemory(env, p.functions[g].name, l)
      ensures l in AddrTaken(p.functions[g].body)
    {
      WfRenumbered(p, p', m, ks, g, Ren(m.fns, g));
      assert Ren(m.fns, g) in AllFns(p') && SameFn(m, p.functions[g], p'.functions[Ren(m.fns, g)]);
    }
  }

  // --- steps that keep the function numbers ---

  ghost predicate SameNumbers(p: Program, p': Program) {
    && |p.functions| == |p'.functions|
    && (forall g :: 0 <= g < |p.functions| ==>
          SameIdentity(p.functions[g], p'.functions[g]) &&
          AddrTaken(p'.functions[g].body) <= AddrTaken(p.functions[g].body))
    && RunsKept(p, p', Identity(|p.functions|))
  }

  lemma RunsKeptAt(p: Program, p': Program, m: map<nat, nat>, env: Env, g: nat, args: seq<Word>, h: History, n: nat)
    requires RunsKept(p, p', m) && g in m && EnvFits(env, p', AllFns(p')) && RunFn(env, p, g, args, h, n) != Stuck
    ensures RunFn(env, p', m[g], args, h, n) == RunFn(env, p, g, args, h, n)
  {
  }

  lemma ThenSame(p: Program, p': Program, p'': Program, m: map<nat, nat>)
    requires Optimized(p, p', m) && SameNumbers(p', p'')
    ensures Optimized(p, p'', m)
  {
    hide RunsKept, RunFn;
    SameKept(p, p', p'', m);
    forall g | g in m
      ensures SameIdentity(p.functions[g], p''.functions[m[g]])
    {
      assert SameIdentity(p.functions[g], p'.functions[m[g]]) && SameIdentity(p'.functions[m[g]], p''.functions[m[g]]);
    }
  }

  lemma SameKept(p: Program, p': Program, p'': Program, m: map<nat, nat>)
    requires Optimized(p, p', m) && SameNumbers(p', p'')
    ensures RunsKept(p, p'', m)
  {
    hide RunFn, SameIdentity;
    var id := Identity(|p'.functions|);
    forall env: Env, g: nat, args: seq<Word>, h: History, n: nat
      | g in m && EnvFits(env, p'', AllFns(p'')) && RunFn(env, p, g, args, h, n) != Stuck
      ensures RunFn(env, p'', m[g], args, h, n) == RunFn(env, p, g, args, h, n)
    {
      EnvShrinks(env, p', p'');
      RunsKeptAt(p, p', m, env, g, args, h, n);
      RunsKeptAt(p', p'', id, env, m[g], args, h, n);
    }
  }

  lemma EnvShrinks(env: Env, p: Program, p': Program)
    requires |p.functions| == |p'.functions| && EnvFits(env, p', AllFns(p'))
    requires forall g :: 0 <= g < |p.functions| ==>
               SameIdentity(p.functions[g], p'.functions[g]) &&
               AddrTaken(p'.functions[g].body) <= AddrTaken(p.functions[g].body)
    ensures EnvFits(env, p, AllFns(p))
  {
    forall g, l | g in AllFns(p) && InMemory(env, p.functions[g].name, l)
      ensures l in AddrTaken(p.functions[g].body)
    {
      assert g in AllFns(p') && SameIdentity(p.functions[g], p'.functions[g]);
    }
  }

  lemma TableSame(p: Program, p': Program, m: Remap)
    requires WfProgram(p) && Relabeled(p, p', m, AllFns(p)) && m.fns == map[]
    requires p'.functions == RelabelAll(m, p.functions)
    ensures SameNumbers(p, p') && WfProgram(p')
  {
    hide WfFn, Relabeled, RelabelBody;
    forall g | 0 <= g < |p.functions|
      ensures SameIdentity(p.functions[g], p'.functions[g])
      ensures AddrTaken(p'.functions[g].body) == AddrTaken(p.functions[g].body)
      ensures WfFn(p'.functions[g])
      ensures forall i :: 0 <= i < |p'.functions[g].body| ==> IdsInRange(p', p'.functions[g].body[i])
    {
      WfRenumbered(p, p', m, AllFns(p), g, g);
    }
    forall env: Env, g: nat, args: seq<Word>, h: History, n: nat
      | g in Identity(|p.functions|) && EnvFits(env, p', AllFns(p')) && RunFn(env, p, g, args, h, n) != Stuck
      ensures RunFn(env, p', g, args, h, n) == RunFn(env, p, g, args, h, n)
    {
      RunRelabel(env, p, p', m, AllFns(p), g, args, h, n);
    }
  }

  lemma StringsSame(p: Program)
    requires WfProgram(p)
    ensures SameNumbers(p, StringsCompacted(p)) && WfProgram(StringsCompacted(p))
  {
    hide WfProgram, Relabeled, Mentioned;
    StringsAgree(p);
    var dead := Unmentioned(p, |p.strings|, true);
    if true in dead {
      TableSame(p, StringsCompacted(p), TableMap(dead, true));
    }
  }

  lemma GlobalsSame(p: Program)
    requires WfProgram(p)
    ensures SameNumbers(p, GlobalsCompacted(p)) && WfProgram(GlobalsCompacted(p))
  {
    hide WfProgram, Relabeled, Mentioned;
    GlobalsAgree(p);
    var dead := Unmentioned(p, |p.globals|, false);
    if true in dead {
      TableSame(p, GlobalsCompacted(p), TableMap(dead, false));
    }
  }

  lemma LabelsSame(p: Program)
    requires WfProgram(p)
    ensures SameNumbers(p, LabelsCompacted(p))
  {
    hide WfProgram, WithoutLabels;
    LabelsRefine(p);
    var p' := LabelsCompacted(p);
    ClosedAll(p);
    forall g | 0 <= g < |p.functions|
      ensures SameIdentity(p.functions[g], p'.functions[g])
      ensures AddrTaken(p'.functions[g].body) <= AddrTaken(p.functions[g].body)
    {
      assert SameShell(p.functions[g], p'.functions[g]);
    }
    forall env: Env, g: nat, args: seq<Word>, h: History, n: nat
      | g in Identity(|p.functions|) && EnvFits(env, p', AllFns(p')) && RunFn(env, p, g, args, h, n) != Stuck
      ensures RunFn(env, p', g, args, h, n) == RunFn(env, p, g, args, h, n)
    {
      assert AllFns(p') == AllFns(p);
      assert g in AllFns(p) && Closed(p, AllFns(p));
    }
  }

  // --- the entry point ---

  /** `find_entry`: the first entry function, or else the last one named like `main`. */
  function FindEntry(fs: seq<Fn>, from: nat, fallback: Option<nat>): (r: Option<nat>)
    requires from <= |fs|
    decreases |fs| - from
  {
    if from == |fs| then fallback
    else if fs[from].isEntry then Some(from)
    else FindEntry(fs, from + 1, if EndsWithMain(fs[from].name) then Some(from) else fallback)
  }

  /** What `FindEntry` means. */
  ghost predicate IsEntryPoint(fs: seq<Fn>, e: nat) {
    && e < |fs|
    && (if fs[e].isEntry then forall i :: 0 <= i < e ==> !fs[i].isEntry
        else NamedMain(fs[e].name) && (forall i :: 0 <= i < |fs| ==> !fs[i].isEntry)
             && forall i :: e < i < |fs| ==> !NamedMain(fs[i].name))
  }

  lemma {:induction false} FindEntryMeaning(fs: seq<Fn>, from: nat, fallback: Option<nat>)
    requires from <= |fs|
    requires forall i :: 0 <= i < from ==> !fs[i].isEntry
    requires fallback.Some? ==> fallback.value < from && NamedMain(fs[fallback.value].name)
                                && forall i :: fallback.value < i < from ==> !NamedMain(fs[i].name)
    requires fallback.None? ==> forall i :: 0 <= i < from ==> !NamedMain(fs[i].name)
    ensures FindEntry(fs, from, fallback).Some? ==> IsEntryPoint(fs, FindEntry(fs, from, fallback).value)
    ensures FindEntry(fs, from, fallback).None? ==>
              forall i :: 0 <= i < |fs| ==> !fs[i].isEntry && !NamedMain(fs[i].name)
    decreases |fs| - from
  {
    if from < |fs| && !fs[from].isEntry {
      FindEntryMeaning(fs, from + 1, if EndsWithMain(fs[from].name) then Some(from) else fallback);
    }
  }

  lemma EntryPointUnique(fs: seq<Fn>, e: nat, e': nat)
    requires IsEntryPoint(fs, e) && IsEntryPoint(fs, e')
    ensures e == e'
  {
  }

  /** The back end starts the same function before and after optimization. */
  lemma SameEntry(p: Program, p': Program, m: map<nat, nat>)
    requires Optimized(p, p', m)
    ensures FindEntry(p.functions, 0, None).Some? ==>
              FindEntry(p.functions, 0, None).value in m
              && FindEntry(p'.functions, 0, None) == Some(m[FindEntry(p.functions, 0, None).value])
    ensures FindEntry(p.functions, 0, None).None? ==> FindEntry(p'.functions, 0, None).None?
  {
    hide RunsKept;
    FindEntryMeaning(p.functions, 0, None);
    FindEntryMeaning(p'.functions, 0, None);
    forall k: nat | k < |p'.functions|
      ensures exists g :: g in m && m[g] == k && SameIdentity(p.functions[g], p'.functions[k])
    {
      assert k in m.Values;
      var g :| g in m && m[g] == k;
      assert SameIdentity(p.functions[g], p'.functions[m[g]]);
    }
    if FindEntry(p.functions, 0, None).Some? {
      var e := FindEntry(p.functions, 0, None).value;
      assert e in m && SameIdentity(p.functions[e], p'.functions[m[e]]);
      EntryMoves(p, p', m, e);
      EntryPointUnique(p'.functions, m[e], FindEntry(p'.functions, 0, None).value);
    }
  }

  lemma EntryMoves(p: Program, p': Program, m: map<nat, nat>, e: nat)
    requires Optimized(p, p', m) && IsEntryPoint(p.functions, e) && e in m
    ensures IsEntryPoint(p'.functions, m[e])
  {
    hide RunsKept;
    assert SameIdentity(p.functions[e], p'.functions[m[e]]);
    forall k: nat | k < |p'.functions|
      ensures p.functions[e].isEntry && k < m[e] ==> !p'.functions[k].isEntry
      ensures !p.functions[e].isEntry ==> !p'.functions[k].isEntry
      ensures !p.functions[e].isEntry && m[e] < k ==> !NamedMain(p'.functions[k].name)
    {
      assert k in m.Values;
      var g :| g in m && m[g] == k;
      assert SameIdentity(p.functions[g], p'.functions[m[g]]);
      assert (g < e ==> m[g] < m[e]) && (e < g ==> m[e] < m[g]);
    }
  }

  // --- the passes, function by function ---

  /** The program so far refines the one the optimizer was given. */
  ghost predicate OnTrack(p0: Program, p: Program) {
    WfProgram(p) && Refines(p0, p)
  }

  lemma StayOnTrack(p0: Program, before: Program, k: nat, f': Fn)
    requires OnTrack(p0, before) && k < |before.functions| && FnStep(before.functions[k], f')
    ensures OnTrack(p0, before.(functions := before.functions[k := f']))
  {
    hide WfProgram, Refines, FnStep;
    PassRefines(before, k, f');
    RefinesTrans(p0, before, before.(functions := before.functions[k := f']));
  }

  lemma OnTrackFn(p0: Program, p: Program, k: nat)
    requires OnTrack(p0, p) && k < |p.functions|
    ensures WfFn(p.functions[k])
  {
  }

  // What one pass leaves behind, next to refining the function it was given.

  ghost predicate Folded(f: Fn, f': Fn) {
    FnStep(f, f') && Unfoldable(f'.body, ConstantsOf(f.body, |f.body|))
  }

  ghost predicate DeadRemoved(f: Fn, f': Fn) {
    FnStep(f, f') && AllNeeded(f'.body, f'.tempCount)
  }

  ghost predicate StoresRemoved(f: Fn, f': Fn) {
    FnStep(f, f') && f' == f.(body := Compact(f.body, DeadStores(f.body, f.localCount)))
  }

  // A pass that is switched off does nothing.

  ghost predicate FoldTurn(f: Fn, f': Fn, skip: Skips) {
    if skip.fold then f' == f else Folded(f, f')
  }

  ghost predicate DeadTurn(f: Fn, f': Fn, skip: Skips) {
    if skip.dead then f' == f else DeadRemoved(f, f')
  }

  ghost predicate StoreTurn(f: Fn, f': Fn, skip: Skips) {
    if skip.dse then f' == f else StoresRemoved(f, f')
  }

  /** The four passes of a round over one function. */
  ghost predicate RoundDone(f: Fn, f': Fn, skip: Skips) {
    exists a, b, c ::
      FoldTurn(f, a, skip) && DeadTurn(a, b, skip) && StoreTurn(b, c, skip) && DeadTurn(c, f', skip)
  }

  ghost predicate FnRounded(f: Fn, f': Fn, skip: Skips) {
    if f.isExtern || f.body == [] then f' == f else RoundDone(f, f', skip)
  }

  /** One round over the whole program. */
  ghost predicate Rounded(p: Program, p': Program, skip: Skips) {
    && |p.functions| == |p'.functions| && p'.strings == p.strings && p'.globals == p.globals
    && forall g :: 0 <= g < |p.functions| ==> FnRounded(p.functions[g], p'.functions[g], skip)
  }

  method FoldStep(p: IrProgram, k: nat, ghost p0: Program) returns (changed: bool)
    requires Distinct(p.functions) && k < |p.functions| && OnTrack(p0, p.View())
    modifies p.functions[k]
    ensures OnTrack(p0, p.View()) && Folded(old(p.functions[k].View()), p.functions[k].View())
    ensures !changed ==> p.functions[k].View() == old(p.functions[k].View())
  {
    hide OnTrack, FnStep, WfBody, Unfoldable;
    ghost var before := p.View();
    OnTrackFn(p0, before, k);
    changed := FoldConstants(p.functions[k]);
    StayOnTrack(p0, before, k, p.functions[k].View());
    assert Views(p.functions) == before.functions[k := p.functions[k].View()];
  }

  method DeadStep(p: IrProgram, k: nat, ghost p0: Program) returns (changed: bool)
    requires Distinct(p.functions) && k < |p.functions| && OnTrack(p0, p.View())
    modifies p.functions[k]
    ensures OnTrack(p0, p.View()) && DeadRemoved(old(p.functions[k].View()), p.functions[k].View())
    ensures !changed ==> p.functions[k].View() == old(p.functions[k].View())
  {
    hide OnTrack, FnStep, WfBody, AllNeeded;
    ghost var before := p.View();
    OnTrackFn(p0, before, k);
    changed := RemoveDeadInstructions(p.functions[k]);
    StayOnTrack(p0, before, k, p.functions[k].View());
    assert Views(p.functions) == before.functions[k := p.functions[k].View()];
  }

  method DseStep(p: IrProgram, k: nat, ghost p0: Program) returns (changed: bool)
    requires Distinct(p.functions) && k < |p.functions| && OnTrack(p0, p.View())
    modifies p.functions[k]
    ensures OnTrack(p0, p.View()) && StoresRemoved(old(p.functions[k].View()), p.functions[k].View())
    ensures !changed ==> p.functions[k].View() == old(p.functions[k].View())
  {
    hide OnTrack, FnStep, WfFn, Compact, DeadStores;
    ghost var before := p.View();
    OnTrackFn(p0, before, k);
    changed := RemoveDeadLocals(p.functions[k]);
    StayOnTrack(p0, before, k, p.functions[k].View());
    assert Views(p.functions) == before.functions[k := p.functions[k].View()];
  }

  method RoundStep(p: IrProgram, k: nat, skip: Skips, ghost p0: Program) returns (changed: bool)
    requires Distinct(p.functions) && k < |p.functions| && OnTrack(p0, p.View())
    modifies p.functions[k]
    ensures OnTrack(p0, p.View()) && FnRounded(old(p.functions[k].View()), p.functions[k].View(), skip)
    ensures !changed ==> p.functions[k].View() == old(p.functions[k].View())
  {
    hide OnTrack, Folded, DeadRemoved, StoresRemoved;
    changed := false;
    if p.functions[k].isExtern || |p.functions[k].body| == 0 {
      return;
    }
    var c := false;
    if !skip.fold {
      c := FoldStep(p, k, p0);
      changed := changed || c;
    }
    ghost var f1 := p.functions[k].View();
    if !skip.dead {
      c := DeadStep(p, k, p0);
      changed := changed || c;
    }
    ghost var f2 := p.functions[k].View();
    if !skip.dse {
      c := DseStep(p, k, p0);
      changed := changed || c;
    }
    ghost var f3 := p.functions[k].View();
    if !skip.dead {
      c := DeadStep(p, k, p0);
      changed := changed || c;
    }
    RoundIs(old(p.functions[k].View()), f1, f2, f3, p.functions[k].View(), skip);
  }

  lemma RoundIs(f: Fn, a: Fn, b: Fn, c: Fn, f': Fn, skip: Skips)
    requires FoldTurn(f, a, skip) && DeadTurn(a, b, skip) && StoreTurn(b, c, skip) && DeadTurn(c, f', skip)
    ensures RoundDone(f, f', skip)
  {
    hide FoldTurn, DeadTurn, StoreTurn;
  }

  /** One round over all functions. */
  method Round(p: IrProgram, skip: Skips, ghost p0: Program) returns (changed: bool)
    requires Distinct(p.functions) && OnTrack(p0, p.View())
    modifies p.functions
    ensures OnTrack(p0, p.View()) && Rounded(old(p.View()), p.View(), skip)
    ensures !changed ==> p.View() == old(p.View())
  {
    hide OnTrack, FnRounded;
    changed := false;
    var k := 0;
    while k < |p.functions|
      invariant k <= |p.functions|
      invariant OnTrack(p0, p.View())
      invariant forall g :: 0 <= g < k ==> FnRounded(old(p.View()).functions[g], p.functions[g].View(), skip)
      invariant forall g :: k <= g < |p.functions| ==> p.functions[g].View() == old(p.View()).functions[g]
      invariant !changed ==> p.View() == old(p.View())
    {
      ghost var before := p.View();
      var c := RoundStep(p, k, skip, p0);
      assert forall g :: 0 <= g < |p.functions| && g != k ==> p.functions[g].View() == before.functions[g];
      if !c {
        assert Views(p.functions) == before.functions;
      }
      changed := changed || c;
      k := k + 1;
    }
  }

  /** The programs after each round: at most four rounds, fewer only when one
      round has changed nothing. */
  ghost predicate Trace(ps: seq<Program>, skip: Skips) {
    && 2 <= |ps| <= 5
    && (forall k :: 0 <= k < |ps| - 1 ==> Rounded(ps[k], ps[k + 1], skip))
    && (|ps| < 5 ==> ps[|ps| - 1] == ps[|ps| - 2])
  }

  /** What follows the rounds from O2 on. */
  ghost function Trimmed(p: Program, keepAllFunctions: bool, skip: Skips): Program {
    if skip.prune then p
    else LabelsCompacted(GlobalsCompacted(StringsCompacted(if keepAllFunctions then p else Pruned(p))))
  }

  /** The rounds of `optimize`. */
  method Rounds(p: IrProgram, skip: Skips) returns (ghost trace: seq<Program>)
    requires Distinct(p.functions) && WfProgram(p.View())
    modifies p.functions
    ensures Trace(trace, skip) && trace[0] == old(p.View()) && trace[|trace| - 1] == p.View()
    ensures OnTrack(old(p.View()), p.View())
  {
    hide OnTrack, Rounded, WfProgram;
    ghost var p0 := p.View();
    OnTrackStart(p0);
    trace := [p0];
    var round := 0;
    var changed := true;
    while round < 4 && changed
      invariant Distinct(p.functions) && OnTrack(p0, p.View())
      invariant round <= 4 && |trace| == round + 1 && trace[0] == p0 && trace[round] == p.View()
      invariant forall k :: 0 <= k < round ==> Rounded(trace[k], trace[k + 1], skip)
      invariant !changed ==> round > 0 && trace[round] == trace[round - 1]
    {
      changed := Round(p, skip, p0);
      round := round + 1;
      trace := trace + [p.View()];
    }
  }

  /** The pruning and compaction of `optimize`. */
  method Trim(p: IrProgram, keepAllFunctions: bool, skip: Skips, ghost p0: Program) returns (ghost numbers: map<nat, nat>)
    requires Distinct(p.functions) && OnTrack(p0, p.View())
    modifies p, p.functions
    ensures p.View() == Trimmed(old(p.View()), keepAllFunctions, skip) && Optimized(p0, p.View(), numbers)
    ensures KeptNumbers(p0, numbers, !keepAllFunctions && !skip.prune)
  {
    hide OnTrack, Optimized, WfProgram, SameNumbers, Pruned, LabelsCompacted, StringsCompacted, GlobalsCompacted, KeptNumbers;
    ghost var p1 := p.View();
    numbers := Identity(|p0.functions|);
    AllNumbers(p0);
    RoundsOnly(p0, p1);
    if !keepAllFunctions && !skip.prune {
      numbers := Prune(p, p0);
    }
    if !skip.prune {
      CompactTables(p, p0, numbers);
    }
  }

  method Prune(p: IrProgram, ghost p0: Program) returns (ghost numbers: map<nat, nat>)
    requires Distinct(p.functions) && OnTrack(p0, p.View())
    modifies p, p.functions
    ensures Distinct(p.functions) && forall k :: 0 <= k < |p.functions| ==> p.functions[k] in old(p.functions)
    ensures p.View() == Pruned(old(p.View())) && WfProgram(p.View())
    ensures Optimized(p0, p.View(), numbers) && KeptNumbers(p0, numbers, true)
  {
    hide *;
    ghost var p1 := p.View();
    TrackWf(p0, p1);
    PruneOnTrack(p0, p1);
    numbers := PruneNumbers(p1);
    RemoveUnusedFunctions(p);
  }

  lemma TrackWf(p0: Program, p: Program)
    requires OnTrack(p0, p)
    ensures WfProgram(p)
  {
  }

  method CompactTables(p: IrProgram, ghost p0: Program, ghost numbers: map<nat, nat>)
    requires Distinct(p.functions) && WfProgram(p.View()) && Optimized(p0, p.View(), numbers)
    modifies p, p.functions
    ensures p.View() == LabelsCompacted(GlobalsCompacted(StringsCompacted(old(p.View()))))
    ensures Optimized(p0, p.View(), numbers)
  {
    hide Optimized, WfProgram, SameNumbers, LabelsCompacted, StringsCompacted, GlobalsCompacted;
    ghost var p2 := p.View();
    StringsSame(p2);
    CompactStrings(p);
    ghost var p3 := p.View();
    ThenSame(p0, p2, p3, numbers);
    GlobalsSame(p3);
    CompactGlobals(p);
    ghost var p4 := p.View();
    ThenSame(p0, p3, p4, numbers);
    LabelsSame(p4);
    CompactLabels(p);
    ThenSame(p0, p4, p.View(), numbers);
  }

  /** `optimize`: up to four rounds, then pruning and compaction from O2 on. The
      ghost results are the program after each round and the new number of every
      function that was kept. */
  method Optimize(p: IrProgram, level: OptLevel, keepAllFunctions: bool, skip: Skips)
    returns (ghost trace: seq<Program>, ghost numbers: map<nat, nat>)
    requires Distinct(p.functions) && WfProgram(p.View())
    modifies p, p.functions
    ensures Optimized(old(p.View()), p.View(), numbers)
    ensures level.O0? ==> p.View() == old(p.View())
    ensures !level.O0? ==> Trace(trace, skip) && trace[0] == old(p.View())
    ensures level.O1? ==> p.View() == trace[|trace| - 1]
    ensures level.O2? || level.O3? ==> p.View() == Trimmed(trace[|trace| - 1], keepAllFunctions, skip)
    ensures KeptNumbers(old(p.View()), numbers, (level.O2? || level.O3?) && !keepAllFunctions && !skip.prune)
  {
    hide OnTrack, Optimized, WfProgram, Trimmed, Rounded, KeptNumbers;
    ghost var p0 := p.View();
    AllNumbers(p0);
    numbers, trace := Identity(|p.functions|), [p0];
    OnTrackStart(p0);
    RoundsOnly(p0, p0);
    if level.O0? {
      return;
    }
    trace := Rounds(p, skip);
    RoundsOnly(p0, p.View());
    if level.O1? {
      return;
    }
    numbers := Trim(p, keepAllFunctions, skip, p0);
  }

  lemma OnTrackStart(p: Program)
    requires WfProgram(p)
    ensures OnTrack(p, p)
  {
    RefinesSelf(p);
  }

  lemma RoundsOnly(p0: Program, p: Program)
    requires OnTrack(p0, p)
    ensures WfProgram(p) && Optimized(p0, p, Identity(|p0.functions|))
  {
    hide WfProgram, Refines, Optimized;
    RoundsKeep(p0, p);
  }

  lemma PruneOnTrack(p0: Program, p: Program)
    requires OnTrack(p0, p)
    ensures WfProgram(Pruned(p)) && Optimized(p0, Pruned(p), PruneNumbers(p)) && KeptNumbers(p0, PruneNumbers(p), true)
  {
    hide WfProgram, Refines, Optimized, KeptNumbers;
    PrunedNumbers(p0, p);
    PruneKeeps(p0, p);
    WfPruned(p);
  }
}
