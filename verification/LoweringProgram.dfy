/** Lowering of whole functions and programs. */
module LoweringProgram {
  import opened Words
  import opened Ir
  import opened IrObjects
  import opened Semantics
  import opened WellFormed
  import opened Simulation
  import opened Ast
  import opened Lowering
  import opened LoweringEntry
  import opened LoweringAccepts
  import opened IrGenerator
  import opened LoweringRuns
  import opened LoweringExprs
  import opened LoweringDecls
  import opened LoweringCorrect
  import opened LoweringShape
  import opened Tables
  import opened Optimizer

  // --- arguments ---

  /** The same names are bound, each to the value of its local. */
  ghost predicate ArgsBound(scope: map<string, Local>, vars: map<string, Option<Word>>, args: seq<Word>) {
    && scope.Keys == vars.Keys
    && forall x :: x in scope ==> scope[x] < |args| && vars[x] == Some(args[scope[x]])
  }

  /** A local stands for one name. */
  ghost predicate OneName(scope: map<string, Local>, names: seq<string>) {
    forall x :: x in scope ==> scope[x] < |names| && names[scope[x]] == x
  }

  lemma {:induction false} ArgsHold(names: seq<string>, args: seq<Word>, from: nat,
                                    scope: map<string, Local>, vars: map<string, Option<Word>>)
    requires from <= |names| == |args| && ArgsBound(scope, vars, args) && OneName(scope, names)
    ensures ArgsBound(ArgScope(names, from, scope), BindArgs(names, args, from, vars), args)
    ensures OneName(ArgScope(names, from, scope), names)
    decreases |names| - from
  {
    if from < |names| {
      ArgsHold(names, args, from + 1, scope[names[from] := from], vars[names[from] := Some(args[from])]);
    }
  }

  lemma StartHolds(c: Ctx, f: Func, args: seq<Word>, h: History)
    requires c.f < |c.p.functions| && |args| == |f.args| <= c.p.functions[c.f].localCount
    ensures Holds(c, [BindArgs(f.args, args, 0, map[])], StartFunc(f, 0).scopes,
                  InitLocals(c.env, c.p.functions[c.f], args, h))
    ensures ScopesOk(StartFunc(f, 0).scopes, |f.args|)
  {
    ArgsHold(f.args, args, 0, map[], map[]);
    var scope, vars := ArgScope(f.args, 0, map[]), BindArgs(f.args, args, 0, map[]);
    var locals := InitLocals(c.env, c.p.functions[c.f], args, h);
    forall i: nat, x
      ensures InScope([vars], i, x) <==> InScope([scope], i, x)
    {
      assert x in scope <==> x in vars.Keys;
    }
    forall i: nat, x | InScope([vars], i, x)
      ensures VarHolds([vars], [scope], locals, i, x)
    {
      assert InScope([scope], i, x);
    }
  }

  // --- one function ---

  /** Function `id` of the program is the lowered `f`, compiled without error. */
  ghost predicate IsLowered(p: Program, id: nat, f: Func, firstLabel: nat) {
    && id < |p.functions| && p.functions[id] == Lowered(f, id, firstLabel)
    && !GenFunc(f, firstLabel).failed && BlockDeclsOk(f.body)
  }

  /** The compiled function agrees with `r`: the same result in the end, or
      still running after `n` jumps. */
  ghost predicate RunsAs(env: Env, p: Program, id: nat, f: Func, args: seq<Word>, h: History, r: Result, n: nat, k: nat) {
    match r
    case Returned(v) =>
      forall m: nat {:trigger RunFn(env, p, id, args, h, m)} ::
        m >= k ==> RunFn(env, p, id, args, h, m) == Done(v, h + [Enter(f.name, args), Leave(v)])
    case Cut =>
      forall m: nat {:trigger RunFn(env, p, id, args, h, m)} ::
        m <= n ==> RunFn(env, p, id, args, h, m) == Running(h + [Enter(f.name, args)])
    case _ => true
  }

  /** The lowered function as the place where runs are followed. */
  lemma FuncCtx(c: Ctx, f: Func, firstLabel: nat)
    requires IsLowered(c.p, c.f, f, firstLabel) && forall l :: !InMemory(c.env, f.name, l)
    ensures CtxOk(c) && !c.p.functions[c.f].isExtern && c.p.functions[c.f].name == f.name
    ensures FitsIn(c, GenFunc(f, firstLabel)) && FitsIn(c, GenBlock(StartFunc(f, firstLabel), f.body))
    ensures !GenBlock(StartFunc(f, firstLabel), f.body).failed
  {
    hide GenBlock, TargetsIn, Marks;
    FuncShape(f, firstLabel);
  }

  /** Before the first instruction the arguments are in their locals. */
  lemma FuncReady(c: Ctx, f: Func, firstLabel: nat, args: seq<Word>, h: History)
    requires IsLowered(c.p, c.f, f, firstLabel) && |args| == |f.args|
    requires forall l :: !InMemory(c.env, f.name, l)
    ensures var g0 := StartFunc(f, firstLabel);
      Ready(c, g0, GenBlock(g0, f.body), [BindArgs(f.args, args, 0, map[])], Entry(c.env, c.p.functions[c.f], args, h))
  {
    hide Holds, ScopesOk, FitsIn, CtxOk, InitLocals, GenBlock, BindArgs, ArgScope;
    FuncCtx(c, f, firstLabel);
    ArgsFit(f, firstLabel);
    StartHolds(c, f, args, h + [Enter(f.name, args)]);
    assert StartFunc(f, firstLabel).scopes == StartFunc(f, 0).scopes;
  }

  lemma ArgsFit(f: Func, firstLabel: nat)
    ensures |f.args| <= GenFunc(f, firstLabel).nextLocal
  {
    hide GenStmts;
  }

  /** The end of the body: fall off it, or leave it by `return`. */
  lemma FuncEnd(c: Ctx, f: Func, firstLabel: nat, st: Store, n: nat, s: State, t: State, k: nat) returns (k': nat)
    requires IsLowered(c.p, c.f, f, firstLabel) && CtxOk(c)
    requires FitsIn(c, GenFunc(f, firstLabel)) && ScopesOk(StartFunc(f, firstLabel).scopes, |f.args|)
    requires var g0 := StartFunc(f, firstLabel); Ends(c, g0, GenBlock(g0, f.body), ExecBlock(f.body, st, n), s, t, k)
    requires ExecBlock(f.body, st, n).Cut? ==> k > n
    ensures var r := ExecBlock(f.body, st, n);
      && (r.Returned? ==> Returns(c, 0, s, r.v, k'))
      && (r.Normal? && f.isVoid ==> Returns(c, 0, s, 0, k'))
      && (r.Cut? ==> Still(c, 0, s, k') && k' > n)
  {
    hide Holds, Still, Reaches, Jumps, Returns, ScopesOk, FitsIn, CtxOk, GenBlock, ExecBlock;
    var g0 := StartFunc(f, firstLabel);
    var g1 := GenBlock(g0, f.body);
    var r := ExecBlock(f.body, st, n);
    k' := k;
    if r.Normal? && f.isVoid {
      ScopesLater(g0.scopes, g0.nextLocal, g1.nextLocal);
      var k1 := ReturnSim(c, g1, ReturnStmt(None), r.st, n, t);
      ReturnsTrans(c, 0, s, |g1.body|, t, k, 0, k1);
      k' := k + k1;
    }
  }

  /** The function does what its source says, for every argument list and any
      number of loop turns. */
  lemma FuncSim(env: Env, p: Program, id: nat, f: Func, firstLabel: nat, args: seq<Word>, h: History, n: nat) returns (k: nat)
    requires IsLowered(p, id, f, firstLabel) && |args| == |f.args|
    requires forall l :: !InMemory(env, f.name, l)
    ensures RunsAs(env, p, id, f, args, h, ExecFunc(f, args, n), n, k)
  {
    hide Holds, Still, Reaches, Jumps, Returns, ScopesOk, FitsIn, CtxOk, RunFn, GenBlock, GenFunc, ExecBlock, BindArgs, Entry, Ends, RunsAs;
    var c := Ctx(env, p, id);
    var g0 := StartFunc(f, firstLabel);
    var s := Entry(env, p.functions[id], args, h);
    var st := [BindArgs(f.args, args, 0, map[])];
    FuncCtx(c, f, firstLabel);
    FuncReady(c, f, firstLabel, args, h);
    var t, k0 := BlockSim(c, g0, f.body, st, n, s);
    k := FuncEnd(c, f, firstLabel, st, n, s, t, k0);
    Outcomes(c, f, args, h, ExecFunc(f, args, n), n, k);
  }

  /** From the run of the body to the run of the function. */
  lemma Outcomes(c: Ctx, f: Func, args: seq<Word>, h: History, r: Result, n: nat, k: nat)
    requires CtxOk(c) && c.f < |c.p.functions| && !c.p.functions[c.f].isExtern && c.p.functions[c.f].name == f.name
    requires var s := Entry(c.env, c.p.functions[c.f], args, h);
      (r.Returned? ==> Returns(c, 0, s, r.v, k)) && (r.Cut? ==> Still(c, 0, s, k) && k > n)
    ensures RunsAs(c.env, c.p, c.f, f, args, h, r, n, k)
  {
    hide CtxOk, Exec;
    var s := Entry(c.env, c.p.functions[c.f], args, h);
    forall m: nat
      ensures RunFn(c.env, c.p, c.f, args, h, m) == Run(c, 0, s, m)
    {
    }
    if r.Returned? {
      assert h + [Enter(f.name, args)] + [Leave(r.v)] == h + [Enter(f.name, args), Leave(r.v)];
    }
  }

  // --- whole programs ---

  /** No function is rejected. */
  ghost predicate Accepted(fs: seq<Func>) {
    forall k :: 0 <= k < |fs| ==> !GenFunc(fs[k], FirstLabel(fs, k, 0)).failed
  }

  /** No initialiser mentions the variable it initialises. */
  ghost predicate AllDeclsOk(fs: seq<Func>) {
    forall k :: 0 <= k < |fs| ==> BlockDeclsOk(fs[k].body)
  }

  /** No function has more basic blocks than the liveness iteration can settle. */
  ghost predicate FewBlocks(fs: seq<Func>) {
    forall k :: 0 <= k < |fs| ==> BlockCount(LowerProgram(fs).functions[k].body) <= 512
  }

  lemma {:induction false} FirstLabelNext(fs: seq<Func>, k: nat, firstLabel: nat)
    requires k < |fs|
    ensures FirstLabel(fs, k + 1, firstLabel) == GenFunc(fs[k], FirstLabel(fs, k, firstLabel)).nextLabel
  {
    if k > 0 {
      FirstLabelNext(fs[1..], k - 1, GenFunc(fs[0], firstLabel).nextLabel);
    }
  }

  lemma {:induction false} FirstLabelGrows(fs: seq<Func>, j: nat, k: nat)
    requires j <= k <= |fs|
    ensures FirstLabel(fs, j, 0) <= FirstLabel(fs, k, 0)
    decreases k - j
  {
    if j < k {
      FirstLabelNext(fs, j, 0);
      FirstLabelGrows(fs, j + 1, k);
    }
  }

  /** Lowered programs are well formed: what every pass of the optimizer needs. */
  lemma LowerWf(fs: seq<Func>)
    requires Accepted(fs) && FewBlocks(fs)
    ensures WfProgram(LowerProgram(fs))
  {
    hide WfBody, GenFunc;
    var p := LowerProgram(fs);
    forall g | 0 <= g < |p.functions|
      ensures WfFn(p.functions[g])
      ensures forall i :: 0 <= i < |p.functions[g].body| ==> IdsInRange(p, p.functions[g].body[i])
    {
      LowerAllAt(fs, 0, 0, g);
      FuncShape(fs[g], FirstLabel(fs, g, 0));
    }
  }

  /** Every jump has its target in its own function, and no two functions share
      a label. */
  lemma LowerLabels(fs: seq<Func>, j: nat, k: nat)
    requires Accepted(fs) && j < k < |fs|
    ensures var p := LowerProgram(fs);
      && TargetsIn(p.functions[k].body, Marks(p.functions[k].body))
      && Marks(p.functions[j].body) !! Marks(p.functions[k].body)
  {
    hide WfBody, GenFunc, Marks;
    LowerAllAt(fs, 0, 0, j);
    LowerAllAt(fs, 0, 0, k);
    FuncShape(fs[j], FirstLabel(fs, j, 0));
    FuncShape(fs[k], FirstLabel(fs, k, 0));
    FirstLabelNext(fs, j, 0);
    FirstLabelGrows(fs, j + 1, k);
  }

  /** From source to optimized IR: a kept function still does what its source
      says, whatever the optimizer did. */
  lemma CompiledAndOptimized(fs: seq<Func>, p': Program, numbers: map<nat, nat>, env: Env, g: nat, args: seq<Word>,
                             h: History, n: nat) returns (k: nat)
    requires Accepted(fs) && AllDeclsOk(fs) && Optimized(LowerProgram(fs), p', numbers) && g in numbers
    requires g < |fs| && |args| == |fs[g].args|
    requires forall name, l :: !InMemory(env, name, l)
    ensures RunsAs(env, p', numbers[g], fs[g], args, h, ExecFunc(fs[g], args, n), n, k)
  {
    hide RunFn, ExecFunc, GenFunc;
    var p := LowerProgram(fs);
    LowerAllAt(fs, 0, 0, g);
    k := FuncSim(env, p, g, fs[g], FirstLabel(fs, g, 0), args, h, n);
    assert EnvFits(env, p', AllFns(p'));
    forall m: nat | RunFn(env, p, g, args, h, m) != Stuck
      ensures RunFn(env, p', numbers[g], args, h, m) == RunFn(env, p, g, args, h, m)
    {
      assert RunsKept(p, p', numbers);
    }
  }

  // --- the compiler front to middle ---

  /** The first functions of the program, as values, are generated. */
  ghost predicate GeneratedUpTo(fs: seq<Func>, out: seq<Fn>) {
    && |out| <= |fs|
    && (forall k :: 0 <= k < |out| ==> out[k] == Lowered(fs[k], k, FirstLabel(fs, k, 0)))
    && (forall k :: 0 <= k < |out| ==> !GenFunc(fs[k], FirstLabel(fs, k, 0)).failed)
  }

  lemma GeneratedAll(fs: seq<Func>, out: seq<Fn>)
    requires GeneratedUpTo(fs, out) && |out| == |fs|
    ensures Accepted(fs) && out == LowerProgram(fs).functions
  {
    hide GenFunc, Lowered, FirstLabel;
    forall k | 0 <= k < |fs|
      ensures out[k] == LowerProgram(fs).functions[k]
    {
      LowerAllAt(fs, 0, 0, k);
    }
  }

  lemma GeneratedNext(fs: seq<Func>, out: seq<Fn>, f: Fn)
    requires GeneratedUpTo(fs, out) && |out| < |fs|
    requires f == Lowered(fs[|out|], |out|, FirstLabel(fs, |out|, 0)) && !GenFunc(fs[|out|], FirstLabel(fs, |out|, 0)).failed
    ensures GeneratedUpTo(fs, out + [f])
  {
    hide GenFunc, Lowered, FirstLabel;
    var more := out + [f];
    forall k {:trigger more[k]} | 0 <= k < |more|
      ensures more[k] == Lowered(fs[k], k, FirstLabel(fs, k, 0)) && !GenFunc(fs[k], FirstLabel(fs, k, 0)).failed
    {
      if k < |out| {
        assert more[k] == out[k];
      }
    }
  }

  /** Generate all functions with one generator; `None` when an error was reported. */
  method GenerateProgram(fs: seq<Func>) returns (p: Option<IrProgram>)
    ensures p.Some? <==> Accepted(fs)
    ensures p.Some? ==> fresh(p.value) && fresh(p.value.functions) && Distinct(p.value.functions)
    ensures p.Some? ==> p.value.View() == LowerProgram(fs)
  {
    hide GenFunc, Lowered, FirstLabel, GeneratedUpTo, Accepted, LowerProgram;
    var gen := new Generator();
    var fns: seq<IrFunction> := [];
    FirstLabelStart(fs);
    NoneGenerated(fs);
    while |fns| < |fs|
      invariant |fns| <= |fs| && fresh(gen) && fresh(fns) && Distinct(fns)
      invariant !gen.failed && gen.breakLabels == [] && gen.continueLabels == []
      invariant gen.nextLabel == FirstLabel(fs, |fns|, 0)
      invariant GeneratedUpTo(fs, Views(fns))
    {
      var k := |fns|;
      FirstLabelNext(fs, k, 0);
      ghost var before := Views(fns);
      var fn := gen.GenerateFunction(fs[k], k);
      if gen.failed {
        NotAccepted(fs, k);
        return None;
      }
      GeneratedNext(fs, before, fn.View());
      assert Views(fns + [fn]) == before + [fn.View()];
      fns := fns + [fn];
    }
    GeneratedAll(fs, Views(fns));
    var program := new IrProgram(fns);
    ProgramOf(fs);
    p := Some(program);
  }

  lemma NoneGenerated(fs: seq<Func>)
    ensures GeneratedUpTo(fs, [])
  {
  }

  lemma NotAccepted(fs: seq<Func>, k: nat)
    requires k < |fs| && GenFunc(fs[k], FirstLabel(fs, k, 0)).failed
    ensures !Accepted(fs)
  {
    hide GenFunc, FirstLabel;
  }

  lemma ProgramOf(fs: seq<Func>)
    ensures LowerProgram(fs).strings == [] && LowerProgram(fs).globals == []
  {
  }

  lemma FirstLabelStart(fs: seq<Func>)
    ensures FirstLabel(fs, 0, 0) == 0
  {
  }

  /** A program is accepted exactly if all its functions keep the rules. */
  lemma AcceptedIs(fs: seq<Func>)
    ensures Accepted(fs) <==> AllFine(fs)
  {
    hide GenFunc, FuncFine, FirstLabel;
    forall k {:trigger fs[k]} | 0 <= k < |fs|
      ensures !GenFunc(fs[k], FirstLabel(fs, k, 0)).failed <==> FuncFine(fs[k])
    {
      FuncAccepted(fs[k], FirstLabel(fs, k, 0));
    }
  }

  /** Generation and optimization in one go. */
  method Compile(fs: seq<Func>, level: OptLevel, keepAllFunctions: bool, skip: Skips)
    returns (p: Option<IrProgram>, ghost numbers: map<nat, nat>)
    requires FewBlocks(fs)
    ensures p.Some? <==> AllFine(fs)
    ensures p.Some? <==> Accepted(fs)
    ensures p.Some? ==> Optimized(LowerProgram(fs), p.value.View(), numbers)
    ensures p.Some? ==> StartKept(fs, p.value.View(), numbers)
    ensures p.Some? ==> KeptFunctions(fs, numbers, (level.O2? || level.O3?) && !keepAllFunctions && !skip.prune)
  {
    hide Optimized, WfProgram, FewBlocks, Accepted, KeptNumbers, KeptFunctions, StartKept, AllFine;
    AcceptedIs(fs);
    p := GenerateProgram(fs);
    numbers := map[];
    if p.Some? {
      LowerWf(fs);
      ghost var trace;
      trace, numbers := Optimize(p.value, level, keepAllFunctions, skip);
      StartIsKept(fs, p.value.View(), numbers);
      FunctionsKept(fs, numbers, (level.O2? || level.O3?) && !keepAllFunctions && !skip.prune);
    }
  }
}
