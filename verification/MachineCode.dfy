/** From source to running machine code: all stages together. */
module MachineCode {
  import opened Words
  import opened Ir
  import opened IrObjects
  import opened Semantics
  import opened WellFormed
  import opened Ast
  import opened Lowering
  import opened LoweringEntry
  import opened LoweringAccepts
  import opened LoweringShape
  import opened LoweringSlots
  import opened LoweringDecls
  import opened LoweringProgram
  import opened Optimizer
  import opened MachineFit
  import opened Rewriting
  import E = Bytes
  import X86
  import S = X86Select
  import L = X86Layout
  import C = X86Correct
  import X86Frame
  import N = X86Entry
  import F = X86Functions
  import R = X86Run
  import I = X86Isel

  // --- lowered programs can be emitted ---

  /** Integer operators only, ordered by signed kinds only. */
  predicate AllFit(fs: seq<Func>) {
    forall k :: 0 <= k < |fs| ==> BlockFits(fs[k].body)
  }

  /** Frames that 32-bit displacements can address. */
  ghost predicate SmallFrames(fs: seq<Func>) {
    forall k :: 0 <= k < |fs| ==> S.FrameSize(LowerProgram(fs).functions[k]) < E.TWO31 / 2
  }

  lemma LowerLocals(f: Func, id: nat, firstLabel: nat)
    requires !GenFunc(f, firstLabel).failed && BlockFits(f.body)
    ensures L.LocalsFit(Lowered(f, id, firstLabel)) && S.AllSelectable(Lowered(f, id, firstLabel).body)
    ensures |f.args| <= Lowered(f, id, firstLabel).localCount
  {
    hide GenFunc, BlockFits, SingleDef, UniqueLabels, TerminatorsLast;
    var fn := Lowered(f, id, firstLabel);
    FuncShape(f, firstLabel);
    FuncSlots(f, firstLabel);
    forall i | 0 <= i < |fn.body|
      ensures S.Selectable(fn.body[i]) && C.InstBounded(fn, fn.body[i])
    {
      assert InstSlotted(fn.body[i], fn.localCount);
      forall r | r in Uses(fn.body[i])
        ensures r < fn.tempCount
      {
        var j := FlowDef(fn.body, i, r);
      }
    }
  }

  lemma MarksAre(body: seq<Inst>, l: Label)
    ensures l in Marks(body) <==> L.HasMark(body, l)
  {
    if l in Marks(body) {
      var i :| 0 <= i < |body| && body[i].LabelMark? && body[i].id == l;
      assert body[i] == LabelMark(l);
    }
  }

  lemma LowerTargets(f: Func, firstLabel: nat)
    requires !GenFunc(f, firstLabel).failed
    ensures L.TargetsHere(GenFunc(f, firstLabel).body)
  {
    hide GenFunc, WfBody, L.HasMark, Marks;
    FuncShape(f, firstLabel);
    var body := GenFunc(f, firstLabel).body;
    forall i, l | 0 <= i < |body| && Targets(body[i], l)
      ensures L.HasMark(body, l)
    {
      assert l in TargetSet(body[i]);
      MarksAre(body, l);
    }
  }

  lemma LowerGood(fs: seq<Func>)
    requires Accepted(fs) && FewBlocks(fs) && AllFit(fs) && SmallFrames(fs)
    ensures GoodProgram(LowerProgram(fs))
  {
    hide GenFunc, BlockFits, WfFn, L.LocalsFit, S.AllSelectable, L.TargetsHere, S.FrameSize, L.HasMark;
    var p := LowerProgram(fs);
    LowerWf(fs);
    forall g {:trigger p.functions[g]} | 0 <= g < |p.functions|
      ensures Good(p.functions[g])
    {
      LowerAllAt(fs, 0, 0, g);
      assert WfFn(p.functions[g]);
      LowerLocals(fs[g], g, FirstLabel(fs, g, 0));
      LowerTargets(fs[g], FirstLabel(fs, g, 0));
    }
    LowerSeparate(fs);
  }

  lemma LowerSeparate(fs: seq<Func>)
    requires Accepted(fs)
    ensures Separate(LowerProgram(fs))
  {
    hide GenFunc, Marks, L.HasMark, LowerAll, Accepted;
    var p := LowerProgram(fs);
    forall g, h, l {:trigger L.HasMark(p.functions[g].body, l), L.HasMark(p.functions[h].body, l)}
      | 0 <= g < |p.functions| && 0 <= h < |p.functions| && L.HasMark(p.functions[g].body, l) && L.HasMark(p.functions[h].body, l)
      ensures g == h
    {
      MarksAre(p.functions[g].body, l);
      MarksAre(p.functions[h].body, l);
      if g < h {
        LowerLabels(fs, g, h);
      } else if h < g {
        LowerLabels(fs, h, g);
      }
    }
  }

  // --- the compiler ---

  /** The patched text of a program. */
  ghost predicate TextOf(p: Program, code: seq<E.Byte>) {
    && L.ProgramSelectable(p)
    && var t := S.AddAll(S.Text([], [], map[]), L.TextAsm(p, |p.functions|));
       S.FixupsOk(t.code, t.fixups, t.labelPos) && code == S.PatchAll(t.code, t.fixups, t.labelPos)
  }

  /** The whole compiler: generate, optimize, select and patch. */
  method Build(fs: seq<Func>, level: OptLevel, keepAllFunctions: bool, skip: Skips)
    returns (code: Option<seq<E.Byte>>, ghost p': Program, ghost numbers: map<nat, nat>)
    requires FewBlocks(fs) && AllFit(fs) && SmallFrames(fs)
    ensures code.Some? <==> AllFine(fs)
    ensures code.Some? <==> Accepted(fs)
    ensures code.Some? ==> Optimized(LowerProgram(fs), p', numbers) && L.EmittableProgram(p') && TextOf(p', code.value)
    ensures code.Some? ==> StartKept(fs, p', numbers)
    ensures code.Some? ==> KeptFunctions(fs, numbers, (level.O2? || level.O3?) && !keepAllFunctions && !skip.prune)
  {
    hide Optimized, WfProgram, GoodProgram, L.EmittableProgram, Trimmed, Trace, Accepted, FewBlocks, AllFit, SmallFrames, KeptNumbers,
      KeptFunctions, StartKept, AllFine, L.ProgramSelectable, S.PatchAll, S.AddAll, L.TextAsm, S.FixupsOk;
    AcceptedIs(fs);
    var p := GenerateProgram(fs);
    p', numbers := LowerProgram(fs), map[];
    code := None;
    if p.Some? {
      LowerWf(fs);
      LowerGood(fs);
      ghost var trace;
      trace, numbers := Optimize(p.value, level, keepAllFunctions, skip);
      var view := p.value.View();
      p' := view;
      StartIsKept(fs, p', numbers);
      FunctionsKept(fs, numbers, (level.O2? || level.O3?) && !keepAllFunctions && !skip.prune);
      OptimizedEmittable(LowerProgram(fs), trace, level, keepAllFunctions, skip, p');
      L.EmittableSelectable(p');
      EmittableFrames(p');
      L.FixupsFound(p');
      var isel := new I.ISel();
      var ok := isel.Generate(view);
      code := Some(isel.text.code);
    }
  }

  lemma EmittableFrames(p: Program)
    requires L.EmittableProgram(p)
    ensures forall g :: 0 <= g < |p.functions| ==> S.FrameSize(p.functions[g]) < E.TWO32
  {
    hide S.FrameSize, S.AllSelectable, L.LocalsFit, L.TargetsHere;
    forall g | 0 <= g < |p.functions|
      ensures S.FrameSize(p.functions[g]) < E.TWO32
    {
      assert L.Emittable(p.functions[g]);
    }
  }

  lemma OptimizedEmittable(p: Program, trace: seq<Program>, level: OptLevel, keepAllFunctions: bool, skip: Skips, p': Program)
    requires GoodProgram(p)
    requires level.O0? ==> p' == p
    requires !level.O0? ==> Trace(trace, skip) && trace[0] == p
    requires level.O1? ==> p' == trace[|trace| - 1]
    requires level.O2? || level.O3? ==> p' == Trimmed(trace[|trace| - 1], keepAllFunctions, skip)
    ensures L.EmittableProgram(p')
  {
    hide GoodProgram, L.EmittableProgram, Trimmed, Rounded;
    if level.O0? {
      GoodEmittable(p);
    } else {
      var last := |trace| - 1;
      RoundsGood(trace, skip, last);
      GoodEmittable(trace[last]);
      TrimmedEmittable(trace[last], keepAllFunctions, skip);
    }
  }

  // --- the running program ---

  /** An environment whose uninitialised locals hold what is in memory. */
  ghost function MemoryEnv(f: nat, mem: map<nat, Word>): Env {
    Env(imap q: Query, h: History | q.Uninitialised? && SlotMapped(f, q.local, mem) :: (q, h) := mem[X86Frame.SlotAddr(f, q.local)],
        imap[], iset{})
  }

  predicate SlotMapped(f: nat, l: Local, mem: map<nat, Word>) {
    X86Frame.SlotAddr(f, l) in mem
  }

  lemma CalledFully(fn: Fn, f: nat, args: seq<Word>, m: X86.Machine)
    requires N.Calls(fn, f, args, m) && |args| == fn.argCount <= fn.localCount
    ensures N.CalledWith(fn, f, args, m)
  {
  }

  /** The kept function has as many arguments as the source function. */
  lemma CountsAgree(fs: seq<Func>, p': Program, numbers: map<nat, nat>, g: nat)
    requires Accepted(fs) && Optimized(LowerProgram(fs), p', numbers)
    requires g in numbers && g < |fs| && numbers[g] < |p'.functions|
    ensures var fn := p'.functions[numbers[g]]; fn.argCount == |fs[g].args| <= fn.localCount
  {
    hide GenFunc, RunsKept, LowerAll;
    LowerAllAt(fs, 0, 0, g);
    ArgsFit(fs[g], FirstLabel(fs, g, 0));
    assert SameIdentity(LowerProgram(fs).functions[g], p'.functions[numbers[g]]);
  }

  lemma MemoryAgrees(fn: Fn, f: nat, args: seq<Word>, m: X86.Machine, h: History)
    requires N.CalledWith(fn, f, args, m)
    ensures N.RestAgrees(MemoryEnv(f, m.mem), fn, f, args, m, h)
    ensures C.FrameAddresses(MemoryEnv(f, m.mem), fn, f) && forall name, l :: !InMemory(MemoryEnv(f, m.mem), name, l)
  {
    hide N.ArgAt, S.FrameSize;
    var env := MemoryEnv(f, m.mem);
    N.MappedLocals(fn, f, m.mem);
    var locals := InitLocals(env, fn, args, h);
    forall l: nat {:trigger X86Frame.SlotAddr(f, l)} | |args| <= l < fn.localCount
      ensures X86Frame.SlotAddr(f, l) in m.mem && m.mem[X86Frame.SlotAddr(f, l)] == locals[l]
    {
      assert SlotMapped(f, l, m.mem);
      assert (Uninitialised(l), h) in env.query;
    }
  }

  /** What the machine makes of a source run: a `return` brings it back to the
      caller with the value; while the source loops, the machine runs on. */
  ghost predicate Serves(image: R.Image, f: nat, r: Result, n: nat, m: X86.Machine, m': X86.Machine, k: nat) {
    && (r.Returned? ==> R.Leads(image, m, m', k) && N.CameBack(f, m, r.v, m'))
    && (r.Cut? ==> R.Leads(image, m, m', k) && k >= n)
  }

  /** Calling the machine code of a source function does what its source says:
      for every program the compiler accepts, every optimization level, every
      argument list, every state of the machine that follows the calling
      convention, and every number of loop turns. */
  lemma MachineRuns(fs: seq<Func>, p': Program, numbers: map<nat, nat>, tail: seq<E.Byte>, image: R.Image,
                    g: nat, args: seq<Word>, f: nat, m: X86.Machine, n: nat) returns (m': X86.Machine, k: nat)
    requires Accepted(fs) && AllDeclsOk(fs) && Optimized(LowerProgram(fs), p', numbers)
    requires L.EmittableProgram(p') && L.ProgramSelectable(p') && L.ImageOf(p', tail, image)
    requires g in numbers && g < |fs| && |args| == |fs[g].args|
    requires numbers[g] < |p'.functions| && m.rip == L.PlaceOf(p', numbers[g], image).addr
    requires N.Calls(p'.functions[numbers[g]], f, args, m)
    ensures Serves(image, f, ExecFunc(fs[g], args, n), n, m, m', k)
  {
    hide N.Calls, Lowered, C.FrameAddresses, Accepted, AllDeclsOk, Optimized, L.EmittableProgram, L.ProgramSelectable, L.ImageOf, N.CalledWith, ExecFunc,
      F.Placed, N.RestAgrees, RunFn, R.Leads, N.CameBack, MemoryEnv, InMemory, GenFunc;
    CountsAgree(fs, p', numbers, g);
    var g' := numbers[g];
    var c := L.PlaceOf(p', g', image);
    CalledFully(c.fn, f, args, m);
    var env := MemoryEnv(f, m.mem);
    var r := ExecFunc(fs[g], args, n);
    MemoryAgrees(c.fn, f, args, m, [Enter(c.fn.name, args)]);
    assert [] + [Enter(c.fn.name, args)] == [Enter(c.fn.name, args)];
    var k0 := CompiledAndOptimized(fs, p', numbers, env, g, args, [], n);
    L.ProgramPlaced(p', tail, image, g');
    FunctionIsCode(p', g');
    m', k := m, 0;
    if r.Returned? {
      RunsReturn(env, p', g', fs[g], args, r, n, k0);
      m', k := N.FnRuns(env, p', g', c, f, args, [], m, k0);
    } else if r.Cut? {
      RunsOn(env, p', g', fs[g], args, r, n, k0);
      m', k := N.FnRuns(env, p', g', c, f, args, [], m, n);
    }
  }

  /** The code that `Build` returns, wherever it is loaded: calling the entrance
      of a kept source function does what the source function says. */
  lemma BuildRuns(fs: seq<Func>, code: seq<E.Byte>, p': Program, numbers: map<nat, nat>, org: nat,
                  g: nat, args: seq<Word>, f: nat, m: X86.Machine, n: nat) returns (m': X86.Machine, k: nat)
    requires Accepted(fs) && AllDeclsOk(fs)
    requires Optimized(LowerProgram(fs), p', numbers) && L.EmittableProgram(p') && TextOf(p', code)
    requires R.ImageOk(R.Image(org, code))
    requires g in numbers && g < |fs| && |args| == |fs[g].args| && numbers[g] < |p'.functions|
    requires m.rip == org + L.Entrance(p', numbers[g]) && N.Calls(p'.functions[numbers[g]], f, args, m)
    ensures Serves(R.Image(org, code), f, ExecFunc(fs[g], args, n), n, m, m', k)
  {
    hide Accepted, AllDeclsOk, Optimized, L.EmittableProgram, L.ProgramSelectable, L.ImageOf, N.Calls, ExecFunc,
      Serves, GenFunc, L.Entrance, L.Positions, S.AddAll, S.PatchAll, S.FixupsOk, L.TextAsm;
    I.GeneratedImage(p', code, org);
    m', k := MachineRuns(fs, p', numbers, [], R.Image(org, code), g, args, f, m, n);
  }

  lemma FunctionIsCode(p: Program, g: nat)
    requires L.EmittableProgram(p) && g < |p.functions|
    ensures !p.functions[g].isExtern
  {
    hide L.Emittable;
  }

  lemma RunsReturn(env: Env, p: Program, id: nat, f: Func, args: seq<Word>, r: Result, n: nat, k: nat)
    requires RunsAs(env, p, id, f, args, [], r, n, k) && r.Returned?
    ensures var o := RunFn(env, p, id, args, [], k); o.Done? && o.value == r.v
  {
    hide RunFn;
  }

  lemma RunsOn(env: Env, p: Program, id: nat, f: Func, args: seq<Word>, r: Result, n: nat, k: nat)
    requires RunsAs(env, p, id, f, args, [], r, n, k) && r.Cut?
    ensures RunFn(env, p, id, args, [], n).Running?
  {
    hide RunFn;
  }
}
