/** A condition on the source program under which its runs are kept: memory
    effects touch only locals whose address is handed to one of them. */
module AddressUse {
  import opened Words
  import opened Ir
  import opened Semantics
  import opened WellFormed
  import opened Compaction
  import opened Simulation
  import opened Rewriting
  import opened Refinement
  import opened Relabeling
  import opened Pruning
  import opened Tables
  import opened LabelPass
  import opened Optimizer

  /** The instruction has an effect outside the private locals, or ends or
      directs the run: no pass removes it. */
  predicate Lasting(inst: Inst) {
    !Pure(inst) && !inst.StoreLocal?
  }

  ghost predicate HandsOver(body: seq<Inst>, i: nat, j: nat, l: Local) {
    && i < |body| && j < |body| && body[i].AddrOf? && body[i].local == l
    && Lasting(body[j]) && body[i].dst in Uses(body[j])
  }

  /** The address of `l` is an operand of such an instruction. */
  ghost predicate HandedOver(body: seq<Inst>, l: Local) {
    exists i: nat, j: nat :: HandsOver(body, i, j, l)
  }

  /** Memory effects touch only such locals. */
  ghost predicate MemoryHandedOver(env: Env, p: Program) {
    forall g, l {:trigger InMemory(env, p.functions[g].name, l)} ::
      0 <= g < |p.functions| && InMemory(env, p.functions[g].name, l) ==> HandedOver(p.functions[g].body, l)
  }

  // --- one rewriting ---

  lemma LastingStays(body: seq<Inst>, c: Cert, j: nat, d: Reg)
    requires CertOk(body, c) && j < |body| && Lasting(body[j]) && d in Uses(body[j])
    ensures !c.dead[j] && d in c.regs[j] && c.newBody[j] == Rename(c.ren, body[j])
  {
    hide FoldsTo, Copies, FlowOk;
    assert StepOk(body, c, j);
  }

  /** A register that matters where it is used matters behind its definition. */
  lemma {:induction false} MattersBack(body: seq<Inst>, c: Cert, i: nat, pc: nat, d: Reg)
    requires WfBody(body) && CertOk(body, c) && pc < |body| && !body[pc].LabelMark?
    requires d in Flow(body, pc) && d in c.regs[pc]
    requires i < |body| && Def(body[i]) == Some(d)
    ensures d in c.regs[i + 1]
    decreases pc
  {
    var q := pc - 1;
    assert StepOk(body, c, q);
    assert !IsTerminator(body[q]) && Succ(body, q, pc);
    assert FlowOk(body, c, q, pc);
    if Def(body[q]) == Some(d) {
      assert q == i;
    } else {
      MattersBack(body, c, i, q, d);
    }
  }

  lemma AddressStays(body: seq<Inst>, c: Cert, i: nat)
    requires CertOk(body, c) && i < |body| && body[i].AddrOf? && body[i].dst in c.regs[i + 1]
    ensures !c.dead[i] && c.newBody[i] == body[i] && body[i].dst !in c.ren
  {
    hide FoldsTo, Copies, FlowOk;
    assert StepOk(body, c, i);
  }

  lemma StepHandsOver(f: Fn, f': Fn, c: Cert, i: nat, j: nat, l: Local)
    requires WfBody(f.body) && Certified(f, f', c) && HandsOver(f.body, i, j, l)
    ensures HandedOver(f'.body, l)
  {
    hide CertOk, WfBody, Kept;
    var d := f.body[i].dst;
    UseFlows(f.body, j, d);
    SizesOk(f.body, c);
    LastingStays(f.body, c, j, d);
    MattersBack(f.body, c, i, j, d);
    AddressStays(f.body, c, i);
    RenameUses(c.ren, f.body[j]);
    var u :| 0 <= u < |Uses(f.body[j])| && Uses(f.body[j])[u] == d;
    assert Uses(c.newBody[j])[u] == d;
    CompactAt(c.newBody, c.dead, i);
    CompactAt(c.newBody, c.dead, j);
    LastingRename(c.ren, f.body[j]);
    assert HandsOver(f'.body, Pos(c.dead, i), Pos(c.dead, j), l);
  }

  lemma LastingRename(m: map<Reg, Reg>, inst: Inst)
    ensures Lasting(Rename(m, inst)) == Lasting(inst)
  {
  }

  lemma SizesOk(body: seq<Inst>, c: Cert)
    requires CertOk(body, c)
    ensures |body| == |c.newBody| == |c.dead| && |c.regs| == |c.locals| == |body| + 1
  {
  }

  lemma UseFlows(body: seq<Inst>, j: nat, d: Reg)
    requires WfBody(body) && j < |body| && d in Uses(body[j])
    ensures d in Flow(body, j) && !body[j].LabelMark?
  {
  }

  /** The function keeps its name, and the locals that are handed over still are. */
  ghost predicate Carries(f: Fn, f': Fn) {
    && f'.name == f.name
    && forall l {:trigger HandedOver(f'.body, l)} :: HandedOver(f.body, l) ==> HandedOver(f'.body, l)
  }

  lemma CertCarries(f: Fn, f': Fn, c: Cert)
    requires WfBody(f.body) && Certified(f, f', c)
    ensures Carries(f, f')
  {
    forall l {:trigger HandedOver(f'.body, l)} | HandedOver(f.body, l)
      ensures HandedOver(f'.body, l)
    {
      var i: nat, j: nat :| HandsOver(f.body, i, j, l);
      StepHandsOver(f, f', c, i, j, l);
    }
  }

  lemma TurnCarries(f: Fn, f': Fn)
    requires WfFn(f) && (f' == f || FnStep(f, f'))
    ensures WfFn(f') && Carries(f, f')
  {
    hide WfBody, Certified, HandedOver;
    if f' != f {
      StepKeepsShape(f, f');
      var c := StepCert(f, f');
      CertCarries(f, f', c);
    }
  }

  lemma CarriesTrans(f: Fn, f': Fn, f'': Fn)
    requires Carries(f, f') && Carries(f', f'')
    ensures Carries(f, f'')
  {
    hide HandedOver;
  }

  lemma RoundCarries(f: Fn, f': Fn, skip: Skips)
    requires WfFn(f) && FnRounded(f, f', skip)
    ensures WfFn(f') && Carries(f, f')
  {
    hide WfFn, FnStep, Carries;
    TurnCarries(f, f);
    if !f.isExtern && f.body != [] {
      var a, b, c :| FoldTurn(f, a, skip) && DeadTurn(a, b, skip) && StoreTurn(b, c, skip) && DeadTurn(c, f', skip);
      TurnCarries(f, a);
      TurnCarries(a, b);
      TurnCarries(b, c);
      TurnCarries(c, f');
      CarriesTrans(f, a, b);
      CarriesTrans(f, b, c);
      CarriesTrans(f, c, f');
    }
  }

  // --- whole programs ---

  ghost predicate FnsWf(p: Program) {
    forall g {:trigger p.functions[g]} :: 0 <= g < |p.functions| ==> WfFn(p.functions[g])
  }

  ghost predicate Origin(p: Program, f': Fn, g: nat) {
    g < |p.functions| && Carries(p.functions[g], f')
  }

  ghost predicate HasOrigin(p: Program, f': Fn) {
    exists g: nat :: Origin(p, f', g)
  }

  /** Every function of `p'` comes from one of `p`. */
  ghost predicate Carried(p: Program, p': Program) {
    forall k {:trigger p'.functions[k]} :: 0 <= k < |p'.functions| ==> HasOrigin(p, p'.functions[k])
  }

  lemma InPlace(p: Program, p': Program)
    requires |p'.functions| == |p.functions|
    requires forall k {:trigger p'.functions[k]} :: 0 <= k < |p'.functions| ==> Carries(p.functions[k], p'.functions[k])
    ensures Carried(p, p')
  {
    hide Carries;
    forall k {:trigger p'.functions[k]} | 0 <= k < |p'.functions|
      ensures HasOrigin(p, p'.functions[k])
    {
      assert Origin(p, p'.functions[k], k);
    }
  }

  lemma CarriedMemory(env: Env, p: Program, p': Program)
    requires MemoryHandedOver(env, p) && Carried(p, p')
    ensures MemoryHandedOver(env, p')
  {
    hide HandedOver;
    forall k, l {:trigger InMemory(env, p'.functions[k].name, l)} | 0 <= k < |p'.functions| && InMemory(env, p'.functions[k].name, l)
      ensures HandedOver(p'.functions[k].body, l)
    {
      var g: nat :| Origin(p, p'.functions[k], g);
      assert InMemory(env, p.functions[g].name, l);
    }
  }

  lemma RoundedMemory(env: Env, p: Program, p': Program, skip: Skips)
    requires FnsWf(p) && MemoryHandedOver(env, p) && Rounded(p, p', skip)
    ensures FnsWf(p') && MemoryHandedOver(env, p')
  {
    hide WfFn, FnRounded, Carries, MemoryHandedOver;
    forall k {:trigger p'.functions[k]} | 0 <= k < |p'.functions|
      ensures WfFn(p'.functions[k]) && Carries(p.functions[k], p'.functions[k])
    {
      RoundCarries(p.functions[k], p'.functions[k], skip);
    }
    InPlace(p, p');
    CarriedMemory(env, p, p');
  }

  lemma {:induction false} TraceMemory(env: Env, ps: seq<Program>, skip: Skips, k: nat)
    requires Trace(ps, skip) && k < |ps| && FnsWf(ps[0]) && MemoryHandedOver(env, ps[0])
    ensures FnsWf(ps[k]) && MemoryHandedOver(env, ps[k])
  {
    hide FnsWf, MemoryHandedOver, Rounded;
    if k > 0 {
      TraceMemory(env, ps, skip, k - 1);
      RoundedMemory(env, ps[k - 1], ps[k], skip);
    }
  }

  /** New numbers change no address and no operand. */
  lemma RelabelCarries(m: Remap, f: Fn, f': Fn)
    requires f'.name == f.name && f'.body == RelabelBody(m, f.body)
    ensures Carries(f, f')
  {
    hide RelabelInst;
    forall l {:trigger HandedOver(f'.body, l)} | HandedOver(f.body, l)
      ensures HandedOver(f'.body, l)
    {
      var i: nat, j: nat :| HandsOver(f.body, i, j, l);
      RelabelLasting(m, f.body[i]);
      RelabelLasting(m, f.body[j]);
      assert HandsOver(f'.body, i, j, l);
    }
  }

  lemma RelabelLasting(m: Remap, inst: Inst)
    ensures Lasting(RelabelInst(m, inst)) == Lasting(inst) && Uses(RelabelInst(m, inst)) == Uses(inst)
    ensures inst.AddrOf? ==> RelabelInst(m, inst) == inst
  {
  }

  lemma RelabelWf(m: Remap, f: Fn, f': Fn)
    requires WfFn(f) && f'.body == RelabelBody(m, f.body)
    ensures WfFn(f')
  {
    hide WfFn, RelabelBody;
    WfRelabel(m, f);
    WfFnOfBody(f.(body := RelabelBody(m, f.body)), f');
  }

  lemma PrunedOrigin(p: Program, k: nat) returns (g: nat)
    requires FnsWf(p) && true in Unreached(p) && k < |Pruned(p).functions|
    ensures WfFn(Pruned(p).functions[k]) && Origin(p, Pruned(p).functions[k], g)
  {
    hide WfFn, Carries, Kept, RelabelBody, Reachable;
    var dead := Unreached(p);
    var fs := Renumbered(p.functions, dead);
    g := KeptOrigin(fs, dead, |fs|, k);
    RelabelCarries(PruneMap(dead), p.functions[g], Pruned(p).functions[k]);
    RelabelWf(PruneMap(dead), p.functions[g], Pruned(p).functions[k]);
  }

  lemma PrunedMemory(env: Env, p: Program)
    requires FnsWf(p) && MemoryHandedOver(env, p)
    ensures FnsWf(Pruned(p)) && MemoryHandedOver(env, Pruned(p))
  {
    hide WfFn, Carries, MemoryHandedOver, Pruned, Unreached, Origin;
    var p' := Pruned(p);
    if true in Unreached(p) {
      forall k {:trigger p'.functions[k]} | 0 <= k < |p'.functions|
        ensures WfFn(p'.functions[k]) && HasOrigin(p, p'.functions[k])
      {
        var g := PrunedOrigin(p, k);
      }
      CarriedMemory(env, p, p');
    } else {
      PrunedSame(p);
    }
  }

  lemma RelabeledMemory(env: Env, p: Program, p': Program, m: Remap)
    requires FnsWf(p) && MemoryHandedOver(env, p) && p'.functions == RelabelAll(m, p.functions)
    ensures FnsWf(p') && MemoryHandedOver(env, p')
  {
    hide WfFn, Carries, MemoryHandedOver, RelabelBody;
    forall k {:trigger p'.functions[k]} | 0 <= k < |p'.functions|
      ensures WfFn(p'.functions[k]) && Carries(p.functions[k], p'.functions[k])
    {
      RelabelCarries(m, p.functions[k], p'.functions[k]);
      RelabelWf(m, p.functions[k], p'.functions[k]);
    }
    InPlace(p, p');
    CarriedMemory(env, p, p');
  }

  lemma TablesMemory(env: Env, p: Program)
    requires FnsWf(p) && MemoryHandedOver(env, p)
    ensures FnsWf(StringsCompacted(p)) && MemoryHandedOver(env, StringsCompacted(p))
    ensures FnsWf(GlobalsCompacted(p)) && MemoryHandedOver(env, GlobalsCompacted(p))
  {
    hide FnsWf, MemoryHandedOver, RelabelAll, Compact, RenumberStrings, Mentioned;
    if true in Unmentioned(p, |p.strings|, true) {
      RelabeledMemory(env, p, StringsCompacted(p), TableMap(Unmentioned(p, |p.strings|, true), true));
    }
    if true in Unmentioned(p, |p.globals|, false) {
      RelabeledMemory(env, p, GlobalsCompacted(p), TableMap(Unmentioned(p, |p.globals|, false), false));
    }
  }

  lemma LabelsMemory(env: Env, p: Program)
    requires FnsWf(p) && MemoryHandedOver(env, p)
    ensures MemoryHandedOver(env, LabelsCompacted(p))
  {
    hide Carries, MemoryHandedOver, WithoutLabels, Certified, WfBody;
    var p' := LabelsCompacted(p);
    forall k {:trigger p'.functions[k]} | 0 <= k < |p'.functions|
      ensures Carries(p.functions[k], p'.functions[k])
    {
      assert WfFn(p.functions[k]);
      var c := LabelCert(p.functions[k]);
      CertCarries(p.functions[k], p'.functions[k], c);
    }
    InPlace(p, p');
    CarriedMemory(env, p, p');
  }

  lemma TrimmedMemory(env: Env, p: Program, keepAllFunctions: bool, skip: Skips)
    requires FnsWf(p) && MemoryHandedOver(env, p)
    ensures MemoryHandedOver(env, Trimmed(p, keepAllFunctions, skip))
  {
    hide FnsWf, MemoryHandedOver, Pruned, StringsCompacted, GlobalsCompacted, LabelsCompacted;
    if !skip.prune {
      PrunedMemory(env, p);
      var p1 := if keepAllFunctions then p else Pruned(p);
      TablesMemory(env, p1);
      TablesMemory(env, StringsCompacted(p1));
      LabelsMemory(env, GlobalsCompacted(StringsCompacted(p1)));
    }
  }

  /** A local that is handed over has its address taken. */
  lemma HandedOverFits(env: Env, p: Program)
    requires MemoryHandedOver(env, p)
    ensures EnvFits(env, p, AllFns(p))
  {
    forall g, l | g in AllFns(p) && InMemory(env, p.functions[g].name, l)
      ensures l in AddrTaken(p.functions[g].body)
    {
      var i: nat, j: nat :| HandsOver(p.functions[g].body, i, j, l);
    }
  }

  /** What `Optimize` promises, under the condition on the program it was given:
      every run that does not trap is kept, at every level. */
  lemma RunsKeptFromSource(p: Program, trace: seq<Program>, level: OptLevel, keepAllFunctions: bool, skip: Skips,
                           p': Program, numbers: map<nat, nat>, env: Env, g: nat, args: seq<Word>, h: History, n: nat)
    requires WfProgram(p) && Optimized(p, p', numbers)
    requires level.O0? ==> p' == p
    requires !level.O0? ==> Trace(trace, skip) && trace[0] == p
    requires level.O1? ==> p' == trace[|trace| - 1]
    requires level.O2? || level.O3? ==> p' == Trimmed(trace[|trace| - 1], keepAllFunctions, skip)
    requires MemoryHandedOver(env, p) && g in numbers && RunFn(env, p, g, args, h, n) != Stuck
    ensures RunFn(env, p', numbers[g], args, h, n) == RunFn(env, p, g, args, h, n)
  {
    hide MemoryHandedOver, Trimmed, Rounded, WfFn, RunsKept, RunFn, EnvFits, IdsInRange;
    assert FnsWf(p);
    if !level.O0? {
      TraceMemory(env, trace, skip, |trace| - 1);
      TrimmedMemory(env, trace[|trace| - 1], keepAllFunctions, skip);
    }
    HandedOverFits(env, p');
    RunsKeptAt(p, p', numbers, env, g, args, h, n);
  }
}
