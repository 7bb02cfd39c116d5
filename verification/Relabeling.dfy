/** Renumbering functions, strings and globals does not change any run. */
module Relabeling {
  import opened Words
  import opened Ir
  import opened Semantics
  import opened WellFormed
  import opened Simulation

  /** The new number of each renumbered function, string and global; others keep theirs. */
  datatype Remap = Remap(fns: map<nat, nat>, strings: map<nat, nat>, globals: map<nat, nat>)

  function RelabelInst(m: Remap, inst: Inst): Inst {
    match inst
    case Call(d, f, args, sret) => Call(d, Ren(m.fns, f), args, sret)
    case LoadString(d, s) => LoadString(d, Ren(m.strings, s))
    case LoadGlobal(d, g) => LoadGlobal(d, Ren(m.globals, g))
    case StoreGlobal(g, r) => StoreGlobal(Ren(m.globals, g), r)
    case LoadGlobalAddr(d, g) => LoadGlobalAddr(d, Ren(m.globals, g))
    case _ => inst
  }

  function RelabelBody(m: Remap, body: seq<Inst>): (out: seq<Inst>)
    ensures |out| == |body|
    ensures forall i :: 0 <= i < |body| ==> out[i] == RelabelInst(m, body[i])
  {
    seq(|body|, i requires 0 <= i < |body| => RelabelInst(m, body[i]))
  }

  /** The same function under new numbers. */
  ghost predicate SameFn(m: Remap, f: Fn, f': Fn) {
    f' == f.(id := f'.id, body := RelabelBody(m, f.body))
  }

  /** Every id in the instruction still names the same thing. */
  ghost predicate Agrees(p: Program, p': Program, m: Remap, ks: set<nat>, inst: Inst) {
    match inst
    case Call(_, f, _, _) => f in ks
    case LoadString(_, s) =>
      s < |p.strings| && Ren(m.strings, s) < |p'.strings| && p'.strings[Ren(m.strings, s)].text == p.strings[s].text
    case LoadGlobal(_, g) => SameGlobal(p, p', m, g)
    case StoreGlobal(g, _) => SameGlobal(p, p', m, g)
    case LoadGlobalAddr(_, g) => SameGlobal(p, p', m, g)
    case _ => true
  }

  ghost predicate SameGlobal(p: Program, p': Program, m: Remap, g: nat) {
    g < |p.globals| && Ren(m.globals, g) < |p'.globals| && p'.globals[Ren(m.globals, g)] == p.globals[g]
  }

  /** `p'` holds the functions `ks` of `p` under new numbers. */
  ghost predicate Relabeled(p: Program, p': Program, m: Remap, ks: set<nat>) {
    forall g :: g in ks ==>
      && g < |p.functions| && Ren(m.fns, g) < |p'.functions|
      && SameFn(m, p.functions[g], p'.functions[Ren(m.fns, g)])
      && forall i :: 0 <= i < |p.functions[g].body| ==> Agrees(p, p', m, ks, p.functions[g].body[i])
  }

  function RelabelAct(m: Remap, a: Act): Act {
    if a.Invoke? then Invoke(Ren(m.fns, a.funcId), a.args) else a
  }

  lemma RelabelShape(m: Remap, inst: Inst)
    ensures Classify(RelabelInst(m, inst)) == Classify(inst)
    ensures LocalRead(RelabelInst(m, inst)) == LocalRead(inst)
    ensures forall s: State, a :: Straight(a) ==> After(RelabelInst(m, inst), s, a) == After(inst, s, a)
  {
  }

  lemma ActRelabel(env: Env, p: Program, p': Program, m: Remap, ks: set<nat>, inst: Inst,
                   vs: seq<Word>, slot: Word, h: History)
    requires Agrees(p, p', m, ks, inst) && |vs| == |Uses(inst)| == |Uses(RelabelInst(m, inst))|
    ensures ActOf(env, p', RelabelInst(m, inst), vs, slot, h) == RelabelAct(m, ActOf(env, p, inst, vs, slot, h))
    ensures ActOf(env, p, inst, vs, slot, h).Invoke? ==> ActOf(env, p, inst, vs, slot, h).funcId in ks
  {
  }

  lemma StepRelabel(env: Env, p: Program, p': Program, m: Remap, ks: set<nat>, name: string, inst: Inst, s: State)
    requires Agrees(p, p', m, ks, inst)
    ensures StepOf(env, p', name, RelabelInst(m, inst), s) == RelabelAct(m, StepOf(env, p, name, inst, s))
    ensures StepOf(env, p, name, inst, s).Invoke? ==> StepOf(env, p, name, inst, s).funcId in ks
  {
    hide ActOf, RelabelInst, Classify, LocalRead, Agrees;
    RelabelShape(m, inst);
    var inst' := RelabelInst(m, inst);
    assert Uses(inst') == Uses(inst);
    var vs := Vals(s.regs, Uses(inst));
    var slot := Slot(env, name, inst, s);
    assert Slot(env, name, inst', s) == slot;
    if vs.Some? && slot.Value? {
      ActRelabel(env, p, p', m, ks, inst, vs.value, slot.v, s.h);
    }
  }

  lemma {:induction false} FindRelabel(m: Remap, body: seq<Inst>, l: Label, from: nat)
    requires from <= |body|
    ensures FindLabel(RelabelBody(m, body), l, from) == FindLabel(body, l, from)
    decreases |body| - from
  {
    if from < |body| {
      FindRelabel(m, body, l, from + 1);
    }
  }

  lemma RelabeledAt(p: Program, p': Program, m: Remap, ks: set<nat>, g: nat, pc: nat)
    requires Relabeled(p, p', m, ks) && g in ks
    ensures g < |p.functions| && Ren(m.fns, g) < |p'.functions|
    ensures p'.functions[Ren(m.fns, g)].name == p.functions[g].name
    ensures p'.functions[Ren(m.fns, g)].body == RelabelBody(m, p.functions[g].body)
    ensures pc < |p.functions[g].body| ==> Agrees(p, p', m, ks, p.functions[g].body[pc])
  {
  }

  /** Runs under the new numbers are equal, trapping or not. */
  lemma {:induction false} RunRelabel(env: Env, p: Program, p': Program, m: Remap, ks: set<nat>,
                                      g: nat, args: seq<Word>, h: History, n: nat)
    requires Relabeled(p, p', m, ks) && g in ks
    ensures RunFn(env, p', Ren(m.fns, g), args, h, n) == RunFn(env, p, g, args, h, n)
    decreases n, 1, 0
  {
    var f, f' := p.functions[g], p'.functions[Ren(m.fns, g)];
    if !f.isExtern {
      var s := Entry(env, f, args, h);
      assert Entry(env, f', args, h).locals == s.locals;
      ExecRelabel(env, p, p', m, ks, g, 0, s, n);
    }
  }

  lemma {:induction false} ExecRelabel(env: Env, p: Program, p': Program, m: Remap, ks: set<nat>,
                                       g: nat, pc: nat, s: State, n: nat)
    requires Relabeled(p, p', m, ks) && g in ks && pc <= |p.functions[g].body|
    ensures Exec(env, p', Ren(m.fns, g), pc, s, n) == Exec(env, p, g, pc, s, n)
    decreases n, 0, |p.functions[g].body| - pc
  {
    hide StepOf, After, Relabeled, Agrees, RelabelInst;
    RelabeledAt(p, p', m, ks, g, pc);
    var f := p.functions[g];
    if pc < |f.body| {
      var inst := f.body[pc];
      var a := StepOf(env, p, f.name, inst, s);
      StepRelabel(env, p, p', m, ks, f.name, inst, s);
      RelabelShape(m, inst);
      if a.Go? {
        FindRelabel(m, f.body, a.target, 0);
        if n > 0 && FindLabel(f.body, a.target, 0).Some? {
          ExecRelabel(env, p, p', m, ks, g, FindLabel(f.body, a.target, 0).value, s, n - 1);
        }
      } else if a.Invoke? {
        if n > 0 {
          InvokeRelabel(env, p, p', m, ks, g, pc, s, n);
        }
      } else if Straight(a) {
        ExecRelabel(env, p, p', m, ks, g, pc + 1, After(inst, s, a), n);
      }
    }
  }

  lemma {:induction false} InvokeRelabel(env: Env, p: Program, p': Program, m: Remap, ks: set<nat>,
                                         g: nat, pc: nat, s: State, n: nat)
    requires Relabeled(p, p', m, ks) && g in ks && pc < |p.functions[g].body| && n > 0
    requires StepOf(env, p, p.functions[g].name, p.functions[g].body[pc], s).Invoke?
    ensures Exec(env, p', Ren(m.fns, g), pc, s, n) == Exec(env, p, g, pc, s, n)
    decreases n, 0, |p.functions[g].body| - pc, 0
  {
    hide StepOf, After, Relabeled, Agrees, RelabelInst;
    RelabeledAt(p, p', m, ks, g, pc);
    var f := p.functions[g];
    var inst := f.body[pc];
    var a := StepOf(env, p, f.name, inst, s);
    StepRelabel(env, p, p', m, ks, f.name, inst, s);
    RelabelShape(m, inst);
    RunRelabel(env, p, p', m, ks, a.funcId, a.args, s.h, n - 1);
    var r := RunFn(env, p, a.funcId, a.args, s.h, n - 1);
    if r.Done? {
      ExecRelabel(env, p, p', m, ks, g, pc + 1, After(inst, s, Effect(r.value, r.h)), n - 1);
    }
  }
}
