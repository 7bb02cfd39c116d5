/** What a program does.

    Everything outside the registers and the private locals of the running
    activation is represented by the history of effects so far. The environment
    answers a read, and the result of an effect, as an arbitrary function of
    that history, so it stands for any deterministic memory and system. A read
    or effect without an answer traps. */
module Semantics {
  import opened Words
  import opened Ir

  datatype Action =
    | WriteSlot(local: Local, v: Word)
    | WriteField(base: Word, offset: nat, v: Word)
    | WriteElement(base: Word, index: Word, elemSize: nat, v: Word)
    | WriteGlobal(name: string, v: Word)
    | BeginRegion(ptr: Word, size: nat)
    | AllocRegion(ptr: Word, bytes: Word)
    | EndRegion(ptr: Word)
    | Extern(name: string, args: seq<Word>)

  datatype Query =
    | ReadSlot(local: Local)
    | SlotAddress(local: Local)
    | StackAddress(offset: nat)
    | ReadField(base: Word, offset: nat)
    | ReadElement(base: Word, index: Word, elemSize: nat)
    | ReadGlobal(name: string)
    | GlobalAddress(name: string)
    | StringAddress(text: string)
    | FloatConst(bits: Word, kind: TypeKind)
    | OtherBinary(op: BinaryOp, kind: TypeKind, a: Word, b: Word)
    | Convert(srcKind: TypeKind, targetKind: TypeKind, castKind: CastKind, v: Word)
    | Uninitialised(local: Local)

  datatype Event =
    | Did(action: Action, result: Word)
    | Enter(name: string, args: seq<Word>)
    | Leave(value: Word)

  type History = seq<Event>

  /** `inMemory` lists the locals, by function name, that memory effects may
      read or write; all others are private to their activation. */
  datatype Env = Env(
    query: imap<(Query, History), Word>,
    act: imap<(Action, History), Word>,
    inMemory: iset<(string, Local)>)

  datatype State = State(regs: map<Reg, Word>, locals: map<Local, Word>, h: History)

  /** A run is cut off after a given number of jumps, branches and calls:
      `Running` carries the effects up to that point. */
  datatype Outcome = Done(value: Word, h: History) | Running(h: History) | Stuck

  /** What one instruction does, given the values of its operands. */
  datatype Act =
    | Trap
    | Value(v: Word)
    | Effect(v: Word, h: History)
    | Put(local: Local, v: Word)
    | Go(target: Label)
    | Skip
    | Finish(v: Word)
    | Invoke(funcId: nat, args: seq<Word>)

  ghost function Ask(env: Env, q: Query, h: History): Act {
    if (q, h) in env.query then Value(env.query[(q, h)]) else Trap
  }

  ghost function Perform(env: Env, a: Action, h: History): Act {
    if (a, h) in env.act then Effect(env.act[(a, h)], h + [Did(a, env.act[(a, h)])]) else Trap
  }

  /** The values of `rs`, unless one of them has none yet. */
  ghost function Vals(regs: map<Reg, Word>, rs: seq<Reg>): (vs: Option<seq<Word>>)
    ensures vs.Some? <==> forall i :: 0 <= i < |rs| ==> rs[i] in regs
    ensures vs.Some? ==> |vs.value| == |rs| && forall i :: 0 <= i < |rs| ==> vs.value[i] == regs[rs[i]]
  {
    if forall i :: 0 <= i < |rs| ==> rs[i] in regs
    then Some(seq(|rs|, i requires 0 <= i < |rs| && rs[i] in regs => regs[rs[i]]))
    else None
  }

  ghost predicate InMemory(env: Env, name: string, l: Local) {
    (name, l) in env.inMemory
  }

  /** The content of the local an instruction reads (0 when it reads none). */
  ghost function Slot(env: Env, name: string, inst: Inst, s: State): Act {
    match LocalRead(inst)
    case None => Value(0)
    case Some(l) =>
      if InMemory(env, name, l) then Ask(env, ReadSlot(l), s.h)
      else if l in s.locals then Value(s.locals[l])
      else Trap
  }

  ghost function ActOf(env: Env, p: Program, inst: Inst, vs: seq<Word>, slot: Word, h: History): Act
    requires |vs| == |Uses(inst)|
  {
    match inst
    case LoadConst(_, value) => Value(Unsigned(value))
    case LoadFloatConst(_, bits, kind) => Ask(env, FloatConst(bits, kind), h)
    case LoadString(_, id) =>
      if id < |p.strings| then Ask(env, StringAddress(p.strings[id].text), h) else Trap
    case LoadLocal(_, _) => Value(slot)
    case StoreLocal(l, _) => Put(l, vs[0])
    case AddrOf(_, l) => Ask(env, SlotAddress(l), h)
    case Binary(op, _, _, _, kind) =>
      if IsScalarIntKind(kind) then
        match EvalInt(op, kind, vs[0], vs[1])
        case None => Trap
        case Some(v) => Value(v)
      else Ask(env, OtherBinary(op, kind, vs[0], vs[1]), h)
    case Call(_, f, _, _) => Invoke(f, vs)
    case Cast(_, _, sk, tk, ck) => Ask(env, Convert(sk, tk, ck, vs[0]), h)
    case Return(_) => Finish(vs[0])
    case Jump(l) => Go(l)
    case Branch(_, a, b) => Go(if vs[0] != 0 then a else b)
    case LabelMark(_) => Skip
    case GetField(_, _, o) => Ask(env, ReadField(vs[0], o), h)
    case SetField(_, _, o) => Perform(env, WriteField(vs[0], o, vs[1]), h)
    case RegionBegin(_, size) => Perform(env, BeginRegion(slot, size), h)
    case RegionAlloc(_, _, _) => Perform(env, AllocRegion(slot, vs[0]), h)
    case RegionEnd(_) => Perform(env, EndRegion(slot), h)
    case Alloca(_, o) => Ask(env, StackAddress(o), h)
    case LoadGlobal(_, g) =>
      if g < |p.globals| then Ask(env, ReadGlobal(p.globals[g].name), h) else Trap
    case StoreGlobal(g, _) =>
      if g < |p.globals| then Perform(env, WriteGlobal(p.globals[g].name, vs[0]), h) else Trap
    case LoadGlobalAddr(_, g) =>
      if g < |p.globals| then Ask(env, GlobalAddress(p.globals[g].name), h) else Trap
    case LoadElement(_, _, _, size) => Ask(env, ReadElement(vs[0], vs[1], size), h)
    case StoreElement(_, _, _, size) => Perform(env, WriteElement(vs[0], vs[1], size, vs[2]), h)
  }

  /** What the instruction does in state `s`; a register or local without a value
      traps, and a store to a memory local is an effect. */
  ghost function StepOf(env: Env, p: Program, name: string, inst: Inst, s: State): Act {
    match Vals(s.regs, Uses(inst))
    case None => Trap
    case Some(vs) =>
      match Slot(env, name, inst, s)
      case Value(slot) =>
        (match ActOf(env, p, inst, vs, slot, s.h)
         case Put(l, v) =>
           if InMemory(env, name, l) then Perform(env, WriteSlot(l, v), s.h)
           else if l in s.locals then Put(l, v)
           else Trap
         case other => other)
      case _ => Trap
  }

  /** The registers after an instruction that computed `v`. */
  function SetDef(inst: Inst, regs: map<Reg, Word>, v: Word): map<Reg, Word> {
    match Def(inst)
    case None => regs
    case Some(d) => if inst.Call? && inst.sret then regs - {d} else regs[d := v]
  }

  /** An action that neither jumps, calls nor returns. */
  predicate Straight(a: Act) {
    a.Value? || a.Effect? || a.Put? || a.Skip?
  }

  /** The state after such an action of `inst`. */
  function After(inst: Inst, s: State, a: Act): State
    requires Straight(a)
  {
    match a
    case Value(v) => s.(regs := SetDef(inst, s.regs, v))
    case Effect(v, h) => s.(regs := SetDef(inst, s.regs, v), h := h)
    case Put(l, v) => s.(locals := s.locals[l := v])
    case Skip => s
  }

  ghost function InitLocals(env: Env, fn: Fn, args: seq<Word>, h: History): (m: map<Local, Word>)
    ensures forall l: Local :: l in m <==> l < fn.localCount
  {
    map l: nat | 0 <= l < fn.localCount ::
      if l < |args| then args[l]
      else if (Uninitialised(l), h) in env.query then env.query[(Uninitialised(l), h)]
      else 0
  }

  ghost function Entry(env: Env, fn: Fn, args: seq<Word>, h: History): State {
    var h1 := h + [Enter(fn.name, args)];
    State(map[], InitLocals(env, fn, args, h1), h1)
  }

  /** Run function `g` of `p` until it returns or `n` jumps and calls have happened. */
  ghost function RunFn(env: Env, p: Program, g: nat, args: seq<Word>, h: History, n: nat): Outcome
    decreases n, 1, 0
  {
    if g >= |p.functions| then Stuck
    else
      var fn := p.functions[g];
      if fn.isExtern then
        match Perform(env, Extern(fn.name, args), h)
        case Effect(v, h1) => Done(v, h1)
        case _ => Stuck
      else Exec(env, p, g, 0, Entry(env, fn, args, h), n)
  }

  /** Continue function `g` at instruction `pc`. */
  ghost function Exec(env: Env, p: Program, g: nat, pc: nat, s: State, n: nat): Outcome
    requires g < |p.functions| && pc <= |p.functions[g].body|
    decreases n, 0, |p.functions[g].body| - pc
  {
    var fn := p.functions[g];
    if pc == |fn.body| then Stuck
    else
      var inst := fn.body[pc];
      match StepOf(env, p, fn.name, inst, s)
      case Trap => Stuck
      case Finish(v) => Done(v, s.h + [Leave(v)])
      case Go(l) =>
        if n == 0 then Running(s.h)
        else (match FindLabel(fn.body, l, 0)
              case None => Stuck
              case Some(t) => Exec(env, p, g, t, s, n - 1))
      case Invoke(f, args) =>
        if n == 0 then Running(s.h)
        else (match RunFn(env, p, f, args, s.h, n - 1)
              case Done(v, h) => Exec(env, p, g, pc + 1, After(inst, s, Effect(v, h)), n - 1)
              case other => other)
      case a => Exec(env, p, g, pc + 1, After(inst, s, a), n)
  }

  // One step of a run, by the kind of action.

  lemma ExecStraight(env: Env, p: Program, g: nat, pc: nat, s: State, n: nat, a: Act)
    requires g < |p.functions| && pc < |p.functions[g].body|
    requires StepOf(env, p, p.functions[g].name, p.functions[g].body[pc], s) == a && Straight(a)
    ensures Exec(env, p, g, pc, s, n) == Exec(env, p, g, pc + 1, After(p.functions[g].body[pc], s, a), n)
  {
  }

  lemma ExecInvoke(env: Env, p: Program, g: nat, pc: nat, s: State, n: nat, f: nat, args: seq<Word>, r: Outcome)
    requires g < |p.functions| && pc < |p.functions[g].body| && n > 0
    requires StepOf(env, p, p.functions[g].name, p.functions[g].body[pc], s) == Invoke(f, args)
    requires RunFn(env, p, f, args, s.h, n - 1) == r && r.Done?
    ensures Exec(env, p, g, pc, s, n)
         == Exec(env, p, g, pc + 1, After(p.functions[g].body[pc], s, Effect(r.value, r.h)), n - 1)
  {
  }
}
