/** The intermediate representation: instructions, functions and programs. */
module Ir {
  import opened Words

  type Reg = nat
  type Local = nat
  type Label = nat

  datatype CastKind = ValueCast | Bitcast

  /** One instruction. A float constant carries the bit pattern of its value. */
  datatype Inst =
    | LoadConst(dst: Reg, imm: Int64)
    | LoadFloatConst(dst: Reg, bits: Word, kind: TypeKind)
    | LoadString(dst: Reg, stringId: nat)
    | LoadLocal(dst: Reg, local: Local)
    | StoreLocal(local: Local, src: Reg)
    | AddrOf(dst: Reg, local: Local)
    | Binary(op: BinaryOp, dst: Reg, lhs: Reg, rhs: Reg, kind: TypeKind)
    | Call(dst: Reg, funcId: nat, args: seq<Reg>, sret: bool)
    | Cast(dst: Reg, src: Reg, srcKind: TypeKind, targetKind: TypeKind, castKind: CastKind)
    | Return(value: Reg)
    | Jump(target: Label)
    | Branch(cond: Reg, thenLabel: Label, elseLabel: Label)
    | LabelMark(id: Label)
    | GetField(dst: Reg, base: Reg, offset: nat)
    | SetField(base: Reg, val: Reg, offset: nat)
    | RegionBegin(regionLocal: Local, regionSize: nat)
    | RegionAlloc(dst: Reg, size: Reg, regionLocal: Local)
    | RegionEnd(regionLocal: Local)
    | Alloca(dst: Reg, offset: nat)
    | LoadGlobal(dst: Reg, globalId: nat)
    | StoreGlobal(globalId: nat, src: Reg)
    | LoadGlobalAddr(dst: Reg, globalId: nat)
    | LoadElement(dst: Reg, base: Reg, index: Reg, elemSize: nat)
    | StoreElement(base: Reg, index: Reg, val: Reg, elemSize: nat)

  datatype IrString = IrString(id: nat, text: string)

  datatype IrGlobal = IrGlobal(name: string, size: nat, isExtern: bool)

  datatype Fn = Fn(
    id: nat,
    name: string,
    argCount: nat,
    localCount: nat,
    tempCount: nat,
    extraStack: nat,
    body: seq<Inst>,
    isExtern: bool,
    isEntry: bool,
    syscallNumber: int,
    exportName: string,
    importDll: string)

  datatype Program = Program(functions: seq<Fn>, strings: seq<IrString>, globals: seq<IrGlobal>)

  /** What `classify` says of an instruction. */
  datatype Attr = Attr(def: Option<Reg>, uses: seq<Reg>, keep: bool)

  function Classify(inst: Inst): Attr {
    match inst
    case LoadConst(d, _) => Attr(Some(d), [], false)
    case LoadFloatConst(d, _, _) => Attr(Some(d), [], false)
    case LoadString(d, _) => Attr(Some(d), [], false)
    case LoadLocal(d, _) => Attr(Some(d), [], false)
    case StoreLocal(_, r) => Attr(None, [r], true)
    case AddrOf(d, _) => Attr(Some(d), [], false)
    case Binary(_, d, a, b, _) => Attr(Some(d), [a, b], false)
    case Call(d, _, args, _) => Attr(Some(d), args, true)
    case Cast(d, r, _, _, _) => Attr(Some(d), [r], false)
    case Return(r) => Attr(None, [r], true)
    case Jump(_) => Attr(None, [], true)
    case Branch(r, _, _) => Attr(None, [r], true)
    case LabelMark(_) => Attr(None, [], true)
    case GetField(d, b, _) => Attr(Some(d), [b], false)
    case SetField(b, v, _) => Attr(None, [b, v], true)
    case RegionBegin(_, _) => Attr(None, [], true)
    case RegionAlloc(d, r, _) => Attr(Some(d), [r], true)
    case RegionEnd(_) => Attr(None, [], true)
    case Alloca(d, _) => Attr(Some(d), [], false)
    case LoadGlobal(d, _) => Attr(Some(d), [], false)
    case StoreGlobal(_, r) => Attr(None, [r], true)
    case LoadGlobalAddr(d, _) => Attr(Some(d), [], false)
    case LoadElement(d, b, i, _) => Attr(Some(d), [b, i], false)
    case StoreElement(b, i, v, _) => Attr(None, [b, i, v], true)
  }

  function Def(inst: Inst): Option<Reg> {
    Classify(inst).def
  }

  function Uses(inst: Inst): seq<Reg> {
    Classify(inst).uses
  }

  /** Reads without an effect: what dead-instruction removal may delete. */
  predicate Pure(inst: Inst) {
    !Classify(inst).keep
  }

  predicate IsTerminator(inst: Inst) {
    inst.Return? || inst.Jump? || inst.Branch?
  }

  /** The local whose value an instruction reads from its slot, if any. */
  function LocalRead(inst: Inst): Option<Local> {
    match inst
    case LoadLocal(_, l) => Some(l)
    case RegionBegin(l, _) => Some(l)
    case RegionAlloc(_, _, l) => Some(l)
    case RegionEnd(l) => Some(l)
    case _ => None
  }

  /** The register `r` under the renaming `m`. */
  function Ren(m: map<Reg, Reg>, r: Reg): Reg {
    if r in m then m[r] else r
  }

  function RenAll(m: map<Reg, Reg>, rs: seq<Reg>): (out: seq<Reg>)
    ensures |out| == |rs|
    ensures forall i :: 0 <= i < |rs| ==> out[i] == Ren(m, rs[i])
  {
    seq(|rs|, i requires 0 <= i < |rs| => Ren(m, rs[i]))
  }

  /** Rename the registers an instruction reads; never the one it writes. */
  function Rename(m: map<Reg, Reg>, inst: Inst): Inst {
    match inst
    case StoreLocal(l, r) => StoreLocal(l, Ren(m, r))
    case Binary(op, d, a, b, k) => Binary(op, d, Ren(m, a), Ren(m, b), k)
    case Call(d, f, args, sret) => Call(d, f, RenAll(m, args), sret)
    case Cast(d, r, sk, tk, ck) => Cast(d, Ren(m, r), sk, tk, ck)
    case Return(r) => Return(Ren(m, r))
    case Branch(r, a, b) => Branch(Ren(m, r), a, b)
    case GetField(d, b, o) => GetField(d, Ren(m, b), o)
    case SetField(b, v, o) => SetField(Ren(m, b), Ren(m, v), o)
    case RegionAlloc(d, r, l) => RegionAlloc(d, Ren(m, r), l)
    case StoreGlobal(g, r) => StoreGlobal(g, Ren(m, r))
    case LoadElement(d, b, i, s) => LoadElement(d, Ren(m, b), Ren(m, i), s)
    case StoreElement(b, i, v, s) => StoreElement(Ren(m, b), Ren(m, i), Ren(m, v), s)
    case _ => inst
  }

  lemma RenameUses(m: map<Reg, Reg>, inst: Inst)
    ensures Uses(Rename(m, inst)) == RenAll(m, Uses(inst))
    ensures Def(Rename(m, inst)) == Def(inst)
    ensures LocalRead(Rename(m, inst)) == LocalRead(inst)
    ensures Pure(Rename(m, inst)) == Pure(inst)
  {
  }

  lemma RenameNothing(inst: Inst)
    ensures Rename(map[], inst) == inst
  {
    if inst.Call? {
      assert RenAll(map[], inst.args) == inst.args;
    }
  }

  /** The locals whose address a body takes. */
  ghost function AddrTaken(body: seq<Inst>): set<Local> {
    set i | 0 <= i < |body| && body[i].AddrOf? :: body[i].local
  }

  /** The functions a body calls. */
  ghost function CallsOf(body: seq<Inst>): set<nat> {
    set i | 0 <= i < |body| && body[i].Call? :: body[i].funcId
  }

  /** The labels an instruction may jump to. */
  function TargetSet(inst: Inst): set<Label> {
    match inst
    case Jump(l) => {l}
    case Branch(_, a, b) => {a, b}
    case _ => {}
  }

  predicate Targets(inst: Inst, l: Label) {
    l in TargetSet(inst)
  }

  /** The index of the first label `l` at or after `from`. */
  function FindLabel(body: seq<Inst>, l: Label, from: nat): (r: Option<nat>)
    requires from <= |body|
    ensures r.Some? ==> from <= r.value < |body| && body[r.value] == LabelMark(l)
    ensures r.Some? ==> forall i :: from <= i < r.value ==> body[i] != LabelMark(l)
    ensures r.None? ==> forall i :: from <= i < |body| ==> body[i] != LabelMark(l)
    decreases |body| - from
  {
    if from == |body| then None
    else if body[from] == LabelMark(l) then Some(from)
    else FindLabel(body, l, from + 1)
  }
}
