/** The shape of IR that the generator emits and the passes keep. */
module WellFormed {
  import opened Words
  import opened Ir

  function DefSet(inst: Inst): set<Reg> {
    match Def(inst)
    case Some(d) => {d}
    case None => {}
  }

  /** The registers defined since the last label before `pc`. */
  ghost function Flow(body: seq<Inst>, pc: nat): set<Reg>
    requires pc <= |body|
  {
    if pc == 0 || body[pc - 1].LabelMark? then {}
    else Flow(body, pc - 1) + DefSet(body[pc - 1])
  }

  /** The registers the instruction at `pc` may read: none at a label, where
      control may come from elsewhere. */
  ghost function Avail(body: seq<Inst>, pc: nat): set<Reg>
    requires pc <= |body|
  {
    if pc < |body| && body[pc].LabelMark? then {} else Flow(body, pc)
  }

  ghost predicate SingleDef(body: seq<Inst>) {
    forall i, j :: 0 <= i < j < |body| && Def(body[i]).Some? ==> Def(body[i]) != Def(body[j])
  }

  ghost predicate LocalUses(body: seq<Inst>) {
    forall i, r :: 0 <= i < |body| && r in Uses(body[i]) ==> r in Flow(body, i)
  }

  ghost predicate UniqueLabels(body: seq<Inst>) {
    forall i, j :: 0 <= i < j < |body| && body[i].LabelMark? && body[j].LabelMark? ==> body[i] != body[j]
  }

  ghost predicate TerminatorsLast(body: seq<Inst>) {
    forall i :: 0 <= i < |body| - 1 && IsTerminator(body[i]) ==> body[i + 1].LabelMark?
  }

  /** Registers are defined once and used later in the same block; labels are
      unique; jumps and returns end a block. */
  ghost predicate WfBody(body: seq<Inst>) {
    SingleDef(body) && LocalUses(body) && UniqueLabels(body) && TerminatorsLast(body)
  }

  /** Call, string and global ids are in range. */
  predicate IdsInRange(p: Program, inst: Inst) {
    match inst
    case Call(_, f, _, _) => f < |p.functions|
    case LoadString(_, s) => s < |p.strings|
    case LoadGlobal(_, g) => g < |p.globals|
    case StoreGlobal(g, _) => g < |p.globals|
    case LoadGlobalAddr(_, g) => g < |p.globals|
    case _ => true
  }

  /** The number of basic blocks: one per label, and one for code before the first label. */
  function BlockCount(body: seq<Inst>): nat {
    LabelCount(body, |body|) + (if |body| > 0 && !body[0].LabelMark? then 1 else 0)
  }

  function LabelCount(body: seq<Inst>, n: nat): nat
    requires n <= |body|
  {
    if n == 0 then 0
    else LabelCount(body, n - 1) + (if body[n - 1].LabelMark? then 1 else 0)
  }

  ghost predicate WfFn(fn: Fn) {
    WfBody(fn.body) && BlockCount(fn.body) <= 512
  }

  ghost predicate WfProgram(p: Program) {
    && (forall g :: 0 <= g < |p.functions| ==> WfFn(p.functions[g]))
    && (forall g, i :: 0 <= g < |p.functions| && 0 <= i < |p.functions[g].body| ==>
          IdsInRange(p, p.functions[g].body[i]))
  }

  /** Control may go from `pc` to `q`. */
  ghost predicate Succ(body: seq<Inst>, pc: nat, q: nat)
    requires pc < |body|
  {
    match body[pc]
    case Return(_) => false
    case Jump(l) => FindLabel(body, l, 0) == Some(q)
    case Branch(_, a, b) => FindLabel(body, a, 0) == Some(q) || FindLabel(body, b, 0) == Some(q)
    case _ => q == pc + 1
  }
}
