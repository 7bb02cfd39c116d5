/** The text of a whole program: functions one behind the other, jumps patched. */
module X86Layout {
  import opened Words
  import opened Ir
  import opened X86
  import opened Bytes
  import opened X86Encoding
  import opened X86Select
  import opened X86Frame
  import opened X86Correct
  import opened X86Functions
  import R = X86Run

  // --- what can be emitted ---

  ghost predicate HasMark(body: seq<Inst>, l: Label) {
    exists q :: 0 <= q < |body| && body[q] == LabelMark(l)
  }

  /** Every jump has its label in the function. */
  ghost predicate TargetsHere(body: seq<Inst>) {
    forall i, l :: 0 <= i < |body| && Targets(body[i], l) ==> HasMark(body, l)
  }

  /** Local operands have slots. */
  predicate LocalsFit(fn: Fn) {
    forall i :: 0 <= i < |fn.body| ==> InstBounded(fn, fn.body[i])
  }

  /** What the back end can turn into code: instructions of the fragment with
      operands in the frame, and a frame that 32-bit displacements can address. */
  ghost predicate Emittable(fn: Fn) {
    && AllSelectable(fn.body) && LocalsFit(fn) && TargetsHere(fn.body)
    && fn.argCount <= fn.localCount && FrameSize(fn) < TWO31 / 2
  }

  /** No two labels of the program are the same: positions are kept in one map. */
  ghost predicate LabelsApart(p: Program) {
    forall g, i, h, j :: 0 <= g < |p.functions| && 0 <= i < |p.functions[g].body|
                         && 0 <= h < |p.functions| && 0 <= j < |p.functions[h].body|
                         && p.functions[g].body[i].LabelMark? && p.functions[g].body[i] == p.functions[h].body[j]
                         ==> g == h && i == j
  }

  ghost predicate EmittableProgram(p: Program) {
    && (forall g :: 0 <= g < |p.functions| ==> !p.functions[g].isExtern && Emittable(p.functions[g]))
    && LabelsApart(p)
  }

  // --- everything emitted can be encoded ---

  predicate AllEncodable(list: seq<Instr>) {
    forall k :: 0 <= k < |list| ==> Encodable(list[k])
  }

  lemma SlotEncodable(k: nat)
    requires 8 * (k + 1) <= TWO31
    ensures MemOk(SlotMem(k))
  {
  }

  lemma AppendEncodable(a: seq<Instr>, b: seq<Instr>)
    requires AllEncodable(a) && AllEncodable(b)
    ensures AllEncodable(a + b)
  {
    hide Encodable;
  }

  lemma SlotsEncodable(fn: Fn)
    requires FrameSize(fn) < TWO31 / 2
    ensures forall k: nat {:trigger SlotMem(k)} :: k < fn.localCount + fn.tempCount ==> MemOk(SlotMem(k))
  {
    SlotsFit(fn);
    forall k: nat {:trigger SlotMem(k)} | k < fn.localCount + fn.tempCount
      ensures MemOk(SlotMem(k))
    {
      SlotEncodable(k);
    }
  }

  lemma ObjectEncodable(fn: Fn, offset: nat)
    requires offset <= fn.extraStack && FrameSize(fn) < TWO31 / 2
    ensures MemOk(ObjectMem(fn, offset))
  {
    hide X86Select.Align16;
    AlignUp(SlotBytes(fn) + fn.extraStack);
  }

  lemma OperateEncodable(op: BinaryOp, k: TypeKind)
    ensures AllEncodable(Operate(op, k))
  {
    hide MemOk, IsSignedIntKind;
    AppendEncodable(Truth(RAX), Truth(RBX));
    assert AllEncodable(CompareWith(Equal)) && AllEncodable(CompareWith(NotEqual)) && AllEncodable(CompareWith(Less));
    assert AllEncodable(CompareWith(LessEqual)) && AllEncodable(CompareWith(Greater)) && AllEncodable(CompareWith(GreaterEqual));
  }

  lemma StraightEncodable(fn: Fn, inst: Inst)
    requires Selectable(inst) && InstBounded(fn, inst) && FrameSize(fn) < TWO31 / 2
    ensures AllEncodable(StraightCode(fn, inst))
  {
    hide MemOk, SlotMem, Operate, FrameSize;
    SlotsEncodable(fn);
    match inst
    case Binary(op, d, a, b, k) =>
      assert Uses(inst)[0] == a && Uses(inst)[1] == b && a in Uses(inst) && b in Uses(inst);
      OperateEncodable(op, k);
      AppendEncodable(Operate(op, k), [Store(TempSlot(fn, d), RAX)]);
      AppendEncodable(Operands(fn, a, b), Operate(op, k) + [Store(TempSlot(fn, d), RAX)]);
    case Alloca(_, o) => ObjectEncodable(fn, o);
    case StoreLocal(l, r) =>
      assert Uses(inst)[0] == r && r in Uses(inst);
    case _ =>
  }

  predicate AllAsmOk(list: seq<Asm>, labelPos: map<Label, nat>) {
    forall k :: 0 <= k < |list| ==> R.AsmOk(list[k], labelPos)
  }

  lemma PlainOk(list: seq<Instr>, labelPos: map<Label, nat>)
    requires AllEncodable(list)
    ensures AllAsmOk(Plain(list), labelPos)
  {
    hide Encodable;
  }

  lemma AppendOk(a: seq<Asm>, b: seq<Asm>, labelPos: map<Label, nat>)
    requires AllAsmOk(a, labelPos) && AllAsmOk(b, labelPos)
    ensures AllAsmOk(a + b, labelPos)
  {
    hide R.AsmOk;
  }

  ghost predicate TargetsPlaced(body: seq<Inst>, labelPos: map<Label, nat>) {
    forall i, l :: 0 <= i < |body| && Targets(body[i], l) ==> l in labelPos
  }

  lemma SelectOk(fn: Fn, i: nat, labelPos: map<Label, nat>)
    requires Emittable(fn) && i < |fn.body| && TargetsPlaced(fn.body, labelPos)
    ensures AllAsmOk(Select(fn, fn.body[i]), labelPos)
  {
    hide MemOk, SlotMem, FrameSize, Operate, Plain;
    SlotsEncodable(fn);
    var inst := fn.body[i];
    assert Selectable(inst) && InstBounded(fn, inst);
    if inst.Return? {
      assert Uses(inst)[0] == inst.value && inst.value in Uses(inst);
      PlainOk([Load(RAX, TempSlot(fn, inst.value)), Instr.Leave], labelPos);
    } else if inst.Branch? {
      assert Uses(inst)[0] == inst.cond && inst.cond in Uses(inst);
      assert Targets(fn.body[i], inst.thenLabel) && Targets(fn.body[i], inst.elseLabel);
      PlainOk([Load(RAX, TempSlot(fn, inst.cond)), Alu(TestOp, RAX, RAX)], labelPos);
    } else if inst.Jump? {
      assert Targets(fn.body[i], inst.target);
    } else if !inst.LabelMark? {
      StraightEncodable(fn, inst);
      PlainOk(StraightCode(fn, inst), labelPos);
    }
  }

  lemma {:induction false} MoveArgsEncodable(n: nat)
    requires 8 * n < TWO31 / 2
    ensures AllEncodable(MoveArgs(n))
  {
    if n > 0 {
      MoveArgsEncodable(n - 1);
      SlotEncodable(n - 1);
      assert AllEncodable(MoveArg(n - 1));
    }
  }

  lemma PrologueEncodable(fn: Fn)
    requires fn.argCount <= fn.localCount && FrameSize(fn) < TWO31 / 2
    ensures AllEncodable(Prologue(fn))
  {
    hide FrameSize;
    SlotsFit(fn);
    MoveArgsEncodable(fn.argCount);
    hide MoveArgs;
    assert AllEncodable(Reserve(fn));
    AppendEncodable([Push(RBP), MovReg(RBP, RSP)], Reserve(fn));
    AppendEncodable([Push(RBP), MovReg(RBP, RSP)] + Reserve(fn), MoveArgs(fn.argCount));
  }

  lemma {:induction false} BodyOk(fn: Fn, n: nat, labelPos: map<Label, nat>)
    requires Emittable(fn) && n <= |fn.body| && TargetsPlaced(fn.body, labelPos)
    ensures AllAsmOk(BodyAsm(fn, n), labelPos)
  {
    hide Emittable, TargetsPlaced, AllAsmOk, Select;
    Selectables(fn);
    if n > 0 {
      BodyOk(fn, n - 1, labelPos);
      SelectOk(fn, n - 1, labelPos);
      AppendOk(BodyAsm(fn, n - 1), Select(fn, fn.body[n - 1]), labelPos);
    } else {
      NothingOk(labelPos);
    }
  }

  lemma NothingOk(labelPos: map<Label, nat>)
    ensures AllAsmOk([], labelPos)
  {
  }

  lemma Selectables(fn: Fn)
    requires Emittable(fn)
    ensures AllSelectable(fn.body) && Bounded(fn)
  {
    forall i | 0 <= i < |fn.body|
      ensures Selectable(fn.body[i]) && InstBounded(fn, fn.body[i])
    {
    }
  }

  /** All code of a function can be encoded once its labels are placed. */
  lemma FnOk(fn: Fn, labelPos: map<Label, nat>)
    requires Emittable(fn) && TargetsPlaced(fn.body, labelPos)
    ensures AllSelectable(fn.body) && AllAsmOk(FnAsm(fn), labelPos)
  {
    hide AllAsmOk, TargetsPlaced, LocalsFit, TargetsHere;
    Selectables(fn);
    PrologueEncodable(fn);
    PlainOk(Prologue(fn), labelPos);
    BodyOk(fn, |fn.body|, labelPos);
    AppendOk(Plain(Prologue(fn)), BodyAsm(fn, |fn.body|), labelPos);
  }

  // --- the program ---

  predicate ProgramSelectable(p: Program) {
    forall g :: 0 <= g < |p.functions| ==> AllSelectable(p.functions[g].body)
  }

  /** The code of the first `n` functions. */
  function TextAsm(p: Program, n: nat): seq<Asm>
    requires n <= |p.functions| && ProgramSelectable(p)
  {
    if n == 0 then [] else TextAsm(p, n - 1) + FnAsm(p.functions[n - 1])
  }

  /** The code behind function `n`. */
  function LaterAsm(p: Program, n: nat): seq<Asm>
    requires n <= |p.functions| && ProgramSelectable(p)
    decreases |p.functions| - n
  {
    if n == |p.functions| then [] else FnAsm(p.functions[n]) + LaterAsm(p, n + 1)
  }

  lemma {:induction false} TextSplit(p: Program, n: nat)
    requires ProgramSelectable(p) && n <= |p.functions|
    ensures TextAsm(p, |p.functions|) == TextAsm(p, n) + LaterAsm(p, n)
    decreases |p.functions| - n
  {
    hide FnAsm, AllSelectable;
    if n < |p.functions| {
      TextSplit(p, n + 1);
    }
  }

  /** Which marks the code has. */
  lemma SelectMarks(fn: Fn, inst: Inst, k: nat)
    requires Selectable(inst) && k < |Select(fn, inst)| && Select(fn, inst)[k].Mark?
    ensures inst == LabelMark(Select(fn, inst)[k].l) && k == 0 && |Select(fn, inst)| == 1
  {
    hide StraightCode;
  }

  lemma MarkedAppend(a: seq<Asm>, b: seq<Asm>, l: Label)
    ensures Marked(a + b, l) <==> Marked(a, l) || Marked(b, l)
  {
    if Marked(a, l) {
      var k :| 0 <= k < |a| && a[k] == Mark(l);
      assert (a + b)[k] == Mark(l);
    }
    if Marked(b, l) {
      var k :| 0 <= k < |b| && b[k] == Mark(l);
      assert (a + b)[|a| + k] == Mark(l);
    }
  }

  lemma PlainUnmarked(list: seq<Instr>, l: Label)
    ensures !Marked(Plain(list), l)
  {
  }

  /** The rest of a function marks only labels of its body. */
  lemma {:induction false} RestMarks(fn: Fn, n: nat, l: Label)
    requires AllSelectable(fn.body) && n <= |fn.body| && Marked(RestAsm(fn, n), l)
    ensures exists q :: n <= q < |fn.body| && fn.body[q] == LabelMark(l)
    decreases |fn.body| - n
  {
    hide Select, Marked, Selectable;
    if n == |fn.body| {
      NoMarks(l);
    } else {
      MarkedAppend(Select(fn, fn.body[n]), RestAsm(fn, n + 1), l);
      if Marked(RestAsm(fn, n + 1), l) {
        RestMarks(fn, n + 1, l);
      } else {
        InstMarks(fn, fn.body[n], l);
      }
    }
  }

  lemma NoMarks(l: Label)
    ensures !Marked([], l)
  {
  }

  lemma InstMarks(fn: Fn, inst: Inst, l: Label)
    requires Selectable(inst) && Marked(Select(fn, inst), l)
    ensures inst == LabelMark(l)
  {
    hide Select;
    var k :| 0 <= k < |Select(fn, inst)| && Select(fn, inst)[k] == Mark(l);
    SelectMarks(fn, inst, k);
  }

  lemma FnMarks(fn: Fn, l: Label)
    requires AllSelectable(fn.body) && Marked(FnAsm(fn), l)
    ensures HasMark(fn.body, l)
  {
    hide Marked, Prologue, RestAsm, Plain;
    FnSplit(fn, 0);
    assert BodyAsm(fn, 0) + RestAsm(fn, 0) == RestAsm(fn, 0);
    MarkedAppend(Plain(Prologue(fn)), RestAsm(fn, 0), l);
    PlainUnmarked(Prologue(fn), l);
    RestMarks(fn, 0, l);
  }

  lemma {:induction false} LaterMarks(p: Program, n: nat, l: Label)
    requires ProgramSelectable(p) && n <= |p.functions| && Marked(LaterAsm(p, n), l)
    ensures exists g :: n <= g < |p.functions| && HasMark(p.functions[g].body, l)
    decreases |p.functions| - n
  {
    hide Marked, FnAsm, AllSelectable, HasMark;
    if n == |p.functions| {
      NoMarks(l);
    } else {
      MarkedAppend(FnAsm(p.functions[n]), LaterAsm(p, n + 1), l);
      if Marked(LaterAsm(p, n + 1), l) {
        LaterMarks(p, n + 1, l);
      } else {
        FnMarks(p.functions[n], l);
      }
    }
  }

  /** All code of the program, its labels placed from position 0 on. */
  ghost function Positions(p: Program): map<Label, nat>
    requires ProgramSelectable(p)
  {
    LabelsOf(TextAsm(p, |p.functions|), 0, map[])
  }

  /** Where function `g` begins. */
  function Entrance(p: Program, g: nat): nat
    requires ProgramSelectable(p) && g <= |p.functions|
  {
    Size(TextAsm(p, g))
  }

  /** The code in front of and behind the mark of label `q` of function `g`. */
  lemma AroundMark(p: Program, g: nat, q: nat)
    requires ProgramSelectable(p) && g < |p.functions| && q < |p.functions[g].body| && p.functions[g].body[q].LabelMark?
    ensures var fn := p.functions[g];
      TextAsm(p, |p.functions|)
      == (TextAsm(p, g) + (Plain(Prologue(fn)) + BodyAsm(fn, q))) + [Mark(fn.body[q].id)] + (RestAsm(fn, q + 1) + LaterAsm(p, g + 1))
  {
    hide Plain, Prologue, BodyAsm, RestAsm, FnAsm;
    var fn := p.functions[g];
    TextSplit(p, g);
    FnSplit(fn, q);
    hide TextAsm;
    assert Select(fn, fn.body[q]) == [Mark(fn.body[q].id)];
    FiveParts(TextAsm(p, g), Plain(Prologue(fn)), BodyAsm(fn, q), [Mark(fn.body[q].id)], RestAsm(fn, q + 1), LaterAsm(p, g + 1));
  }

  lemma FiveParts(a: seq<Asm>, b: seq<Asm>, c: seq<Asm>, d: seq<Asm>, e: seq<Asm>, f: seq<Asm>)
    ensures a + ((b + (c + (d + e))) + f) == (a + (b + c)) + d + (e + f)
  {
    assert (b + (c + (d + e))) + f == (b + c) + (d + (e + f));
    assert a + ((b + c) + (d + (e + f))) == (a + (b + c)) + (d + (e + f));
    assert (a + (b + c)) + (d + (e + f)) == ((a + (b + c)) + d) + (e + f);
  }

  /** The position recorded for a label is that of its mark. */
  lemma MarkPosition(p: Program, g: nat, q: nat)
    requires ProgramSelectable(p) && LabelsApart(p)
    requires g < |p.functions| && q < |p.functions[g].body| && p.functions[g].body[q].LabelMark?
    ensures var fn := p.functions[g]; var l := fn.body[q].id;
      && l in Positions(p)
      && Positions(p)[l] == Entrance(p, g) + Size(Plain(Prologue(fn))) + Size(BodyAsm(fn, q))
  {
    hide Plain, Prologue, BodyAsm, RestAsm, FnAsm, TextAsm, LaterAsm, Marked, Size, LabelsOf, HasMark;
    var fn := p.functions[g];
    var l := fn.body[q].id;
    var front := TextAsm(p, g) + (Plain(Prologue(fn)) + BodyAsm(fn, q));
    var back := RestAsm(fn, q + 1) + LaterAsm(p, g + 1);
    AroundMark(p, g, q);
    if Marked(back, l) {
      var h, j := OtherMark(p, g, q);
      assert false;
    }
    LabelAt(front, l, back, 0, map[]);
    SizeAppend(TextAsm(p, g), Plain(Prologue(fn)) + BodyAsm(fn, q));
    SizeAppend(Plain(Prologue(fn)), BodyAsm(fn, q));
  }

  /** A second mark would be elsewhere. */
  lemma OtherMark(p: Program, g: nat, q: nat) returns (h: nat, j: nat)
    requires ProgramSelectable(p)
    requires g < |p.functions| && q < |p.functions[g].body| && p.functions[g].body[q].LabelMark?
    requires Marked(RestAsm(p.functions[g], q + 1) + LaterAsm(p, g + 1), p.functions[g].body[q].id)
    ensures h < |p.functions| && j < |p.functions[h].body| && p.functions[h].body[j] == p.functions[g].body[q]
    ensures h != g || j != q
  {
    hide Marked, RestAsm, LaterAsm;
    var fn := p.functions[g];
    var l := fn.body[q].id;
    MarkedAppend(RestAsm(fn, q + 1), LaterAsm(p, g + 1), l);
    if Marked(RestAsm(fn, q + 1), l) {
      RestMarks(fn, q + 1, l);
      h := g;
      j :| q + 1 <= j < |fn.body| && fn.body[j] == LabelMark(l);
    } else {
      LaterMarks(p, g + 1, l);
      h :| g + 1 <= h < |p.functions| && HasMark(p.functions[h].body, l);
      j :| 0 <= j < |p.functions[h].body| && p.functions[h].body[j] == LabelMark(l);
    }
  }

  // --- the image ---

  /** The finished text: the code with its jumps patched, and whatever is behind it. */
  ghost predicate ImageOf(p: Program, tail: seq<Byte>, image: R.Image)
    requires ProgramSelectable(p)
  {
    var t := AddAll(Text([], [], map[]), TextAsm(p, |p.functions|));
    && FixupsOk(t.code + tail, t.fixups, t.labelPos)
    && image.code == PatchAll(t.code + tail, t.fixups, t.labelPos)
    && R.ImageOk(image)
  }

  lemma EmittableSelectable(p: Program)
    requires EmittableProgram(p)
    ensures ProgramSelectable(p)
  {
    hide AllSelectable, TargetsHere, LocalsFit;
    forall g | 0 <= g < |p.functions|
      ensures AllSelectable(p.functions[g].body)
    {
      assert Emittable(p.functions[g]);
    }
  }

  lemma TargetsFound(p: Program, g: nat)
    requires EmittableProgram(p) && g < |p.functions| && ProgramSelectable(p)
    ensures TargetsPlaced(p.functions[g].body, Positions(p))
  {
    hide Positions, AllSelectable, LocalsFit, BodyAsm, Prologue, Plain;
    var body := p.functions[g].body;
    assert Emittable(p.functions[g]);
    forall i, l | 0 <= i < |body| && Targets(body[i], l)
      ensures l in Positions(p)
    {
      assert HasMark(body, l);
      var q :| 0 <= q < |body| && body[q] == LabelMark(l);
      MarkPosition(p, g, q);
    }
  }

  lemma {:induction false} TextOk(p: Program, n: nat)
    requires EmittableProgram(p) && n <= |p.functions| && ProgramSelectable(p)
    ensures AllAsmOk(TextAsm(p, n), Positions(p))
  {
    hide AllAsmOk, Positions, FnAsm, Emittable, TargetsPlaced;
    if n == 0 {
      NothingOk(Positions(p));
    } else {
      TextOk(p, n - 1);
      TargetsFound(p, n - 1);
      FnOk(p.functions[n - 1], Positions(p));
      AppendOk(TextAsm(p, n - 1), FnAsm(p.functions[n - 1]), Positions(p));
    }
  }

  lemma OkTargets(list: seq<Asm>, labelPos: map<Label, nat>)
    requires AllAsmOk(list, labelPos)
    ensures TargetsOk(list, labelPos)
  {
    forall k | 0 <= k < |list|
      ensures TargetOk(list[k], labelPos)
    {
      assert R.AsmOk(list[k], labelPos);
    }
  }

  /** Labels lie within the code. */
  lemma {:induction false} LabelsInside(list: seq<Asm>, pos: nat, acc: map<Label, nat>, end: nat)
    requires (forall l :: l in acc ==> acc[l] < end) && pos + Size(list) < end
    ensures forall l :: l in LabelsOf(list, pos, acc) ==> LabelsOf(list, pos, acc)[l] < end
    decreases |list|
  {
    hide RawBytes;
    if list != [] {
      LabelsInside(list[1..], pos + |RawBytes(list[0])|, if list[0].Mark? then acc[list[0].l := pos] else acc, end);
    }
  }

  /** The bytes of the image decode to the code of the program, every jump
      leading to its label. */
  lemma TextDecodes(p: Program, tail: seq<Byte>, image: R.Image)
    requires EmittableProgram(p) && ProgramSelectable(p) && ImageOf(p, tail, image)
    ensures R.CodeAt(image, image.org, TextAsm(p, |p.functions|), Positions(p))
    ensures Size(TextAsm(p, |p.functions|)) <= |image.code|
  {
    hide TextAsm, R.CodeAt, AddAll, PatchAll, Final, Raw, FixupsOf, LabelsOf, EmittableProgram, AllAsmOk, ProgramSelectable, FixupsOk, Size;
    var list := TextAsm(p, |p.functions|);
    var t := AddAll(Text([], [], map[]), list);
    AddAllIs(Text([], [], map[]), list);
    assert [] + Raw(list) == Raw(list) && [] + FixupsOf(list, 0) == FixupsOf(list, 0);
    TextOk(p, |p.functions|);
    OkTargets(list, Positions(p));
    PatchIs([], list, tail, Positions(p));
    assert [] + Raw(list) + tail == t.code + tail;
    LabelsWithin(p, image);
    OkEach(list, Positions(p));
    R.FinalCode(image, [], list, tail, Positions(p));
  }

  /** No jump of an emittable program lacks its label. */
  lemma FixupsFound(p: Program)
    requires EmittableProgram(p) && ProgramSelectable(p)
    ensures var t := AddAll(Text([], [], map[]), TextAsm(p, |p.functions|)); FixupsOk(t.code, t.fixups, t.labelPos)
  {
    hide TextAsm, AddAll, PatchAll, Final, Raw, FixupsOf, LabelsOf, EmittableProgram, AllAsmOk, ProgramSelectable, FixupsOk, Size;
    var list := TextAsm(p, |p.functions|);
    var t := AddAll(Text([], [], map[]), list);
    AddAllIs(Text([], [], map[]), list);
    assert [] + Raw(list) == Raw(list) && [] + FixupsOf(list, 0) == FixupsOf(list, 0);
    TextOk(p, |p.functions|);
    OkTargets(list, Positions(p));
    PatchIs([], list, [], Positions(p));
    assert [] + Raw(list) + [] == t.code;
  }

  lemma OkEach(list: seq<Asm>, labelPos: map<Label, nat>)
    requires AllAsmOk(list, labelPos)
    ensures forall k :: 0 <= k < |list| ==> R.AsmOk(list[k], labelPos)
  {
    hide R.AsmOk;
  }

  lemma LabelsWithin(p: Program, image: R.Image)
    requires ProgramSelectable(p) && R.ImageOk(image) && Size(TextAsm(p, |p.functions|)) <= |image.code|
    ensures R.LabelsNear(Positions(p))
  {
    hide TextAsm, LabelsOf, Size;
    LabelsInside(TextAsm(p, |p.functions|), 0, map[], TWO31);
  }

  /** Function `g` in the image. */
  ghost function PlaceOf(p: Program, g: nat, image: R.Image): Place
    requires ProgramSelectable(p) && g < |p.functions|
  {
    Place(image, Positions(p), p.functions[g], image.org + Entrance(p, g))
  }

  /** Every function of the program is in place, with its labels. */
  lemma ProgramPlaced(p: Program, tail: seq<Byte>, image: R.Image, g: nat)
    requires EmittableProgram(p) && ProgramSelectable(p) && ImageOf(p, tail, image) && g < |p.functions|
    ensures Placed(PlaceOf(p, g, image))
  {
    hide TextAsm, LaterAsm, R.CodeAt, FnAsm, Prologue, Plain, BodyAsm, Positions, Emittable, LabelsApart, Size, ProgramSelectable;
    var c := PlaceOf(p, g, image);
    var fn := p.functions[g];
    assert Emittable(fn);
    Selectables(fn);
    TextDecodes(p, tail, image);
    TextSplit(p, g);
    LaterFront(p, g);
    SizeAppend(TextAsm(p, g), LaterAsm(p, g));
    SizeAppend(FnAsm(fn), LaterAsm(p, g + 1));
    R.CodeSplit(image, image.org, TextAsm(p, g), LaterAsm(p, g), Positions(p));
    R.CodeSplit(image, image.org + Entrance(p, g), FnAsm(fn), LaterAsm(p, g + 1), Positions(p));
    forall q: nat {:trigger LabelPlaced(c, q)} | q < |fn.body|
      ensures LabelPlaced(c, q)
    {
      if fn.body[q].LabelMark? {
        MarkPosition(p, g, q);
      }
    }
  }

  lemma LaterFront(p: Program, g: nat)
    requires ProgramSelectable(p) && g < |p.functions|
    ensures LaterAsm(p, g) == FnAsm(p.functions[g]) + LaterAsm(p, g + 1)
  {
    hide FnAsm;
  }
}
