/** Runs of machine code: fetching, decoding and executing bytes. */
module X86Run {
  import opened Words
  import opened Ir
  import opened X86
  import opened Bytes
  import opened X86Encoding
  import opened X86Select

  /** The code and the address it is loaded at. */
  datatype Image = Image(org: nat, code: seq<Byte>)

  function Fetch(image: Image, rip: Word): Option<(Instr, nat)> {
    if image.org <= rip < image.org + |image.code| then Decode(image.code[rip - image.org..]) else None
  }

  /** One instruction; `None` is a fault, or the end of the code. */
  function Step(image: Image, m: Machine): Option<Machine> {
    match Fetch(image, m.rip)
    case None => None
    case Some(p) => Execute(p.0, m.(rip := Wrap(m.rip + p.1)))
  }

  function Steps(image: Image, m: Machine, k: nat): Option<Machine>
    decreases k
  {
    if k == 0 then Some(m)
    else
      match Step(image, m)
      case None => None
      case Some(m1) => Steps(image, m1, k - 1)
  }

  /** From `m` the processor gets to `m'` in `k` steps. */
  predicate Leads(image: Image, m: Machine, m': Machine, k: nat) {
    Steps(image, m, k) == Some(m')
  }

  lemma {:induction false} LeadsTrans(image: Image, m: Machine, m1: Machine, k1: nat, m2: Machine, k2: nat)
    requires Leads(image, m, m1, k1) && Leads(image, m1, m2, k2)
    ensures Leads(image, m, m2, k1 + k2)
    decreases k1
  {
    hide Step;
    if k1 > 0 {
      LeadsTrans(image, Step(image, m).value, m1, k1 - 1, m2, k2);
    }
  }

  /** The image fits in the lower half of the address space. */
  predicate ImageOk(image: Image) {
    image.org + |image.code| < TWO63 && |image.code| < TWO31
  }

  /** The bytes at `addr` are those of the list, with its jumps resolved. */
  predicate CodeAt(image: Image, addr: nat, list: seq<Asm>, labelPos: map<Label, nat>)
    decreases |list|
  {
    list == [] ||
    (TargetOk(list[0], labelPos) && image.org <= addr
     && (list[0].Mark? || (addr < image.org + |image.code| && addr + |RawBytes(list[0])| < TWO63 &&
                           Decode(image.code[addr - image.org..])
                             == Some((Resolved(list[0], addr - image.org, labelPos), |RawBytes(list[0])|))))
     && CodeAt(image, addr + |RawBytes(list[0])|, list[1..], labelPos))
  }

  lemma {:induction false} CodeSplit(image: Image, addr: nat, a: seq<Asm>, b: seq<Asm>, labelPos: map<Label, nat>)
    requires CodeAt(image, addr, a + b, labelPos)
    ensures CodeAt(image, addr, a, labelPos) && CodeAt(image, addr + Size(a), b, labelPos)
    decreases |a|
  {
    hide Decode, RawBytes, Resolved;
    if a == [] {
      assert a + b == b;
    } else {
      assert (a + b)[0] == a[0] && (a + b)[1..] == a[1..] + b;
      CodeSplit(image, addr + |RawBytes(a[0])|, a[1..], b, labelPos);
    }
  }

  /** Everything that is emitted can be encoded, and every label is near. */
  predicate AsmOk(a: Asm, labelPos: map<Label, nat>) {
    TargetOk(a, labelPos) && (a.Ins? ==> Encodable(a.i))
  }

  predicate LabelsNear(labelPos: map<Label, nat>) {
    forall l :: l in labelPos ==> labelPos[l] < TWO31
  }

  /** The resolved bytes decode to the list. */
  lemma {:induction false} FinalCode(image: Image, front: seq<Byte>, list: seq<Asm>, back: seq<Byte>, labelPos: map<Label, nat>)
    requires ImageOk(image) && TargetsOk(list, labelPos) && LabelsNear(labelPos)
    requires forall k :: 0 <= k < |list| ==> AsmOk(list[k], labelPos)
    requires image.code == front + Final(list, |front|, labelPos) + back
    ensures CodeAt(image, image.org + |front|, list, labelPos)
    decreases |list|
  {
    hide Decode, RawBytes, FinalBytes, Resolved, Final, AsmOk;
    if list != [] {
      var a, rest := list[0], list[1..];
      assert AsmOk(a, labelPos) && TargetOk(list[0], labelPos);
      RestOk(list, labelPos);
      ListFront(list, |front|, labelPos);
      var bytes := FinalBytes(a, |front|, labelPos);
      var final := Final(rest, |front| + |bytes|, labelPos);
      var tail := final + back;
      SplitCode(image.code, front, bytes, final, back);
      FinalCode(image, front + bytes, rest, back, labelPos);
      if !a.Mark? {
        OneCode(a, |front|, tail, labelPos);
      }
    }
  }

  lemma SplitCode(code: seq<Byte>, front: seq<Byte>, bytes: seq<Byte>, rest: seq<Byte>, back: seq<Byte>)
    requires code == front + (bytes + rest) + back
    ensures code == front + bytes + rest + back
    ensures |front| <= |code| && code[|front|..] == bytes + (rest + back)
  {
    assert code == front + (bytes + (rest + back));
  }

  lemma RestOk(list: seq<Asm>, labelPos: map<Label, nat>)
    requires list != [] && TargetsOk(list, labelPos) && forall k :: 0 <= k < |list| ==> AsmOk(list[k], labelPos)
    ensures TargetsOk(list[1..], labelPos) && forall k :: 0 <= k < |list[1..]| ==> AsmOk(list[1..][k], labelPos)
  {
    forall k | 0 <= k < |list[1..]|
      ensures AsmOk(list[1..][k], labelPos) && TargetOk(list[1..][k], labelPos)
    {
      assert list[1..][k] == list[k + 1];
    }
  }

  lemma OneCode(a: Asm, pos: nat, tail: seq<Byte>, labelPos: map<Label, nat>)
    requires !a.Mark? && AsmOk(a, labelPos) && LabelsNear(labelPos) && pos + |RawBytes(a)| < TWO31
    ensures TargetOk(a, labelPos) && |RawBytes(a)| > 0
    ensures Decode(FinalBytes(a, pos, labelPos) + tail) == Some((Resolved(a, pos, labelPos), |RawBytes(a)|))
  {
    hide Decode, Encode;
    InstrBack(Resolved(a, pos, labelPos), tail);
  }

  // --- single steps ---

  /** Executing the instruction that the code at `rip` begins with. */
  lemma DoStep(image: Image, m: Machine, a: Asm, rest: seq<Asm>, labelPos: map<Label, nat>, m': Machine)
    requires !a.Mark? && CodeAt(image, m.rip, [a] + rest, labelPos)
    requires TargetOk(a, labelPos) && m.rip >= image.org
    requires m.rip + |RawBytes(a)| < TWO64 ==>
               Execute(Resolved(a, m.rip - image.org, labelPos), m.(rip := m.rip + |RawBytes(a)|)) == Some(m')
    ensures Leads(image, m, m', 1)
    ensures m.rip + |RawBytes(a)| < TWO63 && CodeAt(image, m.rip + |RawBytes(a)|, rest, labelPos)
  {
    hide Decode, RawBytes, Execute, Resolved;
    assert ([a] + rest)[0] == a && ([a] + rest)[1..] == rest;
    assert Steps(image, m', 0) == Some(m');
    assert Step(image, m) == Some(m');
  }

  /** The code of a list begins at or after the image. */
  lemma CodeTargets(image: Image, addr: nat, list: seq<Asm>, labelPos: map<Label, nat>)
    requires CodeAt(image, addr, list, labelPos) && list != []
    ensures TargetOk(list[0], labelPos) && addr >= image.org
    ensures !list[0].Mark? ==> addr + |RawBytes(list[0])| < TWO63
  {
    hide Decode, RawBytes, Resolved;
  }

  lemma JumpTarget(org: nat, rip: nat, size: nat, target: nat)
    requires org <= rip && org + target < TWO63
    ensures Wrap(rip + size + (target - (rip - org + size))) == org + target
  {
  }

  /** A jump leads to the address of its label. */
  lemma JumpStep(image: Image, m: Machine, l: Label, rest: seq<Asm>, labelPos: map<Label, nat>) returns (m': Machine)
    requires CodeAt(image, m.rip, [JmpTo(l)] + rest, labelPos)
    requires l in labelPos && image.org + labelPos[l] < TWO63
    ensures Leads(image, m, m', 1) && m' == m.(rip := image.org + labelPos[l])
  {
    hide CodeAt, Leads, Wrap, RawBytes;
    var a := JmpTo(l);
    assert ([a] + rest)[0] == a;
    CodeTargets(image, m.rip, [a] + rest, labelPos);
    JumpTarget(image.org, m.rip, |RawBytes(a)|, labelPos[l]);
    m' := m.(rip := image.org + labelPos[l]);
    DoStep(image, m, a, rest, labelPos, m');
  }

  /** A conditional jump leads to its label, or to what follows. */
  lemma JccStep(image: Image, m: Machine, cond: Cond, l: Label, rest: seq<Asm>, labelPos: map<Label, nat>, f: Flags)
    returns (m': Machine)
    requires CodeAt(image, m.rip, [JccTo(cond, l)] + rest, labelPos) && m.flags == Some(f)
    requires Satisfied(cond, f) ==> l in labelPos && image.org + labelPos[l] < TWO63
    ensures Leads(image, m, m', 1)
    ensures Satisfied(cond, f) ==> m' == m.(rip := image.org + labelPos[l])
    ensures !Satisfied(cond, f) ==> m' == m.(rip := m'.rip) && m'.rip < TWO63 && CodeAt(image, m'.rip, rest, labelPos)
  {
    hide CodeAt, Leads, Wrap, RawBytes, Satisfied;
    var a := JccTo(cond, l);
    assert ([a] + rest)[0] == a;
    CodeTargets(image, m.rip, [a] + rest, labelPos);
    if Satisfied(cond, f) {
      JumpTarget(image.org, m.rip, |RawBytes(a)|, labelPos[l]);
      m' := m.(rip := image.org + labelPos[l]);
    } else {
      m' := m.(rip := m.rip + |RawBytes(a)|);
    }
    DoStep(image, m, a, rest, labelPos, m');
  }

  // --- straight-line code ---

  /** The effect of a list of instructions that does not jump, apart from `rip`. */
  function ExecList(list: seq<Instr>, m: Machine): Option<Machine>
    decreases |list|
  {
    if list == [] then Some(m)
    else
      match Execute(list[0], m)
      case None => None
      case Some(m1) => ExecList(list[1..], m1)
  }

  predicate Straight(i: Instr) {
    !i.Jcc? && !i.Jmp? && !i.Ret?
  }

  predicate AllStraight(list: seq<Instr>) {
    forall k :: 0 <= k < |list| ==> Straight(list[k])
  }

  /** Such instructions do not look at `rip`. */
  lemma ExecMoved(i: Instr, m: Machine, rip: Word)
    requires Straight(i)
    ensures Execute(i, m).None? <==> Execute(i, m.(rip := rip)).None?
    ensures Execute(i, m).Some? ==>
              Execute(i, m).value.rip == m.rip && Execute(i, m.(rip := rip)).value == Execute(i, m).value.(rip := rip)
  {
    hide And64, Or64, Xor64, SignedDivide, UnsignedDivide, Compare, Test, Wrap;
  }

  lemma {:induction false} ListMoved(list: seq<Instr>, m: Machine, rip: Word)
    requires AllStraight(list) && ExecList(list, m).Some?
    ensures ExecList(list, m).value.rip == m.rip
    ensures ExecList(list, m.(rip := rip)) == Some(ExecList(list, m).value.(rip := rip))
    decreases |list|
  {
    hide Execute;
    if list != [] {
      ExecMoved(list[0], m, rip);
      var m1 := Execute(list[0], m).value;
      ListMoved(list[1..], m1, rip);
    }
  }

  lemma {:induction false} ListAppend(a: seq<Instr>, b: seq<Instr>, m: Machine)
    requires ExecList(a, m).Some?
    ensures ExecList(a + b, m) == ExecList(b, ExecList(a, m).value)
    decreases |a|
  {
    hide Execute;
    if a == [] {
      assert a + b == b;
    } else {
      assert (a + b)[0] == a[0] && (a + b)[1..] == a[1..] + b;
      ListAppend(a[1..], b, Execute(a[0], m).value);
    }
  }

  /** Straight-line code in memory has the effect of its list. */
  lemma {:induction false} DoList(image: Image, m: Machine, list: seq<Instr>, rest: seq<Asm>, labelPos: map<Label, nat>)
    returns (m': Machine)
    requires CodeAt(image, m.rip, Plain(list) + rest, labelPos) && AllStraight(list) && ExecList(list, m).Some?
    requires m.rip < TWO63
    ensures m'.rip == m.rip + Size(Plain(list)) < TWO63
    ensures m' == ExecList(list, m).value.(rip := m'.rip)
    ensures Leads(image, m, m', |list|) && CodeAt(image, m'.rip, rest, labelPos)
    decreases |list|
  {
    hide Execute, RawBytes, Decode;
    if list == [] {
      assert Plain(list) + rest == rest;
      m' := m;
      assert Steps(image, m, 0) == Some(m);
    } else {
      var a := Ins(list[0]);
      var tail := Plain(list[1..]) + rest;
      assert Plain(list) + rest == [a] + tail;
      assert Plain(list) == [a] + Plain(list[1..]);
      SizeAppend([a], Plain(list[1..]));
      assert Size([a]) == |RawBytes(a)| + Size([]) by { assert [a][1..] == []; }
      CodeTargets(image, m.rip, [a] + tail, labelPos);
      var next := m.rip + |RawBytes(a)|;
      ExecMoved(list[0], m, next);
      var m1 := Execute(list[0], m).value.(rip := next);
      DoStep(image, m, a, tail, labelPos, m1);
      ListMoved(list[1..], Execute(list[0], m).value, next);
      ListMoved(list[1..], m1, next);
      m' := DoList(image, m1, list[1..], rest, labelPos);
      ListMoved(list[1..], Execute(list[0], m).value, m'.rip);
      LeadsTrans(image, m, m1, 1, m', |list| - 1);
    }
  }
}
