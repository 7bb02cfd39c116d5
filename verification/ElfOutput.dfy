/** `elf::write`: layout and output, proved to produce `ElfBytes`. */
module ElfOutput {
  import opened Words
  import opened Bytes
  import opened ElfObject
  import opened ElfPlans
  import opened ElfWriter

  // --- layout ---

  function RoundUp8(n: nat): (m: nat)
    ensures m == AlignTo(n, 8)
  {
    n + 7 - (n + 7) % 8
  }

  function RoundUp16(n: nat): (m: nat)
    ensures m == AlignTo(n, 16)
  {
    n + 15 - (n + 15) % 16
  }

  /** Where the section of slice `i` goes. */
  lemma TextLayout(obj: Object, secs: seq<Slice>, i: nat)
    requires SlicesIn(secs, obj.text) && Placeable(Plans(obj, secs)) && i < |secs|
    ensures |secs| < |Plans(obj, secs)|
    ensures StartOf(Plans(obj, secs), i) == AlignTo(EndOf(Plans(obj, secs), i), 16)
    ensures EndOf(Plans(obj, secs), i + 1) == StartOf(Plans(obj, secs), i) + secs[i].size
  {
    PlanAt(obj, secs);
    hide Plans, Placeable, AlignTo, ShStrTab, TailPlans, RelaCount, OffsetOf;
    assert Plans(obj, secs)[i] == TextPlan(ShStrTab(obj.relocs, secs), obj.text, secs[i]);
  }

  lemma TextNone(obj: Object, secs: seq<Slice>)
    requires SlicesIn(secs, obj.text) && Placeable(Plans(obj, secs))
    ensures |secs| <= |Plans(obj, secs)| && EndOf(Plans(obj, secs), 0) == 64
  {
    PlanAt(obj, secs);
    hide Plans, Placeable;
  }

  /** Where the sections of the text go. */
  method TextOffsets(secs: seq<Slice>, ghost obj: Object) returns (offs: seq<nat>, off: nat)
    requires SlicesIn(secs, obj.text) && Placeable(Plans(obj, secs))
    ensures |secs| <= |Plans(obj, secs)| && off == EndOf(Plans(obj, secs), |secs|)
    ensures |offs| == |secs| && forall k :: 0 <= k < |secs| ==> offs[k] == StartOf(Plans(obj, secs), k)
  {
    hide *;
    TextNone(obj, secs);
    off, offs := 64, [];
    var i := 0;
    while i < |secs|
      invariant 0 <= i <= |secs| && off == EndOf(Plans(obj, secs), i)
      invariant |offs| == i && forall k :: 0 <= k < i ==> offs[k] == StartOf(Plans(obj, secs), k)
    {
      TextLayout(obj, secs, i);
      off := RoundUp16(off);
      offs := offs + [off];
      off := off + secs[i].size;
      i := i + 1;
    }
  }

  /** Where the relocation section of slice `i` goes, if there is one. */
  lemma RelaLayout(obj: Object, secs: seq<Slice>, i: nat)
    requires SlicesIn(secs, obj.text) && Placeable(Plans(obj, secs)) && i < |secs|
    ensures var plans, k := Plans(obj, secs), |secs| + RelaCount(obj.relocs, secs, i);
      if SecRelocs(obj.relocs, secs, i) != [] then
        && k < |plans| && RelaCount(obj.relocs, secs, i + 1) == RelaCount(obj.relocs, secs, i) + 1
        && StartOf(plans, k) == AlignTo(EndOf(plans, k), 16)
        && EndOf(plans, k + 1) == StartOf(plans, k) + |SecRelocs(obj.relocs, secs, i)| * 24
      else RelaCount(obj.relocs, secs, i + 1) == RelaCount(obj.relocs, secs, i)
  {
    hide Plans, Placeable, AlignTo, ShStrTab, TailPlans, SecRelocs, EncodeRelas, OffsetOf, Sorted, SymIndex;
    if SecRelocs(obj.relocs, secs, i) != [] {
      PlanOfRela(obj, secs, i);
    }
  }

  /** The offsets of the relocation sections of the first `n` slices. */
  ghost predicate RelaPlaced(obj: Object, secs: seq<Slice>, offs: seq<nat>, n: nat)
    requires SlicesIn(secs, obj.text) && Placeable(Plans(obj, secs)) && n <= |offs| && n <= |secs|
  {
    forall k :: 0 <= k < n && SecRelocs(obj.relocs, secs, k) != [] ==>
                  && |secs| + RelaCount(obj.relocs, secs, k) < |Plans(obj, secs)|
                  && offs[k] == StartOf(Plans(obj, secs), |secs| + RelaCount(obj.relocs, secs, k))
  }

  /** Layout has passed the relocation sections of the first `n` slices. */
  ghost predicate RelaPassed(obj: Object, secs: seq<Slice>, offs: seq<nat>, off: nat, n: nat)
    requires SlicesIn(secs, obj.text) && Placeable(Plans(obj, secs)) && n <= |secs|
  {
    && |offs| == n && RelaPlaced(obj, secs, offs, n)
    && |secs| + RelaCount(obj.relocs, secs, n) <= |Plans(obj, secs)|
    && off == EndOf(Plans(obj, secs), |secs| + RelaCount(obj.relocs, secs, n))
  }

  lemma RelaNone(obj: Object, secs: seq<Slice>)
    requires SlicesIn(secs, obj.text) && Placeable(Plans(obj, secs)) && |secs| <= |Plans(obj, secs)|
    ensures RelaPassed(obj, secs, [], EndOf(Plans(obj, secs), |secs|), 0)
  {
    hide Plans, Placeable;
  }

  lemma RelaNext(obj: Object, secs: seq<Slice>, sizes: seq<nat>, offs: seq<nat>, off: nat, i: nat)
    requires SlicesIn(secs, obj.text) && Placeable(Plans(obj, secs)) && i < |secs| == |sizes|
    requires RelaPassed(obj, secs, offs, off, i) && Sized(obj.relocs, secs, sizes)
    ensures var at := RoundUp16(off);
      if sizes[i] > 0 then RelaPassed(obj, secs, offs + [at], at + sizes[i], i + 1) else RelaPassed(obj, secs, offs + [0], off, i + 1)
  {
    hide Plans, Placeable, AlignTo, SecRelocs, EndOf, StartOf, RelaCount;
    RelaLayout(obj, secs, i);
  }

  ghost predicate Sized(relocs: seq<Reloc>, secs: seq<Slice>, sizes: seq<nat>) {
    |sizes| == |secs| && forall i :: 0 <= i < |secs| ==> sizes[i] == |SecRelocs(relocs, secs, i)| * 24
  }

  method RelaSizes(lists: seq<seq<Reloc>>) returns (sizes: seq<nat>)
    ensures |sizes| == |lists| && forall i :: 0 <= i < |lists| ==> sizes[i] == |lists[i]| * 24
  {
    sizes := [];
    var i := 0;
    while i < |lists|
      invariant 0 <= i <= |lists| && |sizes| == i && forall k :: 0 <= k < i ==> sizes[k] == |lists[k]| * 24
    {
      sizes := sizes + [|lists[i]| * 24];
      i := i + 1;
    }
  }

  /** Where the relocation sections go. */
  method RelaOffsets(secs: seq<Slice>, sizes: seq<nat>, start: nat, ghost obj: Object) returns (offs: seq<nat>, off: nat)
    requires SlicesIn(secs, obj.text) && Placeable(Plans(obj, secs)) && Sized(obj.relocs, secs, sizes)
    requires |sizes| == |secs| <= |Plans(obj, secs)| && start == EndOf(Plans(obj, secs), |secs|)
    ensures RelaPassed(obj, secs, offs, off, |secs|)
  {
    hide *;
    RelaNone(obj, secs);
    off, offs := start, [];
    var i := 0;
    while i < |secs|
      invariant 0 <= i <= |secs| == |sizes| && RelaPassed(obj, secs, offs, off, i)
    {
      RelaNext(obj, secs, sizes, offs, off, i);
      if sizes[i] > 0 {
        off := RoundUp16(off);
        offs := offs + [off];
        off := off + sizes[i];
      } else {
        offs := offs + [0];
      }
      i := i + 1;
    }
  }

  /** The last four sections. */
  lemma TailPlan(obj: Object, secs: seq<Slice>)
    requires SlicesIn(secs, obj.text)
    ensures var plans, n := Plans(obj, secs), |Plans(obj, secs)|;
      && n == |secs| + RelaCount(obj.relocs, secs, |secs|) + 4
      && plans[n - 4] == TailPlans(obj, secs)[0] && plans[n - 3] == TailPlans(obj, secs)[1]
      && plans[n - 2] == TailPlans(obj, secs)[2] && plans[n - 1] == TailPlans(obj, secs)[3]
  {
    PlanAt(obj, secs);
    hide Plans, TailPlans, RelaCount, TextPlan;
    var plans, n := Plans(obj, secs), |Plans(obj, secs)|;
    assert plans[n - 4..][0] == plans[n - 4] && plans[n - 4..][1] == plans[n - 3];
    assert plans[n - 4..][2] == plans[n - 2] && plans[n - 4..][3] == plans[n - 1];
  }

  /** Where the last four sections go. */
  lemma TailLayout(obj: Object, secs: seq<Slice>)
    requires SlicesIn(secs, obj.text) && Placeable(Plans(obj, secs))
    ensures var plans, n := Plans(obj, secs), |Plans(obj, secs)|;
      && n >= 4
      && StartOf(plans, n - 4) == AlignTo(EndOf(plans, n - 4), 8)
      && StartOf(plans, n - 3) == AlignTo(StartOf(plans, n - 4) + |obj.data|, 8)
      && StartOf(plans, n - 2) == StartOf(plans, n - 3) + 24 * (1 + |Sorted(obj.symbols)|)
      && StartOf(plans, n - 1) == StartOf(plans, n - 2) + |StrTab(Sorted(obj.symbols)).bytes|
      && EndOf(plans, n) == StartOf(plans, n - 1) + |ShStrTab(obj.relocs, secs).bytes|
  {
    TailPlan(obj, secs);
    hide Plans, Placeable, AlignTo, ShStrTab, StrTab, Sorted, EncodeSyms, RelaCount, OffsetOf, SlicesIn;
    var plans, n := Plans(obj, secs), |Plans(obj, secs)|;
    AlignOne(EndOf(plans, n - 2));
    AlignOne(EndOf(plans, n - 1));
  }

  lemma AlignOne(n: nat)
    ensures AlignTo(n, 1) == n
  {
  }

  // --- entries ---

  method BuildIndex(syms: seq<Symbol>) returns (index: map<Name, nat>)
    ensures index == SymIndex(syms)
  {
    index := map[];
    var j := 0;
    while j < |syms|
      invariant 0 <= j <= |syms| && index == SymIndex(syms[..j])
    {
      assert syms[..j + 1][..j] == syms[..j];
      index := index[syms[j].name := j + 1];
      j := j + 1;
    }
    assert syms[..|syms|] == syms;
  }

  /** The entries of one relocation section, unless a symbol is unknown. */
  method PutEntries(b: Buf, rs: seq<Reloc>, index: map<Name, nat>) returns (ok: bool)
    modifies b
    ensures ok <==> forall j :: 0 <= j < |rs| ==> rs[j].symbol in index
    ensures ok ==> b.data == old(b.data) + EncodeRelas(index, rs)
  {
    hide EncodeRela;
    var j := 0;
    while j < |rs|
      invariant 0 <= j <= |rs| && b.data == old(b.data) + EncodeRelas(index, rs[..j])
      invariant forall k :: 0 <= k < j ==> rs[k].symbol in index
      modifies b
    {
      if rs[j].symbol !in index {
        return false;
      }
      PutEntry(b, rs[j], index);
      assert rs[..j + 1][..j] == rs[..j];
      j := j + 1;
    }
    assert rs[..|rs|] == rs;
    ok := true;
  }

  method PutEntry(b: Buf, r: Reloc, index: map<Name, nat>)
    requires r.symbol in index
    modifies b
    ensures b.data == old(b.data) + EncodeRela(index, r)
  {
    hide LittleEndian;
    b.U64(r.offset);
    b.U64(index[r.symbol] * TWO32 + r.kind);
    b.U64(Unsigned(r.addend));
  }

  lemma {:induction false} ZeroBytes(n: nat)
    ensures LittleEndian(n, 0) == Zeros(n)
  {
    if n > 0 {
      ZeroBytes(n - 1);
    }
  }

  method PutEmpty(b: Buf)
    modifies b
    ensures b.data == old(b.data) + Zeros(24)
  {
    ZeroBytes(4);
    ZeroBytes(2);
    ZeroBytes(8);
    hide LittleEndian;
    b.U32(0);
    b.U8(0);
    b.U8(0);
    b.U16(0);
    b.U64(0);
    b.U64(0);
    assert b.data == old(b.data) + (Zeros(4) + [0] + [0] + Zeros(2) + Zeros(8) + Zeros(8));
    assert Zeros(4) + [0] + [0] + Zeros(2) + Zeros(8) + Zeros(8) == Zeros(24);
  }

  method SectionNumber(s: Symbol, secs: seq<Slice>, dataIndex: nat) returns (k: nat)
    ensures k == SectionOf(s, secs, dataIndex)
  {
    if s.undefined {
      return 0;
    }
    if s.inText {
      var home := FindSection(secs, s.value);
      return match home case Some(i) => 1 + i case None => 1;
    }
    k := dataIndex;
  }

  method AdjustedValue(s: Symbol, secs: seq<Slice>) returns (v: nat)
    ensures v == ValueIn(s, secs)
  {
    if s.undefined {
      return 0;
    }
    if s.inText {
      var home := FindSection(secs, s.value);
      if home.Some? {
        return s.value - secs[home.value].start;
      }
    }
    v := s.value;
  }

  method PutSymbol(b: Buf, name: nat, info: Byte, section: nat, value: nat, size: nat)
    modifies b
    ensures b.data == old(b.data) + (LittleEndian(4, name) + LittleEndian(1, info) + LittleEndian(1, 0)
                                     + LittleEndian(2, section) + LittleEndian(8, value) + LittleEndian(8, size))
  {
    hide LittleEndian;
    b.U32(name);
    b.U8(info);
    b.U8(0);
    b.U16(section);
    b.U64(value);
    b.U64(size);
  }

  method PutSymbols(b: Buf, strtab: Strings, secs: seq<Slice>, dataIndex: nat, syms: seq<Symbol>)
    requires strtab == StrTab(syms)
    modifies b
    ensures b.data == old(b.data) + EncodeSyms(strtab, secs, dataIndex, syms)
  {
    hide StrTab, SectionOf, ValueIn, LittleEndian, BindCode;
    PutEmpty(b);
    var i := 0;
    while i < |syms|
      invariant 0 <= i <= |syms| && b.data == old(b.data) + EncodeSyms(strtab, secs, dataIndex, syms[..i])
      modifies b
    {
      var s := syms[i];
      SymNamed(syms, i);
      var section := SectionNumber(s, secs, dataIndex);
      var value := AdjustedValue(s, secs);
      ghost var before := b.data;
      PutSymbol(b, strtab.offsets[s.name], BindCode(s.bind) * 16 + s.kind, section, value, s.size);
      assert b.data == before + EncodeSym(strtab, secs, dataIndex, s);
      assert syms[..i + 1][..i] == syms[..i];
      i := i + 1;
    }
    assert syms[..|syms|] == syms;
  }

  method WriteShdr(b: Buf, name: nat, kind: nat, flags: nat, offset: nat, size: nat, link: nat, info: nat, align: nat, entsize: nat)
    modifies b
    ensures b.data == old(b.data) + EncodeShdr(Shdr(name, kind, flags, 0, offset, size, link, info, align, entsize))
  {
    hide LittleEndian;
    b.U32(name);
    b.U32(kind);
    b.U64(flags);
    b.U64(0);
    b.U64(offset);
    b.U64(size);
    b.U32(link);
    b.U32(info);
    b.U64(align);
    b.U64(entsize);
  }

  method PutFileHeader(b: Buf, machine: nat, shoff: nat, count: nat, names: nat)
    modifies b
    ensures b.data == old(b.data) + FileHeader(machine, shoff, count, names)
  {
    hide LittleEndian, Zeros;
    PutIdent(b);
    ghost var front := b.data;
    b.U16(1);
    b.U16(machine);
    b.U32(1);
    b.U64(0);
    b.U64(0);
    b.U64(shoff);
    ghost var middle := LittleEndian(2, 1) + LittleEndian(2, machine) + LittleEndian(4, 1) + LittleEndian(8, 0) + LittleEndian(8, 0)
                        + LittleEndian(8, shoff);
    assert b.data == front + middle;
    PutHeaderRest(b, count, names);
    HeaderJoin(machine, shoff, count, names);
  }

  function HeaderRest(count: nat, names: nat): seq<Byte> {
    LittleEndian(4, 0) + LittleEndian(2, 64) + LittleEndian(2, 0) + LittleEndian(2, 0) + LittleEndian(2, 64)
    + LittleEndian(2, count) + LittleEndian(2, names)
  }

  method PutHeaderRest(b: Buf, count: nat, names: nat)
    modifies b
    ensures b.data == old(b.data) + HeaderRest(count, names)
  {
    hide LittleEndian;
    b.U32(0);
    b.U16(64);
    b.U16(0);
    b.U16(0);
    b.U16(64);
    b.U16(count);
    b.U16(names);
  }

  lemma HeaderJoin(machine: nat, shoff: nat, count: nat, names: nat)
    ensures FileHeader(machine, shoff, count, names)
         == [0x7F, 0x45, 0x4C, 0x46, 2, 1, 1, 0, 0] + Zeros(7)
            + (LittleEndian(2, 1) + LittleEndian(2, machine) + LittleEndian(4, 1) + LittleEndian(8, 0) + LittleEndian(8, 0)
               + LittleEndian(8, shoff))
            + HeaderRest(count, names)
  {
    hide LittleEndian, Zeros;
  }

  method PutIdent(b: Buf)
    modifies b
    ensures b.data == old(b.data) + ([0x7F, 0x45, 0x4C, 0x46, 2, 1, 1, 0, 0] + Zeros(7))
  {
    b.U8(0x7F);
    b.U8(0x45);
    b.U8(0x4C);
    b.U8(0x46);
    b.U8(2);
    b.U8(1);
    b.U8(1);
    b.U8(0);
    b.U8(0);
    assert b.data == old(b.data) + [0x7F, 0x45, 0x4C, 0x46, 2, 1, 1, 0, 0];
    var i := 0;
    while i < 7
      invariant 0 <= i <= 7 && b.data == old(b.data) + ([0x7F, 0x45, 0x4C, 0x46, 2, 1, 1, 0, 0] + Zeros(i))
      modifies b
    {
      b.U8(0);
      assert Zeros(i) + [0] == Zeros(i + 1);
      i := i + 1;
    }
  }
}
