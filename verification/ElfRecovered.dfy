/** What the reader makes of the sections of a written object: the object. */
module ElfRecovered {
  import opened Words
  import opened Bytes
  import opened ElfObject
  import opened ElfReader
  import opened ElfReadBack

  // --- names ---

  predicate NulFree(name: Name) {
    forall i :: 0 <= i < |name| ==> name[i] != 0
  }

  lemma {:induction false} NameAtOf(a: seq<Byte>, name: Name, rest: seq<Byte>)
    requires NulFree(name)
    ensures NameAt(a + name + [0] + rest, |a|) == name
    decreases |name|
  {
    var b := a + name + [0] + rest;
    if name != [] {
      assert b == (a + [name[0]]) + name[1..] + [0] + rest && b[|a|] == name[0];
      NameAtOf(a + [name[0]], name[1..], rest);
      assert [name[0]] + name[1..] == name;
    }
  }

  /** A table that ends with a NUL can grow. */
  lemma {:induction false} NameStays(b: seq<Byte>, more: seq<Byte>, at: nat)
    requires at < |b| && b[|b| - 1] == 0
    ensures NameAt(b + more, at) == NameAt(b, at)
    decreases |b| - at
  {
    assert (b + more)[at] == b[at];
    if b[at] != 0 {
      NameStays(b, more, at + 1);
    }
  }

  ghost predicate NameHeld(t: Strings, name: Name) {
    name in t.offsets ==> t.offsets[name] < |t.bytes| && NameAt(t.bytes, t.offsets[name]) == name
  }

  ghost predicate StringsOk(t: Strings) {
    && t.bytes != [] && t.bytes[|t.bytes| - 1] == 0
    && forall name {:trigger NameHeld(t, name)} :: NameHeld(t, name)
  }

  lemma AddNameOk(t: Strings, name: Name)
    requires StringsOk(t) && NulFree(name)
    ensures StringsOk(AddName(t, name)) && name in AddName(t, name).offsets
    ensures forall x :: x in t.offsets ==> x in AddName(t, name).offsets
  {
    var t1 := AddName(t, name);
    if name !in t.offsets {
      NameAtOf(t.bytes, name, []);
      assert t.bytes + name + [0] + [] == t1.bytes;
      forall x {:trigger NameHeld(t1, x)}
        ensures NameHeld(t1, x)
      {
        assert NameHeld(t, x);
        if x in t.offsets {
          NameStays(t.bytes, name + [0], t.offsets[x]);
          assert t.bytes + (name + [0]) == t1.bytes;
        }
      }
    }
  }

  lemma {:induction false} AddNamesOk(names: seq<Name>)
    requires forall i :: 0 <= i < |names| ==> NulFree(names[i])
    ensures StringsOk(AddNames(NoStrings(), names))
    ensures forall i :: 0 <= i < |names| ==> names[i] in AddNames(NoStrings(), names).offsets
  {
    if names == [] {
      forall x {:trigger NameHeld(NoStrings(), x)}
        ensures NameHeld(NoStrings(), x)
      {
      }
    } else {
      hide StringsOk, NulFree, AddName;
      AddNamesOk(names[..|names| - 1]);
      AddNameOk(AddNames(NoStrings(), names[..|names| - 1]), names[|names| - 1]);
    }
  }

  // --- the list of sections ---

  lemma {:induction false} TilesNext(secs: seq<Slice>, from: nat, to: nat, i: nat)
    requires Tiles(secs, from, to) && i < |secs|
    ensures secs[i].start + secs[i].size == if i + 1 < |secs| then secs[i + 1].start else to
  {
    if i + 1 < |secs| {
      TilesNext(secs[..|secs| - 1], from, secs[|secs| - 1].start, i);
    }
  }

  /** Where slice `i` begins, or the text ends. */
  function Edge(secs: seq<Slice>, i: nat, size: nat): nat
    requires i <= |secs|
  {
    if i < |secs| then secs[i].start else size
  }

  /** What is needed of the object and its sections. */
  ghost predicate Good(obj: Object, slices: seq<Slice>) {
    && SlicesIn(slices, obj.text) && Tiles(slices, 0, |obj.text|)
    && Placeable(Plans(obj, slices)) && PlansFit(Plans(obj, slices))
  }

  function AllSecs(obj: Object, slices: seq<Slice>): (secs: seq<Sec>)
    requires SlicesIn(slices, obj.text) && Placeable(Plans(obj, slices))
    ensures |secs| == |slices| + RelaCount(obj.relocs, slices, |slices|) + 5 == DataIndex(obj, slices) + 4
  {
    AllSize(obj, slices);
    SecsOf(Plans(obj, slices), |Plans(obj, slices)| + 1)
  }

  /** The text sections are where one expects them; nothing else is executable. */
  lemma TextSecs(obj: Object, slices: seq<Slice>, k: nat)
    requires Good(obj, slices) && k < |AllSecs(obj, slices)|
    ensures Executable(AllSecs(obj, slices)[k]) <==> 1 <= k <= |slices|
    ensures 1 <= k <= |slices| ==>
              var s := slices[k - 1]; AllSecs(obj, slices)[k].content == obj.text[s.start..s.start + s.size]
  {
    hide Tiles, StrTab, ShStrTab, EncodeSyms, OffsetOf, Sorted, SymIndex, FirstGlobal, DataIndex, StartOf, PlansFit;
    if k > 0 {
      PlanKinds(obj, slices, k - 1);
    }
  }

  /** The kind and flags of each section. */
  lemma PlanKinds(obj: Object, slices: seq<Slice>, k: nat)
    requires SlicesIn(slices, obj.text) && k < |Plans(obj, slices)|
    ensures var p := Plans(obj, slices)[k]; var t, r := |slices|, RelaCount(obj.relocs, slices, |slices|);
      && |Plans(obj, slices)| == t + r + 4
      && (k < t ==> p.kind == 1 && p.flags == 6 && p.content == obj.text[slices[k].start..slices[k].start + slices[k].size])
      && (t <= k < t + r ==> p.kind == 4 && p.flags == 0)
      && (k == t + r ==> p.kind == 1 && p.flags == 3 && p.content == obj.data)
      && (k > t + r ==> p == TailPlans(obj, slices)[k - t - r] && p.kind == (if k == t + r + 1 then 2 else 3) && p.flags == 0)
  {
    hide StrTab, ShStrTab, EncodeSyms, OffsetOf, Sorted, SymIndex, FirstGlobal, RelaPlans;
    var names, index := ShStrTab(obj.relocs, slices), SymIndex(Sorted(obj.symbols));
    RelasPlaceable(names, obj.relocs, slices, index, DataIndex(obj, slices) + 1, |slices|);
    RelaKinds(names, obj.relocs, slices, index, DataIndex(obj, slices) + 1, |slices|);
  }

  lemma {:induction false} RelaKinds(names: Strings, relocs: seq<Reloc>, secs: seq<Slice>, index: map<Name, nat>, symtab: nat, n: nat)
    requires n <= |secs|
    ensures forall p :: p in RelaPlans(names, relocs, secs, index, symtab, n) ==> p.kind == 4 && p.flags == 0
  {
    hide SecRelocs, EncodeRelas, OffsetOf;
    if n > 0 {
      RelaKinds(names, relocs, secs, index, symtab, n - 1);
    }
  }

  /** In front of section `1 + i` lies the text up to slice `i`. */
  lemma {:induction false} TextUpTo(obj: Object, slices: seq<Slice>, i: nat)
    requires Good(obj, slices) && i <= |slices|
    ensures Edge(slices, i, |obj.text|) <= |obj.text|
    ensures TextOf(AllSecs(obj, slices), 1 + i) == obj.text[..Edge(slices, i, |obj.text|)]
  {
    hide Plans, Tiles, PlansFit, AllSecs, RelaCount, SecRelocs, Executable, Edge, TextOf;
    EdgeFits(obj, slices, i);
    TextSecs(obj, slices, i);
    TextStep(AllSecs(obj, slices), i);
    if i > 0 {
      TextUpTo(obj, slices, i - 1);
      EdgeStep(obj, slices, i);
      var s := slices[i - 1];
      PrefixJoin(obj.text, s.start, s.start + s.size);
    }
  }

  lemma TextStep(secs: seq<Sec>, n: nat)
    requires n < |secs|
    ensures TextOf(secs, n + 1) == TextOf(secs, n) + if Executable(secs[n]) then secs[n].content else []
    ensures TextOf(secs, 0) == []
  {
  }

  lemma PrefixJoin(text: seq<Byte>, a: nat, b: nat)
    requires a <= b <= |text|
    ensures text[..a] + text[a..b] == text[..b]
  {
  }

  lemma EdgeStep(obj: Object, slices: seq<Slice>, i: nat)
    requires SlicesIn(slices, obj.text) && Tiles(slices, 0, |obj.text|) && 0 < i <= |slices|
    ensures var s := slices[i - 1];
      Edge(slices, i - 1, |obj.text|) == s.start && Edge(slices, i, |obj.text|) == s.start + s.size <= |obj.text|
  {
    hide Tiles;
    TilesNext(slices, 0, |obj.text|, i - 1);
  }

  lemma EdgeFits(obj: Object, slices: seq<Slice>, i: nat)
    requires SlicesIn(slices, obj.text) && Tiles(slices, 0, |obj.text|) && i <= |slices|
    ensures Edge(slices, i, |obj.text|) <= |obj.text| && (i == 0 ==> Edge(slices, i, |obj.text|) == 0)
    ensures i < |slices| ==> slices[i].start + slices[i].size <= |obj.text|
  {
    if slices != [] {
      TilesFrom(slices, 0, |obj.text|);
    }
  }

  lemma AllSize(obj: Object, slices: seq<Slice>)
    requires SlicesIn(slices, obj.text) && Placeable(Plans(obj, slices))
    ensures |Plans(obj, slices)| == |slices| + RelaCount(obj.relocs, slices, |slices|) + 4
  {
    hide StrTab, ShStrTab, EncodeSyms, OffsetOf, Sorted, SymIndex, FirstGlobal, RelaPlans, SecRelocs;
    RelasPlaceable(ShStrTab(obj.relocs, slices), obj.relocs, slices, SymIndex(Sorted(obj.symbols)), DataIndex(obj, slices) + 1, |slices|);
  }

  /** All text sections together are the text. */
  lemma {:induction false} TextWhole(obj: Object, slices: seq<Slice>, k: nat)
    requires Good(obj, slices) && |slices| < k <= |AllSecs(obj, slices)|
    ensures TextOf(AllSecs(obj, slices), k) == obj.text
    decreases k
  {
    hide Plans, Tiles, PlansFit, AllSecs;
    if k == |slices| + 1 {
      TextUpTo(obj, slices, |slices|);
      assert obj.text[..|obj.text|] == obj.text;
    } else {
      TextWhole(obj, slices, k - 1);
      TextSecs(obj, slices, k - 1);
    }
  }

  lemma {:induction false} FindAt(secs: seq<Sec>, kind: nat, flags: nat, from: nat, at: nat)
    requires from <= at < |secs| && secs[at].h.kind == kind && secs[at].h.flags == flags
    requires forall i :: from <= i < at ==> !(secs[i].h.kind == kind && secs[i].h.flags == flags)
    ensures FindSec(secs, kind, flags, from) == Some(at)
    decreases at - from
  {
    if from < at {
      FindAt(secs, kind, flags, from + 1, at);
    }
  }

  /** A section comes from its plan. */
  lemma SecIs(obj: Object, slices: seq<Slice>, k: nat)
    requires Good(obj, slices) && k <= |Plans(obj, slices)| == |AllSecs(obj, slices)| - 1
    ensures AllSecs(obj, slices)[0] == Sec(NullHeader(), [])
    ensures k > 0 ==>
              var s, p := AllSecs(obj, slices)[k], Plans(obj, slices)[k - 1];
              s.content == p.content && s.h.kind == p.kind && s.h.flags == p.flags && s.h.link == p.link && s.h.info == p.info
              && s.h.name == p.name && s.h.align == p.align && s.h.entsize == p.entsize
  {
    hide Plans, PlansFit, Tiles, StartOf, RelaCount, SecRelocs;
  }

  /** What each section in front of the symbol table is, by its number. */
  lemma SecKind(obj: Object, slices: seq<Slice>, k: nat)
    requires Good(obj, slices) && k <= DataIndex(obj, slices)
    ensures var s, d := AllSecs(obj, slices)[k], DataIndex(obj, slices);
      && (k < d ==> !(s.h.kind == 1 && s.h.flags == 3)) && s.h.kind != 2
      && (k == d ==> s.h.kind == 1 && s.h.flags == 3 && s.content == obj.data)
      && (s.h.kind == 4 <==> |slices| < k < d)
  {
    hide AllSecs, Plans, Tiles, PlansFit, EncodeSyms, StrTab, ShStrTab, StartOf, TailPlans, RelaPlans, TextPlans, SlicesIn, SecRelocs, RelaCount;
    AllSize(obj, slices);
    SecIs(obj, slices, k);
    if k > 0 {
      PlanKinds(obj, slices, k - 1);
    }
  }

  /** The last three sections are the symbol table and the string tables. */
  lemma LastSecs(obj: Object, slices: seq<Slice>, i: nat)
    requires Good(obj, slices) && 1 <= i <= 3
    ensures var s, p := AllSecs(obj, slices)[DataIndex(obj, slices) + i], TailPlans(obj, slices)[i];
      s.content == p.content && s.h.kind == p.kind == (if i == 1 then 2 else 3) && s.h.flags == 0
      && s.h.link == p.link && s.h.info == p.info && s.h.name == p.name && s.h.entsize == p.entsize
  {
    hide AllSecs, Plans, Tiles, PlansFit, EncodeSyms, StrTab, ShStrTab, StartOf, TailPlans, RelaPlans, TextPlans, SlicesIn, SecRelocs, RelaCount;
    AllSize(obj, slices);
    SecIs(obj, slices, DataIndex(obj, slices) + i);
    PlanKinds(obj, slices, DataIndex(obj, slices) + i - 1);
  }

  /** The data and the symbol table are found. */
  lemma TablesFound(obj: Object, slices: seq<Slice>)
    requires Good(obj, slices)
    ensures var secs, d := AllSecs(obj, slices), DataIndex(obj, slices);
      && |secs| == d + 4
      && FindSec(secs, 1, 3, 0) == Some(d) && FindSec(secs, 2, 0, 0) == Some(d + 1)
      && secs[d].content == obj.data
      && secs[d + 1].content == EncodeSyms(StrTab(Sorted(obj.symbols)), slices, d, Sorted(obj.symbols))
      && secs[d + 1].h.link == d + 2 && secs[d + 1].h.info == FirstGlobal(obj.symbols) && secs[d + 1].h.entsize == 24
      && secs[d + 2].content == StrTab(Sorted(obj.symbols)).bytes
  {
    hide Plans, Tiles, PlansFit, AllSecs, StrTab, ShStrTab, EncodeSyms, OffsetOf, Sorted, FirstGlobal, SecRelocs, FindSec;
    var secs, d := AllSecs(obj, slices), DataIndex(obj, slices);
    forall i | 0 <= i <= d
      ensures i < d ==> !(secs[i].h.kind == 1 && secs[i].h.flags == 3)
      ensures secs[i].h.kind != 2
    {
      SecKind(obj, slices, i);
    }
    SecKind(obj, slices, d);
    LastSecs(obj, slices, 1);
    LastSecs(obj, slices, 2);
    FindAt(secs, 1, 3, 0, d);
    FindAt(secs, 2, 0, 0, d + 1);
  }

  // --- symbols ---

  /** What a symbol is read back as. Of an undefined one only the name, the
      binding, the kind and the size are in the file; a symbol of an empty text
      has no text section and lands in the data. */
  function Canon(s: Symbol, textSize: nat): Symbol {
    if s.undefined then s.(inText := false, value := 0)
    else if textSize == 0 then s.(inText := false)
    else s
  }

  function Canons(syms: seq<Symbol>, textSize: nat): (out: seq<Symbol>)
    ensures |out| == |syms| && forall i :: 0 <= i < |syms| ==> out[i] == Canon(syms[i], textSize)
  {
    seq(|syms|, i requires 0 <= i < |syms| => Canon(syms[i], textSize))
  }

  /** Values fit their fields, names have no NUL, text symbols lie in the text or
      at its end. */
  predicate SymbolOk(s: Symbol, textSize: nat) {
    && NulFree(s.name) && s.value < TWO64 && s.size < TWO64
    && (!s.undefined && s.inText ==> s.value <= textSize)
  }

  predicate SymbolsOk(syms: seq<Symbol>, textSize: nat) {
    forall i :: 0 <= i < |syms| ==> SymbolOk(syms[i], textSize)
  }

  /** Every offset of the text lies in a section. */
  lemma {:induction false} HomeFound(secs: seq<Slice>, from: nat, to: nat, offset: nat)
    requires Tiles(secs, from, to) && from <= offset < to
    ensures Home(secs, offset).Some?
  {
    if secs != [] {
      if offset < secs[|secs| - 1].start {
        HomeFound(secs[..|secs| - 1], from, secs[|secs| - 1].start, offset);
      }
    }
  }

  function SymValues(strtab: Strings, secs: seq<Slice>, d: nat, s: Symbol): seq<nat> {
    [OffsetOf(strtab, s.name), BindCode(s.bind) * 16 + s.kind, 0, SectionOf(s, secs, d), ValueIn(s, secs), s.size]
  }

  lemma SymWritten(strtab: Strings, secs: seq<Slice>, d: nat, s: Symbol)
    ensures |SYM_FIELDS| == 6 && EncodeSym(strtab, secs, d, s) == Written(SYM_FIELDS, SymValues(strtab, secs, d, s))
  {
    hide LittleEndian, Written, OffsetOf, SectionOf, ValueIn, BindCode;
    var v := SymValues(strtab, secs, d, s);
    WrittenTriple(2, 8, 8, v[3], v[4], v[5]);
    WrittenThree(4, 1, 1, v[0], v[1], v[2], [2, 8, 8], [v[3], v[4], v[5]]);
    SymWidths();
    assert v == [v[0], v[1], v[2]] + [v[3], v[4], v[5]];
    SymParts(strtab, secs, d, s);
  }

  lemma SymParts(strtab: Strings, secs: seq<Slice>, d: nat, s: Symbol)
    ensures var v := SymValues(strtab, secs, d, s);
      EncodeSym(strtab, secs, d, s)
      == LittleEndian(4, v[0]) + LittleEndian(1, v[1]) + LittleEndian(1, v[2])
         + (LittleEndian(2, v[3]) + LittleEndian(8, v[4]) + LittleEndian(8, v[5]))
  {
    hide LittleEndian, OffsetOf, SectionOf, ValueIn, BindCode;
  }

  lemma SymWidths()
    ensures SYM_FIELDS == [4, 1, 1] + [2, 8, 8]
  {
  }

  /** The fields of a symbol, read back. */
  lemma SymFieldsBack(strtab: Strings, secs: seq<Slice>, d: nat, s: Symbol)
    requires OffsetOf(strtab, s.name) < TWO32 && SectionOf(s, secs, d) < 65536
    requires ValueIn(s, secs) < TWO64 && s.size < TWO64
    ensures SymFields(EncodeSym(strtab, secs, d, s)) == SymValues(strtab, secs, d, s)
  {
    hide Written, EncodeSym, Fields, SectionOf, ValueIn, OffsetOf;
    PowValues();
    PowTwo();
    hide Pow256;
    SymWritten(strtab, secs, d, s);
    FieldsBack(SYM_FIELDS, SymValues(strtab, secs, d, s));
  }

  lemma SymBack(obj: Object, slices: seq<Slice>, s: Symbol)
    requires Good(obj, slices) && SymbolOk(s, |obj.text|)
    requires var t := StrTab(Sorted(obj.symbols)); StringsOk(t) && s.name in t.offsets && |t.bytes| < TWO32
    ensures var t := StrTab(Sorted(obj.symbols));
      ReadSym(EncodeSym(t, slices, DataIndex(obj, slices), s), t.bytes, AllSecs(obj, slices)) == Canon(s, |obj.text|)
  {
    hide Plans, Tiles, PlansFit, StrTab, EncodeSym, SymFields, AllSecs, Executable, NameAt, Sorted;
    var t, d, secs := StrTab(Sorted(obj.symbols)), DataIndex(obj, slices), AllSecs(obj, slices);
    assert NameHeld(t, s.name);
    SectionCount(obj, slices);
    SymPlace(obj, slices, s);
    SymFieldsBack(t, slices, d, s);
  }

  /** The section index names a text section exactly for the text's symbols, and
      start and value add up. */
  lemma SymPlace(obj: Object, slices: seq<Slice>, s: Symbol)
    requires Good(obj, slices) && SymbolOk(s, |obj.text|)
    ensures var d, secs := DataIndex(obj, slices), AllSecs(obj, slices); var k := SectionOf(s, slices, d);
      && k < |secs| && ValueIn(s, slices) < TWO64
      && (k == 0 <==> s.undefined)
      && (Executable(secs[k]) <==> !s.undefined && s.inText && obj.text != [])
      && (Executable(secs[k]) ==> StartOfSec(secs, k) + ValueIn(s, slices) == s.value)
      && (!Executable(secs[k]) ==> ValueIn(s, slices) == if s.undefined then 0 else s.value)
  {
    hide Plans, Tiles, PlansFit, AllSecs, Executable, TextOf, RelaCount;
    var d := DataIndex(obj, slices);
    var k := SectionAt(obj, slices, s);
    TextSecs(obj, slices, k);
    TilesEmpty(slices, |obj.text|);
    if !s.undefined && s.inText {
      if s.value < |obj.text| {
        HomeFound(slices, 0, |obj.text|, s.value);
        TextUpTo(obj, slices, Home(slices, s.value).value);
      } else {
        HomeBehind(slices, |obj.text|, s.value);
        TextUpTo(obj, slices, 0);
      }
    }
  }

  /** There is a section if and only if there is text; the first starts at 0. */
  lemma TilesEmpty(slices: seq<Slice>, size: nat)
    requires Tiles(slices, 0, size)
    ensures slices == [] <==> size == 0
    ensures slices != [] ==> slices[0].start == 0
  {
    TilesOrder(slices, 0, size);
    if slices != [] {
      TilesFrom(slices, 0, size);
    }
  }

  lemma HomeBehind(slices: seq<Slice>, size: nat, offset: nat)
    requires Tiles(slices, 0, size) && size <= offset
    ensures Home(slices, offset) == None
  {
    TilesOrder(slices, 0, size);
  }

  lemma SectionAt(obj: Object, slices: seq<Slice>, s: Symbol) returns (k: nat)
    requires Good(obj, slices) && SymbolOk(s, |obj.text|)
    ensures k == SectionOf(s, slices, DataIndex(obj, slices)) && k < |AllSecs(obj, slices)|
  {
    hide Plans, Tiles, PlansFit, AllSecs;
    k := SectionOf(s, slices, DataIndex(obj, slices));
  }

  lemma SectionCount(obj: Object, slices: seq<Slice>)
    requires Good(obj, slices)
    ensures |AllSecs(obj, slices)| < 65536
  {
  }

  lemma {:induction false} SymsBack(obj: Object, slices: seq<Slice>, syms: seq<Symbol>, n: nat)
    requires Good(obj, slices) && SymbolsOk(syms, |obj.text|) && n <= |syms|
    requires var t := StrTab(Sorted(obj.symbols));
      StringsOk(t) && |t.bytes| < TWO32 && forall i :: 0 <= i < |syms| ==> syms[i].name in t.offsets
    ensures var t, d := StrTab(Sorted(obj.symbols)), DataIndex(obj, slices);
      ReadSyms(EncodeSyms(t, slices, d, syms), t.bytes, AllSecs(obj, slices), n) == Canons(syms[..n], |obj.text|)
  {
    hide Good, StrTab, Sorted, AllSecs, SymbolOk, StringsOk, DataIndex, ReadSym, EncodeSym, Canon, Plans;
    var t, d := StrTab(Sorted(obj.symbols)), DataIndex(obj, slices);
    if n > 0 {
      SymsBack(obj, slices, syms, n - 1);
      EntryAt(t, slices, d, syms, n);
      SymBack(obj, slices, syms[n - 1]);
      assert Canons(syms[..n], |obj.text|) == Canons(syms[..n - 1], |obj.text|) + [Canon(syms[n - 1], |obj.text|)];
    } else {
      assert Canons(syms[..0], |obj.text|) == [];
    }
  }

  /** Entry `n` of the symbol table. */
  lemma {:induction false} EntryAt(t: Strings, secs: seq<Slice>, d: nat, syms: seq<Symbol>, n: nat)
    requires 0 < n <= |syms|
    ensures EncodeSyms(t, secs, d, syms)[24 * n..24 * (n + 1)] == EncodeSym(t, secs, d, syms[n - 1])
    decreases |syms|
  {
    hide EncodeSym;
    var m := |syms| - 1;
    var before := EncodeSyms(t, secs, d, syms[..m]);
    TailSlice(before, EncodeSym(t, secs, d, syms[m]));
    if n <= m {
      EntryAt(t, secs, d, syms[..m], n);
      PrefixSlice(before, EncodeSyms(t, secs, d, syms), 24 * n, 24 * (n + 1));
    }
  }
}
