/** `elf::write`: the writer with its buffers, proved to produce `ElfBytes`. */
module ElfWriter {
  import opened Words
  import opened Bytes
  import opened ElfObject
  import opened ElfPlans

  lemma OneByte(v: Byte)
    ensures LittleEndian(1, v) == [v]
  {
    assert LittleEndian(0, v / 256) == [];
  }

  class Buf {
    var data: seq<Byte>

    constructor ()
      ensures data == []
    {
      data := [];
    }

    method U8(v: Byte)
      modifies this
      ensures data == old(data) + [v] == old(data) + LittleEndian(1, v)
    {
      OneByte(v);
      data := data + [v];
    }

    /** `u16`, `u32` and `u64`: the low `n` bytes, lowest first. */
    method Number(n: nat, v: nat)
      modifies this
      ensures data == old(data) + LittleEndian(n, v)
    {
      var i := 0;
      while i < n
        invariant 0 <= i <= n && data == old(data) + LittleEndian(n, v)[..i]
      {
        ByteOf(n, v, i);
        U8(v / Pow256(i) % 256);
        i := i + 1;
      }
    }

    method U16(v: nat)
      modifies this
      ensures data == old(data) + LittleEndian(2, v)
    {
      Number(2, v);
    }

    method U32(v: nat)
      modifies this
      ensures data == old(data) + LittleEndian(4, v)
    {
      Number(4, v);
    }

    method U64(v: nat)
      modifies this
      ensures data == old(data) + LittleEndian(8, v)
    {
      Number(8, v);
    }

    method Put(s: seq<Byte>)
      modifies this
      ensures data == old(data) + s
    {
      data := data + s;
    }

    method PadTo(target: nat)
      modifies this
      ensures data == ElfObject.PadTo(old(data), target)
    {
      while |data| < target
        invariant |data| >= |old(data)| && data == old(data) + Zeros(|data| - |old(data)|)
        invariant |data| <= target || data == old(data)
      {
        U8(0);
      }
    }
  }

  class StringTable {
    var bytes: seq<Byte>
    var offsets: map<Name, nat>

    function Contents(): Strings
      reads this
    {
      Strings(bytes, offsets)
    }

    constructor ()
      ensures Contents() == NoStrings()
    {
      bytes, offsets := [0], map[];
    }

    method Add(name: Name) returns (off: nat)
      modifies this
      ensures Contents() == AddName(old(Contents()), name)
      ensures name in offsets && off == offsets[name]
    {
      if name in offsets {
        off := offsets[name];
      } else {
        off := |bytes|;
        offsets := offsets[name := off];
        bytes := bytes + name;
        bytes := bytes + [0];
      }
    }
  }

  // --- symbols and sections ---

  /** Locals, then globals; also the first global's index. */
  method SortSymbols(symbols: seq<Symbol>) returns (syms: seq<Symbol>, firstGlobal: nat)
    ensures syms == Sorted(symbols) && firstGlobal == FirstGlobal(symbols)
  {
    syms := [];
    var i := 0;
    while i < |symbols|
      invariant 0 <= i <= |symbols| && syms == WithBind(symbols[..i], LocalBind)
    {
      assert symbols[..i + 1][..i] == symbols[..i];
      if symbols[i].bind == LocalBind {
        syms := syms + [symbols[i]];
      }
      i := i + 1;
    }
    assert symbols[..|symbols|] == symbols;
    firstGlobal := |syms| + 1;
    i := 0;
    while i < |symbols|
      invariant 0 <= i <= |symbols|
      invariant syms == WithBind(symbols, LocalBind) + WithBind(symbols[..i], GlobalBind)
    {
      assert symbols[..i + 1][..i] == symbols[..i];
      if symbols[i].bind == GlobalBind {
        syms := syms + [symbols[i]];
      }
      i := i + 1;
    }
  }

  /** The text sections, for the text symbols in sorted order. */
  method SplitText(order: seq<TextSym>, textSize: nat) returns (secs: seq<Slice>)
    ensures secs == Sections(order, textSize)
  {
    hide DOT_TEXT;
    var slices: seq<Slice> := [];
    var i := 0;
    while i < |order|
      invariant 0 <= i <= |order| && slices == Slices(order, i, textSize)
    {
      var start := order[i].value;
      var end := if i + 1 < |order| then order[i + 1].value else textSize;
      if end > start {
        slices := slices + [Slice(DOT_TEXT + [46] + order[i].name, start, end - start)];
      }
      i := i + 1;
    }
    secs := [];
    if slices != [] && slices[0].start > 0 {
      secs := [Slice(DOT_TEXT, 0, slices[0].start)];
    }
    secs := secs + slices;
    if secs == [] && textSize > 0 {
      secs := [Slice(DOT_TEXT, 0, textSize)];
    }
  }

  /** The first section that holds an offset. */
  method FindSection(secs: seq<Slice>, offset: nat) returns (home: Option<nat>)
    ensures home == Home(secs, offset)
  {
    var i := 0;
    while i < |secs|
      invariant 0 <= i <= |secs| && forall j :: 0 <= j < i ==> !Inside(offset, secs[j])
    {
      if secs[i].start <= offset && offset < secs[i].start + secs[i].size {
        HomeIs(secs, offset, i);
        return Some(i);
      }
      i := i + 1;
    }
    HomeNone(secs, offset);
    home := None;
  }

  ghost predicate Assigned(relocs: seq<Reloc>, secs: seq<Slice>, lists: seq<seq<Reloc>>) {
    |lists| == |secs| && forall i :: 0 <= i < |secs| ==> lists[i] == SecRelocs(relocs, secs, i)
  }

  /** The relocations of each section. */
  method AssignRelocs(relocs: seq<Reloc>, secs: seq<Slice>) returns (lists: seq<seq<Reloc>>)
    ensures Assigned(relocs, secs, lists)
  {
    hide Home, Assigned;
    lists := seq(|secs|, _ => []);
    NoneAssigned(secs, lists);
    assert relocs[..0] == [];
    var n := 0;
    while n < |relocs|
      invariant 0 <= n <= |relocs| && |lists| == |secs| && Assigned(relocs[..n], secs, lists)
    {
      AssignStep(relocs, secs, lists, n);
      var home := FindSection(secs, relocs[n].offset);
      if home.Some? {
        var i := home.value;
        lists := lists[i := lists[i] + [relocs[n].(offset := relocs[n].offset - secs[i].start)]];
      }
      n := n + 1;
    }
    assert relocs[..|relocs|] == relocs;
  }

  lemma NoneAssigned(secs: seq<Slice>, lists: seq<seq<Reloc>>)
    requires |lists| == |secs| && forall i :: 0 <= i < |secs| ==> lists[i] == []
    ensures Assigned([], secs, lists)
  {
  }

  lemma AssignStep(relocs: seq<Reloc>, secs: seq<Slice>, lists: seq<seq<Reloc>>, n: nat)
    requires n < |relocs| && Assigned(relocs[..n], secs, lists)
    ensures var r := relocs[n]; var home := Home(secs, r.offset);
      Assigned(relocs[..n + 1], secs,
               if home.Some? then lists[home.value := lists[home.value] + [r.(offset := r.offset - secs[home.value].start)]] else lists)
  {
    hide Home, SecRelocs;
    forall i {:trigger SecRelocs(relocs[..n + 1], secs, i)} | 0 <= i < |secs|
      ensures Home(secs, relocs[n].offset) != Some(i) ==> SecRelocs(relocs[..n + 1], secs, i) == SecRelocs(relocs[..n], secs, i)
      ensures Home(secs, relocs[n].offset) == Some(i) ==>
                SecRelocs(relocs[..n + 1], secs, i)
                == SecRelocs(relocs[..n], secs, i) + [relocs[n].(offset := relocs[n].offset - secs[i].start)]
    {
      SecRelocsNext(relocs, secs, n, i);
    }
  }

  method BuildStrtab(syms: seq<Symbol>) returns (t: StringTable)
    ensures fresh(t) && t.Contents() == StrTab(syms)
  {
    hide AddName;
    t := new StringTable();
    var i := 0;
    while i < |syms|
      invariant 0 <= i <= |syms| && t.Contents() == AddNames(NoStrings(), SymNames(syms)[..i])
      modifies t
    {
      var _ := t.Add(syms[i].name);
      NextName(SymNames(syms), i);
      i := i + 1;
    }
    assert SymNames(syms)[..|syms|] == SymNames(syms);
  }

  lemma NextName(names: seq<Name>, i: nat)
    requires i < |names|
    ensures AddNames(NoStrings(), names[..i + 1]) == AddName(AddNames(NoStrings(), names[..i]), names[i])
  {
    hide AddName;
    assert names[..i + 1] == names[..i] + [names[i]];
    AddNamesSnoc(NoStrings(), names[..i], names[i]);
  }

  method CountRelas(relocs: seq<Reloc>, secs: seq<Slice>, lists: seq<seq<Reloc>>) returns (rela: nat)
    requires Assigned(relocs, secs, lists)
    ensures rela == RelaCount(relocs, secs, |secs|)
  {
    hide SecRelocs;
    rela := 0;
    var i := 0;
    while i < |secs|
      invariant 0 <= i <= |secs| && rela == RelaCount(relocs, secs, i)
    {
      if lists[i] != [] {
        rela := rela + 1;
      }
      i := i + 1;
    }
  }

  method BuildShstrtab(relocs: seq<Reloc>, secs: seq<Slice>, lists: seq<seq<Reloc>>) returns (t: StringTable)
    requires Assigned(relocs, secs, lists)
    ensures fresh(t) && t.Contents() == ShStrTab(relocs, secs)
  {
    hide AddName, SecRelocs, AddNames, FixedNames, RelaNames;
    t := new StringTable();
    AddFixed(t);
    var i := 0;
    while i < |secs|
      invariant 0 <= i <= |secs| && t.Contents() == AddNames(NoStrings(), FixedNames() + SliceNames(secs)[..i])
      modifies t
    {
      var _ := t.Add(secs[i].name);
      assert FixedNames() + SliceNames(secs)[..i + 1] == FixedNames() + SliceNames(secs)[..i] + [secs[i].name];
      AddNamesSnoc(NoStrings(), FixedNames() + SliceNames(secs)[..i], secs[i].name);
      i := i + 1;
    }
    assert SliceNames(secs)[..|secs|] == SliceNames(secs);
    AddRelaNames(t, FixedNames() + SliceNames(secs), relocs, secs, lists);
  }

  method AddRelaNames(t: StringTable, ghost front: seq<Name>, relocs: seq<Reloc>, secs: seq<Slice>, lists: seq<seq<Reloc>>)
    requires Assigned(relocs, secs, lists) && t.Contents() == AddNames(NoStrings(), front)
    modifies t
    ensures t.Contents() == AddNames(NoStrings(), front + RelaNames(relocs, secs, |secs|))
  {
    hide AddName, SecRelocs, AddNames;
    assert front + RelaNames(relocs, secs, 0) == front;
    var i := 0;
    while i < |secs|
      invariant 0 <= i <= |secs| && t.Contents() == AddNames(NoStrings(), front + RelaNames(relocs, secs, i))
      modifies t
    {
      if lists[i] != [] {
        var _ := t.Add(DOT_RELA + secs[i].name);
        AddNamesSnoc(NoStrings(), front + RelaNames(relocs, secs, i), DOT_RELA + secs[i].name);
        assert front + RelaNames(relocs, secs, i + 1) == front + RelaNames(relocs, secs, i) + [DOT_RELA + secs[i].name];
      } else {
        assert RelaNames(relocs, secs, i + 1) == RelaNames(relocs, secs, i);
      }
      i := i + 1;
    }
  }

  method AddFixed(t: StringTable)
    requires t.Contents() == NoStrings()
    modifies t
    ensures t.Contents() == AddNames(NoStrings(), FixedNames() + [])
  {
    hide AddName;
    FiveAdded(NoStrings());
    hide AddNames;
    var _ := t.Add(DOT_TEXT);
    var _ := t.Add(DOT_DATA);
    var _ := t.Add(DOT_SYMTAB);
    var _ := t.Add(DOT_STRTAB);
    var _ := t.Add(DOT_SHSTRTAB);
    assert FixedNames() + [] == FixedNames();
  }

  lemma FiveAdded(t: Strings)
    ensures AddNames(t, FixedNames())
         == AddName(AddName(AddName(AddName(AddName(t, DOT_TEXT), DOT_DATA), DOT_SYMTAB), DOT_STRTAB), DOT_SHSTRTAB)
  {
    hide AddName, DOT_TEXT, DOT_DATA, DOT_SYMTAB, DOT_STRTAB, DOT_SHSTRTAB;
    AddNamesSnoc(t, [], DOT_TEXT);
    AddNamesSnoc(t, [DOT_TEXT], DOT_DATA);
    AddNamesSnoc(t, [DOT_TEXT, DOT_DATA], DOT_SYMTAB);
    AddNamesSnoc(t, [DOT_TEXT, DOT_DATA, DOT_SYMTAB], DOT_STRTAB);
    AddNamesSnoc(t, [DOT_TEXT, DOT_DATA, DOT_SYMTAB, DOT_STRTAB], DOT_SHSTRTAB);
    assert [] + [DOT_TEXT] == [DOT_TEXT] && AddNames(t, []) == t;
    assert [DOT_TEXT] + [DOT_DATA] == [DOT_TEXT, DOT_DATA];
    assert [DOT_TEXT, DOT_DATA] + [DOT_SYMTAB] == [DOT_TEXT, DOT_DATA, DOT_SYMTAB];
    assert [DOT_TEXT, DOT_DATA, DOT_SYMTAB] + [DOT_STRTAB] == [DOT_TEXT, DOT_DATA, DOT_SYMTAB, DOT_STRTAB];
    assert [DOT_TEXT, DOT_DATA, DOT_SYMTAB, DOT_STRTAB] + [DOT_SHSTRTAB] == FixedNames();
  }
}
