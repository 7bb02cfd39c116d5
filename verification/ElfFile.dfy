/** `elf::write`: all parts put together. */
module ElfFile {
  import opened Words
  import opened Bytes
  import opened ElfObject
  import opened ElfPlans
  import opened ElfWriter
  import opened ElfOutput
  import opened ElfReader
  import opened ElfRoundTrip

  datatype TargetArch = X86_64 | AARCH64

  function MachineOf(arch: TargetArch): nat {
    if arch == AARCH64 then 183 else 62
  }

  ghost predicate Planned(obj: Object, secs: seq<Slice>) {
    SlicesIn(secs, obj.text) && Placeable(Plans(obj, secs)) && |Plans(obj, secs)| == |secs| + RelaCount(obj.relocs, secs, |secs|) + 4
  }

  lemma PlannedIs(obj: Object, secs: seq<Slice>)
    requires SlicesIn(secs, obj.text)
    ensures Planned(obj, secs)
  {
    PlansPlaceable(obj, secs);
    PlanAt(obj, secs);
  }

  // --- layout ---

  datatype Layout = Layout(dataIndex: nat, textOffs: seq<nat>, relaSizes: seq<nat>, relaOffs: seq<nat>, dataOff: nat,
                           symtabOff: nat, strtabOff: nat, namesOff: nat, shoff: nat)

  ghost predicate TailPlaced(l: Layout, obj: Object, secs: seq<Slice>)
    requires Planned(obj, secs)
  {
    var plans, n := Plans(obj, secs), |Plans(obj, secs)|;
    && l.dataIndex == DataIndex(obj, secs) == n - 3
    && l.dataOff == StartOf(plans, n - 4) && l.symtabOff == StartOf(plans, n - 3)
    && l.strtabOff == StartOf(plans, n - 2) && l.namesOff == StartOf(plans, n - 1)
    && l.shoff == AlignTo(EndOf(plans, n), 8)
  }

  ghost predicate LaidOut(l: Layout, obj: Object, secs: seq<Slice>)
    requires Planned(obj, secs)
  {
    && TextPlaced(obj, secs, l.textOffs) && |l.textOffs| == |secs| == |l.relaOffs| == |l.relaSizes|
    && Sized(obj.relocs, secs, l.relaSizes) && RelaPlaced(obj, secs, l.relaOffs, |secs|) && TailPlaced(l, obj, secs)
  }

  lemma SizedIs(relocs: seq<Reloc>, secs: seq<Slice>, lists: seq<seq<Reloc>>, sizes: seq<nat>)
    requires Assigned(relocs, secs, lists) && |sizes| == |lists| && forall i :: 0 <= i < |lists| ==> sizes[i] == |lists[i]| * 24
    ensures Sized(relocs, secs, sizes) && |sizes| == |secs| == |lists|
  {
    hide SecRelocs;
  }

  lemma TextPlacedIs(obj: Object, secs: seq<Slice>, offs: seq<nat>)
    requires Planned(obj, secs) && |offs| == |secs| && forall k :: 0 <= k < |secs| ==> offs[k] == StartOf(Plans(obj, secs), k)
    ensures TextPlaced(obj, secs, offs)
  {
    hide Plans, Placeable, StartOf;
  }

  lemma TailPlacedIs(obj: Object, secs: seq<Slice>, l: Layout, end: nat)
    requires Planned(obj, secs) && end == EndOf(Plans(obj, secs), |Plans(obj, secs)| - 4) && l.dataIndex == |Plans(obj, secs)| - 3
    requires l.dataOff == AlignTo(end, 8) && l.symtabOff == AlignTo(l.dataOff + |obj.data|, 8)
    requires l.strtabOff == l.symtabOff + (1 + |Sorted(obj.symbols)|) * 24
    requires l.namesOff == l.strtabOff + |StrTab(Sorted(obj.symbols)).bytes|
    requires l.shoff == AlignTo(l.namesOff + |ShStrTab(obj.relocs, secs).bytes|, 8)
    ensures TailPlaced(l, obj, secs)
  {
    hide Placeable, StartOf, EndOf, AlignTo, Sorted, StrTab, ShStrTab, RelaCount, Plans, SlicesIn;
    TailLayout(obj, secs);
  }

  lemma LaidOutIs(l: Layout, obj: Object, secs: seq<Slice>)
    requires Planned(obj, secs) && TextPlaced(obj, secs, l.textOffs) && Sized(obj.relocs, secs, l.relaSizes)
    requires |l.relaOffs| == |secs| && RelaPlaced(obj, secs, l.relaOffs, |secs|) && TailPlaced(l, obj, secs)
    ensures LaidOut(l, obj, secs)
  {
    hide Planned, RelaPlaced, TailPlaced;
  }

  /** All section numbers, sizes and offsets. */
  method LayOut(obj: Object, secs: seq<Slice>, lists: seq<seq<Reloc>>, syms: seq<Symbol>, strtab: Strings, names: Strings)
    returns (l: Layout)
    requires Planned(obj, secs) && Assigned(obj.relocs, secs, lists) && syms == Sorted(obj.symbols)
    requires strtab == StrTab(syms) && names == ShStrTab(obj.relocs, secs)
    ensures LaidOut(l, obj, secs)
  {
    hide *;
    PlaceableIs(obj, secs);
    var rela := CountRelas(obj.relocs, secs, lists);
    var textOffs, afterText := TextOffsets(secs, obj);
    TextPlacedIs(obj, secs, textOffs);
    var relaSizes := RelaSizes(lists);
    SizedIs(obj.relocs, secs, lists, relaSizes);
    var relaOffs, afterRela := RelaOffsets(secs, relaSizes, afterText, obj);
    PassedIs(obj, secs, relaOffs, afterRela);
    var dataOff := RoundUp8(afterRela);
    var symtabOff := RoundUp8(dataOff + |obj.data|);
    var strtabOff := symtabOff + (1 + |syms|) * 24;
    var namesOff := strtabOff + |strtab.bytes|;
    var shoff := RoundUp8(namesOff + |names.bytes|);
    l := Layout(|secs| + rela + 1, textOffs, relaSizes, relaOffs, dataOff, symtabOff, strtabOff, namesOff, shoff);
    TailPlacedIs(obj, secs, l, afterRela);
    LaidOutIs(l, obj, secs);
  }

  lemma PassedIs(obj: Object, secs: seq<Slice>, offs: seq<nat>, off: nat)
    requires Planned(obj, secs) && RelaPassed(obj, secs, offs, off, |secs|)
    ensures |secs| + RelaCount(obj.relocs, secs, |secs|) + 4 == |Plans(obj, secs)|
    ensures off == EndOf(Plans(obj, secs), |Plans(obj, secs)| - 4)
    ensures |offs| == |secs| && RelaPlaced(obj, secs, offs, |secs|)
  {
    hide Plans, Placeable, EndOf, RelaCount, RelaPlaced, SlicesIn;
  }

  // --- sections ---

  ghost predicate TextPlaced(obj: Object, secs: seq<Slice>, offs: seq<nat>)
    requires Planned(obj, secs)
  {
    |offs| == |secs| && forall k :: 0 <= k < |secs| ==> offs[k] == StartOf(Plans(obj, secs), k)
  }

  lemma TextFill(obj: Object, secs: seq<Slice>, front: seq<Byte>, offs: seq<nat>, i: nat)
    requires Planned(obj, secs) && |front| == 64 && TextPlaced(obj, secs, offs) && i < |secs|
    ensures secs[i].start + secs[i].size <= |obj.text|
    ensures Fill(front, Plans(obj, secs), i + 1)
         == PadTo(Fill(front, Plans(obj, secs), i), offs[i]) + obj.text[secs[i].start..secs[i].start + secs[i].size]
  {
    PlanAt(obj, secs);
    hide Plans, Placeable, ShStrTab, TailPlans, RelaCount, OffsetOf, PadTo, StartOf;
    assert Plans(obj, secs)[i] == TextPlan(ShStrTab(obj.relocs, secs), obj.text, secs[i]);
  }

  method PutTexts(b: Buf, obj: Object, secs: seq<Slice>, offs: seq<nat>)
    requires Planned(obj, secs) && TextPlaced(obj, secs, offs) && |b.data| == 64 && |secs| == |offs|
    modifies b
    ensures |secs| <= |Plans(obj, secs)| && b.data == Fill(old(b.data), Plans(obj, secs), |secs|)
  {
    hide *;
    ghost var front := b.data;
    FillNone(front, obj, secs);
    PlaceableIs(obj, secs);
    var i := 0;
    while i < |secs|
      invariant 0 <= i <= |secs| <= |Plans(obj, secs)| && b.data == Fill(front, Plans(obj, secs), i)
      modifies b
    {
      TextFill(obj, secs, front, offs, i);
      b.PadTo(offs[i]);
      b.Put(obj.text[secs[i].start..secs[i].start + secs[i].size]);
      i := i + 1;
    }
  }

  lemma FillNone(front: seq<Byte>, obj: Object, secs: seq<Slice>)
    requires Planned(obj, secs) && |front| == 64
    ensures |secs| <= |Plans(obj, secs)| && Fill(front, Plans(obj, secs), 0) == front
  {
    hide Plans, Placeable;
  }

  /** The file up to the relocation sections of the first `n` slices. */
  function RelaFilled(front: seq<Byte>, obj: Object, secs: seq<Slice>, n: nat): seq<Byte>
    requires Planned(obj, secs) && |front| == 64 && n <= |secs|
  {
    RelaCountWithin(obj, secs, n);
    Fill(front, Plans(obj, secs), |secs| + RelaCount(obj.relocs, secs, n))
  }

  lemma RelaCountWithin(obj: Object, secs: seq<Slice>, n: nat)
    requires Planned(obj, secs) && n <= |secs|
    ensures |secs| + RelaCount(obj.relocs, secs, n) <= |Plans(obj, secs)|
  {
    hide Plans, Placeable;
    RelaCountGrows(obj.relocs, secs, n, |secs|);
  }

  /** The relocation section of slice `i`, if there is one. */
  lemma RelaSpot(obj: Object, secs: seq<Slice>, offs: seq<nat>, i: nat)
    requires Planned(obj, secs) && i < |secs| <= |offs| && RelaPlaced(obj, secs, offs, |secs|)
    ensures var plans, k := Plans(obj, secs), |secs| + RelaCount(obj.relocs, secs, i);
      if SecRelocs(obj.relocs, secs, i) != [] then
        && k < |plans| && RelaCount(obj.relocs, secs, i + 1) == RelaCount(obj.relocs, secs, i) + 1
        && offs[i] == StartOf(plans, k)
        && plans[k] == Plan(OffsetOf(ShStrTab(obj.relocs, secs), DOT_RELA + secs[i].name), 4, 0, 16,
                            EncodeRelas(SymIndex(Sorted(obj.symbols)), SecRelocs(obj.relocs, secs, i)), DataIndex(obj, secs) + 1,
                            i + 1, 8, 24)
      else RelaCount(obj.relocs, secs, i + 1) == RelaCount(obj.relocs, secs, i)
  {
    hide *;
    PlaceableIs(obj, secs);
    RelaCountStep(obj.relocs, secs, i);
    if SecRelocs(obj.relocs, secs, i) != [] {
      PlanOfRela(obj, secs, i);
      RelaPlacedAt(obj, secs, offs, i);
    }
  }

  lemma RelaCountStep(relocs: seq<Reloc>, secs: seq<Slice>, i: nat)
    requires i < |secs|
    ensures RelaCount(relocs, secs, i + 1) == RelaCount(relocs, secs, i) + if SecRelocs(relocs, secs, i) != [] then 1 else 0
  {
    hide SecRelocs;
  }

  lemma RelaPlacedAt(obj: Object, secs: seq<Slice>, offs: seq<nat>, i: nat)
    requires Planned(obj, secs) && i < |secs| <= |offs| && RelaPlaced(obj, secs, offs, |secs|)
    requires SecRelocs(obj.relocs, secs, i) != []
    ensures |secs| + RelaCount(obj.relocs, secs, i) < |Plans(obj, secs)|
    ensures offs[i] == StartOf(Plans(obj, secs), |secs| + RelaCount(obj.relocs, secs, i))
  {
    hide Plans, Placeable, StartOf, SecRelocs, RelaCount;
  }

  lemma RelaFill(obj: Object, secs: seq<Slice>, front: seq<Byte>, offs: seq<nat>, i: nat)
    requires Planned(obj, secs) && |front| == 64 && i < |secs| <= |offs| && RelaPlaced(obj, secs, offs, |secs|)
    ensures RelaFilled(front, obj, secs, i + 1)
         == if SecRelocs(obj.relocs, secs, i) != [] then
              PadTo(RelaFilled(front, obj, secs, i), offs[i]) + EncodeRelas(SymIndex(Sorted(obj.symbols)), SecRelocs(obj.relocs, secs, i))
            else RelaFilled(front, obj, secs, i)
  {
    hide *;
    PlaceableIs(obj, secs);
    RelaSpot(obj, secs, offs, i);
    RelaCountWithin(obj, secs, i);
    RelaCountWithin(obj, secs, i + 1);
    RelaFilledIs(front, obj, secs, i);
    RelaFilledIs(front, obj, secs, i + 1);
    if SecRelocs(obj.relocs, secs, i) != [] {
      FillStep(front, Plans(obj, secs), |secs| + RelaCount(obj.relocs, secs, i));
    }
  }

  lemma RelaFilledIs(front: seq<Byte>, obj: Object, secs: seq<Slice>, n: nat)
    requires Planned(obj, secs) && |front| == 64 && n <= |secs| && |secs| + RelaCount(obj.relocs, secs, n) <= |Plans(obj, secs)|
    ensures RelaFilled(front, obj, secs, n) == Fill(front, Plans(obj, secs), |secs| + RelaCount(obj.relocs, secs, n))
  {
    hide Fill, Plans, Placeable, RelaCount;
  }

  lemma FillStep(front: seq<Byte>, plans: seq<Plan>, k: nat)
    requires |front| == 64 && Placeable(plans) && k < |plans|
    ensures Fill(front, plans, k + 1) == PadTo(Fill(front, plans, k), StartOf(plans, k)) + plans[k].content
  {
    hide PadTo, StartOf, Placeable;
  }

  method PutRelas(b: Buf, secs: seq<Slice>, lists: seq<seq<Reloc>>, offs: seq<nat>, syms: seq<Symbol>, ghost front: seq<Byte>,
                  ghost obj: Object)
    returns (ok: bool)
    requires Planned(obj, secs) && Assigned(obj.relocs, secs, lists) && |lists| == |secs| == |offs| && RelaPlaced(obj, secs, offs, |secs|)
    requires syms == Sorted(obj.symbols) && |front| == 64 && b.data == RelaFilled(front, obj, secs, 0)
    modifies b
    ensures ok <==> Linked(obj.relocs, secs, SymIndex(syms))
    ensures ok ==> b.data == RelaFilled(front, obj, secs, |secs|)
  {
    hide *;
    LinkedIs(obj.relocs, secs, SymIndex(syms));
    var i := 0;
    while i < |secs|
      invariant 0 <= i <= |secs| && b.data == RelaFilled(front, obj, secs, i)
      invariant forall k :: 0 <= k < i ==> SecLinked(obj.relocs, secs, SymIndex(syms), k)
      modifies b
    {
      RelaFill(obj, secs, front, offs, i);
      ListIs(obj.relocs, secs, lists, SymIndex(syms), i);
      if lists[i] != [] {
        b.PadTo(offs[i]);
        var index := BuildIndex(syms);
        ok := PutEntries(b, lists[i], index);
        if !ok {
          return;
        }
      }
      i := i + 1;
    }
    ok := true;
  }

  lemma ListIs(relocs: seq<Reloc>, secs: seq<Slice>, lists: seq<seq<Reloc>>, index: map<Name, nat>, i: nat)
    requires Assigned(relocs, secs, lists) && i < |secs| == |lists|
    ensures lists[i] == SecRelocs(relocs, secs, i)
    ensures SecLinked(relocs, secs, index, i) <==> forall j :: 0 <= j < |lists[i]| ==> lists[i][j].symbol in index
  {
    hide SecRelocs;
  }

  // --- section headers ---

  lemma HeadersStep(plans: seq<Plan>, k: nat)
    requires Placeable(plans) && k < |plans|
    ensures Headers(plans, k + 1) == Headers(plans, k) + EncodeShdr(HeaderOf(plans[k], StartOf(plans, k)))
    ensures Headers(plans, 0) == EncodeShdr(NullHeader())
  {
    hide EncodeShdr, StartOf, Placeable;
  }

  lemma TextHeader(obj: Object, secs: seq<Slice>, offs: seq<nat>, i: nat)
    requires Planned(obj, secs) && TextPlaced(obj, secs, offs) && i < |secs|
    ensures secs[i].name in ShStrTab(obj.relocs, secs).offsets && i < |Plans(obj, secs)|
    ensures HeaderOf(Plans(obj, secs)[i], StartOf(Plans(obj, secs), i))
         == Shdr(ShStrTab(obj.relocs, secs).offsets[secs[i].name], 1, 6, 0, offs[i], secs[i].size, 0, 0, 16, 0)
  {
    PlanAt(obj, secs);
    SliceNamed(obj.relocs, secs, i);
    hide Plans, Placeable, ShStrTab, TailPlans, RelaCount, StartOf;
    assert Plans(obj, secs)[i] == TextPlan(ShStrTab(obj.relocs, secs), obj.text, secs[i]);
  }

  method PutTextHeaders(b: Buf, names: Strings, secs: seq<Slice>, offs: seq<nat>, ghost obj: Object)
    requires Planned(obj, secs) && TextPlaced(obj, secs, offs) && |secs| == |offs| && names == ShStrTab(obj.relocs, secs)
    modifies b
    ensures |secs| <= |Plans(obj, secs)| && b.data == old(b.data) + Headers(Plans(obj, secs), |secs|)
  {
    hide *;
    FillNone(Zeros(64), obj, secs);
    PlaceableIs(obj, secs);
    HeadersNone(obj, secs);
    WriteShdr(b, 0, 0, 0, 0, 0, 0, 0, 0, 0);
    var i := 0;
    while i < |secs|
      invariant 0 <= i <= |secs| <= |Plans(obj, secs)| && b.data == old(b.data) + Headers(Plans(obj, secs), i)
      modifies b
    {
      TextHeader(obj, secs, offs, i);
      HeadersStep(Plans(obj, secs), i);
      WriteShdr(b, names.offsets[secs[i].name], 1, 6, offs[i], secs[i].size, 0, 0, 16, 0);
      i := i + 1;
    }
  }

  lemma PlaceableIs(obj: Object, secs: seq<Slice>)
    requires Planned(obj, secs)
    ensures SlicesIn(secs, obj.text) && Placeable(Plans(obj, secs))
  {
  }

  lemma HeadersNone(obj: Object, secs: seq<Slice>)
    requires Planned(obj, secs)
    ensures Headers(Plans(obj, secs), 0) == EncodeShdr(Shdr(0, 0, 0, 0, 0, 0, 0, 0, 0, 0))
  {
    hide Plans, EncodeShdr;
  }

  function RelaHeaders(obj: Object, secs: seq<Slice>, n: nat): seq<Byte>
    requires Planned(obj, secs) && n <= |secs|
  {
    RelaCountWithin(obj, secs, n);
    Headers(Plans(obj, secs), |secs| + RelaCount(obj.relocs, secs, n))
  }

  lemma RelaHeader(obj: Object, secs: seq<Slice>, offs: seq<nat>, i: nat)
    requires Planned(obj, secs) && i < |secs| <= |offs| && RelaPlaced(obj, secs, offs, |secs|)
    ensures var rs, names := SecRelocs(obj.relocs, secs, i), ShStrTab(obj.relocs, secs);
      if rs != [] then
        DOT_RELA + secs[i].name in names.offsets
        && RelaHeaders(obj, secs, i + 1)
           == RelaHeaders(obj, secs, i)
              + EncodeShdr(Shdr(names.offsets[DOT_RELA + secs[i].name], 4, 0, 0, offs[i], |rs| * 24, DataIndex(obj, secs) + 1, i + 1, 8, 24))
      else RelaHeaders(obj, secs, i + 1) == RelaHeaders(obj, secs, i)
  {
    hide *;
    SliceNamed(obj.relocs, secs, i);
    PlaceableIs(obj, secs);
    RelaSpot(obj, secs, offs, i);
    RelaCountWithin(obj, secs, i);
    RelaCountWithin(obj, secs, i + 1);
    RelaHeadersIs(obj, secs, i);
    RelaHeadersIs(obj, secs, i + 1);
    if SecRelocs(obj.relocs, secs, i) != [] {
      var k, names := |secs| + RelaCount(obj.relocs, secs, i), ShStrTab(obj.relocs, secs);
      HeadersStep(Plans(obj, secs), k);
      RelaShdr(Plans(obj, secs)[k], StartOf(Plans(obj, secs), k));
      OffsetIs(names, DOT_RELA + secs[i].name);
    }
  }

  lemma RelaShdr(p: Plan, offset: nat)
    ensures HeaderOf(p, offset) == Shdr(p.name, p.kind, p.flags, 0, offset, |p.content|, p.link, p.info, p.align, p.entsize)
  {
  }

  lemma OffsetIs(t: Strings, name: Name)
    requires name in t.offsets
    ensures OffsetOf(t, name) == t.offsets[name]
  {
  }

  lemma RelaHeadersIs(obj: Object, secs: seq<Slice>, n: nat)
    requires Planned(obj, secs) && n <= |secs| && |secs| + RelaCount(obj.relocs, secs, n) <= |Plans(obj, secs)|
    ensures RelaHeaders(obj, secs, n) == Headers(Plans(obj, secs), |secs| + RelaCount(obj.relocs, secs, n))
  {
    hide Headers, Plans, Placeable, RelaCount;
  }

  method PutRelaHeaders(b: Buf, names: Strings, secs: seq<Slice>, sizes: seq<nat>, offs: seq<nat>, symtab: nat,
                        ghost base: seq<Byte>, ghost obj: Object)
    requires Planned(obj, secs) && Sized(obj.relocs, secs, sizes) && |sizes| == |secs| == |offs| && RelaPlaced(obj, secs, offs, |secs|)
    requires names == ShStrTab(obj.relocs, secs) && symtab == DataIndex(obj, secs) + 1
    requires b.data == base + RelaHeaders(obj, secs, 0)
    modifies b
    ensures b.data == base + RelaHeaders(obj, secs, |secs|)
  {
    hide *;
    var i := 0;
    while i < |secs|
      invariant 0 <= i <= |secs| && b.data == base + RelaHeaders(obj, secs, i)
      modifies b
    {
      RelaHeader(obj, secs, offs, i);
      SizeIs(obj.relocs, secs, sizes, i);
      if sizes[i] > 0 {
        WriteShdr(b, names.offsets[DOT_RELA + secs[i].name], 4, 0, offs[i], sizes[i], symtab, i + 1, 8, 24);
      }
      i := i + 1;
    }
  }

  lemma SizeIs(relocs: seq<Reloc>, secs: seq<Slice>, sizes: seq<nat>, i: nat)
    requires Sized(relocs, secs, sizes) && i < |secs| == |sizes|
    ensures sizes[i] == |SecRelocs(relocs, secs, i)| * 24
    ensures sizes[i] > 0 <==> SecRelocs(relocs, secs, i) != []
  {
    hide SecRelocs;
  }

  // --- the last four sections ---

  lemma TailFill(obj: Object, secs: seq<Slice>, front: seq<Byte>)
    requires Planned(obj, secs) && |front| == 64
    ensures var plans, n := Plans(obj, secs), |Plans(obj, secs)|; var syms := Sorted(obj.symbols);
      && n >= 4
      && Fill(front, plans, n - 3) == PadTo(Fill(front, plans, n - 4), StartOf(plans, n - 4)) + obj.data
      && Fill(front, plans, n - 2) == PadTo(Fill(front, plans, n - 3), StartOf(plans, n - 3))
                                      + EncodeSyms(StrTab(syms), secs, DataIndex(obj, secs), syms)
      && Fill(front, plans, n - 1) == PadTo(Fill(front, plans, n - 2), StartOf(plans, n - 2)) + StrTab(syms).bytes
      && Fill(front, plans, n) == PadTo(Fill(front, plans, n - 1), StartOf(plans, n - 1)) + ShStrTab(obj.relocs, secs).bytes
  {
    hide *;
    PlaceableIs(obj, secs);
    TailPlan(obj, secs);
    TailContents(obj, secs);
    var plans, n := Plans(obj, secs), |Plans(obj, secs)|;
    FillStep(front, plans, n - 4);
    FillStep(front, plans, n - 3);
    FillStep(front, plans, n - 2);
    FillStep(front, plans, n - 1);
  }

  lemma TailContents(obj: Object, secs: seq<Slice>)
    ensures var t, syms := TailPlans(obj, secs), Sorted(obj.symbols);
      && t[0].content == obj.data && t[1].content == EncodeSyms(StrTab(syms), secs, DataIndex(obj, secs), syms)
      && t[2].content == StrTab(syms).bytes && t[3].content == ShStrTab(obj.relocs, secs).bytes
  {
    hide ShStrTab, StrTab, EncodeSyms, DataIndex, Sorted;
  }

  method PutTail(b: Buf, obj: Object, secs: seq<Slice>, syms: seq<Symbol>, strtab: Strings, names: Strings, l: Layout,
                 ghost front: seq<Byte>)
    requires Planned(obj, secs) && TailPlaced(l, obj, secs) && |front| == 64
    requires b.data == Fill(front, Plans(obj, secs), |Plans(obj, secs)| - 4)
    requires syms == Sorted(obj.symbols) && strtab == StrTab(syms) && names == ShStrTab(obj.relocs, secs)
    modifies b
    ensures b.data == Fill(front, Plans(obj, secs), |Plans(obj, secs)|)
  {
    hide *;
    TailFill(obj, secs, front);
    TailFacts(l, obj, secs);
    b.PadTo(l.dataOff);
    b.Put(obj.data);
    b.PadTo(l.symtabOff);
    PutSymbols(b, strtab, secs, l.dataIndex, syms);
    b.PadTo(l.strtabOff);
    b.Put(strtab.bytes);
    b.PadTo(l.namesOff);
    b.Put(names.bytes);
  }

  lemma TailFacts(l: Layout, obj: Object, secs: seq<Slice>)
    requires Planned(obj, secs) && TailPlaced(l, obj, secs)
    ensures var plans, n := Plans(obj, secs), |Plans(obj, secs)|;
      && n >= 4 && l.dataIndex == DataIndex(obj, secs) == n - 3
      && l.dataOff == StartOf(plans, n - 4) && l.symtabOff == StartOf(plans, n - 3)
      && l.strtabOff == StartOf(plans, n - 2) && l.namesOff == StartOf(plans, n - 1)
      && l.shoff == AlignTo(EndOf(plans, n), 8)
  {
    hide Plans, Placeable, StartOf, EndOf, AlignTo, DataIndex;
  }

  lemma TailHeaders(obj: Object, secs: seq<Slice>)
    requires Planned(obj, secs)
    ensures var t, plans, n := ShStrTab(obj.relocs, secs).offsets, Plans(obj, secs), |Plans(obj, secs)|;
      var syms, d := Sorted(obj.symbols), DataIndex(obj, secs);
      && n >= 4 && DOT_DATA in t && DOT_SYMTAB in t && DOT_STRTAB in t && DOT_SHSTRTAB in t
      && Headers(plans, n)
         == Headers(plans, n - 4)
            + EncodeShdr(Shdr(t[DOT_DATA], 1, 3, 0, StartOf(plans, n - 4), |obj.data|, 0, 0, 8, 0))
            + EncodeShdr(Shdr(t[DOT_SYMTAB], 2, 0, 0, StartOf(plans, n - 3), (1 + |syms|) * 24, d + 2, FirstGlobal(obj.symbols), 8, 24))
            + EncodeShdr(Shdr(t[DOT_STRTAB], 3, 0, 0, StartOf(plans, n - 2), |StrTab(syms).bytes|, 0, 0, 1, 0))
            + EncodeShdr(Shdr(t[DOT_SHSTRTAB], 3, 0, 0, StartOf(plans, n - 1), |ShStrTab(obj.relocs, secs).bytes|, 0, 0, 1, 0))
  {
    hide *;
    PlaceableIs(obj, secs);
    TailPlan(obj, secs);
    FixedNamed(obj.relocs, secs);
    var plans, n := Plans(obj, secs), |Plans(obj, secs)|;
    TailShdrs(obj, secs, StartOf(plans, n - 4), StartOf(plans, n - 3), StartOf(plans, n - 2), StartOf(plans, n - 1));
    HeadersStep(plans, n - 4);
    HeadersStep(plans, n - 3);
    HeadersStep(plans, n - 2);
    HeadersStep(plans, n - 1);
  }

  lemma TailShdrs(obj: Object, secs: seq<Slice>, data: nat, symtab: nat, strtab: nat, names: nat)
    ensures var t := ShStrTab(obj.relocs, secs).offsets; var syms, d, p := Sorted(obj.symbols), DataIndex(obj, secs), TailPlans(obj, secs);
      DOT_DATA in t && DOT_SYMTAB in t && DOT_STRTAB in t && DOT_SHSTRTAB in t
      && HeaderOf(p[0], data) == Shdr(t[DOT_DATA], 1, 3, 0, data, |obj.data|, 0, 0, 8, 0)
      && HeaderOf(p[1], symtab) == Shdr(t[DOT_SYMTAB], 2, 0, 0, symtab, (1 + |syms|) * 24, d + 2, FirstGlobal(obj.symbols), 8, 24)
      && HeaderOf(p[2], strtab) == Shdr(t[DOT_STRTAB], 3, 0, 0, strtab, |StrTab(syms).bytes|, 0, 0, 1, 0)
      && HeaderOf(p[3], names) == Shdr(t[DOT_SHSTRTAB], 3, 0, 0, names, |ShStrTab(obj.relocs, secs).bytes|, 0, 0, 1, 0)
  {
    FixedNamed(obj.relocs, secs);
    hide ShStrTab, StrTab, EncodeSyms, DataIndex, Sorted, FirstGlobal, DOT_DATA, DOT_SYMTAB, DOT_STRTAB, DOT_SHSTRTAB;
  }

  method PutTailHeaders(b: Buf, obj: Object, secs: seq<Slice>, syms: seq<Symbol>, firstGlobal: nat, strtab: Strings, names: Strings,
                        l: Layout, ghost base: seq<Byte>)
    requires Planned(obj, secs) && TailPlaced(l, obj, secs)
    requires b.data == base + Headers(Plans(obj, secs), |Plans(obj, secs)| - 4)
    requires syms == Sorted(obj.symbols) && strtab == StrTab(syms) && names == ShStrTab(obj.relocs, secs)
    requires firstGlobal == FirstGlobal(obj.symbols)
    modifies b
    ensures b.data == base + Headers(Plans(obj, secs), |Plans(obj, secs)|)
  {
    hide *;
    TailHeaders(obj, secs);
    TailFacts(l, obj, secs);
    WriteShdr(b, names.offsets[DOT_DATA], 1, 3, l.dataOff, |obj.data|, 0, 0, 8, 0);
    WriteShdr(b, names.offsets[DOT_SYMTAB], 2, 0, l.symtabOff, (1 + |syms|) * 24, l.dataIndex + 2, firstGlobal, 8, 24);
    WriteShdr(b, names.offsets[DOT_STRTAB], 3, 0, l.strtabOff, |strtab.bytes|, 0, 0, 1, 0);
    WriteShdr(b, names.offsets[DOT_SHSTRTAB], 3, 0, l.namesOff, |names.bytes|, 0, 0, 1, 0);
  }

  // --- the writer ---

  lemma RelaEnds(obj: Object, secs: seq<Slice>, front: seq<Byte>)
    requires Planned(obj, secs) && |front| == 64
    ensures 0 <= |secs| <= |Plans(obj, secs)| - 4
    ensures RelaFilled(front, obj, secs, 0) == Fill(front, Plans(obj, secs), |secs|)
    ensures RelaFilled(front, obj, secs, |secs|) == Fill(front, Plans(obj, secs), |Plans(obj, secs)| - 4)
    ensures RelaHeaders(obj, secs, 0) == Headers(Plans(obj, secs), |secs|)
    ensures RelaHeaders(obj, secs, |secs|) == Headers(Plans(obj, secs), |Plans(obj, secs)| - 4)
  {
    hide Plans, Placeable, Fill, Headers;
    assert RelaCount(obj.relocs, secs, 0) == 0;
    hide RelaCount;
  }

  /** The file header and the sections, unless a relocation names an unknown symbol. */
  method PutSections(b: Buf, machine: nat, obj: Object, secs: seq<Slice>, lists: seq<seq<Reloc>>, syms: seq<Symbol>, strtab: Strings,
                     names: Strings, l: Layout) returns (ok: bool)
    requires Planned(obj, secs) && LaidOut(l, obj, secs) && Assigned(obj.relocs, secs, lists) && b.data == []
    requires syms == Sorted(obj.symbols) && strtab == StrTab(syms) && names == ShStrTab(obj.relocs, secs)
    modifies b
    ensures ok <==> Linked(obj.relocs, secs, SymIndex(syms))
    ensures ok ==> b.data == Fill(FileHeader(machine, l.shoff, l.dataIndex + 4, l.dataIndex + 3), Plans(obj, secs), |Plans(obj, secs)|)
  {
    LaidFacts(l, obj, secs);
    ListCount(obj.relocs, secs, lists);
    hide *;
    PlaceableIs(obj, secs);
    PutFileHeader(b, machine, l.shoff, l.dataIndex + 4, l.dataIndex + 3);
    ghost var front := FileHeader(machine, l.shoff, l.dataIndex + 4, l.dataIndex + 3);
    Nothing(front);
    RelaEnds(obj, secs, front);
    PutTexts(b, obj, secs, l.textOffs);
    ok := PutRelas(b, secs, lists, l.relaOffs, syms, front, obj);
    if ok {
      PutTail(b, obj, secs, syms, strtab, names, l, front);
    }
  }

  lemma Nothing(s: seq<Byte>)
    ensures [] + s == s
  {
  }

  lemma LaidFacts(l: Layout, obj: Object, secs: seq<Slice>)
    requires Planned(obj, secs) && LaidOut(l, obj, secs)
    ensures TextPlaced(obj, secs, l.textOffs) && |l.textOffs| == |secs| == |l.relaOffs| == |l.relaSizes|
    ensures Sized(obj.relocs, secs, l.relaSizes) && RelaPlaced(obj, secs, l.relaOffs, |secs|) && TailPlaced(l, obj, secs)
  {
    hide Planned, RelaPlaced, TailPlaced, Sized, TextPlaced;
  }

  lemma ListCount(relocs: seq<Reloc>, secs: seq<Slice>, lists: seq<seq<Reloc>>)
    requires Assigned(relocs, secs, lists)
    ensures |lists| == |secs|
  {
    hide SecRelocs;
  }

  /** The section headers. */
  method PutHeaders(b: Buf, obj: Object, secs: seq<Slice>, syms: seq<Symbol>, firstGlobal: nat, strtab: Strings, names: Strings,
                    l: Layout)
    requires Planned(obj, secs) && LaidOut(l, obj, secs)
    requires syms == Sorted(obj.symbols) && strtab == StrTab(syms) && names == ShStrTab(obj.relocs, secs)
    requires firstGlobal == FirstGlobal(obj.symbols)
    modifies b
    ensures b.data == old(b.data) + Headers(Plans(obj, secs), |Plans(obj, secs)|)
  {
    hide *;
    LaidFacts(l, obj, secs);
    TailFacts(l, obj, secs);
    ghost var base := b.data;
    PlaceableIs(obj, secs);
    RelaEnds(obj, secs, Zeros(64));
    PutTextHeaders(b, names, secs, l.textOffs, obj);
    PutRelaHeaders(b, names, secs, l.relaSizes, l.relaOffs, l.dataIndex + 1, base, obj);
    PutTailHeaders(b, obj, secs, syms, firstGlobal, strtab, names, l, base);
  }

  lemma FileIs(obj: Object, machine: nat, order: seq<TextSym>, secs: seq<Slice>, l: Layout)
    requires secs == Sections(order, |obj.text|) && Planned(obj, secs) && LaidOut(l, obj, secs)
    ensures var plans := Plans(obj, secs); var front := FileHeader(machine, l.shoff, l.dataIndex + 4, l.dataIndex + 3);
      ElfBytes(obj, machine, order) == PadTo(Fill(front, plans, |plans|), l.shoff) + Headers(plans, |plans|)
  {
    hide Plans, Placeable, EndOf, StartOf, Fill, Headers, FileHeader, PadTo, AlignTo, Sections, SlicesIn, RelaPlaced, Sized, TextPlaced;
    hide DataIndex, RelaCount;
  }

  /** `write`: the file, or nothing if a relocation names an unknown symbol. */
  method Write(obj: Object, arch: TargetArch, order: seq<TextSym>) returns (r: Option<seq<Byte>>)
    requires Orders(order, obj.symbols) && SlicesIn(Sections(order, |obj.text|), obj.text)
    ensures r == if Linked(obj.relocs, Sections(order, |obj.text|), SymIndex(Sorted(obj.symbols))) then
                   Some(ElfBytes(obj, MachineOf(arch), order))
                 else None
    ensures r.Some? && ObjectOk(obj) && FieldsSuffice(obj, Sections(order, |obj.text|)) ==>
              Read(r.value, if arch.X86_64? then 62 else 183) == Some(Recovered(obj, Sections(order, |obj.text|)))
  {
    hide *;
    MachineIs(arch);
    var syms, firstGlobal := SortSymbols(obj.symbols);
    var secs := SplitText(order, |obj.text|);
    PlannedIs(obj, secs);
    var lists := AssignRelocs(obj.relocs, secs);
    var strtab := BuildStrtab(syms);
    var shstrtab := BuildShstrtab(obj.relocs, secs, lists);
    var l := LayOut(obj, secs, lists, syms, strtab.Contents(), shstrtab.Contents());
    FileIs(obj, MachineOf(arch), order, secs, l);
    ReadBackWritten(obj, arch, order);
    var b := new Buf();
    var ok := PutSections(b, MachineOf(arch), obj, secs, lists, syms, strtab.Contents(), shstrtab.Contents(), l);
    if !ok {
      return None;
    }
    b.PadTo(l.shoff);
    PutHeaders(b, obj, secs, syms, firstGlobal, strtab.Contents(), shstrtab.Contents(), l);
    r := Some(b.data);
  }

  lemma MachineIs(arch: TargetArch)
    ensures MachineOf(arch) == if arch.X86_64? then 62 else 183
  {
  }

  lemma ReadBackWritten(obj: Object, arch: TargetArch, order: seq<TextSym>)
    requires Orders(order, obj.symbols) && SlicesIn(Sections(order, |obj.text|), obj.text)
    ensures ObjectOk(obj) && FieldsSuffice(obj, Sections(order, |obj.text|)) ==>
              Read(ElfBytes(obj, MachineOf(arch), order), MachineOf(arch)) == Some(Recovered(obj, Sections(order, |obj.text|)))
  {
    hide Orders, Sections, SlicesIn, Read, ElfBytes, Recovered, ObjectOk, FieldsSuffice;
    if ObjectOk(obj) && FieldsSuffice(obj, Sections(order, |obj.text|)) {
      ReadWritten(obj, MachineOf(arch), order);
    }
  }
}
