/** Written object files read back. */
module ElfRoundTrip {
  import opened Words
  import opened Bytes
  import opened ElfObject
  import opened ElfReader
  import opened ElfReadBack
  import opened ElfRecovered
  import opened ElfRelocs
  import opened ElfPlans

  // --- what the writer is given ---

  /** Symbols and the relocations inside the text are in order. */
  ghost predicate ObjectOk(obj: Object) {
    && SymbolsOk(obj.symbols, |obj.text|)
    && forall i :: 0 <= i < |obj.relocs| && obj.relocs[i].offset < |obj.text| ==> RelocOk(obj.relocs[i], obj.symbols)
  }

  /** File offsets fit 32 bits; no section number is a reserved one. */
  predicate Addressable(plans: seq<Plan>)
    requires Placeable(plans)
  {
    AlignTo(EndOf(plans, |plans|), 8) + 64 * (|plans| + 1) < TWO32 && |plans| + 1 < 65280
  }

  // --- symbols ---

  lemma {:induction false} BindSame(symbols: seq<Symbol>)
    ensures multiset(WithBind(symbols, LocalBind)) + multiset(WithBind(symbols, GlobalBind)) == multiset(symbols)
  {
    if symbols != [] {
      BindSame(symbols[..|symbols| - 1]);
      assert symbols == symbols[..|symbols| - 1] + [symbols[|symbols| - 1]];
    }
  }

  /** The symbol table holds each symbol once, locals in front of the first global. */
  lemma SortedSame(symbols: seq<Symbol>)
    ensures multiset(Sorted(symbols)) == multiset(symbols)
    ensures 1 <= FirstGlobal(symbols) <= |symbols| + 1 == |Sorted(symbols)| + 1
    ensures forall i :: 0 <= i < |symbols| ==> (i + 1 < FirstGlobal(symbols) <==> Sorted(symbols)[i].bind == LocalBind)
  {
    hide WithBind;
    var locals, globals := WithBind(symbols, LocalBind), WithBind(symbols, GlobalBind);
    BindSame(symbols);
    assert |multiset(symbols)| == |symbols| && |multiset(locals) + multiset(globals)| == |locals| + |globals|;
    assert forall i :: 0 <= i < |locals| ==> locals[i] in locals;
    assert forall i :: |locals| <= i < |symbols| ==> Sorted(symbols)[i] == globals[i - |locals|] && globals[i - |locals|] in globals;
  }

  lemma {:induction false} TextSymsFrom(syms: seq<Symbol>, t: TextSym)
    requires t in TextSyms(syms)
    ensures exists i :: 0 <= i < |syms| && !syms[i].undefined && syms[i].inText && t == TextSym(syms[i].value, syms[i].name)
  {
    var front := syms[..|syms| - 1];
    if t in TextSyms(front) {
      TextSymsFrom(front, t);
      var i :| 0 <= i < |front| && !front[i].undefined && front[i].inText && t == TextSym(front[i].value, front[i].name);
      assert syms[i] == front[i];
    }
  }

  /** The values of sorted symbols lie in the text; their names have no NUL. */
  lemma OrderClean(obj: Object, order: seq<TextSym>, i: nat)
    requires SymbolsOk(obj.symbols, |obj.text|) && Orders(order, obj.symbols) && i < |order|
    ensures order[i].value <= |obj.text| && NulFree(order[i].name)
  {
    hide NulFree, TextSyms, Sorted, ByValue;
    assert order[i] in multiset(order) && order[i] in TextSyms(Sorted(obj.symbols));
    TextSymsFrom(Sorted(obj.symbols), order[i]);
    var j :| 0 <= j < |Sorted(obj.symbols)| && !Sorted(obj.symbols)[j].undefined && Sorted(obj.symbols)[j].inText
             && order[i] == TextSym(Sorted(obj.symbols)[j].value, Sorted(obj.symbols)[j].name);
    SortedOk(obj.symbols, |obj.text|);
  }

  lemma SortedOk(symbols: seq<Symbol>, textSize: nat)
    requires SymbolsOk(symbols, textSize)
    ensures SymbolsOk(Sorted(symbols), textSize)
  {
    hide Sorted, SymbolOk;
    var sorted := Sorted(symbols);
    forall i | 0 <= i < |sorted|
      ensures SymbolOk(sorted[i], textSize)
    {
      assert sorted[i] in symbols;
    }
  }

  // --- names ---

  predicate AllNulFree(names: seq<Name>) {
    forall i :: 0 <= i < |names| ==> NulFree(names[i])
  }

  predicate NamesClean(secs: seq<Slice>) {
    forall i :: 0 <= i < |secs| ==> NulFree(secs[i].name)
  }

  lemma {:induction false} SlicesClean(order: seq<TextSym>, n: nat, textSize: nat)
    requires n <= |order| && forall i :: 0 <= i < |order| ==> NulFree(order[i].name)
    ensures NamesClean(Slices(order, n, textSize))
  {
    if n > 0 {
      SlicesClean(order, n - 1, textSize);
    }
  }

  lemma SectionsClean(order: seq<TextSym>, textSize: nat)
    requires forall i :: 0 <= i < |order| ==> NulFree(order[i].name)
    ensures NamesClean(Sections(order, textSize))
  {
    SlicesClean(order, |order|, textSize);
    hide Slices;
  }

  lemma {:induction false} RelaNamesClean(relocs: seq<Reloc>, secs: seq<Slice>, n: nat)
    requires n <= |secs| && NamesClean(secs)
    ensures AllNulFree(RelaNames(relocs, secs, n))
  {
    hide SecRelocs;
    if n > 0 {
      RelaNamesClean(relocs, secs, n - 1);
    }
  }

  lemma FixedClean()
    ensures AllNulFree(FixedNames())
  {
  }

  lemma CleanAppend(a: seq<Name>, b: seq<Name>)
    requires AllNulFree(a) && AllNulFree(b)
    ensures AllNulFree(a + b)
  {
    hide NulFree;
  }

  /** Both string tables give back the names. */
  lemma TablesOk(obj: Object, secs: seq<Slice>)
    requires SymbolsOk(obj.symbols, |obj.text|) && NamesClean(secs)
    ensures var t := StrTab(Sorted(obj.symbols));
      StringsOk(t) && forall i :: 0 <= i < |Sorted(obj.symbols)| ==> Sorted(obj.symbols)[i].name in t.offsets
    ensures StringsOk(ShStrTab(obj.relocs, secs))
    ensures forall x :: x in FixedNames() + SliceNames(secs) + RelaNames(obj.relocs, secs, |secs|) ==> x in ShStrTab(obj.relocs, secs).offsets
  {
    hide NulFree, AddNames, StringsOk, NoStrings, Sorted, RelaNames, FixedNames;
    SortedOk(obj.symbols, |obj.text|);
    AddNamesOk(SymNames(Sorted(obj.symbols)));
    FixedClean();
    RelaNamesClean(obj.relocs, secs, |secs|);
    CleanAppend(FixedNames(), SliceNames(secs));
    CleanAppend(FixedNames() + SliceNames(secs), RelaNames(obj.relocs, secs, |secs|));
    AddNamesOk(FixedNames() + SliceNames(secs) + RelaNames(obj.relocs, secs, |secs|));
  }

  lemma OffsetBelow(t: Strings, name: Name)
    requires StringsOk(t)
    ensures OffsetOf(t, name) < |t.bytes|
  {
    assert NameHeld(t, name);
  }

  // --- fields ---

  /** No section is longer than the file. */
  lemma ContentFits(plans: seq<Plan>, k: nat)
    requires Placeable(plans) && k < |plans|
    ensures |plans[k].content| <= EndOf(plans, |plans|)
  {
    hide AlignTo, Fill;
    FillPrefix(Zeros(64), plans, k + 1, |plans|);
  }

  lemma {:induction false} RelasFit(names: Strings, relocs: seq<Reloc>, secs: seq<Slice>, index: map<Name, nat>,
                                    symtab: nat, n: nat)
    requires n <= |secs| < TWO32 && StringsOk(names) && |names.bytes| < TWO32 && symtab < TWO32
    ensures forall p :: p in RelaPlans(names, relocs, secs, index, symtab, n) ==> PlanFits(p)
  {
    hide StringsOk, SecRelocs, EncodeRelas, OffsetOf;
    if n > 0 {
      RelasFit(names, relocs, secs, index, symtab, n - 1);
      OffsetBelow(names, DOT_RELA + secs[n - 1].name);
    }
  }

  lemma TextFits(names: Strings, text: seq<Byte>, secs: seq<Slice>)
    requires SlicesIn(secs, text) && StringsOk(names) && |names.bytes| < TWO32
    ensures forall p :: p in TextPlans(names, text, secs) ==> PlanFits(p)
  {
    hide StringsOk, OffsetOf;
    forall i | 0 <= i < |secs|
      ensures PlanFits(TextPlan(names, text, secs[i]))
    {
      OffsetBelow(names, secs[i].name);
    }
  }

  lemma TailFits(obj: Object, secs: seq<Slice>)
    requires var names := ShStrTab(obj.relocs, secs); StringsOk(names) && |names.bytes| < TWO32
    requires DataIndex(obj, secs) + 2 < TWO32 && FirstGlobal(obj.symbols) < TWO32
    ensures forall p :: p in TailPlans(obj, secs) ==> PlanFits(p)
  {
    hide StringsOk, OffsetOf, ShStrTab, StrTab, EncodeSyms, DataIndex, FirstGlobal, Sorted;
    var names := ShStrTab(obj.relocs, secs);
    OffsetBelow(names, DOT_DATA);
    OffsetBelow(names, DOT_SYMTAB);
    OffsetBelow(names, DOT_STRTAB);
    OffsetBelow(names, DOT_SHSTRTAB);
  }

  lemma PlansAddressed(obj: Object, secs: seq<Slice>)
    requires SlicesIn(secs, obj.text) && Placeable(Plans(obj, secs)) && Addressable(Plans(obj, secs))
    requires StringsOk(ShStrTab(obj.relocs, secs))
    ensures PlansFit(Plans(obj, secs)) && |Sorted(obj.symbols)| < TWO32
    ensures |StrTab(Sorted(obj.symbols)).bytes| < TWO32
  {
    hide StringsOk, ShStrTab, StrTab, EncodeSyms, Sorted, EndOf, AlignTo, RelaCount, RelaPlans, TextPlans, PlanFits, SymIndex, OffsetOf;
    var plans := Plans(obj, secs);
    AllSize(obj, secs);
    SortedSame(obj.symbols);
    TailLengths(obj, secs);
    var names, index := ShStrTab(obj.relocs, secs), SymIndex(Sorted(obj.symbols));
    TextFits(names, obj.text, secs);
    RelasFit(names, obj.relocs, secs, index, DataIndex(obj, secs) + 1, |secs|);
    TailFits(obj, secs);
    forall k | 0 <= k < |plans|
      ensures PlanFits(plans[k])
    {
      assert plans[k] in TextPlans(names, obj.text, secs) + RelaPlans(names, obj.relocs, secs, index, DataIndex(obj, secs) + 1, |secs|)
                         + TailPlans(obj, secs);
    }
  }

  lemma TailLengths(obj: Object, secs: seq<Slice>)
    requires SlicesIn(secs, obj.text) && Placeable(Plans(obj, secs))
    ensures var end := EndOf(Plans(obj, secs), |Plans(obj, secs)|);
      && 24 * (1 + |Sorted(obj.symbols)|) <= end && |StrTab(Sorted(obj.symbols)).bytes| <= end
      && |ShStrTab(obj.relocs, secs).bytes| <= end
  {
    hide ShStrTab, StrTab, EncodeSyms, Sorted, EndOf, RelaCount, FirstGlobal, TextPlans, RelaPlans, OffsetOf;
    var plans := Plans(obj, secs);
    AllSize(obj, secs);
    ContentFits(plans, |plans| - 3);
    ContentFits(plans, |plans| - 2);
    ContentFits(plans, |plans| - 1);
  }

  // --- the round trip ---

  /** The sections of an object in order are good. */
  lemma SectionsGood(obj: Object, order: seq<TextSym>)
    requires SymbolsOk(obj.symbols, |obj.text|) && Orders(order, obj.symbols)
    ensures var secs := Sections(order, |obj.text|);
      SlicesIn(secs, obj.text) && Tiles(secs, 0, |obj.text|) && NamesClean(secs) && Placeable(Plans(obj, secs))
  {
    hide Sections, Plans, Tiles, NulFree, SymbolsOk, ByValue, Sorted;
    var secs := Sections(order, |obj.text|);
    forall i | 0 <= i < |order|
      ensures order[i].value <= |obj.text| && NulFree(order[i].name)
    {
      OrderClean(obj, order, i);
    }
    SectionsTile(order, |obj.text|);
    SectionsClean(order, |obj.text|);
    TilesOrder(secs, 0, |obj.text|);
    PlansPlaceable(obj, secs);
  }

  /** What the file says. */
  function Recovered(obj: Object, secs: seq<Slice>): Found {
    Found(Object(obj.text, obj.data, Grouped(obj.relocs, secs, |secs|), Canons(Sorted(obj.symbols), |obj.text|)), FirstGlobal(obj.symbols))
  }

  /** The file is small enough for its fields. */
  predicate FieldsSuffice(obj: Object, secs: seq<Slice>) {
    SlicesIn(secs, obj.text) && Placeable(Plans(obj, secs)) && Addressable(Plans(obj, secs))
  }

  /** Reading the written file gives the object back: text, data, symbols, and
      the relocations section by section. */
  lemma ReadWritten(obj: Object, machine: nat, order: seq<TextSym>)
    requires ObjectOk(obj) && Orders(order, obj.symbols) && machine < 65536
    requires FieldsSuffice(obj, Sections(order, |obj.text|))
    ensures Read(ElfBytes(obj, machine, order), machine) == Some(Recovered(obj, Sections(order, |obj.text|)))
  {
    hide *;
    var secs := Sections(order, |obj.text|);
    SymbolsAre(obj);
    SectionsGood(obj, order);
    TablesOk(obj, secs);
    Sufficient(obj, secs);
    PlansAddressed(obj, secs);
    LoadBack(machine, Plans(obj, secs));
    SecsAre(obj, secs);
    GoodIs(obj, secs);
    Interpreted(obj, secs);
    ReadIs(obj, machine, order);
  }

  lemma SymbolsAre(obj: Object)
    requires ObjectOk(obj)
    ensures SymbolsOk(obj.symbols, |obj.text|)
  {
    hide SymbolsOk, RelocOk;
  }

  lemma Sufficient(obj: Object, secs: seq<Slice>)
    requires FieldsSuffice(obj, secs)
    ensures SlicesIn(secs, obj.text) && Placeable(Plans(obj, secs)) && Addressable(Plans(obj, secs))
  {
  }

  lemma GoodIs(obj: Object, secs: seq<Slice>)
    requires SlicesIn(secs, obj.text) && Tiles(secs, 0, |obj.text|) && Placeable(Plans(obj, secs)) && PlansFit(Plans(obj, secs))
    ensures Good(obj, secs)
  {
    hide Tiles, Plans, PlansFit;
  }

  lemma ReadIs(obj: Object, machine: nat, order: seq<TextSym>)
    requires SlicesIn(Sections(order, |obj.text|), obj.text) && Placeable(Plans(obj, Sections(order, |obj.text|)))
    ensures var secs := Sections(order, |obj.text|); var r := Load(FileOf(machine, Plans(obj, secs)), machine);
      Read(ElfBytes(obj, machine, order), machine) == if r.Some? then Interpret(r.value) else None
  {
    hide Plans, Sections, Load, Interpret, FileOf, SlicesIn, Placeable;
  }

  /** The name in the string table of the sections. */
  lemma NameOf(obj: Object, slices: seq<Slice>, machine: nat, k: nat, name: Name)
    requires Good(obj, slices) && machine < 65536 && StringsOk(ShStrTab(obj.relocs, slices)) && k < |AllSecs(obj, slices)|
    requires name in ShStrTab(obj.relocs, slices).offsets
    requires AllSecs(obj, slices)[k].h.name == OffsetOf(ShStrTab(obj.relocs, slices), name)
    ensures SectionName(FileOf(machine, Plans(obj, slices)), machine, k) == Some(name)
  {
    hide Plans, Tiles, FileOf, Load, StringsOk, ShStrTab, OffsetOf, AllSecs, NameAt, HeaderFields, RelaCount, TailPlans, StrTab, Sorted, PlansFit;
    LoadBack(machine, Plans(obj, slices));
    SecsAre(obj, slices);
    AllSize(obj, slices);
    LastSecs(obj, slices, 3);
    TailNames(obj, slices);
    NameFound(ShStrTab(obj.relocs, slices), name);
  }

  lemma SecsAre(obj: Object, slices: seq<Slice>)
    requires SlicesIn(slices, obj.text) && Placeable(Plans(obj, slices))
    ensures AllSecs(obj, slices) == SecsOf(Plans(obj, slices), |Plans(obj, slices)| + 1)
  {
    hide Plans, Placeable, SecsOf;
  }

  lemma TailNames(obj: Object, slices: seq<Slice>)
    ensures var t, names := TailPlans(obj, slices), ShStrTab(obj.relocs, slices);
      && t[3].content == names.bytes
      && t[1].name == OffsetOf(names, DOT_SYMTAB) && t[2].name == OffsetOf(names, DOT_STRTAB)
      && t[3].name == OffsetOf(names, DOT_SHSTRTAB)
  {
    hide ShStrTab, OffsetOf, StrTab, Sorted, EncodeSyms, DataIndex, FirstGlobal;
  }

  /** A reader finds the names of the text sections, of their relocation sections,
      of the symbol table and of both string tables. */
  lemma NamesBack(obj: Object, machine: nat, order: seq<TextSym>, i: nat)
    requires SymbolsOk(obj.symbols, |obj.text|) && Orders(order, obj.symbols) && machine < 65536
    requires FieldsSuffice(obj, Sections(order, |obj.text|)) && i < |Sections(order, |obj.text|)|
    ensures var slices, b := Sections(order, |obj.text|), ElfBytes(obj, machine, order);
      && SectionName(b, machine, 1 + i) == Some(slices[i].name)
      && (SecRelocs(obj.relocs, slices, i) != [] ==>
            SectionName(b, machine, 1 + |slices| + RelaCount(obj.relocs, slices, i)) == Some(DOT_RELA + slices[i].name))
  {
    hide Orders, SymbolsOk, Sections, Tiles, Plans, StringsOk, PlansFit, Sorted, StrTab, ShStrTab, Addressable, AllSecs, SectionName;
    hide RelaCount, SecRelocs, NamesClean, RelaNames, FixedNames, FileOf;
    var slices := Sections(order, |obj.text|);
    SectionsGood(obj, order);
    TablesOk(obj, slices);
    PlansAddressed(obj, slices);
    TextName(obj, slices, i);
    assert slices[i].name == SliceNames(slices)[i] && slices[i].name in SliceNames(slices);
    NameOf(obj, slices, machine, 1 + i, slices[i].name);
    if SecRelocs(obj.relocs, slices, i) != [] {
      RelaNamed(obj.relocs, slices, i, |slices|);
      RelaSec(obj, slices, i + 1);
      NameOf(obj, slices, machine, 1 + |slices| + RelaCount(obj.relocs, slices, i), DOT_RELA + slices[i].name);
    }
  }

  /** The last three sections bear their names. */
  lemma TablesNamed(obj: Object, machine: nat, order: seq<TextSym>)
    requires SymbolsOk(obj.symbols, |obj.text|) && Orders(order, obj.symbols) && machine < 65536
    requires FieldsSuffice(obj, Sections(order, |obj.text|))
    ensures var d, b := DataIndex(obj, Sections(order, |obj.text|)), ElfBytes(obj, machine, order);
      && SectionName(b, machine, d + 1) == Some([46, 115, 121, 109, 116, 97, 98])
      && SectionName(b, machine, d + 2) == Some([46, 115, 116, 114, 116, 97, 98])
      && SectionName(b, machine, d + 3) == Some([46, 115, 104, 115, 116, 114, 116, 97, 98])
  {
    hide Orders, SymbolsOk, Sections, Tiles, Plans, StringsOk, PlansFit, Sorted, StrTab, ShStrTab, Addressable, AllSecs, SectionName;
    hide RelaCount, SecRelocs, NamesClean, RelaNames, FileOf, TailPlans;
    var slices := Sections(order, |obj.text|);
    SectionsGood(obj, order);
    TablesOk(obj, slices);
    PlansAddressed(obj, slices);
    TailNames(obj, slices);
    LastSecs(obj, slices, 1);
    LastSecs(obj, slices, 2);
    LastSecs(obj, slices, 3);
    FixedNamed(obj.relocs, slices);
    NameOf(obj, slices, machine, DataIndex(obj, slices) + 1, DOT_SYMTAB);
    NameOf(obj, slices, machine, DataIndex(obj, slices) + 2, DOT_STRTAB);
    NameOf(obj, slices, machine, DataIndex(obj, slices) + 3, DOT_SHSTRTAB);
  }

  /** Every section starts at a multiple of its alignment; text sections at one of 16. */
  lemma SecsAligned(obj: Object, slices: seq<Slice>, k: nat)
    requires Good(obj, slices) && 0 < k < |AllSecs(obj, slices)|
    ensures var h := AllSecs(obj, slices)[k].h; h.align > 0 && h.offset % h.align == 0
    ensures k <= |slices| ==> AllSecs(obj, slices)[k].h.align == 16
  {
    hide AllSecs, Plans, Tiles, PlansFit, EndOf, RelaCount, TailPlans, ShStrTab;
    AllSize(obj, slices);
    SecIs(obj, slices, k);
    SecStart(obj, slices, k);
    PlanAligned(obj, slices, k - 1);
    AlignMultiple(EndOf(Plans(obj, slices), k - 1), Plans(obj, slices)[k - 1].place, Plans(obj, slices)[k - 1].align);
  }

  lemma SecStart(obj: Object, slices: seq<Slice>, k: nat)
    requires Good(obj, slices) && 0 < k <= |Plans(obj, slices)|
    ensures AllSecs(obj, slices)[k].h.offset == StartOf(Plans(obj, slices), k - 1)
  {
    hide Plans, PlansFit, Tiles, StartOf;
  }

  /** Sections are placed at multiples of their alignment. */
  lemma PlanAligned(obj: Object, slices: seq<Slice>, k: nat)
    requires SlicesIn(slices, obj.text) && k < |Plans(obj, slices)|
    ensures var p := Plans(obj, slices)[k]; Aligned(p.place, p.align) && (k < |slices| ==> p.align == 16)
  {
    hide StrTab, ShStrTab, EncodeSyms, OffsetOf, Sorted, SymIndex, FirstGlobal, RelaPlans;
    var names, index := ShStrTab(obj.relocs, slices), SymIndex(Sorted(obj.symbols));
    RelasPlaceable(names, obj.relocs, slices, index, DataIndex(obj, slices) + 1, |slices|);
    RelasAligned(names, obj.relocs, slices, index, DataIndex(obj, slices) + 1, |slices|);
  }

  lemma {:induction false} RelasAligned(names: Strings, relocs: seq<Reloc>, secs: seq<Slice>, index: map<Name, nat>,
                                        symtab: nat, n: nat)
    requires n <= |secs|
    ensures forall p :: p in RelaPlans(names, relocs, secs, index, symtab, n) ==> p.place == 16 && p.align == 8
  {
    hide SecRelocs, EncodeRelas, OffsetOf;
    if n > 0 {
      RelasAligned(names, relocs, secs, index, symtab, n - 1);
    }
  }

  predicate Aligned(place: nat, align: nat) {
    (place == 16 && (align == 16 || align == 8)) || (place == 8 && align == 8) || (place == 1 && align == 1)
  }

  lemma AlignMultiple(n: nat, place: nat, align: nat)
    requires Aligned(place, align)
    ensures align > 0 && place > 0 && AlignTo(n, place) % align == 0
  {
    Sixteens(n);
    Eights(n);
    hide AlignTo;
  }

  lemma Sixteens(n: nat)
    ensures AlignTo(n, 16) % 16 == 0 && AlignTo(n, 16) % 8 == 0
  {
  }

  lemma Eights(n: nat)
    ensures AlignTo(n, 8) % 8 == 0
  {
  }

  lemma NameFound(t: Strings, name: Name)
    requires StringsOk(t) && name in t.offsets
    ensures NameAt(t.bytes, OffsetOf(t, name)) == name
  {
    assert NameHeld(t, name);
  }

  lemma TextName(obj: Object, slices: seq<Slice>, i: nat)
    requires Good(obj, slices) && i < |slices|
    ensures AllSecs(obj, slices)[1 + i].h.name == OffsetOf(ShStrTab(obj.relocs, slices), slices[i].name)
  {
    hide AllSecs, Tiles, PlansFit, ShStrTab, OffsetOf, RelaPlans, TailPlans, SecRelocs, RelaCount;
    AllSize(obj, slices);
    SecIs(obj, slices, 1 + i);
  }

  lemma HomedAreOk(obj: Object, secs: seq<Slice>)
    requires ObjectOk(obj) && Tiles(secs, 0, |obj.text|)
    ensures HomedOk(obj.relocs, secs, Sorted(obj.symbols))
  {
    hide Tiles, SymbolsOk, Home, Sorted;
    forall i | 0 <= i < |obj.relocs| && Home(secs, obj.relocs[i].offset).Some?
      ensures RelocOk(obj.relocs[i], Sorted(obj.symbols))
    {
      HomeInside(secs, 0, |obj.text|, obj.relocs[i].offset);
      SortedSame(obj.symbols);
      var j :| 0 <= j < |obj.symbols| && obj.symbols[j].name == obj.relocs[i].symbol;
      assert obj.symbols[j] in multiset(Sorted(obj.symbols));
      assert obj.symbols[j] in Sorted(obj.symbols);
    }
  }

  lemma Interpreted(obj: Object, secs: seq<Slice>)
    requires Good(obj, secs) && ObjectOk(obj) && |Sorted(obj.symbols)| < TWO32
    requires var t := StrTab(Sorted(obj.symbols));
      StringsOk(t) && |t.bytes| < TWO32 && forall i :: 0 <= i < |Sorted(obj.symbols)| ==> Sorted(obj.symbols)[i].name in t.offsets
    ensures Interpret(AllSecs(obj, secs)) == Some(Recovered(obj, secs))
  {
    hide SymbolsOk, RelocOk, Tiles, Plans, StringsOk, PlansFit, Sorted, StrTab, ShStrTab, AllSecs, ReadSyms, RelocsOf, TextOf, FirstGlobal, Grouped, FindSec, EncodeSyms, HomedOk;
    var syms := Sorted(obj.symbols);
    SortedOk(obj.symbols, |obj.text|);
    HomedAreOk(obj, secs);
    TablesFound(obj, secs);
    TextWhole(obj, secs, |AllSecs(obj, secs)|);
    SymsBack(obj, secs, syms, |syms|);
    assert syms[..|syms|] == syms;
    RelocsBack(obj, secs);
  }

  /** Nothing is lost: the symbols are the object's, and so are the relocations if
      and only if each lies in the text. */
  lemma RecoveredSame(obj: Object, order: seq<TextSym>)
    requires SymbolsOk(obj.symbols, |obj.text|) && Orders(order, obj.symbols)
    ensures var found := Recovered(obj, Sections(order, |obj.text|));
      && multiset(found.obj.symbols) == multiset(Canons(obj.symbols, |obj.text|))
      && (multiset(found.obj.relocs) == multiset(obj.relocs)
          <==> forall i :: 0 <= i < |obj.relocs| ==> obj.relocs[i].offset < |obj.text|)
  {
    hide Sections, Sorted, Grouped, Tiles, SymbolsOk, Orders, NamesClean, Canons;
    SectionsGood(obj, order);
    AllKept(obj.relocs, Sections(order, |obj.text|), |obj.text|);
    CanonsSorted(obj.symbols, |obj.text|);
  }

  /** Every field of every symbol comes back if and only if undefined symbols have
      no place and, without text, no symbol lies in the text. */
  lemma SymbolsExact(obj: Object, secs: seq<Slice>)
    ensures Recovered(obj, secs).obj.symbols == Sorted(obj.symbols)
       <==> forall s :: s in obj.symbols ==>
                          if s.undefined then !s.inText && s.value == 0 else s.inText ==> obj.text != []
  {
    hide Sorted, Grouped, FirstGlobal, Canons;
    var sorted, size := Sorted(obj.symbols), |obj.text|;
    SortedSame(obj.symbols);
    forall s {:trigger s in obj.symbols}
      ensures s in obj.symbols <==> s in sorted
    {
      assert s in multiset(obj.symbols) <==> s in multiset(sorted);
    }
    if Canons(sorted, size) != sorted {
      var i :| 0 <= i < |sorted| && Canons(sorted, size)[i] != sorted[i];
      assert sorted[i] in obj.symbols;
    }
  }

  /** A relocation behind the text is dropped. */
  lemma RelocDropped()
    ensures var obj := Object([0xC3], [], [Reloc(1, [], 0, 0)], []);
      Orders([], obj.symbols) && SymbolsOk(obj.symbols, 1) && Recovered(obj, Sections([], 1)).obj.relocs == []
  {
    var obj := Object([0xC3], [], [Reloc(1, [], 0, 0)], []);
    assert Sections([], 1) == [Slice(DOT_TEXT, 0, 1)];
    assert Home([Slice(DOT_TEXT, 0, 1)], 1) == None;
  }

  /** A symbol at the start of an empty text comes back as one of the data. */
  lemma EmptyTextSymbol()
    ensures var s := Symbol([0x66], GlobalBind, 0, false, true, 0, 0);
      var obj := Object([], [], [], [s]);
      SymbolsOk(obj.symbols, 0) && Recovered(obj, []).obj.symbols == [s.(inText := false)]
  {
    var s := Symbol([0x66], GlobalBind, 0, false, true, 0, 0);
    assert [s][..0] == [] && WithBind([s], LocalBind) == [] && WithBind([s], GlobalBind) == [s];
  }

  lemma CanonsAppend(a: seq<Symbol>, b: seq<Symbol>, size: nat)
    ensures Canons(a + b, size) == Canons(a, size) + Canons(b, size)
  {
  }

  lemma {:induction false} CanonsSorted(symbols: seq<Symbol>, size: nat)
    ensures multiset(Canons(Sorted(symbols), size)) == multiset(Canons(symbols, size))
  {
    hide Canon, Canons;
    if symbols == [] {
      assert Sorted(symbols) == symbols;
    } else {
      var front, s := symbols[..|symbols| - 1], symbols[|symbols| - 1];
      CanonsSorted(front, size);
      assert symbols == front + [s];
      CanonsAppend(front, [s], size);
      var locals, globals := WithBind(front, LocalBind), WithBind(front, GlobalBind);
      CanonsAppend(locals, globals, size);
      CanonsAppend(locals, [s], size);
      CanonsAppend(globals, [s], size);
      CanonsAppend(WithBind(symbols, LocalBind), WithBind(symbols, GlobalBind), size);
    }
  }

  lemma {:induction false} SymIndexKeys(syms: seq<Symbol>, name: Name)
    ensures name in SymIndex(syms) <==> exists i :: 0 <= i < |syms| && syms[i].name == name
  {
    if syms != [] {
      var front := syms[..|syms| - 1];
      SymIndexKeys(front, name);
      if name in SymIndex(front) {
        var i :| 0 <= i < |front| && front[i].name == name;
        assert syms[i].name == name;
      }
      assert syms[|syms| - 1].name in SymIndex(syms);
      assert forall i :: 0 <= i < |front| ==> front[i] == syms[i];
    }
  }

  /** Writing succeeds if and only if each relocation in the text names a symbol. */
  lemma LinkedMeans(obj: Object, order: seq<TextSym>)
    requires SymbolsOk(obj.symbols, |obj.text|) && Orders(order, obj.symbols)
    ensures Linked(obj.relocs, Sections(order, |obj.text|), SymIndex(Sorted(obj.symbols)))
       <==> forall j :: 0 <= j < |obj.relocs| && obj.relocs[j].offset < |obj.text| ==>
                          exists i :: 0 <= i < |obj.symbols| && obj.symbols[i].name == obj.relocs[j].symbol
  {
    hide Sections, Tiles, SymbolsOk, Orders, NamesClean, Home, Sorted, SymIndex, Plans;
    var secs := Sections(order, |obj.text|);
    SectionsGood(obj, order);
    forall j {:trigger obj.relocs[j]} | 0 <= j < |obj.relocs|
      ensures Home(secs, obj.relocs[j].offset).Some? <==> obj.relocs[j].offset < |obj.text|
      ensures obj.relocs[j].symbol in SymIndex(Sorted(obj.symbols))
         <==> exists i :: 0 <= i < |obj.symbols| && obj.symbols[i].name == obj.relocs[j].symbol
    {
      HomeInside(secs, 0, |obj.text|, obj.relocs[j].offset);
      SymIndexKeys(Sorted(obj.symbols), obj.relocs[j].symbol);
      SameNames(obj.symbols, obj.relocs[j].symbol);
    }
  }

  lemma SameNames(symbols: seq<Symbol>, name: Name)
    ensures (exists i :: 0 <= i < |symbols| && symbols[i].name == name)
       <==> exists i :: 0 <= i < |Sorted(symbols)| && Sorted(symbols)[i].name == name
  {
    hide Sorted;
    SortedSame(symbols);
    if i :| 0 <= i < |symbols| && symbols[i].name == name {
      assert symbols[i] in multiset(Sorted(symbols)) && symbols[i] in Sorted(symbols);
    }
    if i :| 0 <= i < |Sorted(symbols)| && Sorted(symbols)[i].name == name {
      assert Sorted(symbols)[i] in symbols;
    }
  }
}
