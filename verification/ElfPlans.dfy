/** Where each section stands in the plan, and what the writer looks up. */
module ElfPlans {
  import opened Words
  import opened Bytes
  import opened ElfObject

  // --- names ---

  lemma AddNamesSnoc(t: Strings, names: seq<Name>, name: Name)
    ensures AddNames(t, names + [name]) == AddName(AddNames(t, names), name)
  {
    assert (names + [name])[..|names|] == names;
  }

  lemma {:induction false} AddNamesHas(t: Strings, names: seq<Name>, name: Name)
    requires name in names
    ensures name in AddNames(t, names).offsets
  {
    if name != names[|names| - 1] {
      AddNamesHas(t, names[..|names| - 1], name);
    }
  }

  lemma {:induction false} RelaNamed(relocs: seq<Reloc>, secs: seq<Slice>, i: nat, n: nat)
    requires i < n <= |secs| && SecRelocs(relocs, secs, i) != []
    ensures DOT_RELA + secs[i].name in RelaNames(relocs, secs, n)
    decreases n
  {
    hide SecRelocs;
    if i < n - 1 {
      RelaNamed(relocs, secs, i, n - 1);
    }
  }

  function SectionNames(relocs: seq<Reloc>, secs: seq<Slice>): seq<Name> {
    FixedNames() + SliceNames(secs) + RelaNames(relocs, secs, |secs|)
  }

  lemma FixedNamed(relocs: seq<Reloc>, secs: seq<Slice>)
    ensures var t := ShStrTab(relocs, secs).offsets;
      DOT_TEXT in t && DOT_DATA in t && DOT_SYMTAB in t && DOT_STRTAB in t && DOT_SHSTRTAB in t
  {
    hide AddNames, RelaNames, DOT_TEXT, DOT_DATA, DOT_SYMTAB, DOT_STRTAB, DOT_SHSTRTAB;
    var all, t := SectionNames(relocs, secs), NoStrings();
    var fixed := FixedNames();
    assert fixed[0] in all && fixed[1] in all && fixed[2] in all && fixed[3] in all && fixed[4] in all;
    AddNamesHas(t, all, DOT_TEXT);
    AddNamesHas(t, all, DOT_DATA);
    AddNamesHas(t, all, DOT_SYMTAB);
    AddNamesHas(t, all, DOT_STRTAB);
    AddNamesHas(t, all, DOT_SHSTRTAB);
  }

  lemma SliceNamed(relocs: seq<Reloc>, secs: seq<Slice>, i: nat)
    requires i < |secs|
    ensures secs[i].name in ShStrTab(relocs, secs).offsets
    ensures SecRelocs(relocs, secs, i) != [] ==> DOT_RELA + secs[i].name in ShStrTab(relocs, secs).offsets
  {
    hide AddNames, RelaNames, SecRelocs, FixedNames;
    var all := SectionNames(relocs, secs);
    assert SliceNames(secs)[i] in all;
    AddNamesHas(NoStrings(), all, secs[i].name);
    if SecRelocs(relocs, secs, i) != [] {
      RelaNamed(relocs, secs, i, |secs|);
      AddNamesHas(NoStrings(), all, DOT_RELA + secs[i].name);
    }
  }

  lemma SymNamed(syms: seq<Symbol>, i: nat)
    requires i < |syms|
    ensures syms[i].name in StrTab(syms).offsets
  {
    hide AddNames;
    assert SymNames(syms)[i] in SymNames(syms);
    AddNamesHas(NoStrings(), SymNames(syms), syms[i].name);
  }

  // --- sections ---

  /** The first section that holds an offset. */
  lemma HomeIs(secs: seq<Slice>, offset: nat, i: nat)
    requires i < |secs| && Inside(offset, secs[i]) && forall j :: 0 <= j < i ==> !Inside(offset, secs[j])
    ensures Home(secs, offset) == Some(i)
  {
  }

  lemma HomeNone(secs: seq<Slice>, offset: nat)
    requires forall j :: 0 <= j < |secs| ==> !Inside(offset, secs[j])
    ensures Home(secs, offset) == None
  {
  }

  lemma SecRelocsStep(relocs: seq<Reloc>, secs: seq<Slice>, i: nat)
    requires i < |secs| && relocs != []
    ensures var r := relocs[|relocs| - 1];
      SecRelocs(relocs, secs, i)
      == SecRelocs(relocs[..|relocs| - 1], secs, i)
         + if Home(secs, r.offset) == Some(i) then [r.(offset := r.offset - secs[i].start)] else []
  {
  }

  lemma SecRelocsSnoc(relocs: seq<Reloc>, r: Reloc, secs: seq<Slice>, i: nat)
    requires i < |secs|
    ensures SecRelocs(relocs + [r], secs, i)
         == SecRelocs(relocs, secs, i) + if Home(secs, r.offset) == Some(i) then [r.(offset := r.offset - secs[i].start)] else []
  {
    hide *;
    var longer := relocs + [r];
    assert longer[..|longer| - 1] == relocs && longer[|longer| - 1] == r;
    SecRelocsStep(longer, secs, i);
  }

  lemma SecRelocsNext(relocs: seq<Reloc>, secs: seq<Slice>, n: nat, i: nat)
    requires n < |relocs| && i < |secs|
    ensures SecRelocs(relocs[..n + 1], secs, i)
         == SecRelocs(relocs[..n], secs, i)
            + if Home(secs, relocs[n].offset) == Some(i) then [relocs[n].(offset := relocs[n].offset - secs[i].start)] else []
  {
    hide *;
    assert relocs[..n + 1] == relocs[..n] + [relocs[n]];
    SecRelocsSnoc(relocs[..n], relocs[n], secs, i);
  }

  // --- linking ---

  /** Each relocation in a section names a symbol. */
  predicate Linked(relocs: seq<Reloc>, secs: seq<Slice>, index: map<Name, nat>) {
    forall j :: 0 <= j < |relocs| && Home(secs, relocs[j].offset).Some? ==> relocs[j].symbol in index
  }

  predicate SecLinked(relocs: seq<Reloc>, secs: seq<Slice>, index: map<Name, nat>, i: nat)
    requires i < |secs|
  {
    forall j :: 0 <= j < |SecRelocs(relocs, secs, i)| ==> SecRelocs(relocs, secs, i)[j].symbol in index
  }

  lemma {:induction false} SecLinkedIs(relocs: seq<Reloc>, secs: seq<Slice>, index: map<Name, nat>, i: nat)
    requires i < |secs|
    ensures SecLinked(relocs, secs, index, i)
       <==> forall j :: 0 <= j < |relocs| && Home(secs, relocs[j].offset) == Some(i) ==> relocs[j].symbol in index
  {
    hide Home, SecLinked;
    if relocs == [] {
      NoneLinked(secs, index, i);
    } else {
      var r, front := relocs[|relocs| - 1], relocs[..|relocs| - 1];
      SecLinkedIs(front, secs, index, i);
      SecLinkedStep(relocs, secs, index, i);
      assert forall j :: 0 <= j < |front| ==> front[j] == relocs[j];
    }
  }

  lemma NoneLinked(secs: seq<Slice>, index: map<Name, nat>, i: nat)
    requires i < |secs|
    ensures SecLinked([], secs, index, i)
  {
  }

  lemma SecLinkedStep(relocs: seq<Reloc>, secs: seq<Slice>, index: map<Name, nat>, i: nat)
    requires i < |secs| && relocs != []
    ensures var r := relocs[|relocs| - 1];
      SecLinked(relocs, secs, index, i)
      <==> SecLinked(relocs[..|relocs| - 1], secs, index, i) && (Home(secs, r.offset) == Some(i) ==> r.symbol in index)
  {
    hide Home;
    var before, all := SecRelocs(relocs[..|relocs| - 1], secs, i), SecRelocs(relocs, secs, i);
    assert forall j :: 0 <= j < |before| ==> all[j] == before[j];
    if |all| > |before| {
      assert all[|before|].symbol == relocs[|relocs| - 1].symbol;
    }
  }

  lemma LinkedIs(relocs: seq<Reloc>, secs: seq<Slice>, index: map<Name, nat>)
    ensures Linked(relocs, secs, index) <==> forall i :: 0 <= i < |secs| ==> SecLinked(relocs, secs, index, i)
  {
    hide Home, SecLinked;
    forall i | 0 <= i < |secs|
      ensures SecLinked(relocs, secs, index, i)
         <==> forall j :: 0 <= j < |relocs| && Home(secs, relocs[j].offset) == Some(i) ==> relocs[j].symbol in index
    {
      SecLinkedIs(relocs, secs, index, i);
    }
  }

  // --- plans ---

  lemma PlanAt(obj: Object, secs: seq<Slice>)
    requires SlicesIn(secs, obj.text)
    ensures var plans, t, r := Plans(obj, secs), |secs|, RelaCount(obj.relocs, secs, |secs|);
      && |plans| == t + r + 4
      && (forall i :: 0 <= i < t ==> plans[i] == TextPlan(ShStrTab(obj.relocs, secs), obj.text, secs[i]))
      && plans[t + r..] == TailPlans(obj, secs)
  {
    hide ShStrTab, Sorted, SymIndex, RelaPlans, TailPlans, RelaCount, TextPlan;
    RelasPlaceable(ShStrTab(obj.relocs, secs), obj.relocs, secs, SymIndex(Sorted(obj.symbols)), DataIndex(obj, secs) + 1, |secs|);
  }

  /** Position of the relocation section of text section `i`. */
  lemma {:induction false} RelaPlanAt(names: Strings, relocs: seq<Reloc>, secs: seq<Slice>, index: map<Name, nat>,
                                      symtab: nat, i: nat, n: nat)
    requires i < n <= |secs| && SecRelocs(relocs, secs, i) != []
    ensures var plans := RelaPlans(names, relocs, secs, index, symtab, n);
      RelaCount(relocs, secs, i) < |plans|
      && plans[RelaCount(relocs, secs, i)]
         == Plan(OffsetOf(names, DOT_RELA + secs[i].name), 4, 0, 16, EncodeRelas(index, SecRelocs(relocs, secs, i)), symtab,
                 i + 1, 8, 24)
    decreases n
  {
    hide SecRelocs, EncodeRelas, OffsetOf;
    RelasPlaceable(names, relocs, secs, index, symtab, n - 1);
    if i < n - 1 {
      RelaPlanAt(names, relocs, secs, index, symtab, i, n - 1);
    }
  }

  lemma PlanOfRela(obj: Object, secs: seq<Slice>, i: nat)
    requires SlicesIn(secs, obj.text) && i < |secs| && SecRelocs(obj.relocs, secs, i) != []
    ensures RelaCount(obj.relocs, secs, i) < RelaCount(obj.relocs, secs, |secs|)
    ensures |secs| + RelaCount(obj.relocs, secs, i) < |Plans(obj, secs)|
    ensures Plans(obj, secs)[|secs| + RelaCount(obj.relocs, secs, i)]
         == Plan(OffsetOf(ShStrTab(obj.relocs, secs), DOT_RELA + secs[i].name), 4, 0, 16,
                 EncodeRelas(SymIndex(Sorted(obj.symbols)), SecRelocs(obj.relocs, secs, i)), DataIndex(obj, secs) + 1, i + 1, 8, 24)
  {
    hide ShStrTab, Sorted, SymIndex, RelaPlans, TailPlans, RelaCount, SecRelocs, EncodeRelas, OffsetOf;
    var names, index := ShStrTab(obj.relocs, secs), SymIndex(Sorted(obj.symbols));
    RelasPlaceable(names, obj.relocs, secs, index, DataIndex(obj, secs) + 1, |secs|);
    RelaPlanAt(names, obj.relocs, secs, index, DataIndex(obj, secs) + 1, i, |secs|);
  }

  lemma {:induction false} RelaCountGrows(relocs: seq<Reloc>, secs: seq<Slice>, n: nat, m: nat)
    requires n <= m <= |secs|
    ensures RelaCount(relocs, secs, n) <= RelaCount(relocs, secs, m)
    decreases m
  {
    hide SecRelocs;
    if n < m {
      RelaCountGrows(relocs, secs, n, m - 1);
    }
  }
}
