/** Relocations survive the split into sections and the reading back. */
module ElfRelocs {
  import opened Words
  import opened Bytes
  import opened ElfObject
  import opened ElfReader
  import opened ElfReadBack
  import opened ElfRecovered
  import opened ElfPlans

  // --- splitting ---

  /** The relocations whose first section is `i`, in order. */
  function InSection(relocs: seq<Reloc>, secs: seq<Slice>, i: nat): seq<Reloc> {
    if relocs == [] then []
    else
      var r := relocs[|relocs| - 1];
      InSection(relocs[..|relocs| - 1], secs, i) + if Home(secs, r.offset) == Some(i) then [r] else []
  }

  /** The relocations of the first `n` sections, section by section. */
  function Grouped(relocs: seq<Reloc>, secs: seq<Slice>, n: nat): seq<Reloc> {
    if n == 0 then [] else Grouped(relocs, secs, n - 1) + InSection(relocs, secs, n - 1)
  }

  /** A further relocation is found in its own section, and nowhere else. */
  lemma {:induction false} GroupedGrows(relocs: seq<Reloc>, secs: seq<Slice>, n: nat, x: Reloc)
    requires relocs != []
    ensures var r, home := relocs[|relocs| - 1], Home(secs, relocs[|relocs| - 1].offset);
      multiset(Grouped(relocs, secs, n))[x]
      == multiset(Grouped(relocs[..|relocs| - 1], secs, n))[x] + if x == r && home.Some? && home.value < n then 1 else 0
  {
    hide *;
    if n == 0 {
      NoneGrouped(relocs, secs);
      NoneGrouped(relocs[..|relocs| - 1], secs);
    } else {
      GroupedStep(relocs, secs, n, x);
      GroupedStep(relocs[..|relocs| - 1], secs, n, x);
      GroupedGrows(relocs, secs, n - 1, x);
      InSectionGrows(relocs, secs, n - 1, x);
    }
  }

  lemma NoneGrouped(relocs: seq<Reloc>, secs: seq<Slice>)
    ensures Grouped(relocs, secs, 0) == []
  {
  }

  lemma GroupedStep(relocs: seq<Reloc>, secs: seq<Slice>, n: nat, x: Reloc)
    requires n > 0
    ensures multiset(Grouped(relocs, secs, n))[x]
         == multiset(Grouped(relocs, secs, n - 1))[x] + multiset(InSection(relocs, secs, n - 1))[x]
  {
    hide Home, InSection;
  }

  lemma InSectionGrows(relocs: seq<Reloc>, secs: seq<Slice>, i: nat, x: Reloc)
    requires relocs != []
    ensures var r := relocs[|relocs| - 1];
      multiset(InSection(relocs, secs, i))[x]
      == multiset(InSection(relocs[..|relocs| - 1], secs, i))[x] + if x == r && Home(secs, r.offset) == Some(i) then 1 else 0
  {
    hide Home;
  }

  predicate Covers(secs: seq<Slice>, relocs: seq<Reloc>) {
    forall i :: 0 <= i < |relocs| ==> Home(secs, relocs[i].offset).Some?
  }

  lemma {:induction false} NothingLost(relocs: seq<Reloc>, secs: seq<Slice>, x: Reloc)
    requires Covers(secs, relocs)
    ensures multiset(Grouped(relocs, secs, |secs|))[x] == multiset(relocs)[x]
  {
    hide Grouped, Home, Inside;
    if relocs == [] {
      GroupedEmpty(secs, |secs|);
    } else {
      NothingLost(relocs[..|relocs| - 1], secs, x);
      GroupedGrows(relocs, secs, |secs|, x);
      LastCounted(relocs, x);
    }
  }

  lemma LastCounted(relocs: seq<Reloc>, x: Reloc)
    requires relocs != []
    ensures multiset(relocs)[x] == multiset(relocs[..|relocs| - 1])[x] + if x == relocs[|relocs| - 1] then 1 else 0
  {
    assert relocs == relocs[..|relocs| - 1] + [relocs[|relocs| - 1]];
  }

  lemma {:induction false} GroupedEmpty(secs: seq<Slice>, n: nat)
    ensures Grouped([], secs, n) == []
  {
    if n > 0 {
      GroupedEmpty(secs, n - 1);
    }
  }

  lemma {:induction false} GroupedHome(relocs: seq<Reloc>, secs: seq<Slice>, n: nat)
    ensures forall r :: r in Grouped(relocs, secs, n) ==> Home(secs, r.offset).Some?
  {
    hide Home, InSection;
    if n > 0 {
      GroupedHome(relocs, secs, n - 1);
      InSectionHome(relocs, secs, n - 1);
    }
  }

  lemma {:induction false} InSectionHome(relocs: seq<Reloc>, secs: seq<Slice>, i: nat)
    ensures forall r :: r in InSection(relocs, secs, i) ==> Home(secs, r.offset).Some?
  {
    hide Home;
    if relocs != [] {
      InSectionHome(relocs[..|relocs| - 1], secs, i);
    }
  }

  lemma {:induction false} HomeInside(secs: seq<Slice>, from: nat, to: nat, offset: nat)
    requires Tiles(secs, from, to)
    ensures Home(secs, offset).Some? <==> from <= offset < to
  {
    if from <= offset < to {
      HomeFound(secs, from, to, offset);
    } else {
      TilesOrder(secs, from, to);
    }
  }

  /** The file holds exactly the object's relocations if and only if all of them
      lie in the text: others are dropped. */
  lemma AllKept(relocs: seq<Reloc>, secs: seq<Slice>, textSize: nat)
    requires Tiles(secs, 0, textSize)
    ensures multiset(Grouped(relocs, secs, |secs|)) == multiset(relocs)
       <==> forall i :: 0 <= i < |relocs| ==> relocs[i].offset < textSize
  {
    hide Tiles, Home, Grouped;
    forall i | 0 <= i < |relocs|
      ensures Home(secs, relocs[i].offset).Some? <==> relocs[i].offset < textSize
    {
      HomeInside(secs, 0, textSize, relocs[i].offset);
    }
    if Covers(secs, relocs) {
      forall x: Reloc
        ensures multiset(Grouped(relocs, secs, |secs|))[x] == multiset(relocs)[x]
      {
        NothingLost(relocs, secs, x);
      }
    } else {
      var i :| 0 <= i < |relocs| && Home(secs, relocs[i].offset).None?;
      GroupedHome(relocs, secs, |secs|);
      assert relocs[i] in multiset(relocs) && relocs[i] !in multiset(Grouped(relocs, secs, |secs|));
    }
  }

  // --- one relocation section ---

  lemma {:induction false} SymIndexOk(syms: seq<Symbol>, name: Name)
    requires exists i :: 0 <= i < |syms| && syms[i].name == name
    ensures name in SymIndex(syms)
    ensures var j := SymIndex(syms)[name]; 1 <= j <= |syms| && syms[j - 1].name == name
  {
    var m := |syms| - 1;
    if syms[m].name != name {
      var i :| 0 <= i < |syms| && syms[i].name == name;
      assert syms[..m][i].name == name;
      SymIndexOk(syms[..m], name);
    }
  }

  ghost predicate RelocOk(r: Reloc, syms: seq<Symbol>) {
    r.offset < TWO32 && exists i :: 0 <= i < |syms| && syms[i].name == r.symbol
  }

  ghost predicate RelocsOk(rs: seq<Reloc>, syms: seq<Symbol>) {
    forall i :: 0 <= i < |rs| ==> RelocOk(rs[i], syms)
  }

  /** The relocations in the text are in order. */
  ghost predicate HomedOk(relocs: seq<Reloc>, secs: seq<Slice>, syms: seq<Symbol>) {
    forall i :: 0 <= i < |relocs| && Home(secs, relocs[i].offset).Some? ==> RelocOk(relocs[i], syms)
  }

  lemma RelaWritten(index: map<Name, nat>, r: Reloc)
    ensures |RELA_FIELDS| == 3
    ensures EncodeRela(index, r)
         == Written(RELA_FIELDS, [r.offset, IndexIn(index, r.symbol) * TWO32 + r.kind, Unsigned(r.addend)])
  {
    hide LittleEndian, Written, IndexIn;
    WrittenTriple(8, 8, 8, r.offset, IndexIn(index, r.symbol) * TWO32 + r.kind, Unsigned(r.addend));
  }

  lemma RelaFieldsBack(index: map<Name, nat>, r: Reloc)
    requires r.offset < TWO32 && IndexIn(index, r.symbol) < TWO32
    ensures RelaFields(EncodeRela(index, r)) == [r.offset, IndexIn(index, r.symbol) * TWO32 + r.kind, Unsigned(r.addend)]
  {
    hide Written, EncodeRela, Fields, IndexIn;
    PowValues();
    hide Pow256;
    RelaWritten(index, r);
    FieldsBack(RELA_FIELDS, [r.offset, IndexIn(index, r.symbol) * TWO32 + r.kind, Unsigned(r.addend)]);
  }

  /** The relocation as it was, if it was relative to `start`. */
  lemma RelaBack(syms: seq<Symbol>, r: Reloc, start: nat, size: nat)
    requires RelocOk(r, syms) && |syms| < TWO32
    ensures ReadRela(EncodeRela(SymIndex(syms), r), start, Canons(syms, size)) == r.(offset := start + r.offset)
  {
    hide *;
    var j := IndexFound(syms, r, size);
    RelaFieldsBack(SymIndex(syms), r);
    RelaMeans(EncodeRela(SymIndex(syms), r), start, Canons(syms, size), r.offset, j, r.kind, r.addend);
  }

  lemma IndexFound(syms: seq<Symbol>, r: Reloc, size: nat) returns (j: nat)
    requires RelocOk(r, syms)
    ensures r.offset < TWO32
    ensures j == IndexIn(SymIndex(syms), r.symbol) && 1 <= j <= |syms| && Canons(syms, size)[j - 1].name == r.symbol
  {
    hide SymIndex;
    SymIndexOk(syms, r.symbol);
    j := IndexIn(SymIndex(syms), r.symbol);
  }

  lemma RelaMeans(e: seq<Byte>, start: nat, syms: seq<Symbol>, offset: nat, j: nat, kind: RelKind, addend: Int64)
    requires |e| == 24 && 1 <= j <= |syms|
    requires RelaFields(e) == [offset, j * TWO32 + kind, Unsigned(addend)]
    ensures ReadRela(e, start, syms) == Reloc(start + offset, syms[j - 1].name, kind, addend)
  {
    hide RelaFields;
    SignedUnsigned(addend);
    HighLow(j, kind);
    hide Signed, Unsigned;
  }

  lemma HighLow(j: nat, k: nat)
    requires k < TWO32
    ensures (j * TWO32 + k) / TWO32 == j && (j * TWO32 + k) % TWO32 == k
  {
  }

  function Shifted(rs: seq<Reloc>, start: nat): (out: seq<Reloc>)
    ensures |out| == |rs| && forall i :: 0 <= i < |rs| ==> out[i] == rs[i].(offset := start + rs[i].offset)
  {
    seq(|rs|, i requires 0 <= i < |rs| => rs[i].(offset := start + rs[i].offset))
  }

  lemma {:induction false} RelaAt(index: map<Name, nat>, rs: seq<Reloc>, n: nat)
    requires n < |rs|
    ensures EncodeRelas(index, rs)[24 * n..24 * (n + 1)] == EncodeRela(index, rs[n])
  {
    hide EncodeRela;
    var m := |rs| - 1;
    var before := EncodeRelas(index, rs[..m]);
    TailSlice(before, EncodeRela(index, rs[m]));
    if n < m {
      RelaAt(index, rs[..m], n);
      PrefixSlice(before, EncodeRelas(index, rs), 24 * n, 24 * (n + 1));
    }
  }

  lemma {:induction false} RelasBack(syms: seq<Symbol>, rs: seq<Reloc>, start: nat, n: nat, size: nat)
    requires RelocsOk(rs, syms) && |syms| < TWO32 && n <= |rs|
    ensures ReadRelas(EncodeRelas(SymIndex(syms), rs), start, Canons(syms, size), n) == Shifted(rs[..n], start)
  {
    hide EncodeRelas, EncodeRela, SymIndex, ReadRela, RelocOk;
    if n > 0 {
      RelasBack(syms, rs, start, n - 1, size);
      RelaAt(SymIndex(syms), rs, n - 1);
      RelaBack(syms, rs[n - 1], start, size);
    }
  }

  lemma {:induction false} SecRelocsOk(relocs: seq<Reloc>, secs: seq<Slice>, i: nat, syms: seq<Symbol>)
    requires i < |secs| && HomedOk(relocs, secs, syms)
    ensures RelocsOk(SecRelocs(relocs, secs, i), syms)
  {
    hide Home;
    if relocs != [] {
      var r, front := relocs[|relocs| - 1], relocs[..|relocs| - 1];
      if Home(secs, r.offset) == Some(i) {
        assert RelocOk(r, syms) && RelocOk(r.(offset := r.offset - secs[i].start), syms);
      }
      hide RelocOk;
      assert HomedOk(front, secs, syms);
      SecRelocsOk(front, secs, i, syms);
    }
  }

  lemma {:induction false} SecRelocsShift(relocs: seq<Reloc>, secs: seq<Slice>, i: nat)
    requires i < |secs|
    ensures Shifted(SecRelocs(relocs, secs, i), secs[i].start) == InSection(relocs, secs, i)
  {
    hide Home;
    if relocs != [] {
      var r, front := relocs[|relocs| - 1], relocs[..|relocs| - 1];
      SecRelocsShift(front, secs, i);
      if Home(secs, r.offset) == Some(i) {
        ShiftedAppend(SecRelocs(front, secs, i), r.(offset := r.offset - secs[i].start), secs[i].start);
      }
    }
  }

  lemma ShiftedAppend(rs: seq<Reloc>, r: Reloc, start: nat)
    ensures Shifted(rs + [r], start) == Shifted(rs, start) + [r.(offset := start + r.offset)]
  {
  }

  // --- all relocation sections ---

  /** The relocation section of text section `n - 1` names it in its info. */
  lemma RelaSec(obj: Object, slices: seq<Slice>, n: nat)
    requires Good(obj, slices) && 0 < n <= |slices| && SecRelocs(obj.relocs, slices, n - 1) != []
    ensures RelaCount(obj.relocs, slices, n - 1) < RelaCount(obj.relocs, slices, |slices|)
    ensures var s := AllSecs(obj, slices)[1 + |slices| + RelaCount(obj.relocs, slices, n - 1)];
      && s.h.kind == 4 && s.h.info == n && s.h.link == DataIndex(obj, slices) + 1 && s.h.entsize == 24
      && s.h.name == OffsetOf(ShStrTab(obj.relocs, slices), DOT_RELA + slices[n - 1].name)
      && s.content == EncodeRelas(SymIndex(Sorted(obj.symbols)), SecRelocs(obj.relocs, slices, n - 1))
  {
    hide AllSecs, Tiles, PlansFit, ShStrTab, Sorted, SymIndex, SecRelocs, Plans, EncodeRelas, OffsetOf, RelaCount;
    AllSize(obj, slices);
    PlanOfRela(obj, slices, n - 1);
    SecIs(obj, slices, 1 + |slices| + RelaCount(obj.relocs, slices, n - 1));
  }

  lemma {:induction false} NoRelocsYet(obj: Object, slices: seq<Slice>, syms: seq<Symbol>, k: nat)
    requires Good(obj, slices) && k <= 1 + |slices|
    ensures RelocsOf(AllSecs(obj, slices), DataIndex(obj, slices) + 1, syms, k) == []
  {
    hide AllSecs, Plans, Tiles, PlansFit, RelaCount, ReadRelas;
    if k > 0 {
      NoRelocsYet(obj, slices, syms, k - 1);
      SecKind(obj, slices, k - 1);
    }
  }

  lemma {:induction false} NoRelocsLeft(obj: Object, slices: seq<Slice>, syms: seq<Symbol>, k: nat)
    requires Good(obj, slices) && DataIndex(obj, slices) <= k <= |AllSecs(obj, slices)|
    ensures RelocsOf(AllSecs(obj, slices), DataIndex(obj, slices) + 1, syms, k) == RelocsOf(AllSecs(obj, slices), DataIndex(obj, slices) + 1, syms, DataIndex(obj, slices))
    decreases k
  {
    hide AllSecs, Plans, Tiles, PlansFit, RelaCount, ReadRelas, TailPlans;
    var d := DataIndex(obj, slices);
    if d < k {
      NoRelocsLeft(obj, slices, syms, k - 1);
      if k - 1 == d {
        SecKind(obj, slices, d);
      } else {
        LastSecs(obj, slices, k - 1 - d);
      }
    }
  }

  /** What the relocation sections of the first `n` text sections say. */
  lemma {:induction false} RelocsUpTo(obj: Object, slices: seq<Slice>, n: nat)
    requires Good(obj, slices) && n <= |slices|
    requires HomedOk(obj.relocs, slices, Sorted(obj.symbols)) && |Sorted(obj.symbols)| < TWO32
    ensures 1 + |slices| + RelaCount(obj.relocs, slices, n) <= |AllSecs(obj, slices)|
    ensures RelocsOf(AllSecs(obj, slices), DataIndex(obj, slices) + 1, Canons(Sorted(obj.symbols), |obj.text|), 1 + |slices| + RelaCount(obj.relocs, slices, n))
         == Grouped(obj.relocs, slices, n)
  {
    hide AllSecs, Good, Sorted, SecRelocs, InSection, HomedOk, RelocsOk, RelocsOf;
    RelaCountGrows(obj.relocs, slices, n, |slices|);
    if n == 0 {
      NoRelocsYet(obj, slices, Canons(Sorted(obj.symbols), |obj.text|), 1 + |slices|);
    } else {
      RelocsUpTo(obj, slices, n - 1);
      SecRelocsShift(obj.relocs, slices, n - 1);
      if SecRelocs(obj.relocs, slices, n - 1) != [] {
        RelocsStep(obj, slices, n);
      }
    }
  }

  lemma RelocsStep(obj: Object, slices: seq<Slice>, n: nat)
    requires Good(obj, slices) && 0 < n <= |slices| && SecRelocs(obj.relocs, slices, n - 1) != []
    requires HomedOk(obj.relocs, slices, Sorted(obj.symbols)) && |Sorted(obj.symbols)| < TWO32
    ensures var secs, syms, k := AllSecs(obj, slices), Canons(Sorted(obj.symbols), |obj.text|), 1 + |slices| + RelaCount(obj.relocs, slices, n - 1);
      k < |secs| && RelocsOf(secs, DataIndex(obj, slices) + 1, syms, k + 1) == RelocsOf(secs, DataIndex(obj, slices) + 1, syms, k) + InSection(obj.relocs, slices, n - 1)
  {
    hide AllSecs, Plans, Tiles, PlansFit, Sorted, SecRelocs, InSection, HomedOk, RelocsOk, EncodeRelas, RelaCount, SymIndex, TextOf, ReadRelas, ShStrTab;
    var rs, syms := SecRelocs(obj.relocs, slices, n - 1), Sorted(obj.symbols);
    RelaSec(obj, slices, n);
    SecRelocsOk(obj.relocs, slices, n - 1, syms);
    SecRelocsShift(obj.relocs, slices, n - 1);
    RelasBack(syms, rs, slices[n - 1].start, |rs|, |obj.text|);
    assert rs[..|rs|] == rs;
    TextUpTo(obj, slices, n - 1);
  }

  /** The relocations in the file, section by section. */
  lemma RelocsBack(obj: Object, slices: seq<Slice>)
    requires Good(obj, slices)
    requires HomedOk(obj.relocs, slices, Sorted(obj.symbols)) && |Sorted(obj.symbols)| < TWO32
    ensures var secs := AllSecs(obj, slices);
      RelocsOf(secs, DataIndex(obj, slices) + 1, Canons(Sorted(obj.symbols), |obj.text|), |secs|) == Grouped(obj.relocs, slices, |slices|)
  {
    hide AllSecs, Plans, Tiles, PlansFit, Sorted, HomedOk, RelocsOf, RelaCount, Grouped;
    RelocsUpTo(obj, slices, |slices|);
    NoRelocsLeft(obj, slices, Canons(Sorted(obj.symbols), |obj.text|), |AllSecs(obj, slices)|);
  }
}
