/** Relocatable object files: what goes in, how the text is split into sections,
    and the bytes of the ELF64 file. */
module ElfObject {
  import opened Words
  import opened Bytes

  type Name = seq<Byte>

  /** The type half of a symbol's info byte. */
  type SymKind = k: nat | k < 16

  /** The 32-bit number of a relocation type. */
  type RelKind = k: nat | k < 0x1_0000_0000

  datatype Bind = LocalBind | GlobalBind

  /** A symbol of the text (`inText`) or of the data. */
  datatype Symbol = Symbol(name: Name, bind: Bind, kind: SymKind, undefined: bool, inText: bool, value: nat, size: nat)

  /** A place in the text that names a symbol. */
  datatype Reloc = Reloc(offset: nat, symbol: Name, kind: RelKind, addend: Int64)

  datatype Object = Object(text: seq<Byte>, data: seq<Byte>, relocs: seq<Reloc>, symbols: seq<Symbol>)

  // --- symbols ---

  function WithBind(symbols: seq<Symbol>, b: Bind): (out: seq<Symbol>)
    ensures forall s :: s in out ==> s in symbols && s.bind == b
  {
    if symbols == [] then []
    else
      var rest := WithBind(symbols[..|symbols| - 1], b);
      if symbols[|symbols| - 1].bind == b then rest + [symbols[|symbols| - 1]] else rest
  }

  /** Locals first, then globals. */
  function Sorted(symbols: seq<Symbol>): (out: seq<Symbol>)
    ensures forall s :: s in out ==> s in symbols
  {
    WithBind(symbols, LocalBind) + WithBind(symbols, GlobalBind)
  }

  /** The first global's index in the symbol table, whose entry 0 is empty. */
  function FirstGlobal(symbols: seq<Symbol>): nat {
    |WithBind(symbols, LocalBind)| + 1
  }

  datatype TextSym = TextSym(value: nat, name: Name)

  /** The symbols that the text defines. */
  function TextSyms(syms: seq<Symbol>): seq<TextSym> {
    if syms == [] then []
    else
      var s := syms[|syms| - 1];
      TextSyms(syms[..|syms| - 1]) + if !s.undefined && s.inText then [TextSym(s.value, s.name)] else []
  }

  predicate ByValue(order: seq<TextSym>) {
    forall i, j :: 0 <= i < j < |order| ==> order[i].value <= order[j].value
  }

  /** An order that sorting may give: symbols at the same place come in any order. */
  predicate Orders(order: seq<TextSym>, symbols: seq<Symbol>) {
    ByValue(order) && multiset(order) == multiset(TextSyms(Sorted(symbols)))
  }

  // --- sections of the text ---

  /** A stretch of the text. */
  datatype Slice = Slice(name: Name, start: nat, size: nat)

  const DOT_TEXT: Name := [46, 116, 101, 120, 116]
  const DOT_DATA: Name := [46, 100, 97, 116, 97]
  const DOT_SYMTAB: Name := [46, 115, 121, 109, 116, 97, 98]
  const DOT_STRTAB: Name := [46, 115, 116, 114, 116, 97, 98]
  const DOT_SHSTRTAB: Name := [46, 115, 104, 115, 116, 114, 116, 97, 98]
  const DOT_RELA: Name := [46, 114, 101, 108, 97]

  function SliceEnd(order: seq<TextSym>, i: nat, textSize: nat): nat
    requires i < |order|
  {
    if i + 1 < |order| then order[i + 1].value else textSize
  }

  /** From each symbol to the next; symbols at the same place share one section. */
  function Slices(order: seq<TextSym>, n: nat, textSize: nat): seq<Slice>
    requires n <= |order|
  {
    if n == 0 then []
    else
      var start, end := order[n - 1].value, SliceEnd(order, n - 1, textSize);
      Slices(order, n - 1, textSize)
      + if end > start then [Slice(DOT_TEXT + [46] + order[n - 1].name, start, end - start)] else []
  }

  /** All text sections: what is in front of the first symbol, the slices, or the
      whole text if no symbol is defined in it. */
  function Sections(order: seq<TextSym>, textSize: nat): seq<Slice> {
    var slices := Slices(order, |order|, textSize);
    var all := (if slices != [] && slices[0].start > 0 then [Slice(DOT_TEXT, 0, slices[0].start)] else []) + slices;
    if all == [] && textSize > 0 then [Slice(DOT_TEXT, 0, textSize)] else all
  }

  predicate Inside(offset: nat, s: Slice) {
    s.start <= offset < s.start + s.size
  }

  /** The first section an offset lies in. */
  function Home(secs: seq<Slice>, offset: nat): (r: Option<nat>)
    ensures r.Some? ==> r.value < |secs| && Inside(offset, secs[r.value])
    ensures r.Some? ==> forall i :: 0 <= i < r.value ==> !Inside(offset, secs[i])
    ensures r.None? ==> forall i :: 0 <= i < |secs| ==> !Inside(offset, secs[i])
  {
    if secs == [] then None
    else
      match Home(secs[..|secs| - 1], offset)
      case Some(i) => Some(i)
      case None => if Inside(offset, secs[|secs| - 1]) then Some(|secs| - 1) else None
  }

  /** The relocations of section `i`, in order, relative to its start. */
  function SecRelocs(relocs: seq<Reloc>, secs: seq<Slice>, i: nat): seq<Reloc>
    requires i < |secs|
  {
    if relocs == [] then []
    else
      var r := relocs[|relocs| - 1];
      SecRelocs(relocs[..|relocs| - 1], secs, i)
      + if Home(secs, r.offset) == Some(i) then [r.(offset := r.offset - secs[i].start)] else []
  }

  // --- string tables ---

  datatype Strings = Strings(bytes: seq<Byte>, offsets: map<Name, nat>)

  function NoStrings(): Strings {
    Strings([0], map[])
  }

  function AddName(t: Strings, name: Name): Strings {
    if name in t.offsets then t
    else Strings(t.bytes + name + [0], t.offsets[name := |t.bytes|])
  }

  function AddNames(t: Strings, names: seq<Name>): Strings {
    if names == [] then t else AddName(AddNames(t, names[..|names| - 1]), names[|names| - 1])
  }

  function SymNames(syms: seq<Symbol>): (out: seq<Name>)
    ensures |out| == |syms| && forall i :: 0 <= i < |syms| ==> out[i] == syms[i].name
  {
    seq(|syms|, i requires 0 <= i < |syms| => syms[i].name)
  }

  function SliceNames(secs: seq<Slice>): (out: seq<Name>)
    ensures |out| == |secs| && forall i :: 0 <= i < |secs| ==> out[i] == secs[i].name
  {
    seq(|secs|, i requires 0 <= i < |secs| => secs[i].name)
  }

  /** The names of the relocation sections of the first `n` text sections. */
  function RelaNames(relocs: seq<Reloc>, secs: seq<Slice>, n: nat): seq<Name>
    requires n <= |secs|
  {
    if n == 0 then []
    else
      RelaNames(relocs, secs, n - 1)
      + if SecRelocs(relocs, secs, n - 1) != [] then [DOT_RELA + secs[n - 1].name] else []
  }

  function StrTab(syms: seq<Symbol>): Strings {
    AddNames(NoStrings(), SymNames(syms))
  }

  function FixedNames(): seq<Name> {
    [DOT_TEXT, DOT_DATA, DOT_SYMTAB, DOT_STRTAB, DOT_SHSTRTAB]
  }

  function ShStrTab(relocs: seq<Reloc>, secs: seq<Slice>): Strings {
    AddNames(NoStrings(), FixedNames() + SliceNames(secs) + RelaNames(relocs, secs, |secs|))
  }

  function OffsetOf(t: Strings, name: Name): nat {
    if name in t.offsets then t.offsets[name] else 0
  }

  // --- entries ---

  /** Section header fields, in file order. */
  datatype Shdr = Shdr(name: nat, kind: nat, flags: nat, addr: nat, offset: nat, size: nat,
                       link: nat, info: nat, align: nat, entsize: nat)

  function EncodeShdr(h: Shdr): (s: seq<Byte>)
    ensures |s| == 64
  {
    LittleEndian(4, h.name) + LittleEndian(4, h.kind) + LittleEndian(8, h.flags) + LittleEndian(8, h.addr)
    + LittleEndian(8, h.offset) + LittleEndian(8, h.size) + LittleEndian(4, h.link) + LittleEndian(4, h.info)
    + LittleEndian(8, h.align) + LittleEndian(8, h.entsize)
  }

  /** The number of the last symbol with each name. */
  function SymIndex(syms: seq<Symbol>): map<Name, nat> {
    if syms == [] then map[]
    else SymIndex(syms[..|syms| - 1])[syms[|syms| - 1].name := |syms|]
  }

  function IndexIn(index: map<Name, nat>, name: Name): nat {
    if name in index then index[name] else 0
  }

  function EncodeRela(index: map<Name, nat>, r: Reloc): (s: seq<Byte>)
    ensures |s| == 24
  {
    LittleEndian(8, r.offset)
    + LittleEndian(8, IndexIn(index, r.symbol) * TWO32 + r.kind)
    + LittleEndian(8, Unsigned(r.addend))
  }

  function EncodeRelas(index: map<Name, nat>, relocs: seq<Reloc>): (s: seq<Byte>)
    ensures |s| == 24 * |relocs|
  {
    if relocs == [] then []
    else EncodeRelas(index, relocs[..|relocs| - 1]) + EncodeRela(index, relocs[|relocs| - 1])
  }

  /** The section index and the value a symbol gets. */
  function SectionOf(s: Symbol, secs: seq<Slice>, dataIndex: nat): nat {
    if s.undefined then 0
    else if s.inText then (match Home(secs, s.value) case Some(i) => 1 + i case None => 1)
    else dataIndex
  }

  function ValueIn(s: Symbol, secs: seq<Slice>): nat {
    if s.undefined then 0
    else if s.inText then (match Home(secs, s.value) case Some(i) => s.value - secs[i].start case None => s.value)
    else s.value
  }

  function BindCode(b: Bind): (c: nat)
    ensures c <= 1
  {
    if b == LocalBind then 0 else 1
  }

  function EncodeSym(strtab: Strings, secs: seq<Slice>, dataIndex: nat, s: Symbol): (out: seq<Byte>)
    ensures |out| == 24
  {
    LittleEndian(4, OffsetOf(strtab, s.name)) + LittleEndian(1, BindCode(s.bind) * 16 + s.kind) + LittleEndian(1, 0)
    + LittleEndian(2, SectionOf(s, secs, dataIndex)) + LittleEndian(8, ValueIn(s, secs)) + LittleEndian(8, s.size)
  }

  function Zeros(n: nat): (s: seq<Byte>)
    ensures |s| == n && forall i :: 0 <= i < n ==> s[i] == 0
  {
    seq(n, _ => 0)
  }

  /** The empty entry 0 and one entry a symbol. */
  function EncodeSyms(strtab: Strings, secs: seq<Slice>, dataIndex: nat, syms: seq<Symbol>): (out: seq<Byte>)
    ensures |out| == 24 * (1 + |syms|)
  {
    if syms == [] then Zeros(24)
    else EncodeSyms(strtab, secs, dataIndex, syms[..|syms| - 1]) + EncodeSym(strtab, secs, dataIndex, syms[|syms| - 1])
  }

  // --- the plan of the file ---

  /** A section: its header without the offset, the alignment it is placed with,
      and its content. */
  datatype Plan = Plan(name: nat, kind: nat, flags: nat, place: nat, content: seq<Byte>,
                       link: nat, info: nat, align: nat, entsize: nat)

  function AlignTo(n: nat, a: nat): (m: nat)
    requires a > 0
    ensures n <= m
  {
    n + (a - n % a) % a
  }

  predicate Placeable(plans: seq<Plan>) {
    forall k :: 0 <= k < |plans| ==> plans[k].place > 0
  }

  /** Where the first `k` sections end, behind the 64 bytes of the file header. */
  function EndOf(plans: seq<Plan>, k: nat): (n: nat)
    requires k <= |plans| && Placeable(plans)
    ensures n >= 64
  {
    if k == 0 then 64 else AlignTo(EndOf(plans, k - 1), plans[k - 1].place) + |plans[k - 1].content|
  }

  function StartOf(plans: seq<Plan>, k: nat): nat
    requires k < |plans| && Placeable(plans)
  {
    AlignTo(EndOf(plans, k), plans[k].place)
  }

  function PadTo(b: seq<Byte>, n: nat): (s: seq<Byte>)
    ensures |s| == if |b| < n then n else |b|
    ensures b <= s
  {
    if |b| < n then b + Zeros(n - |b|) else b
  }

  function Fill(front: seq<Byte>, plans: seq<Plan>, k: nat): (s: seq<Byte>)
    requires |front| == 64 && k <= |plans| && Placeable(plans)
    ensures |s| == EndOf(plans, k)
  {
    if k == 0 then front else PadTo(Fill(front, plans, k - 1), StartOf(plans, k - 1)) + plans[k - 1].content
  }

  function HeaderOf(p: Plan, offset: nat): Shdr {
    Shdr(p.name, p.kind, p.flags, 0, offset, |p.content|, p.link, p.info, p.align, p.entsize)
  }

  function NullHeader(): Shdr {
    Shdr(0, 0, 0, 0, 0, 0, 0, 0, 0, 0)
  }

  /** The section headers: an empty one, then one a section. */
  function Headers(plans: seq<Plan>, k: nat): (s: seq<Byte>)
    requires k <= |plans| && Placeable(plans)
    ensures |s| == 64 * (k + 1)
  {
    if k == 0 then EncodeShdr(NullHeader())
    else Headers(plans, k - 1) + EncodeShdr(HeaderOf(plans[k - 1], StartOf(plans, k - 1)))
  }

  /** The file header of a relocatable file. */
  function FileHeader(machine: nat, shoff: nat, count: nat, names: nat): (s: seq<Byte>)
    ensures |s| == 64
  {
    [0x7F, 0x45, 0x4C, 0x46, 2, 1, 1, 0, 0] + Zeros(7)
    + LittleEndian(2, 1) + LittleEndian(2, machine) + LittleEndian(4, 1) + LittleEndian(8, 0) + LittleEndian(8, 0)
    + LittleEndian(8, shoff) + LittleEndian(4, 0) + LittleEndian(2, 64) + LittleEndian(2, 0) + LittleEndian(2, 0)
    + LittleEndian(2, 64) + LittleEndian(2, count) + LittleEndian(2, names)
  }

  /** The whole file: header, sections, section headers. The last section holds
      the names of the sections. */
  function FileOf(machine: nat, plans: seq<Plan>): seq<Byte>
    requires Placeable(plans)
  {
    var shoff := AlignTo(EndOf(plans, |plans|), 8);
    PadTo(Fill(FileHeader(machine, shoff, |plans| + 1, |plans|), plans, |plans|), shoff) + Headers(plans, |plans|)
  }

  // --- the sections of an object ---

  function TextPlan(names: Strings, text: seq<Byte>, s: Slice): Plan
    requires s.start + s.size <= |text|
  {
    Plan(OffsetOf(names, s.name), 1, 6, 16, text[s.start..s.start + s.size], 0, 0, 16, 0)
  }

  predicate SlicesIn(secs: seq<Slice>, text: seq<Byte>) {
    forall i :: 0 <= i < |secs| ==> secs[i].start + secs[i].size <= |text|
  }

  function TextPlans(names: Strings, text: seq<Byte>, secs: seq<Slice>): (out: seq<Plan>)
    requires SlicesIn(secs, text)
    ensures |out| == |secs| && forall i :: 0 <= i < |secs| ==> out[i] == TextPlan(names, text, secs[i])
  {
    seq(|secs|, i requires 0 <= i < |secs| => TextPlan(names, text, secs[i]))
  }

  /** The relocation sections of the first `n` text sections. */
  function RelaPlans(names: Strings, relocs: seq<Reloc>, secs: seq<Slice>, index: map<Name, nat>, symtab: nat, n: nat): seq<Plan>
    requires n <= |secs|
  {
    if n == 0 then []
    else
      var rs := SecRelocs(relocs, secs, n - 1);
      RelaPlans(names, relocs, secs, index, symtab, n - 1)
      + if rs != [] then
          [Plan(OffsetOf(names, DOT_RELA + secs[n - 1].name), 4, 0, 16, EncodeRelas(index, rs), symtab, n, 8, 24)]
        else []
  }

  /** How many of the first `n` text sections have relocations. */
  function RelaCount(relocs: seq<Reloc>, secs: seq<Slice>, n: nat): nat
    requires n <= |secs|
  {
    if n == 0 then 0 else RelaCount(relocs, secs, n - 1) + if SecRelocs(relocs, secs, n - 1) != [] then 1 else 0
  }

  function DataIndex(obj: Object, secs: seq<Slice>): nat {
    |secs| + RelaCount(obj.relocs, secs, |secs|) + 1
  }

  /** The last four sections. */
  function TailPlans(obj: Object, secs: seq<Slice>): (out: seq<Plan>)
    ensures |out| == 4
  {
    var syms := Sorted(obj.symbols);
    var strtab, names := StrTab(syms), ShStrTab(obj.relocs, secs);
    var data := DataIndex(obj, secs);
    [Plan(OffsetOf(names, DOT_DATA), 1, 3, 8, obj.data, 0, 0, 8, 0),
     Plan(OffsetOf(names, DOT_SYMTAB), 2, 0, 8, EncodeSyms(strtab, secs, data, syms), data + 2, FirstGlobal(obj.symbols), 8, 24),
     Plan(OffsetOf(names, DOT_STRTAB), 3, 0, 1, strtab.bytes, 0, 0, 1, 0),
     Plan(OffsetOf(names, DOT_SHSTRTAB), 3, 0, 1, names.bytes, 0, 0, 1, 0)]
  }

  function Plans(obj: Object, secs: seq<Slice>): seq<Plan>
    requires SlicesIn(secs, obj.text)
  {
    var names := ShStrTab(obj.relocs, secs);
    TextPlans(names, obj.text, secs)
    + RelaPlans(names, obj.relocs, secs, SymIndex(Sorted(obj.symbols)), DataIndex(obj, secs) + 1, |secs|)
    + TailPlans(obj, secs)
  }

  lemma PlansPlaceable(obj: Object, secs: seq<Slice>)
    requires SlicesIn(secs, obj.text)
    ensures Placeable(Plans(obj, secs))
  {
    hide RelaPlans, EncodeSyms, ShStrTab, StrTab, Sorted, DataIndex, SymIndex, OffsetOf, FirstGlobal;
    RelasPlaceable(ShStrTab(obj.relocs, secs), obj.relocs, secs, SymIndex(Sorted(obj.symbols)), DataIndex(obj, secs) + 1, |secs|);
  }

  lemma {:induction false} RelasPlaceable(names: Strings, relocs: seq<Reloc>, secs: seq<Slice>, index: map<Name, nat>,
                                          symtab: nat, n: nat)
    requires n <= |secs|
    ensures Placeable(RelaPlans(names, relocs, secs, index, symtab, n))
    ensures |RelaPlans(names, relocs, secs, index, symtab, n)| == RelaCount(relocs, secs, n)
  {
    hide SecRelocs, EncodeRelas;
    if n > 0 {
      RelasPlaceable(names, relocs, secs, index, symtab, n - 1);
    }
  }

  /** `write`: the bytes of the file, for text symbols in the given order. */
  function ElfBytes(obj: Object, machine: nat, order: seq<TextSym>): seq<Byte>
    requires SlicesIn(Sections(order, |obj.text|), obj.text)
  {
    var secs := Sections(order, |obj.text|);
    PlansPlaceable(obj, secs);
    FileOf(machine, Plans(obj, secs))
  }

  // --- the sections tile the text ---

  /** The sections follow each other from `from` to `to`, none of them empty. */
  predicate Tiles(secs: seq<Slice>, from: nat, to: nat) {
    if secs == [] then from == to
    else
      var last := secs[|secs| - 1];
      last.size > 0 && last.start + last.size == to && Tiles(secs[..|secs| - 1], from, last.start)
  }

  predicate ValuesWithin(order: seq<TextSym>, textSize: nat) {
    forall i :: 0 <= i < |order| ==> order[i].value <= textSize
  }

  /** The slices of the first `n` symbols run from the first symbol on. */
  lemma {:induction false} SlicesTile(order: seq<TextSym>, n: nat, textSize: nat)
    requires 0 < n <= |order| && ByValue(order) && ValuesWithin(order, textSize)
    ensures Tiles(Slices(order, n, textSize), order[0].value, SliceEnd(order, n - 1, textSize))
  {
    if n > 1 {
      SlicesTile(order, n - 1, textSize);
    } else {
      assert Slices(order, 0, textSize) == [];
    }
    var before, all := Slices(order, n - 1, textSize), Slices(order, n, textSize);
    if |all| > |before| {
      assert all[..|all| - 1] == before;
    } else {
      assert all == before;
    }
  }

  lemma {:induction false} TilesFrom(secs: seq<Slice>, from: nat, to: nat)
    requires Tiles(secs, from, to) && secs != []
    ensures secs[0].start == from
  {
    if |secs| > 1 {
      TilesFrom(secs[..|secs| - 1], from, secs[|secs| - 1].start);
    }
  }

  lemma {:induction false} TilesFront(first: Slice, secs: seq<Slice>, from: nat, to: nat)
    requires Tiles(secs, first.start + first.size, to) && first.size > 0 && first.start == from
    ensures Tiles([first] + secs, from, to)
  {
    var all := [first] + secs;
    if secs == [] {
      assert all[..0] == [] && Tiles([], from, from);
    } else {
      assert all[..|all| - 1] == [first] + secs[..|secs| - 1];
      TilesFront(first, secs[..|secs| - 1], from, secs[|secs| - 1].start);
    }
  }

  lemma {:induction false} TilesOrder(secs: seq<Slice>, from: nat, to: nat)
    requires Tiles(secs, from, to)
    ensures from <= to && (secs != [] ==> from < to)
    ensures forall i :: 0 <= i < |secs| ==> from <= secs[i].start && secs[i].size > 0 && secs[i].start + secs[i].size <= to
  {
    if secs != [] {
      TilesOrder(secs[..|secs| - 1], from, secs[|secs| - 1].start);
    }
  }

  /** The text sections tile the text exactly, whatever the symbols are. */
  lemma SectionsTile(order: seq<TextSym>, textSize: nat)
    requires ByValue(order) && ValuesWithin(order, textSize)
    ensures Tiles(Sections(order, textSize), 0, textSize)
  {
    hide Slices, Tiles, ByValue, ValuesWithin, DOT_TEXT;
    WholeTiles(textSize);
    var slices := Slices(order, |order|, textSize);
    if order == [] {
      NoSlices(order, textSize);
    } else {
      SlicesTile(order, |order|, textSize);
      TilesOrder(slices, order[0].value, textSize);
      if order[0].value < textSize {
        FrontTiles(slices, order[0].value, textSize);
      }
    }
  }

  lemma NoSlices(order: seq<TextSym>, textSize: nat)
    ensures Slices(order, 0, textSize) == []
  {
  }

  /** The text as one section, if there is any. */
  lemma WholeTiles(textSize: nat)
    ensures Tiles(if textSize > 0 then [Slice(DOT_TEXT, 0, textSize)] else [], 0, textSize)
  {
    hide DOT_TEXT;
    if textSize > 0 {
      var whole := Slice(DOT_TEXT, 0, textSize);
      assert [whole][..0] == [] && Tiles([], 0, 0);
    }
  }

  /** The text in front of the first slice is a section of its own. */
  lemma FrontTiles(slices: seq<Slice>, from: nat, to: nat)
    requires Tiles(slices, from, to) && from < to
    ensures slices != [] && slices[0].start == from
    ensures var all := (if slices[0].start > 0 then [Slice(DOT_TEXT, 0, slices[0].start)] else []) + slices;
      all != [] && Tiles(all, 0, to)
  {
    hide DOT_TEXT;
    TilesFrom(slices, from, to);
    if from > 0 {
      TilesFront(Slice(DOT_TEXT, 0, from), slices, 0, to);
    } else {
      assert [] + slices == slices;
    }
  }
}
