/** Reading an ELF64 relocatable file: file header, section headers, string
    table, symbol table and relocations, as chapter 4 of the System V gABI
    describes them. */
module ElfReader {
  import opened Words
  import opened Bytes
  import opened ElfObject

  // --- fixed-width fields ---

  function Total(ws: seq<nat>): nat {
    if ws == [] then 0 else ws[0] + Total(ws[1..])
  }

  /** Little-endian numbers of the given widths. */
  function Fields(ws: seq<nat>, b: seq<Byte>): (vs: seq<nat>)
    requires Total(ws) <= |b|
    ensures |vs| == |ws|
    decreases |ws|
  {
    if ws == [] then [] else [FromBytes(b[..ws[0]])] + Fields(ws[1..], b[ws[0]..])
  }

  const HEADER_FIELDS: seq<nat> := [2, 2, 4, 8, 8, 8, 4, 2, 2, 2, 2, 2, 2]
  const SHDR_FIELDS: seq<nat> := [4, 4, 8, 8, 8, 8, 4, 4, 8, 8]
  const SYM_FIELDS: seq<nat> := [4, 1, 1, 2, 8, 8]
  const RELA_FIELDS: seq<nat> := [8, 8, 8]

  lemma FieldSizes()
    ensures |HEADER_FIELDS| == 13 && Total(HEADER_FIELDS) == 48
    ensures |SHDR_FIELDS| == 10 && Total(SHDR_FIELDS) == 64
    ensures |SYM_FIELDS| == 6 && Total(SYM_FIELDS) == 24
    ensures |RELA_FIELDS| == 3 && Total(RELA_FIELDS) == 24
  {
    hide Total;
    TotalAppend([2, 2, 4], [8, 8, 8] + ([4, 2, 2] + ([2, 2, 2] + [2])));
    TotalAppend([8, 8, 8], [4, 2, 2] + ([2, 2, 2] + [2]));
    TotalAppend([4, 2, 2], [2, 2, 2] + [2]);
    TotalAppend([2, 2, 2], [2]);
    TotalAppend([4, 4, 8], [8, 8, 8] + ([4, 4, 8] + [8]));
    TotalAppend([8, 8, 8], [4, 4, 8] + [8]);
    TotalAppend([4, 4, 8], [8]);
    TotalAppend([4, 1, 1], [2, 8, 8]);
    TotalThree(2, 2, 4);
    TotalThree(8, 8, 8);
    TotalThree(4, 2, 2);
    TotalThree(2, 2, 2);
    TotalThree(4, 4, 8);
    TotalThree(4, 1, 1);
    TotalThree(2, 8, 8);
    assert HEADER_FIELDS == [2, 2, 4] + ([8, 8, 8] + ([4, 2, 2] + ([2, 2, 2] + [2])));
    assert SHDR_FIELDS == [4, 4, 8] + ([8, 8, 8] + ([4, 4, 8] + [8]));
    assert SYM_FIELDS == [4, 1, 1] + [2, 8, 8];
  }

  lemma TotalThree(a: nat, b: nat, c: nat)
    ensures Total([a, b, c]) == a + b + c && Total([a]) == a
  {
    assert [a, b, c][1..] == [b, c] && [b, c][1..] == [c] && [c][1..] == [] && [a][1..] == [];
    assert Total([c]) == c && Total([b, c]) == b + c;
  }

  lemma {:induction false} TotalAppend(a: seq<nat>, b: seq<nat>)
    ensures Total(a + b) == Total(a) + Total(b)
  {
    if a == [] {
      assert a + b == b;
    } else {
      assert (a + b)[0] == a[0] && (a + b)[1..] == a[1..] + b;
      TotalAppend(a[1..], b);
    }
  }

  // --- sections ---

  datatype Sec = Sec(h: Shdr, content: seq<Byte>)

  function ReadShdr(b: seq<Byte>, at: nat): Shdr
    requires at + 64 <= |b|
  {
    FieldSizes();
    var f := Fields(SHDR_FIELDS, b[at..at + 64]);
    Shdr(f[0], f[1], f[2], f[3], f[4], f[5], f[6], f[7], f[8], f[9])
  }

  /** The first `n` sections, unless one lies outside the file. */
  function ReadSecs(b: seq<Byte>, shoff: nat, n: nat): Option<seq<Sec>>
    requires shoff + 64 * n <= |b|
  {
    if n == 0 then Some([])
    else
      match ReadSecs(b, shoff, n - 1)
      case None => None
      case Some(secs) =>
        var h := ReadShdr(b, shoff + 64 * (n - 1));
        if h.offset + h.size <= |b| then Some(secs + [Sec(h, b[h.offset..h.offset + h.size])]) else None
  }

  /** The fields of the file header behind its identification. */
  function HeaderFields(b: seq<Byte>): (f: seq<nat>)
    requires |b| >= 64
    ensures |f| == 13
  {
    FieldSizes();
    Fields(HEADER_FIELDS, b[16..64])
  }

  /** The sections of a 64-bit little-endian relocatable file. */
  function Load(b: seq<Byte>, machine: nat): (r: Option<seq<Sec>>)
    ensures r.Some? ==> |b| >= 64
  {
    if |b| < 64 || b[..7] != [0x7F, 0x45, 0x4C, 0x46, 2, 1, 1] then None
    else
      var f := HeaderFields(b);
      if f[0] == 1 && f[1] == machine && f[2] == 1 && f[7] == 64 && f[10] == 64 && f[12] < f[11] && f[5] + 64 * f[11] <= |b|
      then ReadSecs(b, f[5], f[11]) else None
  }

  /** The name of section `k`, from the string table that the file header names. */
  function SectionName(b: seq<Byte>, machine: nat, k: nat): Option<Name> {
    match Load(b, machine)
    case None => None
    case Some(secs) =>
      var names := HeaderFields(b)[12];
      if names < |secs| && k < |secs| then Some(NameAt(secs[names].content, secs[k].h.name)) else None
  }

  // --- what the sections mean ---

  predicate Executable(s: Sec) {
    s.h.kind == 1 && s.h.flags == 6
  }

  /** The text sections among the first `n`, put together. */
  function TextOf(secs: seq<Sec>, n: nat): seq<Byte>
    requires n <= |secs|
  {
    if n == 0 then [] else TextOf(secs, n - 1) + if Executable(secs[n - 1]) then secs[n - 1].content else []
  }

  function FindSec(secs: seq<Sec>, kind: nat, flags: nat, from: nat): (r: Option<nat>)
    requires from <= |secs|
    ensures r.Some? ==> from <= r.value < |secs| && secs[r.value].h.kind == kind && secs[r.value].h.flags == flags
    decreases |secs| - from
  {
    if from == |secs| then None
    else if secs[from].h.kind == kind && secs[from].h.flags == flags then Some(from)
    else FindSec(secs, kind, flags, from + 1)
  }

  /** The bytes from `at` up to a NUL. */
  function NameAt(b: seq<Byte>, at: nat): Name
    decreases |b| - at
  {
    if at >= |b| || b[at] == 0 then [] else [b[at]] + NameAt(b, at + 1)
  }

  /** Where section `k` begins in the text. */
  function StartOfSec(secs: seq<Sec>, k: nat): nat {
    if k <= |secs| then |TextOf(secs, k)| else 0
  }

  /** The fields of a symbol: name, info, other, section, value, size. */
  function SymFields(e: seq<Byte>): (f: seq<nat>)
    requires |e| == 24
    ensures |f| == 6
  {
    FieldSizes();
    Fields(SYM_FIELDS, e)
  }

  /** A symbol; the value of one in the text counts from the start of the text. */
  function ReadSym(e: seq<Byte>, strtab: seq<Byte>, secs: seq<Sec>): Symbol
    requires |e| == 24
  {
    var f := SymFields(e);
    var inText := f[3] < |secs| && Executable(secs[f[3]]);
    Symbol(NameAt(strtab, f[0]), if f[1] / 16 == 0 then LocalBind else GlobalBind, f[1] % 16, f[3] == 0, inText,
           if inText then StartOfSec(secs, f[3]) + f[4] else f[4], f[5])
  }

  /** The first `n` symbols behind the empty one. */
  function ReadSyms(content: seq<Byte>, strtab: seq<Byte>, secs: seq<Sec>, n: nat): (out: seq<Symbol>)
    requires 24 * (n + 1) <= |content|
    ensures |out| == n
  {
    if n == 0 then []
    else ReadSyms(content, strtab, secs, n - 1) + [ReadSym(content[24 * n..24 * (n + 1)], strtab, secs)]
  }

  /** The fields of a relocation: offset, info, addend. */
  function RelaFields(e: seq<Byte>): (f: seq<nat>)
    requires |e| == 24
    ensures |f| == 3
  {
    FieldSizes();
    Fields(RELA_FIELDS, e)
  }

  /** A relocation of a section that starts at `start`. */
  function ReadRela(e: seq<Byte>, start: nat, syms: seq<Symbol>): Reloc
    requires |e| == 24
  {
    var f := RelaFields(e);
    var j := f[1] / TWO32;
    Reloc(start + f[0], if 1 <= j <= |syms| then syms[j - 1].name else [], f[1] % TWO32,
          if f[2] < TWO64 then Signed(f[2]) else 0)
  }

  function ReadRelas(content: seq<Byte>, start: nat, syms: seq<Symbol>, n: nat): seq<Reloc>
    requires 24 * n <= |content|
  {
    if n == 0 then []
    else ReadRelas(content, start, syms, n - 1) + [ReadRela(content[24 * (n - 1)..24 * n], start, syms)]
  }

  /** Relocations with addends, for the symbol table `t`. */
  predicate IsRela(s: Sec, t: nat) {
    s.h.kind == 4 && s.h.entsize == 24 && s.h.link == t
  }

  /** The relocations of the first `n` sections. */
  function RelocsOf(secs: seq<Sec>, t: nat, syms: seq<Symbol>, n: nat): seq<Reloc>
    requires n <= |secs|
  {
    if n == 0 then []
    else
      var s := secs[n - 1];
      RelocsOf(secs, t, syms, n - 1)
      + if IsRela(s, t) then
          ReadRelas(s.content, StartOfSec(secs, s.h.info), syms, |s.content| / 24)
        else []
  }

  /** The object, and the index of the first global symbol. */
  datatype Found = Found(obj: Object, firstGlobal: nat)

  function Interpret(secs: seq<Sec>): Option<Found> {
    match FindSec(secs, 1, 3, 0)
    case None => None
    case Some(d) =>
      match FindSec(secs, 2, 0, 0)
      case None => None
      case Some(t) =>
        var table := secs[t];
        if table.h.link >= |secs| || table.h.entsize != 24 || |table.content| < 24 then None
        else
          var syms := ReadSyms(table.content, secs[table.h.link].content, secs, |table.content| / 24 - 1);
          Some(Found(Object(TextOf(secs, |secs|), secs[d].content, RelocsOf(secs, t, syms, |secs|), syms), table.h.info))
  }

  function Read(b: seq<Byte>, machine: nat): Option<Found> {
    match Load(b, machine)
    case None => None
    case Some(secs) => Interpret(secs)
  }
}
