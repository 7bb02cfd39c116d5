/** Reading the written file recovers the object. */
module ElfReadBack {
  import opened Words
  import opened Bytes
  import opened ElfObject
  import opened ElfReader

  // --- fields ---

  /** The bytes of numbers of the given widths. */
  function Written(ws: seq<nat>, vs: seq<nat>): (s: seq<Byte>)
    requires |ws| == |vs|
    ensures |s| == Total(ws)
  {
    if ws == [] then [] else LittleEndian(ws[0], vs[0]) + Written(ws[1..], vs[1..])
  }

  predicate Fit(ws: seq<nat>, vs: seq<nat>)
    requires |ws| == |vs|
  {
    forall i :: 0 <= i < |ws| ==> vs[i] < Pow256(ws[i])
  }

  lemma {:induction false} FieldsBack(ws: seq<nat>, vs: seq<nat>)
    requires |ws| == |vs| && Fit(ws, vs)
    ensures Fields(ws, Written(ws, vs)) == vs
  {
    hide LittleEndian, FromBytes, Pow256;
    if ws != [] {
      var b := Written(ws, vs);
      assert b[..ws[0]] == LittleEndian(ws[0], vs[0]) && b[ws[0]..] == Written(ws[1..], vs[1..]);
      BytesBack(ws[0], vs[0]);
      FieldsBack(ws[1..], vs[1..]);
    }
  }

  lemma WrittenFirst(w: nat, v: nat, ws: seq<nat>, vs: seq<nat>)
    requires |ws| == |vs|
    ensures Written([w] + ws, [v] + vs) == LittleEndian(w, v) + Written(ws, vs)
  {
    assert ([w] + ws)[1..] == ws && ([v] + vs)[1..] == vs;
  }

  lemma {:induction false} WrittenAppend(a: seq<nat>, x: seq<nat>, b: seq<nat>, y: seq<nat>)
    requires |a| == |x| && |b| == |y|
    ensures Written(a + b, x + y) == Written(a, x) + Written(b, y)
  {
    hide LittleEndian;
    if a == [] {
      assert a + b == b && x + y == y;
    } else {
      hide Written;
      WrittenAppend(a[1..], x[1..], b, y);
      assert a + b == [a[0]] + (a[1..] + b) && x + y == [x[0]] + (x[1..] + y);
      WrittenFirst(a[0], x[0], a[1..] + b, x[1..] + y);
      assert [a[0]] + a[1..] == a && [x[0]] + x[1..] == x;
      WrittenFirst(a[0], x[0], a[1..], x[1..]);
    }
  }

  lemma WrittenTriple(a: nat, b: nat, c: nat, x: nat, y: nat, z: nat)
    ensures Written([a, b, c], [x, y, z]) == LittleEndian(a, x) + LittleEndian(b, y) + LittleEndian(c, z)
  {
    hide LittleEndian, Written;
    WrittenLast(a, x);
    WrittenLast(b, y);
    WrittenLast(c, z);
    WrittenAppend([a], [x], [b], [y]);
    WrittenAppend([a] + [b], [x] + [y], [c], [z]);
    assert [a] + [b] + [c] == [a, b, c] && [x] + [y] + [z] == [x, y, z];
  }

  /** Three fields in front of others. */
  lemma WrittenThree(a: nat, b: nat, c: nat, x: nat, y: nat, z: nat, ws: seq<nat>, vs: seq<nat>)
    requires |ws| == |vs|
    ensures Written([a, b, c] + ws, [x, y, z] + vs)
         == LittleEndian(a, x) + LittleEndian(b, y) + LittleEndian(c, z) + Written(ws, vs)
  {
    hide LittleEndian, Written;
    WrittenAppend([a, b, c], [x, y, z], ws, vs);
    WrittenTriple(a, b, c, x, y, z);
  }

  lemma WrittenLast(w: nat, v: nat)
    ensures Written([w], [v]) == LittleEndian(w, v)
  {
    assert [w][1..] == [] && [v][1..] == [];
  }

  function ShdrValues(h: Shdr): seq<nat> {
    [h.name, h.kind, h.flags, h.addr, h.offset, h.size, h.link, h.info, h.align, h.entsize]
  }

  function ShdrParts(h: Shdr): seq<Byte> {
    (LittleEndian(4, h.name) + LittleEndian(4, h.kind) + LittleEndian(8, h.flags))
    + ((LittleEndian(8, h.addr) + LittleEndian(8, h.offset) + LittleEndian(8, h.size))
       + ((LittleEndian(4, h.link) + LittleEndian(4, h.info) + LittleEndian(8, h.align)) + LittleEndian(8, h.entsize)))
  }

  lemma ShdrSplit(h: Shdr)
    ensures EncodeShdr(h) == ShdrParts(h)
  {
    hide LittleEndian;
  }

  lemma ShdrWritten(h: Shdr)
    ensures |SHDR_FIELDS| == 10 && EncodeShdr(h) == Written(SHDR_FIELDS, ShdrValues(h))
  {
    hide LittleEndian, Written, EncodeShdr, ShdrValues;
    WrittenLast(8, h.entsize);
    WrittenThree(4, 4, 8, h.link, h.info, h.align, [8], [h.entsize]);
    WrittenThree(8, 8, 8, h.addr, h.offset, h.size, [4, 4, 8] + [8], [h.link, h.info, h.align] + [h.entsize]);
    WrittenThree(4, 4, 8, h.name, h.kind, h.flags, [8, 8, 8] + ([4, 4, 8] + [8]),
                 [h.addr, h.offset, h.size] + ([h.link, h.info, h.align] + [h.entsize]));
    ShdrWidths();
    ShdrSplit(h);
    ShdrList(h);
  }

  lemma ShdrList(h: Shdr)
    ensures ShdrValues(h) == [h.name, h.kind, h.flags] + ([h.addr, h.offset, h.size] + ([h.link, h.info, h.align] + [h.entsize]))
  {
  }

  lemma ShdrWidths()
    ensures SHDR_FIELDS == [4, 4, 8] + ([8, 8, 8] + ([4, 4, 8] + [8]))
  {
  }

  predicate ShdrFits(h: Shdr) {
    && h.name < TWO32 && h.kind < TWO32 && h.flags < TWO64 && h.addr < TWO64 && h.offset < TWO64 && h.size < TWO64
    && h.link < TWO32 && h.info < TWO32 && h.align < TWO64 && h.entsize < TWO64
  }

  lemma ShdrBack(b: seq<Byte>, at: nat, h: Shdr)
    requires ShdrFits(h) && at + 64 <= |b| && b[at..at + 64] == EncodeShdr(h)
    ensures ReadShdr(b, at) == h
  {
    hide EncodeShdr, Written, Fields;
    PowValues();
    hide Pow256;
    ShdrWritten(h);
    FieldsBack(SHDR_FIELDS, ShdrValues(h));
  }

  // --- the layout ---

  lemma PrefixTrans(a: seq<Byte>, b: seq<Byte>, c: seq<Byte>)
    requires a <= b && b <= c
    ensures a <= c
  {
  }

  lemma PrefixSlice(a: seq<Byte>, b: seq<Byte>, lo: nat, hi: nat)
    requires a <= b && lo <= hi <= |a|
    ensures b[lo..hi] == a[lo..hi]
  {
  }

  lemma TailSlice(a: seq<Byte>, b: seq<Byte>)
    ensures (a + b)[|a|..|a| + |b|] == b && a <= a + b
  {
  }

  lemma {:induction false} FillPrefix(front: seq<Byte>, plans: seq<Plan>, j: nat, k: nat)
    requires |front| == 64 && j <= k <= |plans| && Placeable(plans)
    ensures EndOf(plans, j) <= EndOf(plans, k) && Fill(front, plans, j) <= Fill(front, plans, k)
    decreases k
  {
    hide Zeros, AlignTo, PadTo;
    if j < k {
      FillPrefix(front, plans, j, k - 1);
      var padded := PadTo(Fill(front, plans, k - 1), StartOf(plans, k - 1));
      TailSlice(padded, plans[k - 1].content);
      PrefixTrans(Fill(front, plans, k - 1), padded, Fill(front, plans, k));
      PrefixTrans(Fill(front, plans, j), Fill(front, plans, k - 1), Fill(front, plans, k));
    }
  }

  /** The content of each section is where its header says. */
  lemma ContentAt(front: seq<Byte>, plans: seq<Plan>, k: nat)
    requires |front| == 64 && k < |plans| && Placeable(plans)
    ensures var n := EndOf(plans, |plans|);
      StartOf(plans, k) + |plans[k].content| <= n
      && Fill(front, plans, |plans|)[StartOf(plans, k)..StartOf(plans, k) + |plans[k].content|] == plans[k].content
  {
    hide Zeros, AlignTo, PadTo;
    FillPrefix(front, plans, k + 1, |plans|);
    var padded := PadTo(Fill(front, plans, k), StartOf(plans, k));
    TailSlice(padded, plans[k].content);
    PrefixSlice(Fill(front, plans, k + 1), Fill(front, plans, |plans|), StartOf(plans, k), StartOf(plans, k) + |plans[k].content|);
  }

  /** No two sections overlap in the file, nor does one overlap the header. */
  lemma {:induction false} RangesApart(plans: seq<Plan>, j: nat, k: nat)
    requires j < k < |plans| && Placeable(plans)
    ensures 64 <= StartOf(plans, j) && StartOf(plans, j) + |plans[j].content| <= StartOf(plans, k)
    decreases k
  {
    hide AlignTo;
    if j < k - 1 {
      RangesApart(plans, j, k - 1);
    }
  }

  lemma {:induction false} HeaderAt(plans: seq<Plan>, n: nat, k: nat)
    requires k <= n <= |plans| && Placeable(plans)
    ensures Headers(plans, n)[64 * k..64 * k + 64]
         == EncodeShdr(if k == 0 then NullHeader() else HeaderOf(plans[k - 1], StartOf(plans, k - 1)))
  {
    hide EncodeShdr;
    if n > 0 {
      var before, last := Headers(plans, n - 1), EncodeShdr(HeaderOf(plans[n - 1], StartOf(plans, n - 1)));
      TailSlice(before, last);
      if k < n {
        HeaderAt(plans, n - 1, k);
        PrefixSlice(before, before + last, 64 * k, 64 * k + 64);
      }
    }
  }

  // --- loading ---

  /** The sections as the reader should see them. */
  function SecOf(plans: seq<Plan>, k: nat): Sec
    requires k <= |plans| && Placeable(plans)
  {
    if k == 0 then Sec(NullHeader(), []) else Sec(HeaderOf(plans[k - 1], StartOf(plans, k - 1)), plans[k - 1].content)
  }

  function SecsOf(plans: seq<Plan>, n: nat): (secs: seq<Sec>)
    requires n <= |plans| + 1 && Placeable(plans)
    ensures |secs| == n && forall k :: 0 <= k < n ==> secs[k] == SecOf(plans, k)
  {
    seq(n, k requires 0 <= k < n => SecOf(plans, k))
  }

  predicate PlanFits(p: Plan) {
    && p.name < TWO32 && p.kind < TWO32 && p.flags < TWO64 && p.link < TWO32 && p.info < TWO32
    && p.align < TWO64 && p.entsize < TWO64
  }

  /** Everything fits the fields of the file; the file is below 4 GiB. */
  predicate PlansFit(plans: seq<Plan>)
    requires Placeable(plans)
  {
    (forall k :: 0 <= k < |plans| ==> PlanFits(plans[k]))
    && AlignTo(EndOf(plans, |plans|), 8) + 64 * (|plans| + 1) < TWO32 && |plans| + 1 < 65280
  }

  /** The header table lies behind the sections. */
  lemma FileParts(machine: nat, plans: seq<Plan>) returns (shoff: nat, front: seq<Byte>)
    requires Placeable(plans)
    ensures shoff == AlignTo(EndOf(plans, |plans|), 8) && |front| == 64
    ensures front == FileHeader(machine, shoff, |plans| + 1, |plans|)
    ensures var b := FileOf(machine, plans);
      && |b| == shoff + 64 * (|plans| + 1) && b[..64] == front
      && b[..EndOf(plans, |plans|)] == Fill(front, plans, |plans|)
      && b[shoff..] == Headers(plans, |plans|)
  {
    hide FileHeader, Headers, Zeros, AlignTo, PadTo;
    shoff := AlignTo(EndOf(plans, |plans|), 8);
    front := FileHeader(machine, shoff, |plans| + 1, |plans|);
    FillPrefix(front, plans, 0, |plans|);
    var fill := Fill(front, plans, |plans|);
    var padded := PadTo(fill, shoff);
    TailSlice(padded, Headers(plans, |plans|));
    PrefixTrans(fill, padded, FileOf(machine, plans));
    PrefixTrans(front, fill, FileOf(machine, plans));
  }

  lemma SecBack(machine: nat, plans: seq<Plan>, k: nat)
    requires Placeable(plans) && PlansFit(plans) && k <= |plans|
    ensures var b, shoff := FileOf(machine, plans), AlignTo(EndOf(plans, |plans|), 8);
      && shoff + 64 * k + 64 <= |b|
      && ReadShdr(b, shoff + 64 * k) == SecOf(plans, k).h
      && SecOf(plans, k).h.offset + SecOf(plans, k).h.size <= |b|
      && b[SecOf(plans, k).h.offset..SecOf(plans, k).h.offset + SecOf(plans, k).h.size] == SecOf(plans, k).content
  {
    hide FileOf, Headers, Fill, EndOf, AlignTo, EncodeShdr, ReadShdr, FileHeader;
    var b := FileOf(machine, plans);
    var shoff, front := FileParts(machine, plans);
    HeaderAt(plans, |plans|, k);
    SliceOfTail(b, shoff, 64 * k, 64);
    if k > 0 {
      ContentAt(front, plans, k - 1);
      assert PlanFits(plans[k - 1]);
    }
    ShdrBack(b, shoff + 64 * k, SecOf(plans, k).h);
  }

  lemma SliceOfTail(b: seq<Byte>, at: nat, i: nat, n: nat)
    requires at + i + n <= |b|
    ensures b[at..][i..i + n] == b[at + i..at + i + n]
  {
  }

  lemma {:induction false} SecsBack(machine: nat, plans: seq<Plan>, n: nat)
    requires Placeable(plans) && PlansFit(plans) && n <= |plans| + 1
    ensures var b, shoff := FileOf(machine, plans), AlignTo(EndOf(plans, |plans|), 8);
      shoff + 64 * n <= |b| && ReadSecs(b, shoff, n) == Some(SecsOf(plans, n))
  {
    hide FileOf, EndOf, AlignTo, ReadShdr, PlansFit;
    if n > 0 {
      SecsBack(machine, plans, n - 1);
      SecBack(machine, plans, n - 1);
      assert SecsOf(plans, n) == SecsOf(plans, n - 1) + [SecOf(plans, n - 1)];
    } else {
      var shoff, front := FileParts(machine, plans);
    }
  }

  function HeaderValues(machine: nat, shoff: nat, count: nat, names: nat): seq<nat> {
    [1, machine, 1] + ([0, 0, shoff] + ([0, 64, 0] + ([0, 64, count] + [names])))
  }

  function HeaderParts(machine: nat, shoff: nat, count: nat, names: nat): seq<Byte> {
    (LittleEndian(2, 1) + LittleEndian(2, machine) + LittleEndian(4, 1))
    + ((LittleEndian(8, 0) + LittleEndian(8, 0) + LittleEndian(8, shoff))
       + ((LittleEndian(4, 0) + LittleEndian(2, 64) + LittleEndian(2, 0))
          + ((LittleEndian(2, 0) + LittleEndian(2, 64) + LittleEndian(2, count)) + LittleEndian(2, names))))
  }

  lemma PartsWritten(machine: nat, shoff: nat, count: nat, names: nat)
    ensures |HEADER_FIELDS| == 13
    ensures HeaderParts(machine, shoff, count, names) == Written(HEADER_FIELDS, HeaderValues(machine, shoff, count, names))
  {
    hide LittleEndian, Written;
    WrittenLast(2, names);
    WrittenThree(2, 2, 2, 0, 64, count, [2], [names]);
    WrittenThree(4, 2, 2, 0, 64, 0, [2, 2, 2] + [2], [0, 64, count] + [names]);
    WrittenThree(8, 8, 8, 0, 0, shoff, [4, 2, 2] + ([2, 2, 2] + [2]), [0, 64, 0] + ([0, 64, count] + [names]));
    WrittenThree(2, 2, 4, 1, machine, 1, [8, 8, 8] + ([4, 2, 2] + ([2, 2, 2] + [2])),
                 [0, 0, shoff] + ([0, 64, 0] + ([0, 64, count] + [names])));
    HeaderWidths();
  }

  lemma HeaderWidths()
    ensures HEADER_FIELDS == [2, 2, 4] + ([8, 8, 8] + ([4, 2, 2] + ([2, 2, 2] + [2])))
  {
  }

  lemma DropFirst(a: seq<Byte>, b: seq<Byte>)
    ensures (a + b)[|a|..] == b && a <= a + b
  {
  }

  function Ident(): (s: seq<Byte>)
    ensures |s| == 16 && s[..7] == [0x7F, 0x45, 0x4C, 0x46, 2, 1, 1]
  {
    [0x7F, 0x45, 0x4C, 0x46, 2, 1, 1, 0, 0] + Zeros(7)
  }

  lemma HeaderWritten(machine: nat, shoff: nat, count: nat, names: nat)
    ensures |HEADER_FIELDS| == 13
    ensures FileHeader(machine, shoff, count, names)[16..] == Written(HEADER_FIELDS, HeaderValues(machine, shoff, count, names))
    ensures FileHeader(machine, shoff, count, names)[..7] == [0x7F, 0x45, 0x4C, 0x46, 2, 1, 1]
  {
    hide FileHeader, HeaderParts, Written, HeaderValues, Ident;
    HeaderSplit(machine, shoff, count, names);
    DropFirst(Ident(), HeaderParts(machine, shoff, count, names));
    PartsWritten(machine, shoff, count, names);
    PrefixSlice(Ident(), FileHeader(machine, shoff, count, names), 0, 7);
  }

  lemma HeaderSplit(machine: nat, shoff: nat, count: nat, names: nat)
    ensures FileHeader(machine, shoff, count, names) == Ident() + HeaderParts(machine, shoff, count, names)
  {
    hide LittleEndian, Zeros;
  }

  /** The fields of the file header, as the reader sees them. */
  function SeenHeader(machine: nat, shoff: nat, count: nat, names: nat): seq<nat> {
    [1, machine, 1, 0, 0, shoff, 0, 64, 0, 0, 64, count, names]
  }

  /** The reader finds all sections with their contents. */
  lemma LoadBack(machine: nat, plans: seq<Plan>)
    requires Placeable(plans) && PlansFit(plans) && machine < 65536
    ensures Load(FileOf(machine, plans), machine) == Some(SecsOf(plans, |plans| + 1))
    ensures HeaderFields(FileOf(machine, plans))[12] == |plans|
  {
    hide *;
    NamesField(machine, AlignTo(EndOf(plans, |plans|), 8), |plans| + 1, |plans|);
    var b := FileOf(machine, plans);
    var shoff, front := FileParts(machine, plans);
    FitHeader(plans);
    FrontIs(b, front);
    HeaderRead(b, machine, shoff, |plans| + 1, |plans|);
    LoadIs(b, machine, shoff, |plans| + 1, |plans|);
    SecsBack(machine, plans, |plans| + 1);
  }

  lemma NamesField(machine: nat, shoff: nat, count: nat, names: nat)
    ensures |SeenHeader(machine, shoff, count, names)| == 13 && SeenHeader(machine, shoff, count, names)[12] == names
  {
  }

  lemma FrontIs(b: seq<Byte>, front: seq<Byte>)
    requires |b| >= 64 && b[..64] == front
    ensures front <= b
  {
  }

  lemma FitHeader(plans: seq<Plan>)
    requires Placeable(plans) && PlansFit(plans)
    ensures |plans| + 1 < 65536 && AlignTo(EndOf(plans, |plans|), 8) < TWO64
  {
    hide EndOf, AlignTo;
  }

  lemma LoadIs(b: seq<Byte>, machine: nat, shoff: nat, count: nat, names: nat)
    requires |b| >= 64 && shoff + 64 * count <= |b| && names < count
    requires b[..7] == [0x7F, 0x45, 0x4C, 0x46, 2, 1, 1] && HeaderFields(b) == SeenHeader(machine, shoff, count, names)
    ensures Load(b, machine) == ReadSecs(b, shoff, count)
  {
    hide HeaderFields, ReadSecs;
  }

  lemma HeaderRead(b: seq<Byte>, machine: nat, shoff: nat, count: nat, names: nat)
    requires FileHeader(machine, shoff, count, names) <= b
    requires machine < 65536 && count < 65536 && names < 65536 && shoff < TWO64
    ensures b[..7] == [0x7F, 0x45, 0x4C, 0x46, 2, 1, 1]
    ensures HeaderFields(b) == SeenHeader(machine, shoff, count, names)
  {
    hide *;
    var front := FileHeader(machine, shoff, count, names);
    HeaderWritten(machine, shoff, count, names);
    PrefixSlice(front, b, 0, 7);
    PrefixSlice(front, b, 16, 64);
    assert front[16..64] == front[16..];
    HeaderFits(machine, shoff, count, names);
    FieldSizes();
    FieldsBack(HEADER_FIELDS, HeaderValues(machine, shoff, count, names));
    FieldsOf(b);
  }

  lemma FieldsOf(b: seq<Byte>)
    requires |b| >= 64
    ensures Total(HEADER_FIELDS) == 48 && HeaderFields(b) == Fields(HEADER_FIELDS, b[16..64])
  {
    hide Fields, Total;
    FieldSizes();
  }

  lemma HeaderFits(machine: nat, shoff: nat, count: nat, names: nat)
    requires machine < 65536 && count < 65536 && names < 65536 && shoff < TWO64
    ensures HeaderValues(machine, shoff, count, names) == SeenHeader(machine, shoff, count, names)
    ensures |HEADER_FIELDS| == |HeaderValues(machine, shoff, count, names)| == 13 && Fit(HEADER_FIELDS, HeaderValues(machine, shoff, count, names))
  {
    PowTwo();
    PowValues();
    hide Pow256;
  }

  lemma PowTwo()
    ensures Pow256(2) == 65536
  {
  }
}
