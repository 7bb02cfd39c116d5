/** How the blocks lie in memory: headers, guards and the links of the free list. */
module HeapMemory {
  import opened Words
  import opened HeapBlocks
  import opened HeapSpec

  type Memory = map<nat, Word>

  // --- bits ---

  /** `size_flags & -2` */
  function ClearAllocBit(w: Word): Word {
    And64(w, TWO64 - 2)
  }

  /** `size | 1` */
  function SetAllocBit(w: Word): Word {
    Or64(w, 1)
  }

  lemma {:induction false} AndOnes(n: nat, a: int)
    requires 0 <= a < Pow2(n)
    ensures AndBits(n, a, Pow2(n) - 1) == a
  {
    if n > 0 {
      assert (Pow2(n) - 1) / 2 == Pow2(n - 1) - 1;
      AndOnes(n - 1, a / 2);
    }
  }

  /** A mask without its low `k` bits rounds down. */
  lemma {:induction false} AndMask(n: nat, k: nat, a: int)
    requires k <= n && 0 <= a < Pow2(n)
    ensures Pow2(k) <= Pow2(n) && AndBits(n, a, Pow2(n) - Pow2(k)) == a - a % Pow2(k)
  {
    PowOrder(k, n);
    if k == 0 {
      AndOnes(n, a);
    } else {
      AndMask(n - 1, k - 1, a / 2);
      assert (Pow2(n) - Pow2(k)) / 2 == Pow2(n - 1) - Pow2(k - 1);
      HalfMod(a, Pow2(k - 1));
    }
  }

  lemma {:induction false} PowOrder(k: nat, n: nat)
    requires k <= n
    ensures Pow2(k) <= Pow2(n)
  {
    if k > 0 {
      PowOrder(k - 1, n - 1);
    }
  }

  lemma HalfMod(a: int, m: int)
    requires a >= 0 && m >= 1
    ensures a % (2 * m) == 2 * ((a / 2) % m) + a % 2
  {
    var q, r := (a / 2) / m, (a / 2) % m;
    assert a / 2 == q * m + r;
    assert a == q * (2 * m) + (2 * r + a % 2);
    ModUnique(a, 2 * m, q, 2 * r + a % 2);
  }

  lemma ModUnique(a: int, m: int, q: int, r: int)
    requires m > 0 && a == q * m + r && 0 <= r < m
    ensures a % m == r
  {
    var q1, r1 := a / m, a % m;
    assert (q - q1) * m == r1 - r;
    if q > q1 {
      MulMono(1, q - q1, m);
    } else if q < q1 {
      MulMono(1, q1 - q, m);
    }
  }

  lemma ClearIs(w: Word)
    ensures ClearAllocBit(w) == w - w % 2
  {
    Pow2Is64();
    assert Pow2(1) == 2;
    AndMask(64, 1, w);
  }

  lemma SetIs(w: Word)
    ensures SetAllocBit(w) == w - w % 2 + 1
  {
    Pow2Is64();
    OrZero(63, w / 2);
  }

  /** `flags & 1` */
  function AllocBit(w: Word): Word {
    And64(w, 1)
  }

  lemma BitIs(w: Word)
    ensures AllocBit(w) == w % 2
  {
    Pow2Is64();
    AndZero(63, w / 2);
  }

  /** `Align16` is the rounding of the source: 31 is added, the low four bits
      are masked off, and less than 32 becomes 32. */
  lemma AlignIs(size: Word)
    ensures var a := And64(Wrap(size + 31), TWO64 - 16);
      Align16(size) == if a < 32 then 32 else a
  {
    var w := Wrap(size + 31);
    Pow2Is64();
    assert Pow2(4) == 16;
    AndMask(64, 4, w);
  }

  // --- layout ---

  predicate InChunk(c: nat, w: nat) {
    c <= w < c + MAPPED && w % 8 == 0
  }

  predicate HeaderOk(h: Heap, mem: Memory, a: nat)
    requires a in h.size
  {
    a in mem && mem[a] == h.size[a] + (if a in h.free then 0 else 1)
  }

  predicate GuardOk(mem: Memory, c: nat) {
    c + CHUNK in mem && mem[c + CHUNK] == 1
  }

  /** The element at position `i`, or 0 behind the end. */
  function At(free: seq<nat>, i: nat): nat {
    if i < |free| then free[i] else 0
  }

  predicate LinkOk(h: Heap, mem: Memory, i: nat)
    requires i < |h.free|
  {
    h.free[i] + 8 in mem && mem[h.free[i] + 8] == At(h.free, i + 1)
  }

  /** Memory holds the heap: all chunks are mapped, headers (but for those of
      `skip`) and guards are in place, and the list starts at `head`. */
  ghost predicate Holds(h: Heap, mem: Memory, head: nat, skip: set<nat>) {
    && (forall c, w {:trigger InChunk(c, w)} :: c in h.bases && InChunk(c, w) ==> w in mem)
    && (forall a {:trigger HeaderOk(h, mem, a)} :: a in h.size && a !in skip ==> HeaderOk(h, mem, a))
    && (forall c {:trigger GuardOk(mem, c)} :: c in h.bases ==> GuardOk(mem, c))
    && (forall i: nat {:trigger LinkOk(h, mem, i)} :: i < |h.free| ==> LinkOk(h, mem, i))
    && head == At(h.free, 0)
  }

  lemma Mod8(a: nat)
    requires a % 16 == 0
    ensures a % 8 == 0 && (a + 8) % 8 == 0
  {
    ModUnique(a, 8, 2 * (a / 16), 0);
    ModUnique(a + 8, 8, 2 * (a / 16) + 1, 0);
  }

  /** The words of block `a` that the allocator uses are mapped. */
  lemma BlockMapped(h: Heap, mem: Memory, head: nat, skip: set<nat>, a: nat)
    requires Inv(h) && Holds(h, mem, head, skip) && a in h.size
    ensures 0 < a < TWO63 && h.size[a] < TWO63 && a + h.size[a] < TWO63
    ensures a in mem && a + 8 in mem && a + h.size[a] in mem
    ensures a + h.size[a] !in h.size ==> mem[a + h.size[a]] == 1
  {
    assert BlockOk(h, a);
    var c := h.home[a];
    assert BaseOk(h, c);
    Mod8(a);
    Mod8(a + h.size[a]);
    assert InChunk(c, a) && InChunk(c, a + 8) && InChunk(c, a + h.size[a]);
    if a + h.size[a] !in h.size {
      assert GuardOk(mem, a + h.size[a] - CHUNK);
    }
  }

  /** So are the words of its payload. */
  lemma PayloadMapped(h: Heap, mem: Memory, head: nat, skip: set<nat>, a: nat, w: nat)
    requires Inv(h) && Holds(h, mem, head, skip) && InPayload(h, a, w) && w % 8 == 0
    ensures w in mem
  {
    assert BlockOk(h, a);
    assert InChunk(h.home[a], w);
  }

  /** Headers, links and guards are different words. */
  lemma WordsApart(h: Heap, a: nat, b: nat)
    requires Inv(h) && a in h.size && b in h.size
    ensures a != b + 8 && (a + 8 == b + 8 ==> a == b)
    ensures forall c :: c in h.bases ==> c + CHUNK != a && c + CHUNK != a + 8
  {
    assert BlockOk(h, a) && BlockOk(h, b) && Apart(h, a, b) && Apart(h, b, a);
    forall c | c in h.bases
      ensures c + CHUNK != a && c + CHUNK != a + 8
    {
      assert BasesApart(h.home[a], c) && BasesApart(c, h.home[a]);
    }
  }

  // --- one write ---

  /** Writing the header of a block. */
  lemma PutHeader(h: Heap, mem: Memory, head: nat, skip: set<nat>, a: nat, v: Word)
    requires Inv(h) && Holds(h, mem, head, skip) && a in h.size
    ensures Holds(h, mem[a := v], head, skip + {a})
    ensures v == h.size[a] + (if a in h.free then 0 else 1) ==> Holds(h, mem[a := v], head, skip - {a})
  {
    var mem1 := mem[a := v];
    forall b {:trigger HeaderOk(h, mem1, b)} | b in h.size && b !in skip && b != a ensures HeaderOk(h, mem1, b) {
      assert HeaderOk(h, mem, b);
    }
    forall c {:trigger GuardOk(mem1, c)} | c in h.bases ensures GuardOk(mem1, c) {
      assert GuardOk(mem, c);
      WordsApart(h, a, a);
    }
    forall i: nat {:trigger LinkOk(h, mem1, i)} | i < |h.free| ensures LinkOk(h, mem1, i) {
      assert LinkOk(h, mem, i) && Listed(h, i);
      WordsApart(h, a, h.free[i]);
    }
  }

  lemma SkipMore(h: Heap, mem: Memory, head: nat, skip: set<nat>, more: set<nat>)
    requires Holds(h, mem, head, skip) && skip <= more
    ensures Holds(h, mem, head, more)
  {
  }

  /** Taking an element out of the list: the link that led to it is redirected. */
  lemma PutUnlink(h: Heap, mem: Memory, head: nat, skip: set<nat>, i: nat)
    requires Inv(h) && Holds(h, mem, head, skip) && i < |h.free|
    ensures At(h.free, i + 1) < TWO64
    ensures i == 0 ==> Holds(h.(free := Without(h.free, i)), mem, At(h.free, 1), skip + {h.free[i]})
    ensures i > 0 ==> Holds(h.(free := Without(h.free, i)), mem[h.free[i - 1] + 8 := At(h.free, i + 1)], head, skip + {h.free[i]})
  {
    var h1 := h.(free := Without(h.free, i));
    var next := At(h.free, i + 1);
    if i + 1 < |h.free| {
      assert Listed(h, i + 1);
      BlockMapped(h, mem, head, skip, next);
    }
    var w := if i == 0 then 0 else h.free[i - 1] + 8;
    var mem1 := if i == 0 then mem else mem[w := next];
    UnlinkInv(h, i);
    WithoutMembers(h.free, i);
    if i > 0 {
      assert Listed(h, i - 1);
    }
    forall b {:trigger HeaderOk(h1, mem1, b)} | b in h1.size && b !in skip + {h.free[i]} ensures HeaderOk(h1, mem1, b) {
      assert HeaderOk(h, mem, b);
      if i > 0 {
        WordsApart(h, b, h.free[i - 1]);
      }
    }
    forall c {:trigger GuardOk(mem1, c)} | c in h1.bases ensures GuardOk(mem1, c) {
      assert GuardOk(mem, c);
      if i > 0 {
        WordsApart(h, h.free[i - 1], h.free[i - 1]);
      }
    }
    forall j: nat {:trigger LinkOk(h1, mem1, j)} | j < |h1.free| ensures LinkOk(h1, mem1, j) {
      var k: nat := if j < i then j else j + 1;
      assert LinkOk(h, mem, k);
      UnlinkLink(h, mem, i, j);
    }
  }

  lemma UnlinkLink(h: Heap, mem: Memory, i: nat, j: nat)
    requires NoRepeats(h.free) && i < |h.free| && j + 1 < |h.free| && At(h.free, i + 1) < TWO64
    requires LinkOk(h, mem, if j < i then j else j + 1)
    ensures var mem1 := if i == 0 then mem else mem[h.free[i - 1] + 8 := At(h.free, i + 1)];
      LinkOk(h.(free := Without(h.free, i)), mem1, j)
  {
    var k := if j < i then j else j + 1;
    var free1 := Without(h.free, i);
    assert free1[j] == h.free[k];
    assert At(free1, j + 1) == if k + 1 == i then At(h.free, i + 1) else At(h.free, k + 1);
  }

  /** Putting an element at the head of the list. */
  lemma PutLink(h: Heap, mem: Memory, head: Word, skip: set<nat>, a: nat)
    requires Inv(h) && Holds(h, mem, head, skip) && Used(h, a)
    ensures Holds(h.(free := [a] + h.free), mem[a + 8 := head], a, skip + {a})
  {
    var h1 := h.(free := [a] + h.free);
    var mem1 := mem[a + 8 := head];
    forall b {:trigger HeaderOk(h1, mem1, b)} | b in h1.size && b !in skip + {a} ensures HeaderOk(h1, mem1, b) {
      assert HeaderOk(h, mem, b);
      WordsApart(h, b, a);
    }
    forall c {:trigger GuardOk(mem1, c)} | c in h1.bases ensures GuardOk(mem1, c) {
      assert GuardOk(mem, c);
      WordsApart(h, a, a);
    }
    forall j: nat {:trigger LinkOk(h1, mem1, j)} | j < |h1.free| ensures LinkOk(h1, mem1, j) {
      if j > 0 {
        assert LinkOk(h, mem, j - 1) && Listed(h, j - 1);
        WordsApart(h, h.free[j - 1], a);
      }
    }
  }

  // --- rearranging without writing ---

  lemma HoldsSplit(h: Heap, mem: Memory, head: nat, skip: set<nat>, a: nat, n: nat)
    requires Inv(h) && Holds(h, mem, head, skip) && a in h.size && a in h.home && 0 < n < h.size[a] && a + n !in h.free
    ensures Holds(Split(h, a, n), mem, head, skip + {a, a + n})
  {
    var h1 := Split(h, a, n);
    forall b {:trigger HeaderOk(h1, mem, b)} | b in h1.size && b !in skip + {a, a + n} ensures HeaderOk(h1, mem, b) {
      assert HeaderOk(h, mem, b);
    }
    forall j: nat {:trigger LinkOk(h1, mem, j)} | j < |h1.free| ensures LinkOk(h1, mem, j) {
      assert LinkOk(h, mem, j);
    }
  }

  lemma HoldsMerge(h: Heap, mem: Memory, head: nat, skip: set<nat>, a: nat)
    requires Inv(h) && Holds(h, mem, head, skip) && a in h.size && a + h.size[a] in h.size
    ensures Holds(Merge(h, a), mem, head, (skip + {a}) - {a + h.size[a]})
  {
    var h1 := Merge(h, a);
    var more := (skip + {a}) - {a + h.size[a]};
    forall b {:trigger HeaderOk(h1, mem, b)} | b in h1.size && b !in more ensures HeaderOk(h1, mem, b) {
      assert HeaderOk(h, mem, b);
    }
    forall j: nat {:trigger LinkOk(h1, mem, j)} | j < |h1.free| ensures LinkOk(h1, mem, j) {
      assert LinkOk(h, mem, j);
    }
  }

  // --- a new chunk ---

  /** What mmap returns: zeroed pages. */
  function Mapped(mem: Memory, c: nat): Memory {
    mem + (map w: nat | c <= w < c + MAPPED && w % 8 == 0 :: 0)
  }

  /** The three writes of `refill`. */
  function Refilled(mem: Memory, c: nat, head: Word): Memory {
    Mapped(mem, c)[c := CHUNK][c + 8 := head][c + CHUNK := 1]
  }

  lemma RefilledWords(mem: Memory, c: nat, head: Word)
    requires c % 16 == 0
    ensures var mem1 := Refilled(mem, c, head);
      && (forall w :: w in mem && !(c <= w < c + MAPPED) ==> w in mem1 && mem1[w] == mem[w])
      && (forall w {:trigger InChunk(c, w)} :: InChunk(c, w) ==> w in mem1)
      && (forall w :: w in mem ==> w in mem1)
      && c in mem1 && mem1[c] == CHUNK && c + 8 in mem1 && mem1[c + 8] == head && GuardOk(mem1, c)
  {
  }

  lemma HoldsGrow(h: Heap, mem: Memory, head: Word, c: nat)
    requires Inv(h) && Holds(h, mem, head, {}) && ChunkFits(h, c)
    ensures Holds(Grow(h, c), Refilled(mem, c, head), c, {})
    ensures Kept(h, mem, Refilled(mem, c, head), {})
  {
    var h1 := Grow(h, c);
    var mem1 := Refilled(mem, c, head);
    GrowRoom(h, c);
    RefilledWords(mem, c, head);
    hide Refilled, Mapped;
    forall d, w {:trigger InChunk(d, w)} | d in h1.bases && InChunk(d, w) ensures w in mem1 {
    }
    forall b {:trigger HeaderOk(h1, mem1, b)} | b in h1.size ensures HeaderOk(h1, mem1, b) {
      if b != c {
        assert HeaderOk(h, mem, b) && BlockOk(h, b);
      }
    }
    forall d {:trigger GuardOk(mem1, d)} | d in h1.bases ensures GuardOk(mem1, d) {
      if d != c {
        assert GuardOk(mem, d);
      }
    }
    forall j: nat {:trigger LinkOk(h1, mem1, j)} | j < |h1.free| ensures LinkOk(h1, mem1, j) {
      if j > 0 {
        assert LinkOk(h, mem, j - 1) && Listed(h, j - 1) && BlockOk(h, h.free[j - 1]);
      }
    }
  }

  // --- payloads ---

  /** The payloads of the blocks in use, other than `except`, are unchanged. */
  ghost predicate Kept(h: Heap, mem: Memory, mem': Memory, except: set<nat>) {
    forall a, w {:trigger InPayload(h, a, w)} :: Used(h, a) && a !in except && InPayload(h, a, w) && w in mem ==>
      w in mem' && mem'[w] == mem[w]
  }

  lemma KeptTrans(h: Heap, h1: Heap, mem: Memory, mem1: Memory, mem2: Memory, except: set<nat>, except1: set<nat>)
    requires Kept(h, mem, mem1, except) && Kept(h1, mem1, mem2, except1)
    requires forall x :: Used(h, x) && x !in except ==> Used(h1, x) && x !in except1 && h1.size[x] >= h.size[x]
    ensures Kept(h, mem, mem2, except)
  {
    forall a, w {:trigger InPayload(h, a, w)} | Used(h, a) && a !in except && InPayload(h, a, w) && w in mem
      ensures w in mem2 && mem2[w] == mem[w]
    {
      assert InPayload(h1, a, w);
    }
  }

  /** Writing a header or link word. */
  lemma KeptMeta(h: Heap, mem: Memory, b: nat, x: nat, v: Word, except: set<nat>)
    requires Inv(h) && b in h.size && (x == b || x == b + 8)
    ensures Kept(h, mem, mem[x := v], except)
  {
    forall a, w {:trigger InPayload(h, a, w)} | Used(h, a) && InPayload(h, a, w)
      ensures w != x
    {
      PayloadsApart(h, a, b, w);
    }
  }

  /** Writing into the payload of a block that may change. */
  lemma KeptInside(h: Heap, mem: Memory, b: nat, x: nat, v: Word, except: set<nat>)
    requires Inv(h) && InPayload(h, b, x) && (b in except || !Used(h, b))
    ensures Kept(h, mem, mem[x := v], except)
  {
    forall a, w {:trigger InPayload(h, a, w)} | Used(h, a) && a !in except && InPayload(h, a, w)
      ensures w != x
    {
      PayloadsApart(h, a, b, w);
    }
  }

  /** Writing into a payload disturbs nothing of the allocator. */
  lemma PutPayload(h: Heap, mem: Memory, head: nat, skip: set<nat>, a: nat, x: nat, v: Word)
    requires Inv(h) && Holds(h, mem, head, skip) && InPayload(h, a, x)
    ensures Holds(h, mem[x := v], head, skip)
  {
    var mem1 := mem[x := v];
    forall b {:trigger HeaderOk(h, mem1, b)} | b in h.size && b !in skip ensures HeaderOk(h, mem1, b) {
      assert HeaderOk(h, mem, b);
      PayloadsApart(h, a, b, x);
    }
    forall c {:trigger GuardOk(mem1, c)} | c in h.bases ensures GuardOk(mem1, c) {
      assert GuardOk(mem, c);
      PayloadsApart(h, a, a, x);
    }
    forall i: nat {:trigger LinkOk(h, mem1, i)} | i < |h.free| ensures LinkOk(h, mem1, i) {
      assert LinkOk(h, mem, i) && Listed(h, i);
      PayloadsApart(h, a, h.free[i], x);
    }
  }

  /** The header of a block, once it is right. */
  lemma HeaderDone(h: Heap, mem: Memory, head: nat, skip: set<nat>, a: nat)
    requires Holds(h, mem, head, skip) && a in h.size && HeaderOk(h, mem, a)
    ensures Holds(h, mem, head, skip - {a})
  {
  }

  /** The word at offset `k` of block `a`. */
  function WordAt(mem: Memory, a: nat, k: nat): Option<Word> {
    if a + k in mem then Some(mem[a + k]) else None
  }

  /** The payload of `b` in `mem'` begins like that of `a` in `mem`, up to offset `n`. */
  ghost predicate SameWords(mem: Memory, a: nat, mem': Memory, b: nat, n: nat) {
    forall k: nat {:trigger WordAt(mem', b, k)} :: 16 <= k < n && k % 8 == 0 ==> WordAt(mem', b, k) == WordAt(mem, a, k)
  }

  /** A kept block keeps its words. */
  lemma KeptWords(h: Heap, mem: Memory, mem': Memory, head: nat, skip: set<nat>, except: set<nat>, a: nat)
    requires Inv(h) && Holds(h, mem, head, skip) && Kept(h, mem, mem', except) && Used(h, a) && a !in except
    ensures SameWords(mem, a, mem', a, h.size[a])
  {
    assert BlockOk(h, a);
    forall k: nat {:trigger WordAt(mem', a, k)} | 16 <= k < h.size[a] && k % 8 == 0
      ensures WordAt(mem', a, k) == WordAt(mem, a, k)
    {
      assert InPayload(h, a, a + k);
      Mod8(a);
      ModUnique(a + k, 8, a / 8 + k / 8, 0);
      PayloadMapped(h, mem, head, skip, a, a + k);
    }
  }

  /** Headers of blocks are unchanged. */
  ghost predicate SameHeaders(h: Heap, mem: Memory, mem': Memory) {
    forall b {:trigger b in mem'} :: b in h.size && b in mem ==> b in mem' && mem'[b] == mem[b]
  }

  // --- the writes of one call, put together ---

  /** `alloc_from_list` hands out a whole block. */
  lemma TakeWhole(h: Heap, mem: Memory, head: Word, i: nat)
    requires Inv(h) && Holds(h, mem, head, {}) && i < |h.free|
    ensures h.free[i] in h.size && h.size[h.free[i]] + 1 < TWO64 && At(h.free, i + 1) < TWO64
    ensures var a := h.free[i];
      var mem1 := mem[a := h.size[a] + 1];
      var mem2 := if i == 0 then mem1 else mem1[h.free[i - 1] + 8 := At(h.free, i + 1)];
      && Holds(h.(free := Without(h.free, i)), mem2, if i == 0 then At(h.free, 1) else head, {})
      && Kept(h, mem, mem2, {})
  {
    var a := h.free[i];
    assert Listed(h, i);
    BlockMapped(h, mem, head, {}, a);
    PutHeader(h, mem, head, {}, a, h.size[a] + 1);
    var mem1 := mem[a := h.size[a] + 1];
    PutUnlink(h, mem1, head, {a}, i);
    var mem2 := if i == 0 then mem1 else mem1[h.free[i - 1] + 8 := At(h.free, i + 1)];
    var h1 := h.(free := Without(h.free, i));
    WithoutMembers(h.free, i);
    KeptMeta(h, mem, a, a, h.size[a] + 1, {});
    if i > 0 {
      assert Listed(h, i - 1);
      WordsApart(h, a, h.free[i - 1]);
      KeptMeta(h, mem1, h.free[i - 1], h.free[i - 1] + 8, At(h.free, i + 1), {});
      KeptTrans(h, h, mem, mem1, mem2, {}, {});
    }
    assert HeaderOk(h1, mem2, a);
    HeaderDone(h1, mem2, if i == 0 then At(h.free, 1) else head, {a}, a);
  }

  /** `alloc_from_list` hands out the upper end of a block. */
  lemma TakeTop(h: Heap, mem: Memory, head: Word, i: nat, rest: nat)
    requires Inv(h) && Holds(h, mem, head, {}) && i < |h.free| && h.free[i] in h.size
    requires rest % 16 == 0 && MIN_BLOCK <= rest && MIN_BLOCK <= h.size[h.free[i]] - rest
    ensures h.free[i] in h.home && h.size[h.free[i]] + 1 < TWO64
    ensures var a := h.free[i];
      var mem1 := mem[a := rest][a + rest := h.size[a] - rest + 1];
      Holds(Split(h, a, rest), mem1, head, {}) && Kept(h, mem, mem1, {})
  {
    var a := h.free[i];
    BlockMapped(h, mem, head, {}, a);
    SplitRoom(h, a, rest);
    SplitInv(h, a, rest);
    var h1 := Split(h, a, rest);
    HoldsSplit(h, mem, head, {}, a, rest);
    PutHeader(h1, mem, head, {a, a + rest}, a, rest);
    assert {a, a + rest} - {a} == {a + rest};
    PutHeader(h1, mem[a := rest], head, {a + rest}, a + rest, h.size[a] - rest + 1);
    assert {a + rest} - {a + rest} == {};
    KeptMeta(h, mem, a, a, rest, {});
    KeptInside(h, mem[a := rest], a, a + rest, h.size[a] - rest + 1, {});
    KeptTrans(h, h, mem, mem[a := rest], mem[a := rest][a + rest := h.size[a] - rest + 1], {}, {});
  }
}
