/** The blocks of the heap and how the allocator rearranges them. */
module HeapBlocks {
  import opened Words

  /** The part of a chunk that is divided into blocks; a guard header follows it. */
  const CHUNK: nat := 65472
  const MAPPED: nat := 65536
  const MIN_BLOCK: nat := 32

  /** `size` gives the size of the block at an address, `home` the chunk it lies
      in, `free` the free list in order, `bases` the chunks. */
  datatype Heap = Heap(size: map<nat, nat>, home: map<nat, nat>, free: seq<nat>, bases: set<nat>)

  predicate IsGuard(h: Heap, g: nat) {
    g >= CHUNK && g - CHUNK in h.bases
  }

  /** A chunk is aligned, lies in the address space and apart from the others. */
  predicate BaseOk(h: Heap, c: nat) {
    c > 0 && c % 16 == 0 && c + MAPPED <= TWO63 && c in h.size
  }

  predicate BlockOk(h: Heap, a: nat)
    requires a in h.size
  {
    && a % 16 == 0 && h.size[a] % 16 == 0 && h.size[a] >= MIN_BLOCK
    && a in h.home && h.home[a] in h.bases
    && h.home[a] <= a && a + h.size[a] <= h.home[a] + CHUNK
    && (a + h.size[a] in h.size || IsGuard(h, a + h.size[a]))
  }

  /** Two blocks do not overlap. */
  predicate Apart(h: Heap, a: nat, b: nat)
    requires a in h.size
  {
    a < b ==> a + h.size[a] <= b
  }

  predicate BasesApart(c: nat, d: nat) {
    c < d ==> c + MAPPED <= d
  }

  predicate Listed(h: Heap, i: nat)
    requires i < |h.free|
  {
    h.free[i] in h.size
  }

  ghost predicate NoRepeats(free: seq<nat>) {
    forall i, j :: 0 <= i < j < |free| ==> free[i] != free[j]
  }

  /** The heap invariant: chunks are apart; every block is aligned, large enough
      and inside its chunk, and is followed by a block or a guard; blocks do not
      overlap; the free list names blocks, each once. */
  ghost predicate Inv(h: Heap) {
    && (forall c {:trigger BaseOk(h, c)} :: c in h.bases ==> BaseOk(h, c))
    && (forall c, d {:trigger BasesApart(c, d)} :: c in h.bases && d in h.bases ==> BasesApart(c, d))
    && (forall a {:trigger BlockOk(h, a)} :: a in h.size ==> BlockOk(h, a))
    && (forall a, b {:trigger Apart(h, a, b)} :: a in h.size && b in h.size ==> Apart(h, a, b))
    && (forall i: nat {:trigger Listed(h, i)} :: i < |h.free| ==> Listed(h, i))
    && NoRepeats(h.free)
  }

  predicate Used(h: Heap, a: nat) {
    a in h.size && a !in h.free
  }

  // --- rearrangements ---

  function Without(free: seq<nat>, i: nat): seq<nat>
    requires i < |free|
  {
    free[..i] + free[i + 1..]
  }

  function SetSize(size: map<nat, nat>, a: nat, n: nat): map<nat, nat> {
    size[a := n]
  }

  /** The block at `a` becomes two: the first keeps `n` bytes. */
  function Split(h: Heap, a: nat, n: nat): Heap
    requires a in h.size && a in h.home && n <= h.size[a]
  {
    h.(size := SetSize(SetSize(h.size, a, n), a + n, h.size[a] - n), home := SetSize(h.home, a + n, h.home[a]))
  }

  /** The block at `a` takes in the block behind it. */
  function Merge(h: Heap, a: nat): Heap
    requires a in h.size && a + h.size[a] in h.size
  {
    var b := a + h.size[a];
    h.(size := SetSize(h.size, a, h.size[a] + h.size[b]) - {b}, home := h.home - {b})
  }

  /** A new chunk is one free block at the head of the list. */
  function Grow(h: Heap, c: nat): Heap {
    Heap(SetSize(h.size, c, CHUNK), SetSize(h.home, c, c), [c] + h.free, h.bases + {c})
  }

  lemma WithoutMembers(free: seq<nat>, i: nat)
    requires i < |free| && NoRepeats(free)
    ensures forall x :: x in Without(free, i) <==> x in free && x != free[i]
    ensures NoRepeats(Without(free, i))
  {
    var w := Without(free, i);
    forall x | x in free && x != free[i]
      ensures x in w
    {
      var j :| 0 <= j < |free| && free[j] == x;
      assert w[if j < i then j else j - 1] == x;
    }
  }

  /** Only the list changes. */
  lemma RelistInv(h: Heap, free: seq<nat>)
    requires Inv(h) && NoRepeats(free) && forall x :: x in free ==> x in h.size
    ensures Inv(h.(free := free))
  {
    var h1 := h.(free := free);
    forall a {:trigger BlockOk(h1, a)} | a in h1.size ensures BlockOk(h1, a) {
      assert BlockOk(h, a);
    }
    forall c {:trigger BaseOk(h1, c)} | c in h1.bases ensures BaseOk(h1, c) {
      assert BaseOk(h, c);
    }
    forall a, b {:trigger Apart(h1, a, b)} | a in h1.size && b in h1.size ensures Apart(h1, a, b) {
      assert Apart(h, a, b);
    }
  }

  lemma InList(h: Heap, x: nat)
    requires Inv(h) && x in h.free
    ensures x in h.size
  {
    var i: nat :| i < |h.free| && h.free[i] == x;
    assert Listed(h, i);
  }

  lemma UnlinkInv(h: Heap, i: nat)
    requires Inv(h) && i < |h.free|
    ensures Inv(h.(free := Without(h.free, i))) && h.free[i] in h.size
    ensures forall x :: Used(h.(free := Without(h.free, i)), x) <==> Used(h, x) || x == h.free[i]
  {
    hide Without;
    WithoutMembers(h.free, i);
    forall x | x in h.free ensures x in h.size {
      InList(h, x);
    }
    RelistInv(h, Without(h.free, i));
  }

  lemma LinkInv(h: Heap, a: nat)
    requires Inv(h) && Used(h, a)
    ensures Inv(h.(free := [a] + h.free))
    ensures forall x :: Used(h.(free := [a] + h.free), x) <==> Used(h, x) && x != a
  {
    forall x | x in h.free ensures x in h.size {
      InList(h, x);
    }
    RelistInv(h, [a] + h.free);
  }

  lemma SplitRoom(h: Heap, a: nat, n: nat)
    requires Inv(h) && a in h.size && MIN_BLOCK <= n && MIN_BLOCK <= h.size[a] - n
    ensures BlockOk(h, a) && a + n !in h.size && a + n !in h.free
  {
    assert BlockOk(h, a);
    assert a + n in h.size ==> Apart(h, a, a + n);
    if a + n in h.free {
      InList(h, a + n);
    }
  }

  lemma SplitBlockOk(h: Heap, a: nat, n: nat, b: nat)
    requires BlockOk1(h, a) && a + n !in h.size && n % 16 == 0 && MIN_BLOCK <= n && MIN_BLOCK <= h.size[a] - n
    requires b == a + n || BlockOk1(h, b)
    ensures BlockOk1(Split(h, a, n), b)
  {
  }

  predicate BlockOk1(h: Heap, a: nat) {
    a in h.size && BlockOk(h, a)
  }

  lemma SplitApart(h: Heap, a: nat, n: nat, x: nat, y: nat)
    requires a in h.size && a in h.home && 0 < n < h.size[a] && a + n !in h.size
    requires x in Split(h, a, n).size && y in Split(h, a, n).size
    requires x in h.size ==> Apart(h, x, a) && Apart(h, a, x) && (y in h.size ==> Apart(h, x, y))
    requires y in h.size ==> Apart(h, a, y)
    ensures Apart(Split(h, a, n), x, y)
  {
  }

  lemma SplitInv(h: Heap, a: nat, n: nat)
    requires Inv(h) && a in h.size && n % 16 == 0 && MIN_BLOCK <= n && MIN_BLOCK <= h.size[a] - n
    ensures BlockOk(h, a) && a + n !in h.size
    ensures Inv(Split(h, a, n))
    ensures forall x :: Used(Split(h, a, n), x) <==> Used(h, x) || x == a + n
  {
    SplitRoom(h, a, n);
    var h1 := Split(h, a, n);
    assert forall x :: x in h1.size <==> x in h.size || x == a + n;
    assert h1.free == h.free && h1.bases == h.bases;
    hide Split, SetSize, Apart, BlockOk;
    forall b {:trigger BlockOk(h1, b)} | b in h1.size ensures BlockOk(h1, b) {
      assert b in h.size ==> BlockOk(h, b);
      SplitBlockOk(h, a, n, b);
    }
    forall c {:trigger BaseOk(h1, c)} | c in h1.bases ensures BaseOk(h1, c) {
      assert BaseOk(h, c);
    }
    forall x, y {:trigger Apart(h1, x, y)} | x in h1.size && y in h1.size ensures Apart(h1, x, y) {
      if x in h.size {
        assert Apart(h, x, a) && Apart(h, a, x);
        assert y in h.size ==> Apart(h, x, y);
      }
      assert y in h.size ==> Apart(h, a, y);
      SplitApart(h, a, n, x, y);
    }
    forall i: nat {:trigger Listed(h1, i)} | i < |h1.free| ensures Listed(h1, i) {
      assert Listed(h, i);
    }
  }

  /** Neighbours lie in the same chunk. */
  lemma SameHome(h: Heap, a: nat)
    requires Inv(h) && a in h.size && a + h.size[a] in h.size
    ensures BlockOk(h, a) && BlockOk(h, a + h.size[a])
    ensures h.home[a + h.size[a]] == h.home[a]
  {
    var b := a + h.size[a];
    assert BlockOk(h, a) && BlockOk(h, b);
    assert BasesApart(h.home[a], h.home[b]) && BasesApart(h.home[b], h.home[a]);
  }

  lemma MergeBlockOk(h: Heap, a: nat, x: nat)
    requires BlockOk1(h, a) && BlockOk1(h, a + h.size[a]) && h.home[a + h.size[a]] == h.home[a]
    requires BlockOk1(h, x) && x != a + h.size[a] && Apart(h, x, a) && Apart(h, a, x)
    ensures BlockOk1(Merge(h, a), x)
  {
  }

  lemma MergeApart(h: Heap, a: nat, x: nat, y: nat)
    requires a in h.size && a + h.size[a] in h.size
    requires x in Merge(h, a).size && y in Merge(h, a).size && h.size[a] > 0
    requires Apart(h, x, y) && Apart(h, a + h.size[a], y) && Apart(h, a, y)
    ensures Apart(Merge(h, a), x, y)
  {
  }

  lemma MergeInv(h: Heap, a: nat)
    requires Inv(h) && a in h.size && a + h.size[a] in h.size && a + h.size[a] !in h.free
    ensures Inv(Merge(h, a))
    ensures forall x :: Used(Merge(h, a), x) <==> Used(h, x) && x != a + h.size[a]
  {
    SameHome(h, a);
    var b := a + h.size[a];
    var h1 := Merge(h, a);
    assert forall x :: x in h1.size <==> x in h.size && x != b;
    assert h1.free == h.free && h1.bases == h.bases;
    hide Merge, SetSize, Apart, BlockOk;
    forall x {:trigger BlockOk(h1, x)} | x in h1.size ensures BlockOk(h1, x) {
      assert BlockOk(h, x) && Apart(h, x, a) && Apart(h, a, x);
      MergeBlockOk(h, a, x);
    }
    forall c {:trigger BaseOk(h1, c)} | c in h1.bases ensures BaseOk(h1, c) {
      assert BaseOk(h, c);
      BaseNotBehind(h, a, c);
    }
    forall x, y {:trigger Apart(h1, x, y)} | x in h1.size && y in h1.size ensures Apart(h1, x, y) {
      assert Apart(h, x, y) && Apart(h, b, y) && Apart(h, a, y);
      MergeApart(h, a, x, y);
    }
    forall i: nat {:trigger Listed(h1, i)} | i < |h1.free| ensures Listed(h1, i) {
      assert Listed(h, i);
    }
  }

  /** A chunk does not start behind another block. */
  lemma BaseNotBehind(h: Heap, a: nat, c: nat)
    requires Inv(h) && a in h.size && c in h.bases
    ensures a + h.size[a] != c
  {
    assert BlockOk(h, a) && BasesApart(h.home[a], c) && BasesApart(c, h.home[a]);
  }

  lemma GrowInv(h: Heap, c: nat)
    requires Inv(h) && c > 0 && c % 16 == 0 && c + MAPPED <= TWO63
    requires forall d :: d in h.bases ==> c + MAPPED <= d || d + MAPPED <= c
    ensures Inv(Grow(h, c)) && c !in h.size
    ensures forall x :: Used(Grow(h, c), x) <==> Used(h, x)
  {
    var h1 := Grow(h, c);
    GrowRoom(h, c);
    forall a {:trigger BlockOk(h1, a)} | a in h1.size ensures BlockOk(h1, a) {
      GrowBlockOk(h, c, a);
    }
    hide BlockOk;
    forall d {:trigger BaseOk(h1, d)} | d in h1.bases ensures BaseOk(h1, d) {
      assert d == c || BaseOk(h, d);
    }
    forall d, e {:trigger BasesApart(d, e)} | d in h1.bases && e in h1.bases ensures BasesApart(d, e) {
      assert d in h.bases && e in h.bases ==> BasesApart(d, e);
    }
    forall x, y {:trigger Apart(h1, x, y)} | x in h1.size && y in h1.size ensures Apart(h1, x, y) {
      if x != c && y != c {
        assert Apart(h, x, y);
      }
    }
    forall i: nat {:trigger Listed(h1, i)} | i < |h1.free| ensures Listed(h1, i) {
      if i > 0 {
        assert Listed(h, i - 1);
      }
    }
  }

  lemma GrowRoom(h: Heap, c: nat)
    requires Inv(h) && forall d :: d in h.bases ==> c + MAPPED <= d || d + MAPPED <= c
    ensures forall a :: a in h.size ==> a + h.size[a] <= c || c + MAPPED <= a
    ensures c !in h.size && c !in h.free
  {
    forall a | a in h.size
      ensures (a + h.size[a] <= c || c + MAPPED <= a) && a != c
    {
      assert BlockOk(h, a);
    }
    if c in h.free {
      InList(h, c);
    }
  }

  lemma GrowBlockOk(h: Heap, c: nat, a: nat)
    requires Inv(h) && c % 16 == 0 && c !in h.size && a in Grow(h, c).size
    ensures BlockOk(Grow(h, c), a)
  {
    assert a == c || BlockOk(h, a);
  }

  // --- what the invariant says ---

  /** The addresses of the blocks from `a` up to `end`, in order. */
  ghost predicate Tiles(size: map<nat, nat>, a: nat, end: nat)
    decreases end - a
  {
    a == end || (a < end && a in size && size[a] > 0 && a + size[a] <= end && Tiles(size, a + size[a], end))
  }

  /** Every chunk is tiled by its blocks, exactly up to the guard. */
  lemma ChunkTiled(h: Heap, c: nat)
    requires Inv(h) && c in h.bases
    ensures Tiles(h.size, c, c + CHUNK)
  {
    assert BaseOk(h, c) && BlockOk(h, c) && BasesApart(h.home[c], c);
    TiledFrom(h, c, c);
  }

  lemma {:induction false} TiledFrom(h: Heap, c: nat, a: nat)
    requires Inv(h) && c in h.bases && c <= a <= c + CHUNK
    requires (a in h.size && a in h.home && h.home[a] == c) || a == c + CHUNK
    ensures Tiles(h.size, a, c + CHUNK)
    decreases c + CHUNK - a
  {
    if a < c + CHUNK {
      assert BlockOk(h, a);
      var b := a + h.size[a];
      if b in h.size {
        SameHome(h, a);
      } else {
        assert IsGuard(h, b);
        assert BasesApart(b - CHUNK, c);
      }
      TiledFrom(h, c, b);
    }
  }

  /** The sizes of the blocks of a chunk add up to the chunk. */
  ghost function TotalSize(size: map<nat, nat>, a: nat, end: nat): nat
    requires Tiles(size, a, end)
    decreases end - a
  {
    if a == end then 0 else size[a] + TotalSize(size, a + size[a], end)
  }

  lemma {:induction false} TilesAddUp(size: map<nat, nat>, a: nat, end: nat)
    requires Tiles(size, a, end)
    ensures a <= end && TotalSize(size, a, end) == end - a
    decreases end - a
  {
    if a < end {
      TilesAddUp(size, a + size[a], end);
    }
  }

  /** A byte of the payload of a block. */
  predicate InPayload(h: Heap, a: nat, w: nat) {
    a in h.size && a + 16 <= w < a + h.size[a]
  }

  /** Payloads of different blocks are disjoint, and hold no header. */
  lemma PayloadsApart(h: Heap, a: nat, b: nat, w: nat)
    requires Inv(h) && InPayload(h, a, w) && b in h.size
    ensures w != b && w != b + 8 && (InPayload(h, b, w) ==> a == b)
    ensures forall c :: c in h.bases ==> w != c + CHUNK
  {
    assert BlockOk(h, a) && BlockOk(h, b) && Apart(h, a, b) && Apart(h, b, a);
    forall c | c in h.bases
      ensures w != c + CHUNK
    {
      assert BasesApart(h.home[a], c) && BasesApart(c, h.home[a]);
    }
  }
}
