/** What malloc, free and realloc do to the blocks, and what callers get from it. */
module HeapSpec {
  import opened Words
  import opened HeapBlocks

  /** `align16`: the sum wraps around as `u64` does. */
  function Align16(size: Word): (need: Word)
    ensures need % 16 == 0 && need >= MIN_BLOCK
  {
    var a := Wrap(size + 31);
    if a - a % 16 < MIN_BLOCK then MIN_BLOCK else a - a % 16
  }

  /** The block leaves room for the header and `size` bytes exactly if the sum
      did not wrap around. */
  lemma AlignRoom(size: Word)
    ensures Align16(size) >= size + 16 <==> size + 31 < TWO64
    ensures size + 31 < TWO64 ==> Align16(size) < size + 32 || Align16(size) == MIN_BLOCK
  {
  }

  /** The first block of the free list, from position `i` on, that is big enough. */
  function FirstFit(h: Heap, need: nat, i: nat): (r: Option<nat>)
    requires i <= |h.free| && forall j :: 0 <= j < |h.free| ==> h.free[j] in h.size
    ensures r.Some? ==> i <= r.value < |h.free| && h.size[h.free[r.value]] >= need
    ensures r.Some? ==> forall j :: i <= j < r.value ==> h.size[h.free[j]] < need
    ensures r.None? ==> forall j :: i <= j < |h.free| ==> h.size[h.free[j]] < need
    decreases |h.free| - i
  {
    if i == |h.free| then None
    else if h.size[h.free[i]] >= need then Some(i)
    else FirstFit(h, need, i + 1)
  }

  ghost predicate ListOk(h: Heap) {
    && (forall j :: 0 <= j < |h.free| ==> h.free[j] in h.size)
    && (forall a :: a in h.size ==> a in h.home)
  }

  lemma InvList(h: Heap)
    requires Inv(h)
    ensures ListOk(h)
  {
    forall j | 0 <= j < |h.free| ensures h.free[j] in h.size {
      assert Listed(h, j);
    }
    forall a | a in h.size ensures a in h.home {
      assert BlockOk(h, a);
    }
  }

  /** The position in the list of the block that satisfies a request. */
  ghost function Fit(h: Heap, need: nat): (r: Option<nat>)
    requires Inv(h)
    ensures ListOk(h)
    ensures r.Some? ==> r.value < |h.free| && h.size[h.free[r.value]] >= need
  {
    InvList(h);
    FirstFit(h, need, 0)
  }

  lemma FitIs(h: Heap, need: nat, i: nat)
    requires Inv(h) && ListOk(h) && i <= |h.free|
    requires forall j :: 0 <= j < i ==> h.size[h.free[j]] < need
    requires i < |h.free| ==> h.size[h.free[i]] >= need
    ensures Fit(h, need) == if i < |h.free| then Some(i) else None
  {
    var r := FirstFit(h, need, 0);
  }

  /** Whole, when what is left over would be too small for a block. */
  predicate TakesWhole(h: Heap, i: nat, need: nat)
    requires i < |h.free| && h.free[i] in h.size
  {
    h.size[h.free[i]] < need + MIN_BLOCK
  }

  /** The block handed out from free block `i`: its upper end, or all of it. */
  function AllocBlock(h: Heap, i: nat, need: nat): nat
    requires i < |h.free| && h.free[i] in h.size && h.size[h.free[i]] >= need
  {
    if TakesWhole(h, i, need) then h.free[i] else h.free[i] + (h.size[h.free[i]] - need)
  }

  ghost function AllocAt(h: Heap, i: nat, need: nat): Heap
    requires ListOk(h) && i < |h.free| && h.size[h.free[i]] >= need
  {
    if TakesWhole(h, i, need) then h.(free := Without(h.free, i))
    else Split(h, h.free[i], h.size[h.free[i]] - need)
  }

  /** What a caller who holds block `a` of `n` bytes gets: nobody else changed. */
  ghost predicate Allocated(h: Heap, h': Heap, a: nat) {
    && Inv(h') && Used(h', a) && !Used(h, a)
    && (forall x {:trigger Used(h', x)} {:trigger Used(h, x)} :: Used(h', x) <==> Used(h, x) || x == a)
    && (forall x {:trigger h'.size[x]} :: Used(h, x) ==> h'.size[x] == h.size[x])
  }

  lemma AllocContract(h: Heap, i: nat, need: nat)
    requires Inv(h) && ListOk(h) && i < |h.free| && need % 16 == 0 && MIN_BLOCK <= need <= h.size[h.free[i]]
    ensures Allocated(h, AllocAt(h, i, need), AllocBlock(h, i, need))
    ensures var n := AllocAt(h, i, need).size[AllocBlock(h, i, need)]; need <= n < need + MIN_BLOCK
  {
    var a := h.free[i];
    assert BlockOk(h, a);
    if TakesWhole(h, i, need) {
      UnlinkInv(h, i);
    } else {
      SplitInv(h, a, h.size[a] - need);
    }
  }

  // --- malloc ---

  /** A chunk that the kernel may map next. */
  predicate ChunkFits(h: Heap, c: int) {
    c > 0 && c % 16 == 0 && c + MAPPED <= TWO63
    && forall d :: d in h.bases ==> c + MAPPED <= d || d + MAPPED <= c
  }

  /** The results of the mmap calls to come: failures are negative, successes are
      page aligned and apart from everything mapped. */
  ghost predicate KernelOk(h: Heap, kernel: seq<int>) {
    && (forall i {:trigger kernel[i]} :: 0 <= i < |kernel| && kernel[i] >= 0 ==> ChunkFits(h, kernel[i]))
    && (forall i, j :: 0 <= i < j < |kernel| && kernel[i] >= 0 && kernel[j] >= 0 ==>
          kernel[i] + MAPPED <= kernel[j] || kernel[j] + MAPPED <= kernel[i])
  }

  /** The heap, the block (0 for none) and the mmap results that are left. */
  datatype Outcome = Outcome(heap: Heap, block: nat, kernel: seq<int>)

  /** Try the list; map another chunk when nothing fits; give up when that fails. */
  ghost function Malloc(h: Heap, need: nat, kernel: seq<int>): (r: Outcome)
    requires Inv(h) && KernelOk(h, kernel)
    ensures Inv(h)
    decreases |kernel|
  {
    var fit := Fit(h, need);
    if fit.Some? then Outcome(AllocAt(h, fit.value, need), AllocBlock(h, fit.value, need), kernel)
    else if |kernel| == 0 then Outcome(h, 0, [])
    else if kernel[0] < 0 then Outcome(h, 0, kernel[1..])
    else
      KernelNext(h, kernel);
      Malloc(Grow(h, kernel[0]), need, kernel[1..])
  }

  lemma KernelNext(h: Heap, kernel: seq<int>)
    requires Inv(h) && KernelOk(h, kernel) && |kernel| > 0
    ensures kernel[0] < 0 ==> KernelOk(h, kernel[1..])
    ensures kernel[0] >= 0 ==> Inv(Grow(h, kernel[0])) && KernelOk(Grow(h, kernel[0]), kernel[1..])
    ensures kernel[0] >= 0 ==> forall x :: Used(Grow(h, kernel[0]), x) <==> Used(h, x)
  {
    if kernel[0] >= 0 {
      assert ChunkFits(h, kernel[0]);
      GrowInv(h, kernel[0]);
    }
  }

  /** A successful malloc hands out a block nobody used, with enough room, and
      touches no other block in use; a failed one leaves all of them alone. */
  lemma {:induction false} MallocContract(h: Heap, need: nat, kernel: seq<int>)
    requires Inv(h) && KernelOk(h, kernel) && need % 16 == 0 && need >= MIN_BLOCK
    ensures var r := Malloc(h, need, kernel);
      && Inv(r.heap) && KernelOk(r.heap, r.kernel)
      && (r.block == 0 ==> forall x {:trigger Used(r.heap, x)} {:trigger Used(h, x)} ::
            (Used(r.heap, x) <==> Used(h, x)) && (Used(h, x) ==> r.heap.size[x] == h.size[x]))
      && (r.block != 0 ==> Allocated(h, r.heap, r.block) && need <= r.heap.size[r.block] < need + MIN_BLOCK)
    decreases |kernel|
  {
    InvList(h);
    var fit := FirstFit(h, need, 0);
    if fit.Some? {
      AllocContract(h, fit.value, need);
      BlockPositive(AllocAt(h, fit.value, need), AllocBlock(h, fit.value, need));
    } else if |kernel| > 0 {
      KernelNext(h, kernel);
      if kernel[0] >= 0 {
        MallocContract(Grow(h, kernel[0]), need, kernel[1..]);
      }
    }
  }

  lemma BlockPositive(h: Heap, a: nat)
    requires Inv(h) && a in h.size
    ensures a > 0
  {
    assert BlockOk(h, a);
    assert BaseOk(h, h.home[a]);
  }

  /** One chunk is enough for a request that fits in one: malloc succeeds, mapping
      at most one chunk, unless the kernel refuses. */
  lemma MallocSucceeds(h: Heap, need: nat, kernel: seq<int>)
    requires Inv(h) && KernelOk(h, kernel) && need % 16 == 0 && MIN_BLOCK <= need <= CHUNK
    requires |kernel| > 0 && kernel[0] >= 0
    ensures var r := Malloc(h, need, kernel); r.block != 0 && (r.kernel == kernel || r.kernel == kernel[1..])
  {
    InvList(h);
    MallocContract(h, need, kernel);
    var fit := FirstFit(h, need, 0);
    if fit.Some? {
      AllocContract(h, fit.value, need);
      BlockPositive(AllocAt(h, fit.value, need), AllocBlock(h, fit.value, need));
    } else {
      KernelNext(h, kernel);
      var c: nat := kernel[0];
      var h1 := Grow(h, c);
      InvList(h1);
      assert h1.free[0] == c && h1.size[c] == CHUNK;
      assert FirstFit(h1, need, 0) == Some(0);
      AllocContract(h1, 0, need);
      BlockPositive(AllocAt(h1, 0, need), AllocBlock(h1, 0, need));
    }
  }

  /** A request beyond a chunk maps one chunk after another until the kernel
      refuses, and then fails. */
  lemma {:induction false} MallocTooBig(h: Heap, need: nat, kernel: seq<int>)
    requires Inv(h) && KernelOk(h, kernel) && need > CHUNK
    ensures var r := Malloc(h, need, kernel);
      r.block == 0 && (r.kernel == [] || exists k: nat :: k < |kernel| && kernel[k] < 0 && r.kernel == kernel[k + 1..])
    decreases |kernel|
  {
    InvList(h);
    forall j | 0 <= j < |h.free|
      ensures h.size[h.free[j]] <= CHUNK
    {
      assert BlockOk(h, h.free[j]);
    }
    if |kernel| > 0 {
      KernelNext(h, kernel);
      if kernel[0] >= 0 {
        var rest := kernel[1..];
        MallocTooBig(Grow(h, kernel[0]), need, rest);
        var r := Malloc(h, need, kernel);
        if r.kernel != [] {
          var k: nat :| k < |rest| && rest[k] < 0 && r.kernel == rest[k + 1..];
          assert kernel[k + 1] < 0 && r.kernel == kernel[k + 2..];
        }
      } else {
        assert kernel[0 + 1..] == kernel[1..];
      }
    }
  }

  // --- free ---

  function IndexOf(free: seq<nat>, x: nat): (i: nat)
    requires x in free
    ensures i < |free| && free[i] == x
  {
    if free[0] == x then 0 else IndexOf(free[1..], x) + 1
  }

  /** The list without `x`. */
  function Removed(free: seq<nat>, x: nat): seq<nat> {
    if x in free then Without(free, IndexOf(free, x)) else free
  }

  /** The block behind `a` joins it, if it is free. */
  function Coalesced(h: Heap, a: nat): Heap
    requires a in h.size
  {
    var b := a + h.size[a];
    if b in h.size && b in h.free then Merge(h.(free := Removed(h.free, b)), a) else h
  }

  function Free(h: Heap, a: nat): Heap
    requires a in h.size
  {
    var h1 := Coalesced(h, a);
    h1.(free := [a] + h1.free)
  }

  lemma CoalescedInv(h: Heap, a: nat)
    requires Inv(h) && Used(h, a)
    ensures Inv(Coalesced(h, a)) && Used(Coalesced(h, a), a)
    ensures forall x {:trigger Used(h, x)} {:trigger Used(Coalesced(h, a), x)} :: Used(Coalesced(h, a), x) <==> Used(h, x)
    ensures forall x :: Used(h, x) && x != a ==> Coalesced(h, a).size[x] == h.size[x]
    ensures Coalesced(h, a).bases == h.bases
  {
    var b := a + h.size[a];
    if b in h.size && b in h.free {
      UnlinkInv(h, IndexOf(h.free, b));
      MergeInv(h.(free := Removed(h.free, b)), a);
    }
  }

  /** The first block of the list that is big enough serves a request: from its upper
      end, or whole when less than 32 bytes would be left. No chunk is mapped. */
  lemma MallocFirst(h: Heap, need: nat, kernel: seq<int>, i: nat)
    requires Inv(h) && KernelOk(h, kernel) && need % 16 == 0 && need >= MIN_BLOCK && i < |h.free|
    requires forall j :: 0 <= j <= i ==> h.free[j] in h.size && (h.size[h.free[j]] >= need <==> j == i)
    ensures var r, big := Malloc(h, need, kernel), h.size[h.free[i]];
      && r.kernel == kernel && r.block in r.heap.size
      && r.heap.size[r.block] == (if big - need < 32 then big else need)
      && r.block + r.heap.size[r.block] == h.free[i] + big
  {
    hide Inv;
    InvList(h);
    FitIs(h, need, i);
  }

  /** After free the block is gone and no other block in use has changed. */
  lemma FreeContract(h: Heap, a: nat)
    requires Inv(h) && Used(h, a)
    ensures Inv(Free(h, a)) && Free(h, a).bases == h.bases
    ensures forall x {:trigger Used(h, x)} {:trigger Used(Free(h, a), x)} :: Used(Free(h, a), x) <==> Used(h, x) && x != a
    ensures forall x :: Used(h, x) && x != a ==> Free(h, a).size[x] == h.size[x]
  {
    CoalescedInv(h, a);
    LinkInv(Coalesced(h, a), a);
  }

  /** A free block behind the freed one becomes part of it; otherwise the block is
      free as it was. It is the first in the list in either case. */
  lemma FreeJoins(h: Heap, a: nat)
    requires Inv(h) && Used(h, a)
    ensures var b, h' := a + h.size[a], Free(h, a);
      && |h'.free| > 0 && h'.free[0] == a && a in h'.size
      && (b in h.size && b in h.free ==>
            h'.size[a] == h.size[a] + h.size[b] && b !in h'.size && b !in h'.free && |h'.free| == |h.free|)
      && (!(b in h.size && b in h.free) ==> h'.size == h.size && h'.free == [a] + h.free)
  {
    FreeContract(h, a);
    var b := a + h.size[a];
    if b in h.size && b in h.free {
      UnlinkInv(h, IndexOf(h.free, b));
      BlockPositive(h, b);
      SizeBound(h, a);
    }
  }

  // --- realloc ---

  /** The block keeps `need` bytes; a rest big enough for a block is freed. */
  function Shrink(h: Heap, a: nat, need: nat): Heap
    requires a in h.size && a in h.home && need <= h.size[a]
  {
    if h.size[a] - need < MIN_BLOCK then h else Free(Split(h, a, need), a + need)
  }

  lemma ShrinkContract(h: Heap, a: nat, need: nat)
    requires Inv(h) && Used(h, a) && need % 16 == 0 && MIN_BLOCK <= need <= h.size[a]
    ensures BlockOk(h, a) && Inv(Shrink(h, a, need)) && Shrink(h, a, need).bases == h.bases
    ensures forall x {:trigger Used(h, x)} {:trigger Used(Shrink(h, a, need), x)} :: Used(Shrink(h, a, need), x) <==> Used(h, x)
    ensures forall x :: Used(h, x) && x != a ==> Shrink(h, a, need).size[x] == h.size[x]
    ensures a in Shrink(h, a, need).size && need <= Shrink(h, a, need).size[a] <= h.size[a]
  {
    hide Inv, Free;
    HomeOf(h, a);
    if h.size[a] - need >= MIN_BLOCK {
      SplitInv(h, a, need);
      FreeContract(Split(h, a, need), a + need);
    }
  }

  lemma HomeOf(h: Heap, a: nat)
    requires Inv(h) && a in h.size
    ensures a in h.home && BlockOk(h, a)
  {
    assert BlockOk(h, a);
  }

  /** How realloc deals with a block that has to grow. */
  datatype Path = Fits | Extends | Blocked | Moves

  /** `Blocked`: the block behind is free but too small, and realloc returns the
      old block as it is. */
  function PathOf(h: Heap, a: nat, need: nat): Path
    requires a in h.size
  {
    var b := a + h.size[a];
    if need <= h.size[a] then Fits
    else if b in h.size && b in h.free then (if h.size[a] + h.size[b] >= need then Extends else Blocked)
    else Moves
  }

  ghost function Realloc(h: Heap, a: nat, need: nat, kernel: seq<int>): Outcome
    requires Inv(h) && Used(h, a) && KernelOk(h, kernel) && need % 16 == 0 && need >= MIN_BLOCK
  {
    assert BlockOk(h, a);
    CoalescedInv(h, a);
    assert BlockOk(Coalesced(h, a), a);
    match PathOf(h, a, need)
    case Fits => Outcome(Shrink(h, a, need), a, kernel)
    case Extends => Outcome(Shrink(Coalesced(h, a), a, need), a, kernel)
    case Blocked => Outcome(h, a, kernel)
    case Moves =>
      var r := Malloc(h, need, kernel);
      MallocContract(h, need, kernel);
      if r.block == 0 then r else Outcome(Free(r.heap, a), r.block, r.kernel)
  }

  /** Realloc keeps the heap in order, touches no other block in use, and hands
      out one block in place of the old one, or fails and keeps that. */
  lemma ReallocContract(h: Heap, a: nat, need: nat, kernel: seq<int>)
    requires Inv(h) && Used(h, a) && KernelOk(h, kernel) && need % 16 == 0 && need >= MIN_BLOCK
    ensures var r := Realloc(h, a, need, kernel);
      && Inv(r.heap) && KernelOk(r.heap, r.kernel)
      && (forall x {:trigger Used(h, x)} :: Used(h, x) && x != a ==> Used(r.heap, x) && r.heap.size[x] == h.size[x])
      && (forall x {:trigger Used(r.heap, x)} ::
            Used(r.heap, x) <==> (Used(h, x) && (x != a || r.block == 0)) || (x == r.block && x != 0))
      && (r.block == a || !Used(h, r.block))
  {
    BlockPositive(h, a);
    match PathOf(h, a, need)
    case Fits => ShrinkContract(h, a, need);
    case Extends =>
      CoalescedInv(h, a);
      ShrinkContract(Coalesced(h, a), a, need);
    case Blocked =>
    case Moves =>
      var r := Malloc(h, need, kernel);
      MallocContract(h, need, kernel);
      if r.block != 0 {
        FreeContract(r.heap, a);
        KernelSame(r.heap, Free(r.heap, a), r.kernel);
      } else {
        BlockPositive(h, a);
        if Used(h, 0) {
          BlockPositive(h, 0);
        }
      }
  }

  lemma KernelSame(h: Heap, h': Heap, kernel: seq<int>)
    requires KernelOk(h, kernel) && h'.bases == h.bases
    ensures KernelOk(h', kernel)
  {
    forall i {:trigger kernel[i]} | 0 <= i < |kernel| && kernel[i] >= 0 ensures ChunkFits(h', kernel[i]) {
      assert ChunkFits(h, kernel[i]);
    }
  }

  /** The block has to grow, and the block behind it is free but not big enough. */
  predicate BehindTooSmall(h: Heap, a: nat, need: nat)
    requires a in h.size
  {
    var b := a + h.size[a];
    h.size[a] < need && b in h.size && b in h.free && h.size[a] + h.size[b] < need
  }

  /** Realloc hands out enough room exactly if the block behind was not a free
      one that is too small. */
  lemma ReallocRoom(h: Heap, a: nat, need: nat, kernel: seq<int>)
    requires Inv(h) && Used(h, a) && KernelOk(h, kernel) && need % 16 == 0 && need >= MIN_BLOCK
    requires Realloc(h, a, need, kernel).block != 0
    ensures var r := Realloc(h, a, need, kernel);
      r.block in r.heap.size && (r.heap.size[r.block] >= need <==> !BehindTooSmall(h, a, need))
  {
    hide Inv, Malloc, Free, Shrink, KernelOk;
    BlockPositive(h, a);
    match PathOf(h, a, need)
    case Fits => ShrinkContract(h, a, need);
    case Extends =>
      CoalescedInv(h, a);
      ShrinkContract(Coalesced(h, a), a, need);
    case Blocked =>
    case Moves =>
      MallocContract(h, need, kernel);
      FreeContract(Malloc(h, need, kernel).heap, a);
  }

  /** A block that is big enough, or can be joined with the free block behind it to
      be big enough, stays where it is; less than a least block is wasted, and no
      chunk is mapped. */
  lemma ReallocInPlace(h: Heap, a: nat, need: nat, kernel: seq<int>)
    requires Inv(h) && Used(h, a) && KernelOk(h, kernel) && need % 16 == 0 && need >= MIN_BLOCK
    requires need <= h.size[a]
             || (a + h.size[a] in h.size && a + h.size[a] in h.free && need <= h.size[a] + h.size[a + h.size[a]])
    ensures var r := Realloc(h, a, need, kernel);
      r.block == a && r.kernel == kernel && a in r.heap.size && need <= r.heap.size[a] < need + 32
  {
    hide Inv, Malloc, Free, Split, KernelOk;
    if need <= h.size[a] {
      ShrinkTight(h, a, need);
    } else {
      CoalescedInv(h, a);
      ShrinkTight(Coalesced(h, a), a, need);
    }
  }

  lemma ShrinkTight(h: Heap, a: nat, need: nat)
    requires Inv(h) && Used(h, a) && need % 16 == 0 && MIN_BLOCK <= need <= h.size[a]
    ensures a in h.home && a in Shrink(h, a, need).size && need <= Shrink(h, a, need).size[a] < need + 32
  {
    hide Inv, Free;
    HomeOf(h, a);
    if h.size[a] - need >= MIN_BLOCK {
      SplitInv(h, a, need);
      FreeContract(Split(h, a, need), a + need);
    }
  }

  // --- what it means for the caller ---

  /** A block handed out by malloc has room for the request exactly if rounding
      up did not wrap around. */
  lemma MallocEnough(h: Heap, size: Word, kernel: seq<int>)
    requires Inv(h) && KernelOk(h, kernel) && Malloc(h, Align16(size), kernel).block != 0
    ensures var r := Malloc(h, Align16(size), kernel);
      r.block in r.heap.size && (r.heap.size[r.block] - 16 >= size <==> size + 31 < TWO64)
  {
    MallocContract(h, Align16(size), kernel);
    var r := Malloc(h, Align16(size), kernel);
    SizeBound(r.heap, r.block);
    AlignRoom(size);
  }

  /** A request of 2^64 - 1 bytes wraps around to the least block, with room for
      16 bytes. */
  lemma MallocTooSmall()
    ensures Inv(Empty()) && KernelOk(Empty(), [4096])
    ensures Malloc(Empty(), Align16(TWO64 - 1), [4096]) == Outcome(AfterOne(), 69536, [])
    ensures AfterOne().size[69536] - 16 == 16
  {
    hide Inv, KernelOk, Malloc;
    assert Align16(TWO64 - 1) == 32;
    FirstRequest();
  }

  lemma SizeBound(h: Heap, a: nat)
    requires Inv(h) && a in h.size
    ensures MIN_BLOCK <= h.size[a] <= CHUNK && h.size[a] % 16 == 0
  {
    assert BlockOk(h, a);
  }

  /** A block handed out by realloc has room for the request exactly if, besides,
      the block behind the old one was not free but too small. */
  lemma ReallocEnough(h: Heap, a: nat, size: Word, kernel: seq<int>)
    requires Inv(h) && Used(h, a) && KernelOk(h, kernel) && Realloc(h, a, Align16(size), kernel).block != 0
    ensures var r := Realloc(h, a, Align16(size), kernel);
      r.block in r.heap.size &&
      (r.heap.size[r.block] - 16 >= size <==> size + 31 < TWO64 && !BehindTooSmall(h, a, Align16(size)))
  {
    hide Realloc, Align16;
    var need := Align16(size);
    var r := Realloc(h, a, need, kernel);
    ReallocRoom(h, a, need, kernel);
    ReallocContract(h, a, need, kernel);
    SizeBound(r.heap, r.block);
    SizeBound(h, a);
    AlignRoom(size);
    if r.heap.size[r.block] < need && size + 31 < TWO64 {
      MultiplesApart(r.heap.size[r.block], need);
    }
  }

  lemma MultiplesApart(a: nat, b: nat)
    requires a % 16 == 0 && b % 16 == 0 && a < b
    ensures a + 16 <= b
  {
  }

  // A chunk, one request of 16 bytes, a second one, and the release of the first.

  function Empty(): Heap {
    Heap(map[], map[], [], {})
  }

  function AfterOne(): Heap {
    Heap(map[4096 := 65440, 69536 := 32], map[4096 := 4096, 69536 := 4096], [4096], {4096})
  }

  function AfterTwo(): Heap {
    Heap(map[4096 := 65408, 69504 := 32, 69536 := 32], map[4096 := 4096, 69504 := 4096, 69536 := 4096], [4096], {4096})
  }

  function TwoThenOne(): Heap {
    AfterTwo().(free := [69536, 4096])
  }

  lemma FirstRequest()
    ensures Inv(Empty()) && KernelOk(Empty(), [4096]) && Inv(AfterOne()) && KernelOk(AfterOne(), [])
    ensures Malloc(Empty(), 32, [4096]) == Outcome(AfterOne(), 69536, [])
  {
    var h1 := Grow(Empty(), 4096);
    KernelNext(Empty(), [4096]);
    InvList(h1);
    assert AllocAt(h1, 0, 32) == AfterOne();
    assert FirstFit(h1, 32, 0) == Some(0);
    assert [4096][1..] == [];
    MallocContract(Empty(), 32, [4096]);
  }

  lemma SecondRequest()
    requires Inv(AfterOne()) && KernelOk(AfterOne(), [])
    ensures Inv(AfterTwo()) && Malloc(AfterOne(), 32, []) == Outcome(AfterTwo(), 69504, [])
  {
    hide Inv;
    InvList(AfterOne());
    assert AllocAt(AfterOne(), 0, 32) == AfterTwo();
    assert FirstFit(AfterOne(), 32, 0) == Some(0);
    MallocContract(AfterOne(), 32, []);
  }

  lemma FirstReleased()
    requires Inv(AfterTwo())
    ensures 69536 in AfterTwo().size && Free(AfterTwo(), 69536) == TwoThenOne() && Inv(TwoThenOne())
    ensures KernelOk(TwoThenOne(), [])
  {
    hide Inv;
    assert 69536 + 32 !in AfterTwo().size;
    FreeContract(AfterTwo(), 69536);
  }

  /** Three calls lead there, and growing the second block to 100 bytes then
      returns it as it is, with room for 16. */
  lemma ReallocTooSmall()
    ensures Inv(Empty()) && KernelOk(Empty(), [4096])
    ensures Malloc(Empty(), Align16(16), [4096]) == Outcome(AfterOne(), 69536, [])
    ensures Inv(AfterOne()) && KernelOk(AfterOne(), [])
    ensures Malloc(AfterOne(), Align16(16), []) == Outcome(AfterTwo(), 69504, [])
    ensures 69536 in AfterTwo().size && Free(AfterTwo(), 69536) == TwoThenOne()
    ensures Inv(TwoThenOne()) && KernelOk(TwoThenOne(), []) && Used(TwoThenOne(), 69504)
    ensures Realloc(TwoThenOne(), 69504, Align16(100), []) == Outcome(TwoThenOne(), 69504, [])
    ensures TwoThenOne().size[69504] - 16 == 16
  {
    hide Inv, KernelOk, Malloc, Free;
    FirstRequest();
    SecondRequest();
    FirstReleased();
  }
}
