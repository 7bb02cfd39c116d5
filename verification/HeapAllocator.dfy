/** The allocator: the list head in a global, everything else in memory. */
module HeapAllocator {
  import opened Words
  import opened HeapBlocks
  import opened HeapSpec
  import opened HeapMemory

  /** What a program may ask for; pointers are named by the position of the call
      that returned them. */
  datatype Call =
    | DoMalloc(size: Word)
    | DoFree(index: nat)
    | DoRealloc(index: nat, size: Word)
    | DoStore(index: nat, offset: Word, value: Word)

  class Allocator {
    var mem: Memory
    var heapHead: Word
    /** What the mmap calls to come will return. */
    var kernel: seq<int>
    ghost var heap: Heap

    /** The heap is in order, but for the headers of `skip`. */
    ghost predicate Sound(skip: set<nat>)
      reads this
    {
      Inv(heap) && Holds(heap, mem, heapHead, skip) && KernelOk(heap, kernel)
    }

    ghost predicate Valid()
      reads this
    {
      Sound({})
    }

    constructor (kernel: seq<int>)
      requires KernelOk(Heap(map[], map[], [], {}), kernel)
      ensures Valid() && heap == Heap(map[], map[], [], {}) && this.kernel == kernel
    {
      mem, heapHead, this.kernel := map[], 0, kernel;
      heap := Heap(map[], map[], [], {});
    }

    /** `unlink_free`: a walk along the list. */
    method UnlinkFree(target: Word, ghost skip: set<nat>) returns (r: Word)
      requires Sound(skip)
      modifies this`mem, this`heapHead, this`heap
      ensures target in old(heap.free) ==>
                r == target && heap == old(heap).(free := Removed(old(heap.free), target)) && Sound(skip + {target})
      ensures target !in old(heap.free) ==>
                r == 0 && heap == old(heap) && mem == old(mem) && heapHead == old(heapHead)
      ensures Kept(old(heap), old(mem), mem, {}) && SameHeaders(old(heap), old(mem), mem)
    {
      hide Inv, Holds, KernelOk, Kept, SameHeaders, Without;
      var cur, prev: Word := heapHead, 0;
      ghost var i: nat := 0;
      ListStart(heap, mem, heapHead, skip);
      while cur != 0
        invariant mem == old(mem) && heapHead == old(heapHead) && heap == old(heap)
        invariant i <= |heap.free| && cur == At(heap.free, i)
        invariant prev == if i == 0 then 0 else heap.free[i - 1]
        invariant forall j :: 0 <= j < i ==> heap.free[j] != target
        decreases |heap.free| - i
      {
        ListNext(heap, mem, heapHead, skip, i);
        if cur == target {
          var next := mem[cur + 8];
          Unlinked(heap, mem, heapHead, skip, i, kernel);
          if prev == 0 {
            heapHead := next;
          } else {
            mem := mem[prev + 8 := next];
          }
          heap := heap.(free := Without(heap.free, i));
          return cur;
        }
        prev := cur;
        cur := mem[cur + 8];
        i := i + 1;
      }
      ListEnd(heap, mem, heapHead, skip, i, target);
      return 0;
    }

    /** `alloc_from_list`: first fit, splitting from the end. */
    method AllocFromList(need: Word) returns (p: Word)
      requires Valid() && need % 16 == 0 && need >= MIN_BLOCK
      modifies this`mem, this`heapHead, this`heap
      ensures Inv(old(heap)) && Valid() && Kept(old(heap), old(mem), mem, {})
      ensures Fit(old(heap), need).None? ==> p == 0 && heap == old(heap) && mem == old(mem) && heapHead == old(heapHead)
      ensures Fit(old(heap), need).Some? ==>
                var i := Fit(old(heap), need).value;
                heap == AllocAt(old(heap), i, need) && p == AllocBlock(old(heap), i, need) + 16
    {
      hide Inv, Holds, KernelOk, Kept, SameHeaders, AllocAt, AllocBlock;
      var cur, prev: Word := heapHead, 0;
      ghost var i: nat := 0;
      ListStart(heap, mem, heapHead, {});
      FitStart(heap, need);
      while cur != 0
        invariant mem == old(mem) && heapHead == old(heapHead) && heap == old(heap)
        invariant i <= |heap.free| && cur == At(heap.free, i) && ListOk(heap)
        invariant prev == if i == 0 then 0 else heap.free[i - 1]
        invariant forall j :: 0 <= j < i ==> heap.size[heap.free[j]] < need
        decreases |heap.free| - i
      {
        ListNext(heap, mem, heapHead, {}, i);
        ClearIs(mem[cur]);
        SizesEven(heap, cur);
        var size := ClearAllocBit(mem[cur]);
        if size >= need {
          FitIs(heap, need, i);
          p := Take(cur, prev, size, need, i);
          return;
        }
        prev := cur;
        cur := mem[cur + 8];
        i := i + 1;
      }
      ListOver(heap, mem, heapHead, {}, i);
      FitIs(heap, need, i);
      return 0;
    }

    /** Hand out the block at `cur`: all of it, or its upper end. */
    method Take(cur: Word, prev: Word, size: Word, need: Word, ghost i: nat) returns (p: Word)
      requires Valid() && need % 16 == 0 && need >= MIN_BLOCK && ListOk(heap)
      requires i < |heap.free| && cur == heap.free[i] && size == heap.size[cur] && size >= need
      requires prev == (if i == 0 then 0 else heap.free[i - 1]) && (i > 0 ==> 0 < prev < TWO63)
      modifies this`mem, this`heapHead, this`heap
      ensures Valid() && Kept(old(heap), old(mem), mem, {})
      ensures heap == AllocAt(old(heap), i, need) && p == AllocBlock(old(heap), i, need) + 16
    {
      hide Inv, Holds, KernelOk, Kept, AllocAt, AllocBlock, SetAllocBit;
      SizesEven(heap, cur);
      AllocRoom(heap, mem, heapHead, i, need, kernel);
      var rest := size - need;
      if rest < MIN_BLOCK {
        AllocWhole(heap, mem, heapHead, i, need);
        SetIs(size);
        mem := mem[cur := SetAllocBit(size)];
        var next := mem[cur + 8];
        if prev == 0 {
          heapHead := next;
        } else {
          mem := mem[prev + 8 := next];
        }
        p := cur + 16;
      } else {
        AllocTop(heap, mem, heapHead, i, need);
        WordEven(need);
        SetIs(need);
        mem := mem[cur := rest];
        var used := cur + rest;
        mem := mem[used := SetAllocBit(need)];
        p := used + 16;
      }
      heap := AllocAt(heap, i, need);
    }

    /** `refill`: one more chunk, as a free block in front of a guard. */
    method Refill() returns (ok: bool)
      requires Valid()
      modifies this
      ensures Valid() && Kept(old(heap), old(mem), mem, {})
      ensures ok <==> |old(kernel)| > 0 && old(kernel)[0] >= 0
      ensures ok ==> heap == Grow(old(heap), old(kernel)[0]) && kernel == old(kernel)[1..]
      ensures !ok ==> heap == old(heap) && mem == old(mem) && heapHead == old(heapHead)
      ensures !ok ==> kernel == if |old(kernel)| == 0 then [] else old(kernel)[1..]
    {
      hide Inv, Holds, Kept;
      if |kernel| == 0 {
        KeptSelf(heap, mem);
        return false;
      }
      KernelNext(heap, kernel);
      var r := kernel[0];
      if r < 0 {
        KeptSelf(heap, mem);
        kernel := kernel[1..];
        return false;
      }
      assert ChunkFits(heap, kernel[0]);
      HoldsGrow(heap, mem, heapHead, r);
      var chunk: Word := r;
      mem := Mapped(mem, chunk);
      var size: Word := MAPPED - 64;
      mem := mem[chunk := size];
      mem := mem[chunk + 8 := heapHead];
      heapHead := chunk;
      mem := mem[chunk + size := 1];
      heap := Grow(heap, chunk);
      kernel := kernel[1..];
      return true;
    }

    /** `heap_malloc`: the list, then one chunk after another. */
    method Malloc(size: Word) returns (p: Word)
      requires Valid()
      modifies this
      ensures Inv(old(heap)) && KernelOk(old(heap), old(kernel)) && Valid() && Kept(old(heap), old(mem), mem, {})
      ensures var r := HeapSpec.Malloc(old(heap), Align16(size), old(kernel));
        heap == r.heap && kernel == r.kernel && p == if r.block == 0 then 0 else r.block + 16
    {
      hide Inv, Holds, KernelOk, Kept, AllocAt, AllocBlock, Align16;
      var need := Align16(size);
      KeptSelf(heap, mem);
      while true
        invariant Valid() && Kept(old(heap), old(mem), mem, {})
        invariant HeapSpec.Malloc(heap, need, kernel) == HeapSpec.Malloc(old(heap), need, old(kernel))
        invariant forall x {:trigger Used(heap, x)} {:trigger Used(old(heap), x)} ::
                    Used(old(heap), x) ==> Used(heap, x) && heap.size[x] == old(heap).size[x]
        decreases |kernel|
      {
        ghost var h, m := heap, mem;
        p := AllocFromList(need);
        KeptTrans(old(heap), h, old(mem), m, mem, {}, {});
        if p != 0 {
          MallocFound(h, need, kernel);
          return;
        }
        MallocMissed(h, need, kernel, p);
        var ok := Refill();
        KeptTrans(old(heap), h, old(mem), m, mem, {}, {});
        if !ok {
          return 0;
        }
      }
    }

    /** `ptr` may be given to `Free`: its block is in use, and its header has the
        right size, whatever the allocated bit says. */
    ghost predicate Releasable(ptr: nat)
      reads this
    {
      ptr >= 16 && Used(heap, ptr - 16) && Sound({ptr - 16})
      && ptr - 16 in mem && mem[ptr - 16] - mem[ptr - 16] % 2 == heap.size[ptr - 16]
    }

    /** The first half of `heap_free`: join the block behind if it is free. */
    method Coalesce(blk: Word, size: Word)
      requires Used(heap, blk) && Sound({blk}) && size == heap.size[blk] && blk in mem && mem[blk] == size
      modifies this`mem, this`heapHead, this`heap
      ensures heap == Coalesced(old(heap), blk) && Sound({blk}) && Kept(old(heap), old(mem), mem, {})
      ensures blk in heap.size && blk in mem && mem[blk] == heap.size[blk]
    {
      hide Inv, Holds, KernelOk, Kept, SameHeaders, Removed;
      ghost var h := heap;
      FreeLook(h, mem, heapHead, blk, size);
      assert mem[blk := size] == mem;
      KeptSelf(h, mem);
      var next := blk + size;
      var nextFlags := mem[next];
      BitIs(nextFlags);
      if AllocBit(nextFlags) == 0 {
        var r := UnlinkFree(next, {blk});
        if r != 0 {
          ClearIs(nextFlags);
          var nextSize := ClearAllocBit(nextFlags);
          FreeMerge(h, mem, heapHead, blk, kernel);
          KeptTrans(h, h, old(mem), mem, mem[blk := size + nextSize], {}, {});
          mem := mem[blk := size + nextSize];
          heap := Merge(heap, blk);
        }
      }
    }

    /** `heap_free`: coalesce with the block behind, and put the block in front
        of the list. */
    method Free(ptr: Word)
      requires ptr == 0 ==> Valid()
      requires ptr != 0 ==> Releasable(ptr)
      modifies this`mem, this`heapHead, this`heap
      ensures Valid()
      ensures ptr == 0 ==> heap == old(heap) && mem == old(mem)
      ensures ptr != 0 ==> heap == HeapSpec.Free(old(heap), ptr - 16) && Kept(old(heap), old(mem), mem, {ptr - 16})
    {
      hide Inv, Holds, KernelOk, Kept, SameHeaders, Removed;
      if ptr == 0 {
        return;
      }
      var blk := ptr - 16;
      ghost var h := heap;
      ClearIs(mem[blk]);
      var size := ClearAllocBit(mem[blk]);
      FreeLook(h, mem, heapHead, blk, size);
      mem := mem[blk := size];
      ghost var mem1 := mem;
      Coalesce(blk, size);
      KeptTrans(h, h, old(mem), mem1, mem, {blk}, {});
      FreeLink(h, heap, mem, heapHead, blk, kernel);
      KeptTrans(h, h, old(mem), mem, mem[blk + 8 := heapHead], {blk}, {});
      mem := mem[blk + 8 := heapHead];
      heapHead := blk;
      heap := heap.(free := [blk] + heap.free);
    }

    /** Give back what block `blk` of `total` bytes has beyond `need`. */
    method ShrinkTo(blk: Word, total: Word, need: Word)
      requires Valid() && Used(heap, blk) && total == heap.size[blk]
      requires need % 16 == 0 && MIN_BLOCK <= need <= total
      modifies this`mem, this`heapHead, this`heap
      ensures Valid() && blk in old(heap).home && heap == Shrink(old(heap), blk, need)
      ensures Kept(old(heap), old(mem), mem, {blk}) && SameWords(old(mem), blk, mem, blk, need)
    {
      hide Inv, Holds, KernelOk, Kept, SameWords, Split;
      ghost var h := heap;
      ShrinkRoom(h, mem, heapHead, blk, need);
      ghost var mem0 := mem;
      var rest := total - need;
      if rest >= MIN_BLOCK {
        ShrinkSplit(h, mem, heapHead, blk, need, kernel);
        var nb := blk + need;
        WordEven(need);
        SetIs(need);
        mem := mem[blk := SetAllocBit(need)];
        mem := mem[nb := rest];
        heap := Split(heap, blk, need);
        ghost var mem1 := mem;
        Free(nb + 16);
        ShrinkKept(h, mem0, mem1, mem, heapHead, blk, need);
      }
    }

    /** The copying loop of `heap_realloc`, a word at a time. */
    method CopyPayload(dst: Word, src: Word, len: Word)
      requires Valid() && dst >= 16 && src >= 16 && Used(heap, dst - 16) && Used(heap, src - 16) && dst != src
      requires len % 8 == 0 && 16 + len <= heap.size[dst - 16] && 16 + len <= heap.size[src - 16]
      modifies this`mem
      ensures Valid() && Kept(heap, old(mem), mem, {dst - 16})
      ensures SameWords(old(mem), src - 16, mem, dst - 16, 16 + len)
    {
      hide Inv, Holds, KernelOk, Kept;
      CopyStart(heap, mem, heapHead, dst - 16, src - 16);
      var i: Word := 0;
      while i < len
        invariant i <= len && i % 8 == 0
        invariant Valid() && Kept(heap, old(mem), mem, {dst - 16})
        invariant SameWords(old(mem), src - 16, mem, dst - 16, 16 + i)
      {
        KeptWords(heap, old(mem), mem, heapHead, {}, {dst - 16}, src - 16);
        CopyStep(heap, old(mem), mem, heapHead, dst - 16, src - 16, 16 + i);
        mem := mem[dst + i := mem[src + i]];
        i := i + 8;
      }
    }

    /** `heap_realloc`. */
    method Realloc(ptr: Word, newSize: Word) returns (r: Word)
      requires Valid() && (ptr != 0 ==> ptr >= 16 && Used(heap, ptr - 16))
      modifies this
      ensures Inv(old(heap)) && KernelOk(old(heap), old(kernel)) && Valid()
      ensures ptr == 0 ==>
                var o := HeapSpec.Malloc(old(heap), Align16(newSize), old(kernel));
                heap == o.heap && kernel == o.kernel && r == (if o.block == 0 then 0 else o.block + 16)
                && Kept(old(heap), old(mem), mem, {})
      ensures ptr != 0 && newSize == 0 ==>
                r == 0 && heap == HeapSpec.Free(old(heap), ptr - 16) && Kept(old(heap), old(mem), mem, {ptr - 16})
      ensures ptr != 0 && newSize != 0 ==>
                var o := HeapSpec.Realloc(old(heap), ptr - 16, Align16(newSize), old(kernel));
                && heap == o.heap && kernel == o.kernel && r == (if o.block == 0 then 0 else o.block + 16)
                && Kept(old(heap), old(mem), mem, {ptr - 16})
                && (r == 0 ==> Kept(old(heap), old(mem), mem, {}))
                && (r != 0 ==> SameWords(old(mem), ptr - 16, mem, r - 16, Min(old(heap).size[ptr - 16], Align16(newSize))))
    {
      hide Inv, Holds, KernelOk, Kept, SameWords, Align16;
      if ptr == 0 {
        r := Malloc(newSize);
        return;
      }
      UsedReleasable(heap, mem, heapHead, ptr - 16);
      if newSize == 0 {
        Free(ptr);
        return 0;
      }
      var blk := ptr - 16;
      ghost var h := heap;
      ClearIs(mem[blk]);
      var oldSize := ClearAllocBit(mem[blk]);
      var need := Align16(newSize);
      if need <= oldSize {
        ShrinkTo(blk, oldSize, need);
        return ptr;
      }
      var next := blk + oldSize;
      var nextFlags := mem[next];
      BitIs(nextFlags);
      ClearIs(nextFlags);
      if AllocBit(nextFlags) == 0 {
        var nextSize := ClearAllocBit(nextFlags);
        if oldSize + nextSize >= need {
          Extend(blk, oldSize, next, nextSize, need);
        } else {
          KeptExcept(h, mem, blk);
        }
        return ptr;
      }
      r := Move(ptr, oldSize, newSize);
    }

    /** The block behind joins the old one, and what is too much is given back. */
    method Extend(blk: Word, oldSize: Word, next: Word, nextSize: Word, need: Word)
      requires Valid() && Used(heap, blk) && oldSize == heap.size[blk] && next == blk + oldSize
      requires next in heap.size && next in heap.free && nextSize == heap.size[next]
      requires need % 16 == 0 && MIN_BLOCK <= need && oldSize < need <= oldSize + nextSize < TWO63
      modifies this`mem, this`heapHead, this`heap
      ensures Valid() && Inv(Coalesced(old(heap), blk)) && blk in Coalesced(old(heap), blk).home
      ensures blk in Coalesced(old(heap), blk).size && heap == Shrink(Coalesced(old(heap), blk), blk, need)
      ensures Kept(old(heap), old(mem), mem, {blk}) && SameWords(old(mem), blk, mem, blk, oldSize)
    {
      hide Inv, Holds, KernelOk, Kept, SameHeaders, SameWords, Removed, Shrink;
      ghost var h, mem0, head0 := heap, mem, heapHead;
      var r := UnlinkFree(next, {});
      assert {} + {next} == {next};
      ghost var mem1 := mem;
      ExtendMerge(h, mem, heapHead, blk, kernel);
      var total := oldSize + nextSize;
      SetIs(total);
      mem := mem[blk := SetAllocBit(total)];
      heap := Merge(heap, blk);
      ghost var mem2, h2 := mem, heap;
      ShrinkTo(blk, total, need);
      ExtendKept(h, h2, mem0, head0, mem1, mem2, mem, blk, need);
    }

    /** A new block, the old payload, and the old block freed. */
    method Move(ptr: Word, oldSize: Word, newSize: Word) returns (r: Word)
      requires Valid() && ptr >= 16 && Used(heap, ptr - 16) && oldSize == heap.size[ptr - 16]
      requires PathOf(heap, ptr - 16, Align16(newSize)) == Moves
      modifies this
      ensures Inv(old(heap)) && KernelOk(old(heap), old(kernel)) && Valid()
      ensures var o := HeapSpec.Realloc(old(heap), ptr - 16, Align16(newSize), old(kernel));
        heap == o.heap && kernel == o.kernel && r == if o.block == 0 then 0 else o.block + 16
      ensures Kept(old(heap), old(mem), mem, {ptr - 16})
      ensures r == 0 ==> Kept(old(heap), old(mem), mem, {})
      ensures r != 0 ==> SameWords(old(mem), ptr - 16, mem, r - 16, oldSize)
    {
      hide Inv, Holds, KernelOk, Kept, SameWords, Align16, PathOf;
      var need := Align16(newSize);
      ghost var h, mem0, head0 := heap, mem, heapHead;
      MoveSpec(h, ptr - 16, need, kernel);
      r := Malloc(newSize);
      if r == 0 {
        KeptWeaken(h, mem0, mem, ptr - 16);
        return;
      }
      var oldUsable := oldSize - 16;
      var newUsable := need - 16;
      var len := oldUsable;
      if newUsable < len {
        len := newUsable;
      }
      ghost var h1, mem1 := heap, mem;
      CopyPayload(r, ptr, len);
      ghost var mem2, head2 := mem, heapHead;
      UsedReleasable(heap, mem, heapHead, ptr - 16);
      Free(ptr);
      MoveKept(h, h1, mem0, head0, mem1, mem2, head2, mem, ptr - 16, r - 16);
    }

    /** The program may write any word of a payload it holds. */
    method Store(ptr: Word, offset: Word, v: Word)
      requires Valid() && ptr >= 16 && Used(heap, ptr - 16) && offset % 8 == 0 && 16 + offset < heap.size[ptr - 16]
      modifies this`mem
      ensures Valid() && WordAt(mem, ptr, offset) == Some(v)
      ensures Kept(heap, old(mem), mem, {ptr - 16})
    {
      hide Inv, Holds, KernelOk, Kept;
      PutPayload(heap, mem, heapHead, {}, ptr - 16, ptr + offset, v);
      KeptInside(heap, mem, ptr - 16, ptr + offset, v, {ptr - 16});
      mem := mem[ptr + offset := v];
    }

    method ServeFree(i: nat, ptrs: seq<Word>) returns (ptrs': seq<Word>)
      requires Valid() && Held(heap, ptrs) && i < |ptrs| && ptrs[i] != 0
      modifies this
      ensures Valid() && Held(heap, ptrs')
    {
      hide Inv, Holds, KernelOk, Kept, Held, HeapSpec.Free;
      HeldUsed(heap, mem, heapHead, ptrs, i);
      HeldFree(heap, ptrs, i);
      Free(ptrs[i]);
      ptrs' := ptrs[i := 0];
    }

    method ServeRealloc(i: nat, size: Word, ptrs: seq<Word>) returns (ptrs': seq<Word>)
      requires Valid() && Held(heap, ptrs) && i < |ptrs| && ptrs[i] != 0
      modifies this
      ensures Valid() && Held(heap, ptrs')
    {
      hide Inv, Holds, KernelOk, Kept, SameWords, Align16, Held, HeapSpec.Free, HeapSpec.Realloc;
      HeldUsed(heap, mem, heapHead, ptrs, i);
      HeldRealloc(heap, Align16(size), kernel, ptrs, i);
      HeldFree(heap, ptrs, i);
      var p := Realloc(ptrs[i], size);
      ptrs' := if p != 0 || size == 0 then ptrs[i := p] else ptrs;
    }

    method ServeStore(i: nat, offset: Word, v: Word, ptrs: seq<Word>)
      requires Valid() && Held(heap, ptrs) && i < |ptrs| && ptrs[i] != 0 && offset % 8 == 0
      modifies this`mem
      ensures Valid()
    {
      hide Inv, Holds, KernelOk, Kept, Held;
      HeldUsed(heap, mem, heapHead, ptrs, i);
      var n := UsableSize(ptrs[i]);
      if offset < n {
        Store(ptrs[i], offset, v);
      }
    }

    /** One valid call; a call with a pointer the program does not hold is left out. */
    method Serve(call: Call, ptrs: seq<Word>) returns (ptrs': seq<Word>)
      requires Valid() && Held(heap, ptrs)
      modifies this
      ensures Valid() && Held(heap, ptrs')
    {
      hide Inv, Holds, KernelOk, Kept, Align16, Held, HeapSpec.Malloc;
      ptrs' := ptrs;
      if call.DoMalloc? {
        HeldMalloc(heap, Align16(call.size), kernel, ptrs);
        var p := Malloc(call.size);
        ptrs' := ptrs + [p];
      } else if call.index < |ptrs| && ptrs[call.index] != 0 {
        if call.DoFree? {
          ptrs' := ServeFree(call.index, ptrs);
        } else if call.DoRealloc? {
          ptrs' := ServeRealloc(call.index, call.size, ptrs);
        } else if call.offset % 8 == 0 {
          ServeStore(call.index, call.offset, call.value, ptrs);
        }
      }
    }

    /** The payload size, as the header has it. */
    method UsableSize(ptr: Word) returns (n: Word)
      requires Valid() && ptr >= 16 && Used(heap, ptr - 16)
      ensures n + 16 == heap.size[ptr - 16]
    {
      UsedReleasable(heap, mem, heapHead, ptr - 16);
      ClearIs(mem[ptr - 16]);
      assert BlockOk(heap, ptr - 16);
      n := ClearAllocBit(mem[ptr - 16]) - 16;
    }

    /** Every finite sequence of valid calls keeps the heap in order. */
    method ServeAll(calls: seq<Call>) returns (ptrs: seq<Word>)
      requires Valid()
      modifies this
      ensures Valid() && Held(heap, ptrs)
    {
      ptrs := [];
      for k := 0 to |calls|
        invariant Valid() && Held(heap, ptrs)
      {
        ptrs := Serve(calls[k], ptrs);
      }
    }
  }

  lemma KeptSelf(h: Heap, mem: Memory)
    ensures Kept(h, mem, mem, {})
  {
  }

  lemma SizesEven(h: Heap, a: nat)
    requires Inv(h) && a in h.size
    ensures h.size[a] % 2 == 0 && h.size[a] % 16 == 0
  {
    assert BlockOk(h, a);
    ModUnique(h.size[a], 2, 8 * (h.size[a] / 16), 0);
  }

  lemma FitStart(h: Heap, need: nat)
    requires Inv(h)
    ensures ListOk(h)
  {
    var _ := Fit(h, need);
  }

  lemma MallocFound(h: Heap, need: nat, kernel: seq<int>)
    requires Inv(h) && KernelOk(h, kernel) && Fit(h, need).Some? && need % 16 == 0 && need >= MIN_BLOCK
    ensures var i := Fit(h, need).value;
      && HeapSpec.Malloc(h, need, kernel) == HeapSpec.Outcome(AllocAt(h, i, need), AllocBlock(h, i, need), kernel)
      && AllocBlock(h, i, need) > 0
  {
    AllocContract(h, Fit(h, need).value, need);
    BlockPositive(AllocAt(h, Fit(h, need).value, need), AllocBlock(h, Fit(h, need).value, need));
  }

  lemma MallocMissed(h: Heap, need: nat, kernel: seq<int>, p: nat)
    requires Inv(h) && KernelOk(h, kernel) && (Fit(h, need).Some? ==> p == AllocBlock(h, Fit(h, need).value, need) + 16) && p == 0
    ensures HeapSpec.Malloc(h, need, kernel) ==
              if |kernel| == 0 then HeapSpec.Outcome(h, 0, [])
              else if kernel[0] < 0 then HeapSpec.Outcome(h, 0, kernel[1..])
              else (KernelNext(h, kernel); HeapSpec.Malloc(Grow(h, kernel[0]), need, kernel[1..]))
    ensures |kernel| > 0 && kernel[0] >= 0 ==>
              forall x {:trigger Used(h, x)} :: Used(h, x) ==> Used(Grow(h, kernel[0]), x) && Grow(h, kernel[0]).size[x] == h.size[x]
  {
    if |kernel| > 0 && kernel[0] >= 0 {
      KernelNext(h, kernel);
      assert ChunkFits(h, kernel[0]);
      GrowInv(h, kernel[0]);
    }
  }

  lemma AllocRoom(h: Heap, mem: Memory, head: Word, i: nat, need: Word, kernel: seq<int>)
    requires Inv(h) && Holds(h, mem, head, {}) && KernelOk(h, kernel) && ListOk(h)
    requires i < |h.free| && need % 16 == 0 && MIN_BLOCK <= need <= h.size[h.free[i]]
    ensures h.free[i] in h.home && 0 < h.free[i] < TWO63 && h.size[h.free[i]] < TWO63 - h.free[i]
    ensures Inv(AllocAt(h, i, need)) && KernelOk(AllocAt(h, i, need), kernel)
  {
    BlockMapped(h, mem, head, {}, h.free[i]);
    assert BlockOk(h, h.free[i]);
    AllocContract(h, i, need);
    KernelSame(h, AllocAt(h, i, need), kernel);
  }

  /** Handing out a whole block leaves memory in order. */
  lemma AllocWhole(h: Heap, mem: Memory, head: Word, i: nat, need: Word)
    requires Inv(h) && Holds(h, mem, head, {}) && ListOk(h)
    requires i < |h.free| && need <= h.size[h.free[i]] < need + MIN_BLOCK
    ensures At(h.free, i + 1) < TWO64 && h.size[h.free[i]] + 1 < TWO64
    ensures var a := h.free[i];
      var mem1 := mem[a := h.size[a] + 1];
      var mem2 := if i == 0 then mem1 else mem1[h.free[i - 1] + 8 := At(h.free, i + 1)];
      && Holds(AllocAt(h, i, need), mem2, if i == 0 then At(h.free, 1) else head, {}) && Kept(h, mem, mem2, {})
      && AllocBlock(h, i, need) == a && a + 8 in mem1 && mem1[a + 8] == At(h.free, i + 1)
  {
    assert LinkOk(h, mem, i);
    TakeWhole(h, mem, head, i);
  }

  /** So does handing out the upper end of one. */
  lemma AllocTop(h: Heap, mem: Memory, head: Word, i: nat, need: Word)
    requires Inv(h) && Holds(h, mem, head, {}) && ListOk(h)
    requires i < |h.free| && need % 16 == 0 && MIN_BLOCK <= need && need + MIN_BLOCK <= h.size[h.free[i]] < TWO63
    ensures var a := h.free[i]; var rest := h.size[a] - need;
      var mem1 := mem[a := rest][a + rest := need + 1];
      && Holds(AllocAt(h, i, need), mem1, head, {}) && Kept(h, mem, mem1, {}) && AllocBlock(h, i, need) == a + rest
  {
    var a := h.free[i];
    SizesEven(h, a);
    RestAligned(h.size[a], need);
    TakeTop(h, mem, head, i, h.size[a] - need);
  }

  lemma WordEven(w: nat)
    requires w % 16 == 0
    ensures w % 2 == 0
  {
    ModUnique(w, 2, 8 * (w / 16), 0);
  }

  lemma RestAligned(a: nat, b: nat)
    requires a % 16 == 0 && b % 16 == 0 && b <= a
    ensures (a - b) % 16 == 0
  {
    ModUnique(a - b, 16, a / 16 - b / 16, 0);
  }

  // --- along the free list ---

  lemma ListStart(h: Heap, mem: Memory, head: Word, skip: set<nat>)
    requires Inv(h) && Holds(h, mem, head, skip)
    ensures head == At(h.free, 0)
  {
  }

  /** At element `i` the next link can be read, and leads to element `i + 1`. */
  lemma ListNext(h: Heap, mem: Memory, head: Word, skip: set<nat>, i: nat)
    requires Inv(h) && Holds(h, mem, head, skip) && At(h.free, i) != 0
    ensures i < |h.free| && h.free[i] in h.size && 0 < h.free[i] < TWO63 && h.size[h.free[i]] < TWO63
    ensures h.free[i] + 8 in mem && mem[h.free[i] + 8] == At(h.free, i + 1)
    ensures h.free[i] in mem && (h.free[i] !in skip ==> mem[h.free[i]] == h.size[h.free[i]])
    ensures i > 0 ==> 0 < h.free[i - 1] < TWO63
  {
    assert Listed(h, i) && LinkOk(h, mem, i);
    BlockMapped(h, mem, head, skip, h.free[i]);
    if h.free[i] !in skip {
      assert HeaderOk(h, mem, h.free[i]);
    }
    if i > 0 {
      assert Listed(h, i - 1);
      BlockMapped(h, mem, head, skip, h.free[i - 1]);
    }
  }

  lemma ListOver(h: Heap, mem: Memory, head: Word, skip: set<nat>, i: nat)
    requires Inv(h) && Holds(h, mem, head, skip) && i <= |h.free| && At(h.free, i) == 0
    ensures i == |h.free| && Kept(h, mem, mem, {})
  {
    if i < |h.free| {
      assert Listed(h, i);
      BlockPositive(h, h.free[i]);
    }
  }

  lemma ListEnd(h: Heap, mem: Memory, head: Word, skip: set<nat>, i: nat, target: nat)
    requires Inv(h) && Holds(h, mem, head, skip) && i <= |h.free| && At(h.free, i) == 0
    requires forall j :: 0 <= j < i ==> h.free[j] != target
    ensures i == |h.free| && target !in h.free
    ensures Kept(h, mem, mem, {}) && SameHeaders(h, mem, mem)
  {
    ListOver(h, mem, head, skip, i);
  }

  lemma Unlinked(h: Heap, mem: Memory, head: Word, skip: set<nat>, i: nat, kernel: seq<int>)
    requires Inv(h) && Holds(h, mem, head, skip) && i < |h.free| && KernelOk(h, kernel)
    ensures At(h.free, i + 1) < TWO64
    ensures var h1 := h.(free := Without(h.free, i));
      var mem1 := if i == 0 then mem else mem[h.free[i - 1] + 8 := At(h.free, i + 1)];
      && Inv(h1) && Holds(h1, mem1, if i == 0 then At(h.free, 1) else head, skip + {h.free[i]}) && KernelOk(h1, kernel)
      && Kept(h, mem, mem1, {}) && SameHeaders(h, mem, mem1)
      && Without(h.free, i) == Removed(h.free, h.free[i])
  {
    PutUnlink(h, mem, head, skip, i);
    UnlinkInv(h, i);
    var h1 := h.(free := Without(h.free, i));
    KernelSame(h, h1, kernel);
    assert IndexOf(h.free, h.free[i]) == i;
    if i > 0 {
      var b := h.free[i - 1];
      assert Listed(h, i - 1);
      KeptMeta(h, mem, b, b + 8, At(h.free, i + 1), {});
      var mem1 := mem[b + 8 := At(h.free, i + 1)];
      forall x {:trigger x in mem1} | x in h.size && x in mem ensures x in mem1 && mem1[x] == mem[x] {
        WordsApart(h, x, b);
      }
    }
  }

  // --- free ---

  /** After the bit has been cleared, the word behind the block tells whether a
      free block follows. */
  lemma FreeLook(h: Heap, mem: Memory, head: Word, blk: nat, size: Word)
    requires Inv(h) && Holds(h, mem, head, {blk}) && Used(h, blk) && size == h.size[blk]
    ensures 0 < blk < TWO63 && size < TWO63
    ensures var mem1 := mem[blk := size]; var b := blk + size;
      && Holds(h, mem1, head, {blk}) && Kept(h, mem, mem1, {blk})
      && b in mem1
      && (mem1[b] % 2 == 0 <==> b in h.size && b in h.free)
      && (b in h.free ==> b in h.size && mem1[b] == h.size[b] < TWO63)
  {
    BlockMapped(h, mem, head, {blk}, blk);
    PutHeader(h, mem, head, {blk}, blk, size);
    assert {blk} + {blk} == {blk};
    KeptMeta(h, mem, blk, blk, size, {blk});
    var mem1 := mem[blk := size];
    var b := blk + size;
    assert BlockOk(h, blk);
    if b in h.free {
      InList(h, b);
    }
    if b in h.size {
      assert HeaderOk(h, mem1, b);
      SizesEven(h, b);
      BlockMapped(h, mem1, head, {blk}, b);
    }
  }

  /** Taking in the block behind, which has been unlinked. */
  lemma FreeMerge(h: Heap, mem: Memory, head: Word, blk: nat, kernel: seq<int>)
    requires Inv(h) && Used(h, blk) && KernelOk(h, kernel)
    requires var b := blk + h.size[blk];
      && b in h.size && b in h.free && h.size[blk] + h.size[b] < TWO64
      && Holds(h.(free := Removed(h.free, b)), mem, head, {blk} + {b})
    ensures var b := blk + h.size[blk]; var total: Word := h.size[blk] + h.size[b];
      && Inv(Coalesced(h, blk)) && KernelOk(Coalesced(h, blk), kernel)
      && Merge(h.(free := Removed(h.free, b)), blk) == Coalesced(h, blk)
      && Holds(Coalesced(h, blk), mem[blk := total], head, {blk})
      && Kept(h, mem, mem[blk := total], {})
  {
    hide Inv, Holds, KernelOk, Kept;
    var b := blk + h.size[blk];
    var total: Word := h.size[blk] + h.size[b];
    var h1 := h.(free := Removed(h.free, b));
    UnlinkInv(h, IndexOf(h.free, b));
    CoalescedInv(h, blk);
    KernelSame(h, Coalesced(h, blk), kernel);
    PutHeader(h1, mem, head, {blk} + {b}, blk, total);
    HoldsMerge(h1, mem[blk := total], head, {blk} + {b} + {blk}, blk);
    assert ({blk} + {b} + {blk} + {blk}) - {b} == {blk};
    KeptMeta(h, mem, blk, blk, total, {});
  }

  /** The last two writes. */
  lemma FreeLink(h: Heap, h1: Heap, mem: Memory, head: Word, blk: nat, kernel: seq<int>)
    requires Inv(h) && Used(h, blk) && h1 == Coalesced(h, blk) && KernelOk(h, kernel)
    requires Holds(h1, mem, head, {blk}) && blk in mem && mem[blk] == h1.size[blk]
    ensures var h2 := HeapSpec.Free(h, blk);
      && h2 == h1.(free := [blk] + h1.free) && Inv(h2) && KernelOk(h2, kernel)
      && Holds(h2, mem[blk + 8 := head], blk, {}) && Kept(h, mem, mem[blk + 8 := head], {})
  {
    CoalescedInv(h, blk);
    FreeContract(h, blk);
    var h2 := HeapSpec.Free(h, blk);
    KernelSame(h, h2, kernel);
    PutLink(h1, mem, head, {blk}, blk);
    assert {blk} + {blk} == {blk};
    assert HeaderOk(h2, mem[blk + 8 := head], blk);
    HeaderDone(h2, mem[blk + 8 := head], blk, {blk}, blk);
    assert {blk} - {blk} == {};
    KeptMeta(h, mem, blk, blk + 8, head, {});
  }

  // --- realloc ---

  function Min(a: nat, b: nat): nat {
    if a < b then a else b
  }

  /** A block in use may be freed; its header and the one behind tell the path. */
  lemma HeaderIs(h: Heap, mem: Memory, head: nat, skip: set<nat>, a: nat)
    requires Holds(h, mem, head, skip) && a in h.size && a !in skip
    ensures HeaderOk(h, mem, a)
  {
  }

  lemma UsedReleasable(h: Heap, mem: Memory, head: Word, blk: nat)
    requires Inv(h) && Holds(h, mem, head, {}) && Used(h, blk)
    ensures Holds(h, mem, head, {blk}) && 0 < blk < TWO63 && h.size[blk] < TWO63
    ensures blk in mem && mem[blk] - mem[blk] % 2 == h.size[blk]
    ensures var b := blk + h.size[blk];
      && b in mem && (mem[b] % 2 == 0 <==> b in h.size && b in h.free)
      && (b in h.free ==> b in h.size && mem[b] == h.size[b] && h.size[blk] + h.size[b] < TWO63)
  {
    hide Inv, Holds, KernelOk;
    SkipMore(h, mem, head, {}, {blk});
    BlockMapped(h, mem, head, {}, blk);
    HeaderIs(h, mem, head, {}, blk);
    SizesEven(h, blk);
    var b := blk + h.size[blk];
    if b in h.free {
      InList(h, b);
    }
    if b in h.size {
      HeaderIs(h, mem, head, {}, b);
      SizesEven(h, b);
      BlockMapped(h, mem, head, {}, b);
    }
  }

  lemma ShrinkRoom(h: Heap, mem: Memory, head: Word, blk: nat, need: nat)
    requires Inv(h) && Holds(h, mem, head, {}) && Used(h, blk) && need <= h.size[blk]
    ensures blk in h.home && Kept(h, mem, mem, {blk}) && SameWords(mem, blk, mem, blk, need)
    ensures 0 < blk < TWO63 && h.size[blk] < TWO63
    ensures forall w :: InPayload(h, blk, w) && w % 8 == 0 ==> w in mem
  {
    assert BlockOk(h, blk);
    BlockMapped(h, mem, head, {}, blk);
    forall w | InPayload(h, blk, w) && w % 8 == 0 ensures w in mem {
      PayloadMapped(h, mem, head, {}, blk, w);
    }
  }

  /** The two header writes that split a block in use. */
  lemma ShrinkSplit(h: Heap, mem: Memory, head: Word, blk: nat, need: Word, kernel: seq<int>)
    requires Inv(h) && Holds(h, mem, head, {}) && Used(h, blk) && KernelOk(h, kernel)
    requires need % 16 == 0 && MIN_BLOCK <= need && need + MIN_BLOCK <= h.size[blk] < TWO63
    ensures blk in h.home && (h.size[blk] - need) % 2 == 0
    ensures var h1 := Split(h, blk, need); var nb := blk + need; var mem1 := mem[blk := need + 1][nb := h.size[blk] - need];
      && Inv(h1) && KernelOk(h1, kernel) && Holds(h1, mem1, head, {nb}) && Used(h1, nb)
      && nb in h1.size && h1.size[nb] == h.size[blk] - need
  {
    SizesEven(h, blk);
    RestAligned(h.size[blk], need);
    WordEven(h.size[blk] - need);
    SplitInv(h, blk, need);
    SplitRoom(h, blk, need);
    var h1 := Split(h, blk, need);
    var nb := blk + need;
    KernelSame(h, h1, kernel);
    HoldsSplit(h, mem, head, {}, blk, need);
    PutHeader(h1, mem, head, {} + {blk, nb}, blk, need + 1);
    assert ({} + {blk, nb}) - {blk} == {nb};
    PutHeader(h1, mem[blk := need + 1], head, {nb}, nb, h.size[blk] - need);
    assert {nb} + {nb} == {nb};
  }

  lemma ShrinkKept(h: Heap, mem: Memory, mem1: Memory, mem2: Memory, head: nat, blk: nat, need: nat)
    requires Inv(h) && Used(h, blk) && blk in h.home && 0 < need < h.size[blk] && need % 16 == 0 && h.size[blk] - need < TWO64
    requires MIN_BLOCK <= need && MIN_BLOCK <= h.size[blk] - need
    requires need + 1 < TWO64 && mem1 == mem[blk := need + 1][blk + need := h.size[blk] - need]
    requires Kept(Split(h, blk, need), mem1, mem2, {blk + need})
    requires forall w :: InPayload(h, blk, w) && w % 8 == 0 ==> w in mem
    ensures Kept(h, mem, mem2, {blk}) && SameWords(mem, blk, mem2, blk, need)
  {
    var h1 := Split(h, blk, need);
    var nb := blk + need;
    SplitInv(h, blk, need);
    KeptMeta(h, mem, blk, blk, need + 1, {blk});
    KeptInside(h, mem[blk := need + 1], blk, nb, h.size[blk] - need, {blk});
    KeptTrans(h, h, mem, mem[blk := need + 1], mem1, {blk}, {blk});
    KeptTrans(h, h1, mem, mem1, mem2, {blk}, {nb});
    assert BlockOk(h, blk);
    forall k: nat {:trigger WordAt(mem2, blk, k)} | 16 <= k < need && k % 8 == 0
      ensures WordAt(mem2, blk, k) == WordAt(mem, blk, k)
    {
      assert InPayload(h1, blk, blk + k) && InPayload(h, blk, blk + k);
      Mod8(blk);
      ModUnique(blk + k, 8, blk / 8 + k / 8, 0);
    }
  }

  lemma CopyStart(h: Heap, mem: Memory, head: Word, dst: nat, src: nat)
    requires Inv(h) && Holds(h, mem, head, {}) && Used(h, dst) && Used(h, src)
    ensures Kept(h, mem, mem, {dst})
    ensures SameWords(mem, src, mem, dst, 16)
    ensures dst + h.size[dst] < TWO63 && src + h.size[src] < TWO63
  {
    BlockMapped(h, mem, head, {}, dst);
    BlockMapped(h, mem, head, {}, src);
  }

  /** One word of the copy: it is there to be read, still the old one, and goes
      where only the new payload is. */
  lemma CopyStep(h: Heap, mem0: Memory, mem: Memory, head: Word, dst: nat, src: nat, k: nat)
    requires Inv(h) && Holds(h, mem, head, {}) && Used(h, dst) && Used(h, src) && dst != src
    requires 16 <= k < h.size[dst] && k < h.size[src] && k % 8 == 0
    requires Kept(h, mem0, mem, {dst}) && SameWords(mem0, src, mem, dst, k)
    requires SameWords(mem0, src, mem, src, h.size[src])
    ensures src + k in mem
    ensures var mem1 := mem[dst + k := mem[src + k]];
      Holds(h, mem1, head, {}) && Kept(h, mem0, mem1, {dst}) && SameWords(mem0, src, mem1, dst, k + 8)
  {
    assert BlockOk(h, src) && BlockOk(h, dst);
    Mod8(src);
    ModUnique(src + k, 8, src / 8 + k / 8, 0);
    assert InPayload(h, src, src + k) && InPayload(h, dst, dst + k);
    PayloadMapped(h, mem, head, {}, src, src + k);
    var v := mem[src + k];
    PutPayload(h, mem, head, {}, dst, dst + k, v);
    KeptInside(h, mem, dst, dst + k, v, {dst});
    KeptTrans(h, h, mem0, mem, mem[dst + k := v], {dst}, {dst});
    assert WordAt(mem, src, k) == WordAt(mem0, src, k);
    var mem1 := mem[dst + k := v];
    forall j: nat {:trigger WordAt(mem1, dst, j)} | 16 <= j < k + 8 && j % 8 == 0
      ensures WordAt(mem1, dst, j) == WordAt(mem0, src, j)
    {
      if j < k {
        assert WordAt(mem, dst, j) == WordAt(mem0, src, j);
      } else {
        NextMultiple(j, k);
      }
    }
  }

  lemma NextMultiple(j: nat, k: nat)
    requires k <= j < k + 8 && j % 8 == 0 && k % 8 == 0
    ensures j == k
  {
  }

  lemma KeptExcept(h: Heap, mem: Memory, blk: nat)
    ensures Kept(h, mem, mem, {blk}) && forall n: nat :: SameWords(mem, blk, mem, blk, n)
  {
  }

  lemma KeptWeaken(h: Heap, mem: Memory, mem': Memory, blk: nat)
    requires Kept(h, mem, mem', {})
    ensures Kept(h, mem, mem', {blk})
  {
  }

  /** The free block behind has been unlinked and now joins the block in use. */
  lemma ExtendMerge(h: Heap, mem: Memory, head: Word, blk: nat, kernel: seq<int>)
    requires Inv(h) && Used(h, blk) && KernelOk(h, kernel)
    requires var b := blk + h.size[blk];
      && b in h.size && b in h.free && h.size[blk] + h.size[b] < TWO63
      && Holds(h.(free := Removed(h.free, b)), mem, head, {b})
    ensures var b := blk + h.size[blk]; var total: Word := h.size[blk] + h.size[b]; var h1 := Coalesced(h, blk);
      && Inv(h1) && KernelOk(h1, kernel) && Merge(h.(free := Removed(h.free, b)), blk) == h1
      && Used(h1, blk) && blk in h1.home && h1.size[blk] == total && total % 2 == 0
      && Holds(h1, mem[blk := total + 1], head, {}) && Kept(h, mem, mem[blk := total + 1], {})
  {
    hide Inv, Holds, KernelOk, Kept, BlockOk;
    var b := blk + h.size[blk];
    var total: Word := h.size[blk] + h.size[b];
    var h0 := h.(free := Removed(h.free, b));
    var h1 := Coalesced(h, blk);
    UnlinkInv(h, IndexOf(h.free, b));
    CoalescedInv(h, blk);
    KernelSame(h, h1, kernel);
    SizesEven(h1, blk);
    HomeOf(h1, blk);
    HoldsMerge(h0, mem, head, {b}, blk);
    assert ({b} + {blk}) - {b} == {blk};
    PutHeader(h1, mem, head, {blk}, blk, total + 1);
    assert {blk} - {blk} == {};
    KeptMeta(h, mem, blk, blk, total + 1, {});
  }

  lemma ExtendKept(h: Heap, h2: Heap, mem0: Memory, head0: Word, mem1: Memory, mem2: Memory, mem3: Memory, blk: nat, need: nat)
    requires Inv(h) && Holds(h, mem0, head0, {}) && Used(h, blk) && h2 == Coalesced(h, blk) && h.size[blk] <= need
    requires Kept(h, mem0, mem1, {}) && Kept(h, mem1, mem2, {})
    requires Kept(h2, mem2, mem3, {blk}) && SameWords(mem2, blk, mem3, blk, need)
    ensures Kept(h, mem0, mem3, {blk}) && SameWords(mem0, blk, mem3, blk, h.size[blk])
  {
    CoalescedInv(h, blk);
    KeptTrans(h, h, mem0, mem1, mem2, {}, {});
    KeptWeaken(h, mem0, mem2, blk);
    KeptTrans(h, h2, mem0, mem2, mem3, {blk}, {blk});
    KeptWords(h, mem0, mem2, head0, {}, {}, blk);
    WordsTrans(mem0, blk, mem2, blk, mem3, blk, h.size[blk], need);
  }

  lemma WordsTrans(mem0: Memory, a: nat, mem1: Memory, b: nat, mem2: Memory, c: nat, n: nat, m: nat)
    requires SameWords(mem0, a, mem1, b, n) && SameWords(mem1, b, mem2, c, m) && n <= m
    ensures SameWords(mem0, a, mem2, c, n)
  {
    forall k: nat {:trigger WordAt(mem2, c, k)} | 16 <= k < n && k % 8 == 0
      ensures WordAt(mem2, c, k) == WordAt(mem0, a, k)
    {
      assert WordAt(mem1, b, k) == WordAt(mem0, a, k);
    }
  }

  /** What the moving path needs to know of the new block. */
  lemma MoveSpec(h: Heap, blk: nat, need: Word, kernel: seq<int>)
    requires Inv(h) && Used(h, blk) && KernelOk(h, kernel) && need % 16 == 0 && need >= MIN_BLOCK
    requires PathOf(h, blk, need) == Moves
    ensures MIN_BLOCK <= h.size[blk] < need && (h.size[blk] - 16) % 8 == 0
    ensures var r := HeapSpec.Malloc(h, need, kernel);
      && (r.block == 0 ==> HeapSpec.Realloc(h, blk, need, kernel) == r)
      && (r.block != 0 ==>
            && blk in r.heap.size
            && HeapSpec.Realloc(h, blk, need, kernel) == HeapSpec.Outcome(HeapSpec.Free(r.heap, blk), r.block, r.kernel)
            && Inv(r.heap) && Used(r.heap, r.block) && r.block != blk && r.heap.size[r.block] >= need
            && forall x {:trigger Used(h, x)} :: Used(h, x) ==> Used(r.heap, x) && x != r.block && r.heap.size[x] == h.size[x])
  {
    MallocContract(h, need, kernel);
    SizesEven(h, blk);
    assert BlockOk(h, blk);
    ModUnique(h.size[blk] - 16, 8, 2 * (h.size[blk] / 16) - 2, 0);
  }

  lemma MoveKept(h: Heap, h1: Heap, mem0: Memory, head0: Word, mem1: Memory, mem2: Memory, head2: Word, mem3: Memory,
                 blk: nat, nblk: nat)
    requires Inv(h) && Holds(h, mem0, head0, {}) && Used(h, blk)
    requires Inv(h1) && Holds(h1, mem2, head2, {}) && Used(h1, nblk) && nblk != blk && h1.size[nblk] >= h.size[blk]
    requires forall x {:trigger Used(h, x)} :: Used(h, x) ==> Used(h1, x) && x != nblk && h1.size[x] == h.size[x]
    requires Kept(h, mem0, mem1, {}) && Kept(h1, mem1, mem2, {nblk}) && Kept(h1, mem2, mem3, {blk})
    requires SameWords(mem1, blk, mem2, nblk, h.size[blk])
    ensures Kept(h, mem0, mem3, {blk}) && SameWords(mem0, blk, mem3, nblk, h.size[blk])
  {
    KeptWeaken(h, mem0, mem1, blk);
    KeptTrans(h, h1, mem0, mem1, mem2, {blk}, {nblk});
    KeptTrans(h, h1, mem0, mem2, mem3, {blk}, {blk});
    KeptWords(h, mem0, mem1, head0, {}, {}, blk);
    KeptWords(h1, mem2, mem3, head2, {}, {blk}, nblk);
    WordsTrans(mem0, blk, mem1, blk, mem2, nblk, h.size[blk], h.size[blk]);
    WordsTrans(mem0, blk, mem2, nblk, mem3, nblk, h.size[blk], h1.size[nblk]);
  }

  // --- sequences of calls ---

  /** The pointers that the program holds: in use, and each held once. */
  ghost predicate Held(h: Heap, ptrs: seq<Word>) {
    && (forall i {:trigger ptrs[i]} :: 0 <= i < |ptrs| && ptrs[i] != 0 ==> ptrs[i] >= 16 && Used(h, ptrs[i] - 16))
    && (forall i, j :: 0 <= i < j < |ptrs| && ptrs[i] != 0 ==> ptrs[i] != ptrs[j])
  }

  lemma HeldUsed(h: Heap, mem: Memory, head: Word, ptrs: seq<Word>, i: nat)
    requires Inv(h) && Holds(h, mem, head, {}) && Held(h, ptrs) && i < |ptrs| && ptrs[i] != 0
    ensures ptrs[i] >= 16 && Used(h, ptrs[i] - 16) && Holds(h, mem, head, {ptrs[i] - 16})
    ensures ptrs[i] - 16 in mem && mem[ptrs[i] - 16] - mem[ptrs[i] - 16] % 2 == h.size[ptrs[i] - 16]
  {
    UsedReleasable(h, mem, head, ptrs[i] - 16);
  }

  lemma HeldMalloc(h: Heap, need: Word, kernel: seq<int>, ptrs: seq<Word>)
    requires Inv(h) && KernelOk(h, kernel) && need % 16 == 0 && need >= MIN_BLOCK && Held(h, ptrs)
    ensures var r := HeapSpec.Malloc(h, need, kernel);
      r.block + 16 < TWO64 && Held(r.heap, ptrs + [if r.block == 0 then 0 else r.block + 16])
  {
    hide HeapSpec.Malloc;
    MallocContract(h, need, kernel);
    var r := HeapSpec.Malloc(h, need, kernel);
    if r.block != 0 {
      AddressBound(r.heap, r.block);
    }
    HeldPlus(h, r.heap, ptrs, if r.block == 0 then 0 else r.block + 16);
  }

  /** One more pointer, to a block that was not in use. */
  lemma HeldPlus(h: Heap, h': Heap, ptrs: seq<Word>, p: Word)
    requires Held(h, ptrs) && forall x {:trigger Used(h, x)} :: Used(h, x) ==> Used(h', x)
    requires p != 0 ==> p >= 16 && Used(h', p - 16) && !Used(h, p - 16)
    ensures Held(h', ptrs + [p])
  {
    var ptrs' := ptrs + [p];
    forall i {:trigger ptrs'[i]} | 0 <= i < |ptrs'| && ptrs'[i] != 0 ensures ptrs'[i] >= 16 && Used(h', ptrs'[i] - 16) {
      if i < |ptrs| {
        assert ptrs[i] == ptrs'[i];
      }
    }
    forall i, j | 0 <= i < j < |ptrs'| && ptrs'[i] != 0 ensures ptrs'[i] != ptrs'[j] {
      assert ptrs[i] == ptrs'[i];
    }
  }

  lemma AddressBound(h: Heap, a: nat)
    requires Inv(h) && a in h.size
    ensures 0 < a < TWO63
  {
    assert BlockOk(h, a);
    assert BaseOk(h, h.home[a]);
  }

  lemma HeldFree(h: Heap, ptrs: seq<Word>, i: nat)
    requires Inv(h) && Held(h, ptrs) && i < |ptrs| && ptrs[i] != 0
    ensures ptrs[i] >= 16 && Used(h, ptrs[i] - 16) && Held(HeapSpec.Free(h, ptrs[i] - 16), ptrs[i := 0])
  {
    FreeContract(h, ptrs[i] - 16);
  }

  lemma HeldRealloc(h: Heap, need: Word, kernel: seq<int>, ptrs: seq<Word>, i: nat)
    requires Inv(h) && KernelOk(h, kernel) && need % 16 == 0 && need >= MIN_BLOCK
    requires Held(h, ptrs) && i < |ptrs| && ptrs[i] != 0
    ensures ptrs[i] >= 16 && Used(h, ptrs[i] - 16)
    ensures var r := HeapSpec.Realloc(h, ptrs[i] - 16, need, kernel);
      && r.block + 16 < TWO64
      && (r.block == 0 ==> Held(r.heap, ptrs))
      && (r.block != 0 ==> Held(r.heap, ptrs[i := r.block + 16]))
  {
    var a := ptrs[i] - 16;
    ReallocContract(h, a, need, kernel);
    var r := HeapSpec.Realloc(h, a, need, kernel);
    hide Inv, KernelOk, HeapSpec.Realloc;
    assert r.block != 0 ==> Used(r.heap, r.block);
    if r.block != 0 {
      AddressBound(r.heap, r.block);
      var ptrs' := ptrs[i := r.block + 16];
      forall j {:trigger ptrs'[j]} | 0 <= j < |ptrs'| && ptrs'[j] != 0 ensures ptrs'[j] >= 16 && Used(r.heap, ptrs'[j] - 16) {
        if j != i {
          assert ptrs[j] == ptrs'[j] && ptrs[j] != ptrs[i];
          assert Used(h, ptrs[j] - 16);
        }
      }
      forall j, k | 0 <= j < k < |ptrs'| && ptrs'[j] != 0 ensures ptrs'[j] != ptrs'[k] {
        assert j != i ==> ptrs[j] == ptrs'[j];
        assert k != i ==> ptrs[k] == ptrs'[k];
      }
    }
  }
}
