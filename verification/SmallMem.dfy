/**
 The small-memory allocator: a heap of items chained inside one cell array, a
 cursor at the lowest free item, and byte accounting. Addresses are offsets from
 heap_ptr; 0 stands for RT_NULL, which is no payload address since every payload
 lies behind a header.
 */
module SmallMem {
  import opened SmallMemSpec
  import opened SmallMemHeap
  import opened SmallMemLive

  datatype Option<T> = None | Some(value: T)

  lemma AlignedUp(x: nat)
    requires x + RT_ALIGN_SIZE <= SIZE_T_SPAN
    ensures x <= Align(x) < x + RT_ALIGN_SIZE
    ensures x % RT_ALIGN_SIZE == 0 ==> Align(x) == x
  {
  }

  /** RT_ALIGN_DOWN. */
  function RoundedDown(x: nat): (n: nat)
    ensures x - RT_ALIGN_SIZE < n <= x && n % RT_ALIGN_SIZE == 0
  {
    x - x % RT_ALIGN_SIZE
  }

  lemma AlignedSum(a: nat, b: nat)
    requires a % RT_ALIGN_SIZE == 0 && b % RT_ALIGN_SIZE == 0
    ensures (a + b) % RT_ALIGN_SIZE == 0
  {
  }

  lemma AlignedDifference(a: nat, b: nat)
    requires a % RT_ALIGN_SIZE == 0 && b % RT_ALIGN_SIZE == 0
    ensures (b - a - 2 * SIZEOF_STRUCT_MEM) % RT_ALIGN_SIZE == 0
  {
  }

  /** Heap address and mem_size_aligned that rt_smem_init derives from a memory region, or
      nothing when the region cannot hold the control structure and the two end items. */
  function Region(begin: nat, size: nat, controlSize: nat): (r: Option<(nat, nat)>)
    requires begin + size < SIZE_T_SPAN && begin + controlSize + RT_ALIGN_SIZE < SIZE_T_SPAN
    requires controlSize % RT_ALIGN_SIZE == 0
    ensures r.Some? ==> r.value.0 % RT_ALIGN_SIZE == 0 && r.value.1 % RT_ALIGN_SIZE == 0
                        && begin + controlSize <= r.value.0
                        && r.value.0 + r.value.1 + 2 * SIZEOF_STRUCT_MEM <= begin + size
    ensures r.Some? ==> r.value.0 < begin + controlSize + RT_ALIGN_SIZE
                        && r.value.0 + r.value.1 + 2 * SIZEOF_STRUCT_MEM + RT_ALIGN_SIZE > begin + size
    ensures r.None? ==> size < controlSize + 2 * SIZEOF_STRUCT_MEM + 2 * RT_ALIGN_SIZE
  {
    AlignedUp(begin);
    var start := Align(begin) + controlSize;
    AlignedSum(Align(begin), controlSize);
    AlignedUp(start);
    assert Align(start) == start;
    var beginAlign, endAlign := Align(start), RoundedDown(begin + size);
    AlignedDifference(beginAlign, endAlign);
    if endAlign > 2 * SIZEOF_STRUCT_MEM && endAlign - 2 * SIZEOF_STRUCT_MEM >= start
    then Some((beginAlign, endAlign - beginAlign - 2 * SIZEOF_STRUCT_MEM))
    else None
  }

  class SmallMem {
    const memSize: nat
    const pool: int
    const heap: array<int>
    var lfree: nat
    var used: int
    var max: int
    ghost var blocks: seq<Block>

    function End(): nat { memSize + SIZEOF_STRUCT_MEM }

    ghost predicate Chained()
      reads this, heap
    {
      pool % 2 == 0 && Linked(heap[..], blocks, End(), pool)
    }

    ghost predicate Valid()
      reads this, heap
    {
      && Chained() && Shape(blocks, End())
      && lfree == LowestFree(blocks, End())
      && used == UsedBytes(blocks) && used <= max
    }

    constructor (memSize: nat, pool: int)
      requires memSize % RT_ALIGN_SIZE == 0 && pool % 2 == 0
      ensures Valid() && fresh(heap)
      ensures blocks == [Block(0, memSize + SIZEOF_STRUCT_MEM, false)] && used == max == 0
    {
      this.memSize := memSize;
      this.pool := pool;
      heap := new int[memSize + 2 * SIZEOF_STRUCT_MEM];
      lfree, used, max := 0, 0, 0;
      blocks := [Block(0, memSize + SIZEOF_STRUCT_MEM, false)];
      new;
      heap[0] := Tag(pool, false);
      heap[NEXT] := End();
      heap[PREV] := 0;
      heap[End()] := Tag(pool, true);
      heap[End() + NEXT] := End();
      heap[End() + PREV] := End();
      UsedOne(blocks[0]);
    }

    predicate IsUsed(p: nat)
      requires p < heap.Length
      reads heap
    {
      heap[p] % 2 == 1
    }

    /** What the links in the item header of block `i` say. */
    lemma ReadLinks(i: nat)
      requires Chained() && i < |blocks|
      ensures blocks[i].start + SIZEOF_STRUCT_MEM <= blocks[i].next <= End() && heap.Length == End() + SIZEOF_STRUCT_MEM
      ensures heap[blocks[i].start + NEXT] == blocks[i].next == StartOf(blocks, End(), i + 1)
      ensures heap[blocks[i].start + PREV] == PrevOf(blocks, i)
    {
      assert Item(heap[..], blocks, i, pool);
      Bounds(blocks, End(), i);
    }

    /** What the whole item header of block `i` says. */
    lemma ReadItem(i: nat)
      requires Chained() && i < |blocks|
      ensures blocks[i].start + SIZEOF_STRUCT_MEM <= blocks[i].next <= End() && heap.Length == End() + SIZEOF_STRUCT_MEM
      ensures IsUsed(blocks[i].start) <==> blocks[i].used
      ensures heap[blocks[i].start + NEXT] == blocks[i].next == StartOf(blocks, End(), i + 1)
      ensures heap[blocks[i].start + PREV] == PrevOf(blocks, i)
      ensures IsUsed(End())
    {
      ReadLinks(i);
      assert Item(heap[..], blocks, i, pool);
    }

    /** MEM_ISUSED of item `i`; the end marker counts as used. */
    method ItemUsed(p: nat, ghost i: nat) returns (u: bool)
      requires Chained() && i <= |blocks| && p == StartOf(blocks, End(), i)
      ensures u <==> i == |blocks| || blocks[i].used
      ensures i < |blocks| ==> p != End()
    {
      if i < |blocks| { ReadItem(i); }
      u := IsUsed(p);
    }

    /** Creates the item behind the first `n` payload bytes of the item at `ptr`. */
    method SplitItem(ptr: nat, n: nat, ghost i: nat)
      requires Chained() && i < |blocks| && blocks[i].start == ptr && blocks[i].Payload() >= n + SIZEOF_STRUCT_MEM
      modifies heap, this`blocks
      ensures Chained() && blocks == Divide(old(blocks), i, n)
      ensures Kept(old(heap[..]), heap[..], ptr + SIZEOF_STRUCT_MEM, ptr + SIZEOF_STRUCT_MEM + n)
      ensures forall j :: 0 <= j < |old(blocks)| && j != i && old(blocks)[j].used ==>
                Kept(old(heap[..]), heap[..], old(blocks)[j].start + SIZEOF_STRUCT_MEM, old(blocks)[j].next)
    {
      ghost var h := heap[..];
      ReadLinks(i);
      WriteRemainder(ptr, ptr + SIZEOF_STRUCT_MEM + n);
      DivideLinked(h, blocks, End(), pool, i, n);
      DivideKeeps(h, blocks, End(), pool, i, n);
      blocks := Divide(blocks, i, n);
    }

    method WriteRemainder(ptr: nat, at: nat)
      requires heap.Length == End() + SIZEOF_STRUCT_MEM && ptr + SIZEOF_STRUCT_MEM <= at <= End()
      requires at + SIZEOF_STRUCT_MEM <= heap[ptr + NEXT] <= End()
      modifies heap
      ensures heap[..] == DivideHeap(old(heap[..]), ptr, at, old(heap[ptr + NEXT]), End(), pool)
    {
      var next := heap[ptr + NEXT];
      heap[at] := Tag(pool, false);
      heap[at + NEXT] := next;
      heap[at + PREV] := ptr;
      heap[ptr + NEXT] := at;
      if next != End() {
        heap[next + PREV] := at;
      }
    }

    /** Absorbs the item at `q` into the item at `p` in front of it. */
    method MergeItems(p: nat, q: nat, ghost i: nat)
      requires Chained() && i + 1 < |blocks| && blocks[i].start == p && blocks[i + 1].start == q
      requires !blocks[i].used && !blocks[i + 1].used
      modifies heap, this`blocks
      ensures Chained() && blocks == Merge(old(blocks), i)
      ensures PayloadsKept(old(heap[..]), heap[..], old(blocks))
    {
      ghost var h := heap[..];
      ReadLinks(i);
      ReadLinks(i + 1);
      var next := heap[q + NEXT];
      heap[q] := 0;
      heap[p + NEXT] := next;
      heap[next + PREV] := p;
      assert heap[..] == MergeHeap(h, p, q, next, End());
      MergeLinked(h, blocks, End(), pool, i);
      blocks := Merge(blocks, i);
    }

    method Mark(p: nat, used: bool, ghost i: nat)
      requires Chained() && i < |blocks| && blocks[i].start == p
      modifies heap, this`blocks
      ensures Chained() && blocks == Marked(old(blocks), i, used)
      ensures PayloadsKept(old(heap[..]), heap[..], old(blocks))
    {
      ghost var h := heap[..];
      ReadLinks(i);
      heap[p] := Tag(pool, used);
      assert heap[..] == h[p := Tag(pool, used)];
      MarkLinked(h, blocks, End(), pool, i, used);
      blocks := Marked(blocks, i, used);
    }

    method PlugForwardHole(mem: nat, ghost i: nat)
      requires Chained() && i < |blocks| && blocks[i].start == mem && !blocks[i].used
      modifies heap, this`blocks, this`lfree
      ensures Chained() && blocks == PlugForward(old(blocks), i)
      ensures lfree == CursorForward(old(blocks), i, old(lfree))
      ensures PayloadsKept(old(heap[..]), heap[..], old(blocks))
    {
      PayloadsKeptRefl(heap[..], blocks, End(), pool);
      ReadLinks(i);
      var nmem := heap[mem + NEXT];
      var nused := ItemUsed(nmem, i + 1);
      if mem != nmem && !nused && nmem != End() {
        if lfree == nmem {
          lfree := mem;
        }
        MergeItems(mem, nmem, i);
      }
    }

    method PlugBackwardHole(mem: nat, ghost i: nat)
      requires Chained() && i < |blocks| && blocks[i].start == mem && !blocks[i].used
      modifies heap, this`blocks, this`lfree
      ensures Chained() && blocks == PlugBackward(old(blocks), i)
      ensures lfree == CursorBackward(old(blocks), i, old(lfree))
      ensures PayloadsKept(old(heap[..]), heap[..], old(blocks))
    {
      PayloadsKeptRefl(heap[..], blocks, End(), pool);
      ReadLinks(i);
      var pmem := heap[mem + PREV];
      var pused := ItemUsed(pmem, if i == 0 then 0 else i - 1);
      if pmem != mem && !pused {
        ReadLinks(i - 1);
        if lfree == mem {
          lfree := pmem;
        }
        MergeItems(pmem, mem, i - 1);
      }
    }

    /** Joins the free item at `mem` with a free item behind it and a free item in front of it. */
    method PlugHoles(mem: nat, ghost i: nat)
      requires Chained() && i < |blocks| && blocks[i].start == mem && !blocks[i].used
      modifies heap, this`blocks, this`lfree
      ensures Chained() && blocks == SmallMemSpec.PlugHoles(old(blocks), i)
      ensures old(lfree) == LowestFree(old(blocks), End()) ==> lfree == LowestFree(blocks, End())
      ensures PayloadsKept(old(heap[..]), heap[..], old(blocks))
    {
      ghost var h, s := heap[..], blocks;
      PlugForwardHole(mem, i);
      ghost var h1, s1 := heap[..], blocks;
      PlugForwardAt(s, i);
      PlugLowest(s, End(), i);
      PlugBackwardHole(mem, i);
      PayloadsKeptTrans(h, h1, heap[..], s, s1);
    }

    /** Moves the cursor past used items, starting from item `i`. */
    method AdvanceCursor(ghost i: nat)
      requires Chained() && i <= |blocks| && lfree == StartOf(blocks, End(), i)
      requires forall j :: 0 <= j < i ==> blocks[j].used
      modifies this`lfree
      ensures lfree == LowestFree(blocks, End())
    {
      ghost var k := i;
      var u := ItemUsed(lfree, k);
      while u && lfree != End()
        invariant i <= k <= |blocks| && lfree == StartOf(blocks, End(), k)
        invariant u <==> k == |blocks| || blocks[k].used
        invariant k < |blocks| ==> lfree != End()
        invariant forall j :: 0 <= j < k ==> blocks[j].used
        decreases |blocks| - k
      {
        ReadLinks(k);
        lfree := heap[lfree + NEXT];
        k := k + 1;
        u := ItemUsed(lfree, k);
      }
      FirstFreeIs(blocks, k);
    }

    /** Cuts free item `i` when a remainder of a usable size is left, and accounts for what is taken. */
    method FitItem(ptr: nat, n: nat, ghost i: nat)
      requires Chained() && i < |blocks| && blocks[i].start == ptr && blocks[i].Fits(n)
      modifies this`used, this`blocks, heap
      ensures Chained() && blocks == if Splits(old(blocks)[i], n) then Divide(old(blocks), i, n) else old(blocks)
      ensures i < |blocks| && blocks[i].start == ptr
      ensures used == old(used) + (blocks[i].next - blocks[i].start)
      ensures PayloadsKept(old(heap[..]), heap[..], old(blocks))
    {
      ReadLinks(i);
      DivideAt(blocks, i, n, i);
      var next := heap[ptr + NEXT];
      if next - (ptr + SIZEOF_STRUCT_MEM) >= n + SIZEOF_STRUCT_MEM + MIN_SIZE_ALIGNED {
        SplitItem(ptr, n, i);
        used := used + (n + SIZEOF_STRUCT_MEM);
      } else {
        PayloadsKeptRefl(heap[..], blocks, End(), pool);
        used := used + (next - ptr);
      }
    }

    /** Hands out free item `i`. */
    method TakeItem(ptr: nat, n: nat, ghost i: nat)
      requires Chained() && i < |blocks| && blocks[i].start == ptr && blocks[i].Fits(n)
      modifies this`used, this`max, this`blocks, heap
      ensures Chained() && blocks == Carve(old(blocks), i, n)
      ensures i < |blocks| && blocks[i].start == ptr
      ensures used == old(used) + (blocks[i].next - blocks[i].start)
      ensures max == if old(max) < used then used else old(max)
      ensures PayloadsKept(old(heap[..]), heap[..], old(blocks))
    {
      ghost var h, s := heap[..], blocks;
      FitItem(ptr, n, i);
      ghost var h1, s1 := heap[..], blocks;
      if max < used {
        max := used;
      }
      Mark(ptr, true, i);
      DivideThenMark(s, i, n);
      DivideKeepsUsed(s, s1, i, n);
      PayloadsKeptTrans(h, h1, heap[..], s, s1);
    }

    /** Hands out free item `i` and keeps the cursor at the lowest free item. */
    method TakeAndAdvance(ptr: nat, n: nat, ghost i: nat)
      requires Valid() && i < |blocks| && blocks[i].start == ptr && blocks[i].Fits(n) && n % RT_ALIGN_SIZE == 0
      modifies this`lfree, this`used, this`max, this`blocks, heap
      ensures Valid() && blocks == Carve(old(blocks), i, n)
      ensures max == if old(max) < used then used else old(max)
      ensures PayloadsKept(old(heap[..]), heap[..], old(blocks))
    {
      ghost var s := blocks;
      CarveKeeps(s, End(), i, n);
      TakeItem(ptr, n, i);
      if ptr == lfree {
        LowestIs(s, End(), i);
        CarveBefore(s, i, n);
        AdvanceCursor(i);
      } else {
        CarveLowest(s, End(), i, n);
      }
    }

    /** First fit: takes the lowest free item that is large enough, or returns 0 when none is. */
    method Alloc(size: nat) returns (rmem: nat)
      requires Valid() && size < SIZE_T_SPAN
      modifies this`lfree, this`used, this`max, this`blocks, heap
      ensures Valid() && Allocates(old(blocks), blocks, size, rmem)
      ensures blocks == AllocSpec(old(blocks), size) && rmem == AllocAddress(old(blocks), size)
      ensures max == if old(max) < used then used else old(max)
      ensures PayloadsKept(old(heap[..]), heap[..], old(blocks))
    {
      AllocMeans(blocks, End(), size);
      rmem := AllocItem(size);
    }

    method AllocItem(size: nat) returns (rmem: nat)
      requires Valid() && size < SIZE_T_SPAN
      modifies this`lfree, this`used, this`max, this`blocks, heap
      ensures Valid() && blocks == AllocSpec(old(blocks), size) && rmem == AllocAddress(old(blocks), size)
      ensures max == if old(max) < used then used else old(max)
      ensures PayloadsKept(old(heap[..]), heap[..], old(blocks))
    {
      PayloadsKeptRefl(heap[..], blocks, End(), pool);
      if size == 0 {
        return 0;
      }
      var n := Align(size);
      if n < MIN_SIZE_ALIGNED {
        n := MIN_SIZE_ALIGNED;
      }
      if n > memSize {
        NoneBeyond(blocks, End(), 0, n);
        return 0;
      }
      var found, ptr, k := FindFit(n);
      if !found {
        return 0;
      }
      TakeAndAdvance(ptr, n, k);
      rmem := ptr + SIZEOF_STRUCT_MEM;
    }

    /** The search loop of rt_smem_alloc; `k` is the index of the item found. */
    method FindFit(n: nat) returns (found: bool, ptr: nat, ghost k: nat)
      requires Valid() && n <= memSize
      ensures k == FirstFit(blocks, n)
      ensures found <==> k < |blocks|
      ensures found ==> ptr == blocks[k].start
    {
      k := FirstFree(blocks);
      ptr := lfree;
      while ptr <= memSize - n
        invariant 0 <= k <= |blocks| && ptr == StartOf(blocks, End(), k)
        invariant forall j :: 0 <= j < k ==> !blocks[j].Fits(n)
        decreases |blocks| - k
      {
        ReadLinks(k);
        var u := ItemUsed(ptr, k);
        if !u && heap[ptr + NEXT] - (ptr + SIZEOF_STRUCT_MEM) >= n {
          found := true;
          return;
        }
        ptr := heap[ptr + NEXT];
        k := k + 1;
      }
      NoneBeyond(blocks, End(), k, n);
      found, k := false, FirstFit(blocks, n);
    }

    /** Marks the used item at `mem` free, with the cursor and the accounting. */
    method ReleaseItem(mem: nat, ghost i: nat)
      requires Chained() && i < |blocks| && blocks[i].used && mem == blocks[i].start
      requires lfree == LowestFree(blocks, End())
      modifies this`lfree, this`used, this`blocks, heap
      ensures Chained() && blocks == Marked(old(blocks), i, false)
      ensures lfree == LowestFree(blocks, End())
      ensures used == old(used) - (blocks[i].next - blocks[i].start)
      ensures PayloadsKept(old(heap[..]), heap[..], blocks)
    {
      ghost var h, s := heap[..], blocks;
      ReleaseLowest(s, End(), i);
      Mark(mem, false, i);
      PayloadsKeptMarked(h, heap[..], s, i);
      if mem < lfree {
        lfree := mem;
      }
      ReadLinks(i);
      used := used - (heap[mem + NEXT] - mem);
    }

    method ReleaseAndPlug(mem: nat, ghost i: nat)
      requires Chained() && i < |blocks| && blocks[i].used && mem == blocks[i].start
      requires lfree == LowestFree(blocks, End())
      modifies this`lfree, this`used, this`blocks, heap
      ensures Chained() && blocks == Release(old(blocks), i)
      ensures lfree == LowestFree(blocks, End())
      ensures used == old(used) - (old(blocks)[i].next - old(blocks)[i].start)
      ensures PayloadsKept(old(heap[..]), heap[..], Marked(old(blocks), i, false))
    {
      ghost var h, s := heap[..], blocks;
      ReleaseItem(mem, i);
      ghost var h1 := heap[..];
      PlugHoles(mem, i);
      PayloadsKeptTwice(h, h1, heap[..], Marked(s, i, false));
    }

    method FreeItem(mem: nat, ghost i: nat)
      requires Valid() && i < |blocks| && blocks[i].used && mem == blocks[i].start
      modifies this`lfree, this`used, this`blocks, heap
      ensures Valid() && blocks == Release(old(blocks), i)
      ensures PayloadsKept(old(heap[..]), heap[..], Marked(old(blocks), i, false))
    {
      ReleaseFits(blocks, End(), i);
      ReleaseAndPlug(mem, i);
    }

    /** Gives back the block whose payload is at `rmem`; a null pointer is ignored. */
    method Free(rmem: nat, ghost i: nat)
      requires Valid()
      requires rmem != 0 ==> i < |blocks| && blocks[i].used && rmem == blocks[i].start + SIZEOF_STRUCT_MEM
      modifies this`lfree, this`used, this`blocks, heap
      ensures Valid() && blocks == if rmem == 0 then old(blocks) else Release(old(blocks), i)
      ensures rmem != 0 ==> Live(blocks) == Live(old(blocks)) - {old(blocks)[i]}
      ensures PayloadsKept(old(heap[..]), heap[..], if rmem == 0 then old(blocks) else Marked(old(blocks), i, false))
    {
      if rmem == 0 {
        PayloadsKeptRefl(heap[..], blocks, End(), pool);
        return;
      }
      LiveFreed(blocks, End(), i);
      FreeItem(rmem - SIZEOF_STRUCT_MEM, i);
    }

    /** Shortens the used item at `mem` to `n` payload bytes and frees its tail. */
    method ShrinkChained(mem: nat, n: nat, ghost i: nat)
      requires Chained() && i < |blocks| && blocks[i].used && mem == blocks[i].start
      requires blocks[i].Payload() >= n + SIZEOF_STRUCT_MEM
      requires lfree == LowestFree(blocks, End())
      modifies this`lfree, this`used, this`blocks, heap
      ensures Chained() && blocks == Shrink(old(blocks), i, n)
      ensures lfree == LowestFree(blocks, End())
      ensures used == old(used) - (old(blocks)[i].Payload() - n)
      ensures PayloadsKept(old(heap[..]), heap[..], Truncated(old(blocks), i, n))
    {
      ghost var h, s := heap[..], blocks;
      CutTail(mem, n, i);
      ghost var h1, s1 := heap[..], blocks;
      CutAt(s, i, n, i + 1);
      PlugHoles(mem + SIZEOF_STRUCT_MEM + n, i + 1);
      TruncatedIn(s, i, n);
      PayloadsKeptTrans(h, h1, heap[..], Truncated(s, i, n), s1);
    }

    method CutTail(mem: nat, n: nat, ghost i: nat)
      requires Chained() && i < |blocks| && blocks[i].used && mem == blocks[i].start
      requires blocks[i].Payload() >= n + SIZEOF_STRUCT_MEM
      requires lfree == LowestFree(blocks, End())
      modifies this`lfree, this`used, this`blocks, heap
      ensures Chained() && blocks == Cut(old(blocks), i, n)
      ensures lfree == LowestFree(blocks, End())
      ensures used == old(used) - (old(blocks)[i].Payload() - n)
      ensures PayloadsKept(old(heap[..]), heap[..], Truncated(old(blocks), i, n))
    {
      ghost var h, s := heap[..], blocks;
      ReadLinks(i);
      used := used - (heap[mem + NEXT] - mem - SIZEOF_STRUCT_MEM - n);
      DivideLowest(s, End(), i, n);
      DivideThenMark(s, i, n);
      SplitItem(mem, n, i);
      DividePayloads(h, heap[..], s, i, n);
      var mem2 := mem + SIZEOF_STRUCT_MEM + n;
      if mem2 < lfree {
        lfree := mem2;
      }
    }

    method ShrinkItem(mem: nat, n: nat, ghost i: nat)
      requires Valid() && i < |blocks| && blocks[i].used && mem == blocks[i].start
      requires n % RT_ALIGN_SIZE == 0 && blocks[i].Payload() >= n + SIZEOF_STRUCT_MEM
      modifies this`lfree, this`used, this`blocks, heap
      ensures Valid() && blocks == Shrink(old(blocks), i, n)
      ensures PayloadsKept(old(heap[..]), heap[..], Truncated(old(blocks), i, n))
    {
      ShrinkKeeps(blocks, End(), i, n);
      ShrinkChained(mem, n, i);
    }

    method CopyCells(dst: nat, src: nat, m: nat)
      requires dst + m <= heap.Length && src + m <= heap.Length && (dst + m <= src || src + m <= dst)
      modifies heap
      ensures forall b :: 0 <= b < heap.Length && !(dst <= b < dst + m) ==> heap[b] == old(heap[b])
      ensures Copied(old(heap[..]), src, heap[..], dst, m)
    {
      for a := 0 to m
        invariant forall b :: 0 <= b < heap.Length && !(dst <= b < dst + a) ==> heap[b] == old(heap[b])
        invariant forall b :: dst <= b < dst + a ==> heap[b] == old(heap[src + (b - dst)])
      {
        heap[dst + a] := heap[src + a];
      }
    }

    /** rt_memcpy of `m` cells into the payload of used item `i`. */
    method CopyPayload(dst: nat, src: nat, m: nat, ghost i: nat, ghost j: nat)
      requires Valid() && i < |blocks| && j < |blocks| && i != j
      requires dst == blocks[i].start + SIZEOF_STRUCT_MEM && m <= blocks[i].Payload()
      requires src == blocks[j].start + SIZEOF_STRUCT_MEM && m <= blocks[j].Payload()
      modifies heap
      ensures Valid()
      ensures forall j' :: 0 <= j' < |blocks| && j' != i ==>
                Kept(old(heap[..]), heap[..], blocks[j'].start + SIZEOF_STRUCT_MEM, blocks[j'].next)
      ensures Copied(old(heap[..]), src, heap[..], dst, m)
    {
      ghost var h := heap[..];
      Bounds(blocks, End(), i);
      Bounds(blocks, End(), j);
      Apart(blocks, End(), i, j);
      CopyCells(dst, src, m);
      PayloadWrite(h, heap[..], blocks, End(), pool, i);
    }

    /** Allocates anew, copies the first `m` bytes and frees the old block; without room nothing happens. */
    method MoveItem(rmem: nat, n: nat, m: nat, ghost i: nat) returns (nmem: nat)
      requires Valid() && 0 < n < SIZE_T_SPAN
      requires i < |blocks| && blocks[i].used && rmem == blocks[i].start + SIZEOF_STRUCT_MEM
      requires m <= blocks[i].Payload() && m <= Demand(n)
      modifies this`lfree, this`used, this`max, this`blocks, heap
      ensures Valid() && blocks == Moved(old(blocks), i, n)
      ensures nmem == AllocAddress(old(blocks), n)
      ensures max == PeakOfMove(old(blocks), n, old(max))
      ensures nmem == 0 ==> PayloadsKept(old(heap[..]), heap[..], old(blocks))
      ensures nmem != 0 ==> PayloadsKept(old(heap[..]), heap[..], Marked(old(blocks), i, false))
      ensures nmem != 0 ==> Copied(old(heap[..]), rmem, heap[..], nmem, m)
    {
      ghost var h, s := heap[..], blocks;
      nmem := AllocItem(n);
      if nmem == 0 {
        return;
      }
      FinishMove(nmem, rmem, m, h, s, FirstFit(s, Demand(n)), Demand(n), i);
    }

    /** After block `k` of `s` was handed out: the copy, and the release of block `i`. */
    method FinishMove(nmem: nat, rmem: nat, m: nat, ghost h: seq<int>, ghost s: seq<Block>, ghost k: nat, ghost n: nat, ghost i: nat)
      requires Valid() && Shape(s, End()) && i < |s| && s[i].used && k < |s| && s[k].Fits(n) && n % RT_ALIGN_SIZE == 0
      requires blocks == Carve(s, k, n) && PayloadsKept(h, heap[..], s)
      requires nmem == s[k].start + SIZEOF_STRUCT_MEM && rmem == s[i].start + SIZEOF_STRUCT_MEM
      requires m <= s[i].Payload() && m <= n
      modifies this`lfree, this`used, this`blocks, heap
      ensures Valid() && Shifted(s, k, n, i) < |Carve(s, k, n)| && blocks == Release(Carve(s, k, n), Shifted(s, k, n, i))
      ensures PayloadsKept(h, heap[..], Marked(s, i, false)) && Copied(h, rmem, heap[..], nmem, m)
    {
      ghost var h1 := heap[..];
      MoveFacts(s, End(), k, n, i);
      CopyAndFree(nmem, rmem, m, k, Shifted(s, k, n, i));
      MovedPayloads(h, h1, heap[..], s, End(), k, n, i, m);
    }

    method CopyAndFree(nmem: nat, rmem: nat, m: nat, ghost k: nat, ghost i: nat)
      requires Valid() && i < |blocks| && k < |blocks| && i != k && blocks[i].used && blocks[k].used
      requires nmem == blocks[k].start + SIZEOF_STRUCT_MEM && m <= blocks[k].Payload()
      requires rmem == blocks[i].start + SIZEOF_STRUCT_MEM && m <= blocks[i].Payload()
      modifies this`lfree, this`used, this`blocks, heap
      ensures Valid() && blocks == Release(old(blocks), i)
      ensures OthersKept(old(heap[..]), heap[..], old(blocks), k, i)
      ensures Copied(old(heap[..]), rmem, heap[..], nmem, m)
    {
      ghost var h := heap[..];
      CopyPayload(nmem, rmem, m, k, i);
      FreeCopied(nmem, rmem, m, h, k, i);
    }

    method FreeCopied(nmem: nat, rmem: nat, m: nat, ghost h: seq<int>, ghost k: nat, ghost i: nat)
      requires Valid() && i < |blocks| && k < |blocks| && i != k && blocks[i].used && blocks[k].used
      requires nmem == blocks[k].start + SIZEOF_STRUCT_MEM && m <= blocks[k].Payload() && rmem == blocks[i].start + SIZEOF_STRUCT_MEM
      requires forall j :: 0 <= j < |blocks| && j != k ==> Kept(h, heap[..], blocks[j].start + SIZEOF_STRUCT_MEM, blocks[j].next)
      requires Copied(h, rmem, heap[..], nmem, m)
      modifies this`lfree, this`used, this`blocks, heap
      ensures Valid() && blocks == Release(old(blocks), i)
      ensures OthersKept(h, heap[..], old(blocks), k, i) && Copied(h, rmem, heap[..], nmem, m)
    {
      ghost var h1, s := heap[..], blocks;
      FreeItem(rmem - SIZEOF_STRUCT_MEM, i);
      CopiedThenFreed(h, h1, heap[..], s, k, i, rmem, m);
    }

    method ItemSize(mem: nat, ghost i: nat) returns (size: nat)
      requires Chained() && i < |blocks| && mem == blocks[i].start
      ensures size == blocks[i].Payload()
    {
      ReadLinks(i);
      size := heap[mem + NEXT] - mem - SIZEOF_STRUCT_MEM;
    }

    /** rt_smem_realloc of a live block to `n` bytes, rounded and within the heap. */
    method Resize(rmem: nat, n: nat, ghost i: nat) returns (nmem: nat)
      requires Valid() && 0 < n < SIZE_T_SPAN && n <= Demand(n) && n % RT_ALIGN_SIZE == 0
      requires i < |blocks| && blocks[i].used && rmem == blocks[i].start + SIZEOF_STRUCT_MEM
      modifies this`lfree, this`used, this`max, this`blocks, heap
      ensures Valid() && blocks == ResizeSpec(old(blocks), i, n)
      ensures nmem == ResizeAddress(old(blocks), i, n) && max == PeakOfResize(old(blocks), i, n, old(max))
      ensures nmem != 0 ==> Resized(old(heap[..]), heap[..], old(blocks), i, n, nmem)
      ensures nmem == 0 ==> blocks == old(blocks) && PayloadsKept(old(heap[..]), heap[..], old(blocks))
    {
      var size := ItemSize(rmem - SIZEOF_STRUCT_MEM, i);
      if size == n {
        KeptInPlace(i);
        return rmem;
      }
      nmem := ShrinkOrMove(rmem, n, size, i);
    }

    method ShrinkOrMove(rmem: nat, n: nat, size: nat, ghost i: nat) returns (nmem: nat)
      requires Valid() && 0 < n < SIZE_T_SPAN && n <= Demand(n) && n % RT_ALIGN_SIZE == 0
      requires i < |blocks| && blocks[i].used && rmem == blocks[i].start + SIZEOF_STRUCT_MEM
      requires size == blocks[i].Payload() != n
      modifies this`lfree, this`used, this`max, this`blocks, heap
      ensures Valid() && blocks == ResizeSpec(old(blocks), i, n)
      ensures nmem == ResizeAddress(old(blocks), i, n) && max == PeakOfResize(old(blocks), i, n, old(max))
      ensures nmem != 0 ==> Resized(old(heap[..]), heap[..], old(blocks), i, n, nmem)
      ensures nmem == 0 ==> blocks == old(blocks) && PayloadsKept(old(heap[..]), heap[..], old(blocks))
    {
      var mem := rmem - SIZEOF_STRUCT_MEM;
      if n + SIZEOF_STRUCT_MEM + MIN_SIZE < size {
        ShrinkInPlace(mem, n, i);
        return rmem;
      }
      nmem := MoveRest(rmem, n, if size < n then size else n, i);
    }

    method MoveRest(rmem: nat, n: nat, m: nat, ghost i: nat) returns (nmem: nat)
      requires Valid() && 0 < n < SIZE_T_SPAN && n <= Demand(n)
      requires i < |blocks| && blocks[i].used && rmem == blocks[i].start + SIZEOF_STRUCT_MEM
      requires MustMove(blocks, i, n) && m == Common(blocks[i].Payload(), n)
      modifies this`lfree, this`used, this`max, this`blocks, heap
      ensures Valid() && blocks == ResizeSpec(old(blocks), i, n)
      ensures nmem == ResizeAddress(old(blocks), i, n) && max == PeakOfResize(old(blocks), i, n, old(max))
      ensures nmem != 0 ==> Resized(old(heap[..]), heap[..], old(blocks), i, n, nmem)
      ensures nmem == 0 ==> blocks == old(blocks) && PayloadsKept(old(heap[..]), heap[..], old(blocks))
    {
      Bounds(blocks, End(), i);
      nmem := MoveItem(rmem, n, m, i);
    }

    /** Block `i` now lives at `nmem`, at least its first `n` payload bytes, and no other payload changed. */
    static ghost predicate Resized(h: seq<int>, h': seq<int>, s: seq<Block>, i: nat, n: nat, nmem: nat)
      requires i < |s| && s[i].Payload() >= 0
    {
      && Copied(h, s[i].start + SIZEOF_STRUCT_MEM, h', nmem, Common(s[i].Payload(), n))
      && PayloadsKept(h, h', Marked(s, i, false))
    }

    lemma KeptInPlace(i: nat)
      requires Valid() && i < |blocks|
      ensures PayloadsKept(heap[..], heap[..], Marked(blocks, i, false))
      ensures Copied(heap[..], blocks[i].start + SIZEOF_STRUCT_MEM, heap[..], blocks[i].start + SIZEOF_STRUCT_MEM, blocks[i].Payload())
    {
      PayloadsKeptRefl(heap[..], blocks, End(), pool);
      PayloadsKeptMarked(heap[..], heap[..], blocks, i);
      Bounds(blocks, End(), i);
    }

    method ShrinkInPlace(mem: nat, n: nat, ghost i: nat)
      requires Valid() && i < |blocks| && blocks[i].used && mem == blocks[i].start
      requires n % RT_ALIGN_SIZE == 0 && blocks[i].Payload() >= n + SIZEOF_STRUCT_MEM
      modifies this`lfree, this`used, this`blocks, heap
      ensures Valid() && blocks == Shrink(old(blocks), i, n)
      ensures PayloadsKept(old(heap[..]), heap[..], Marked(old(blocks), i, false))
      ensures Copied(old(heap[..]), mem + SIZEOF_STRUCT_MEM, heap[..], mem + SIZEOF_STRUCT_MEM, n)
    {
      ghost var h, s := heap[..], blocks;
      ShrinkItem(mem, n, i);
      TruncatedKept(h, heap[..], s, i, n);
    }

    /** rt_smem_realloc: a null pointer allocates, a size that rounds to 0 frees, otherwise the block is resized. */
    method Realloc(rmem: nat, newsize: nat, ghost i: nat) returns (nmem: nat)
      requires Valid() && newsize < SIZE_T_SPAN
      requires rmem != 0 ==> i < |blocks| && blocks[i].used && rmem == blocks[i].start + SIZEOF_STRUCT_MEM
      modifies this`lfree, this`used, this`max, this`blocks, heap
      ensures Valid()
      ensures blocks == if rmem == 0 then AllocSpec(old(blocks), Align(newsize)) else ReallocSpec(old(blocks), End(), i, newsize)
      ensures nmem == if Align(newsize) == 0 then 0
                      else if rmem == 0 then AllocAddress(old(blocks), Align(newsize))
                      else ResizeAddress(old(blocks), i, Align(newsize))
      ensures if rmem == 0 then AllocatesRounded(old(blocks), blocks, newsize, nmem)
              else Reallocates(old(blocks), blocks, old(blocks)[i], newsize, nmem)
      ensures max == if rmem == 0 then PeakOfMove(old(blocks), Align(newsize), old(max))
                     else PeakAfter(old(blocks), Op.Realloc(i, newsize), old(max))
      ensures rmem != 0 && Align(newsize) > 0 ==>
                (nmem == 0 <==> MustMove(old(blocks), i, Align(newsize)) && FirstFit(old(blocks), Demand(Align(newsize))) == |old(blocks)|)
      ensures nmem != 0 && rmem != 0 ==> Resized(old(heap[..]), heap[..], old(blocks), i, Align(newsize), nmem)
      ensures rmem == 0 || (nmem == 0 && Align(newsize) > 0) ==> PayloadsKept(old(heap[..]), heap[..], old(blocks))
      ensures rmem != 0 && nmem == 0 && Align(newsize) > 0 ==> blocks == old(blocks)
      ensures rmem != 0 && Align(newsize) == 0 ==> PayloadsKept(old(heap[..]), heap[..], Marked(old(blocks), i, false))
    {
      AlignedDemand(newsize);
      if rmem == 0 {
        RoundedMeans(blocks, End(), newsize);
        nmem := AllocRounded(Align(newsize));
      } else {
        ReallocMeans(blocks, End(), i, newsize);
        nmem := ReallocRounded(rmem, Align(newsize), i);
      }
    }

    /** The call with a null pointer. */
    method AllocRounded(n: nat) returns (nmem: nat)
      requires Valid() && n < SIZE_T_SPAN && n % RT_ALIGN_SIZE == 0
      modifies this`lfree, this`used, this`max, this`blocks, heap
      ensures Valid() && blocks == AllocSpec(old(blocks), n) && max == PeakOfMove(old(blocks), n, old(max))
      ensures nmem == if n == 0 then 0 else AllocAddress(old(blocks), n)
      ensures PayloadsKept(old(heap[..]), heap[..], old(blocks))
    {
      if n > memSize || n == 0 {
        if n > memSize { NothingFits(blocks, End(), n); }
        PayloadsKeptRefl(heap[..], blocks, End(), pool);
        return 0;
      }
      nmem := AllocItem(n);
    }

    /** The call with a live block. */
    method ReallocRounded(rmem: nat, n: nat, ghost i: nat) returns (nmem: nat)
      requires Valid() && n < SIZE_T_SPAN && n <= Demand(n) && n % RT_ALIGN_SIZE == 0
      requires i < |blocks| && blocks[i].used && rmem == blocks[i].start + SIZEOF_STRUCT_MEM
      modifies this`lfree, this`used, this`max, this`blocks, heap
      ensures Valid() && blocks == ReallocTo(old(blocks), End(), i, n)
      ensures nmem == (if n == 0 then 0 else ResizeAddress(old(blocks), i, n)) && max == PeakOfRealloc(old(blocks), i, n, old(max))
      ensures n > 0 ==> (nmem == 0 <==> MustMove(old(blocks), i, n) && FirstFit(old(blocks), Demand(n)) == |old(blocks)|)
      ensures nmem != 0 ==> Resized(old(heap[..]), heap[..], old(blocks), i, n, nmem)
      ensures nmem == 0 && n > 0 ==> blocks == old(blocks) && PayloadsKept(old(heap[..]), heap[..], old(blocks))
      ensures n == 0 ==> PayloadsKept(old(heap[..]), heap[..], Marked(old(blocks), i, false))
    {
      if n > memSize {
        BeyondHeap(blocks, End(), i, n);
        PayloadsKeptRefl(heap[..], blocks, End(), pool);
        return 0;
      }
      if n == 0 {
        Free(rmem, i);
        return 0;
      }
      nmem := Resize(rmem, n, i);
    }
  }
}
