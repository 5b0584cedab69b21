/**
 The heap of the small-memory allocator as a list of blocks, and what the
 allocator's operations mean on it. `SmallMem` proves that the in-place
 algorithm computes exactly these functions.
 */
module SmallMemSpec {
  const RT_ALIGN_SIZE: nat := 4
  const SIZEOF_STRUCT_MEM: nat := 12
  const MIN_SIZE: nat := 12
  const MIN_SIZE_ALIGNED: nat := 12
  const SIZE_T_SPAN: nat := 0x1_0000_0000

  /** RT_ALIGN on a 32-bit rt_size_t: the addition wraps. */
  function Align(size: nat): (n: nat)
    requires size < SIZE_T_SPAN
    ensures n % RT_ALIGN_SIZE == 0
  {
    (size + RT_ALIGN_SIZE - 1) % SIZE_T_SPAN / RT_ALIGN_SIZE * RT_ALIGN_SIZE
  }

  /** Payload that a request of `size` bytes is rounded to. */
  function Demand(size: nat): (n: nat)
    requires size < SIZE_T_SPAN
    ensures n % RT_ALIGN_SIZE == 0 && n >= MIN_SIZE_ALIGNED
  {
    if Align(size) < MIN_SIZE_ALIGNED then MIN_SIZE_ALIGNED else Align(size)
  }

  /** Rounding covers the request exactly when it does not wrap; it then wastes less than one unit. */
  lemma DemandCovers(size: nat)
    requires size < SIZE_T_SPAN
    ensures Demand(size) >= size <==> size <= SIZE_T_SPAN - RT_ALIGN_SIZE
    ensures size <= SIZE_T_SPAN - RT_ALIGN_SIZE ==> Align(size) < size + RT_ALIGN_SIZE
  {
  }

  /** Rounding a rounded size changes nothing, and a demand is never less than it. */
  lemma AlignedDemand(size: nat)
    requires size < SIZE_T_SPAN
    ensures Align(Align(size)) == Align(size) <= Demand(Align(size))
  {
  }

  /** One item: header at `start`, payload up to `next`. */
  datatype Block = Block(start: nat, next: nat, used: bool) {
    function Payload(): int { next - (start + SIZEOF_STRUCT_MEM) }
    function UsedSpan(): int { if used then next - start else 0 }
    predicate Fits(n: nat) { !used && Payload() >= n }
  }

  // ----- shape -----

  ghost predicate Tiles(s: seq<Block>, end: nat) {
    && |s| > 0 && s[0].start == 0 && s[|s| - 1].next == end
    && (forall i :: 0 <= i < |s| - 1 ==> s[i].next == s[i + 1].start)
    && (forall i :: 0 <= i < |s| ==> s[i].start + SIZEOF_STRUCT_MEM <= s[i].next)
  }

  ghost predicate AllAligned(s: seq<Block>) {
    forall i :: 0 <= i < |s| ==> AlignedBlock(s[i])
  }

  predicate AlignedBlock(b: Block) {
    b.start % RT_ALIGN_SIZE == 0 && b.next % RT_ALIGN_SIZE == 0
  }

  /** No two neighbours are both free, except possibly around block `hole`. */
  ghost predicate CoalescedBut(s: seq<Block>, hole: int) {
    forall i :: 0 <= i < |s| - 1 && i != hole && i + 1 != hole ==> s[i].used || s[i + 1].used
  }

  ghost predicate Shape(s: seq<Block>, end: nat) {
    Tiles(s, end) && CoalescedBut(s, -2) && AllAligned(s)
  }

  lemma {:induction false} Ordered(s: seq<Block>, end: nat, i: nat, j: nat)
    requires Tiles(s, end) && i < j < |s|
    ensures s[i].next <= s[j].start
    decreases j
  {
    if i + 1 < j { Ordered(s, end, i, j - 1); }
  }

  lemma Bounds(s: seq<Block>, end: nat, i: nat)
    requires Tiles(s, end) && i < |s|
    ensures s[i].next <= end
  {
    if i < |s| - 1 { Ordered(s, end, i, |s| - 1); }
  }

  /** Payloads handed out are aligned, inside the heap and disjoint. */
  lemma PayloadsDisjoint(s: seq<Block>, end: nat, i: nat, j: nat)
    requires Shape(s, end) && i < |s| && j < |s| && i != j
    ensures (s[i].start + SIZEOF_STRUCT_MEM) % RT_ALIGN_SIZE == 0
    ensures s[i].next <= end
    ensures s[i].next <= s[j].start || s[j].next <= s[i].start
  {
    Bounds(s, end, i);
    if i < j { Ordered(s, end, i, j); } else { Ordered(s, end, j, i); }
  }

  // ----- queries -----

  function FirstFreeFrom(s: seq<Block>, i: nat): (k: nat)
    requires i <= |s|
    ensures i <= k <= |s|
    ensures forall j :: i <= j < k ==> s[j].used
    ensures k < |s| ==> !s[k].used
    decreases |s| - i
  {
    if i == |s| || !s[i].used then i else FirstFreeFrom(s, i + 1)
  }

  function FirstFree(s: seq<Block>): (k: nat)
    ensures k <= |s|
    ensures forall j :: 0 <= j < k ==> s[j].used
    ensures k < |s| ==> !s[k].used
  {
    FirstFreeFrom(s, 0)
  }

  function FirstFitFrom(s: seq<Block>, n: nat, i: nat): (k: nat)
    requires i <= |s|
    ensures i <= k <= |s|
    ensures forall j :: i <= j < k ==> !s[j].Fits(n)
    ensures k < |s| ==> s[k].Fits(n)
    decreases |s| - i
  {
    if i == |s| || s[i].Fits(n) then i else FirstFitFrom(s, n, i + 1)
  }

  function FirstFit(s: seq<Block>, n: nat): (k: nat)
    ensures k <= |s|
    ensures forall j :: 0 <= j < k ==> !s[j].Fits(n)
    ensures k < |s| ==> s[k].Fits(n)
  {
    FirstFitFrom(s, n, 0)
  }

  function StartOf(s: seq<Block>, end: nat, i: nat): (p: nat)
    requires i <= |s|
  {
    if i < |s| then s[i].start else end
  }

  /** Bytes in used blocks, headers included. */
  function UsedBytes(s: seq<Block>): (n: int)
  {
    if s == [] then 0 else UsedBytes(s[..|s| - 1]) + s[|s| - 1].UsedSpan()
  }

  lemma {:induction false} UsedConcat(a: seq<Block>, b: seq<Block>)
    ensures UsedBytes(a + b) == UsedBytes(a) + UsedBytes(b)
    decreases |b|
  {
    if b == [] {
      assert a + b == a;
    } else {
      UsedConcat(a, b[..|b| - 1]);
      assert (a + b)[..|a + b| - 1] == a + b[..|b| - 1];
    }
  }

  lemma UsedOne(b: Block)
    ensures UsedBytes([b]) == b.UsedSpan()
  {
    assert [b][..0] == [];
  }

  /** Replacing one block by one. */
  lemma UsedReplace(s: seq<Block>, i: nat, b: Block)
    requires i < |s|
    ensures UsedBytes(s[i := b]) == UsedBytes(s) - s[i].UsedSpan() + b.UsedSpan()
  {
    assert s[i := b] == s[..i] + [b] + s[i + 1..];
    UsedParts(s[..i], [b], s[i + 1..]);
    UsedOne(b);
    assert s == s[..i] + [s[i]] + s[i + 1..];
    UsedParts(s[..i], [s[i]], s[i + 1..]);
    UsedOne(s[i]);
  }

  /** Inserting one block behind block `i`. */
  lemma UsedInsert(s: seq<Block>, i: nat, c: Block)
    requires i < |s|
    ensures UsedBytes(s[..i + 1] + [c] + s[i + 1..]) == UsedBytes(s) + c.UsedSpan()
  {
    UsedParts(s[..i + 1], [c], s[i + 1..]);
    UsedOne(c);
    assert s == s[..i + 1] + s[i + 1..];
    UsedConcat(s[..i + 1], s[i + 1..]);
  }

  lemma UsedParts(a: seq<Block>, b: seq<Block>, c: seq<Block>)
    ensures UsedBytes(a + b + c) == UsedBytes(a) + UsedBytes(b) + UsedBytes(c)
  {
    UsedConcat(a + b, c);
    UsedConcat(a, b);
  }

  // ----- operations -----

  predicate Splits(b: Block, n: nat) {
    b.Payload() >= n + SIZEOF_STRUCT_MEM + MIN_SIZE_ALIGNED
  }

  function Marked(s: seq<Block>, i: nat, used: bool): (s': seq<Block>)
    requires i < |s|
    ensures |s'| == |s|
  {
    s[i := s[i].(used := used)]
  }

  /** Block `i` cut after `n` payload bytes, keeping its mark; the remainder is free. */
  function Divide(s: seq<Block>, i: nat, n: nat): (s': seq<Block>)
    requires i < |s|
  {
    var b := s[i];
    var at := b.start + SIZEOF_STRUCT_MEM + n;
    s[..i] + [Block(b.start, at, b.used), Block(at, b.next, false)] + s[i + 1..]
  }

  lemma DivideThenMark(s: seq<Block>, i: nat, n: nat)
    requires i < |s|
    ensures Marked(Divide(s, i, n), i, true) == Cut(s, i, n)
    ensures s[i].used ==> Divide(s, i, n) == Cut(s, i, n)
  {
  }

  /** Block `i` cut after `n` payload bytes, its front part handed out; the remainder is free. */
  function Cut(s: seq<Block>, i: nat, n: nat): (s': seq<Block>)
    requires i < |s|
  {
    var b := s[i];
    var at := b.start + SIZEOF_STRUCT_MEM + n;
    s[..i] + [Block(b.start, at, true), Block(at, b.next, false)] + s[i + 1..]
  }

  /** Block `i` handed out for `n` payload bytes. */
  function Carve(s: seq<Block>, i: nat, n: nat): (s': seq<Block>)
    requires i < |s|
  {
    if Splits(s[i], n) then Cut(s, i, n) else Marked(s, i, true)
  }

  /** Blocks `i` and `i + 1` become one free block. */
  function Merge(s: seq<Block>, i: nat): (s': seq<Block>)
    requires i + 1 < |s|
  {
    s[..i] + [Block(s[i].start, s[i + 1].next, false)] + s[i + 2..]
  }

  function PlugForward(s: seq<Block>, i: nat): (s': seq<Block>)
    requires i < |s|
  {
    if i + 1 < |s| && !s[i + 1].used then Merge(s, i) else s
  }

  function PlugBackward(s: seq<Block>, i: nat): (s': seq<Block>)
    requires i < |s|
  {
    if i > 0 && !s[i - 1].used then Merge(s, i - 1) else s
  }

  function PlugHoles(s: seq<Block>, i: nat): (s': seq<Block>)
    requires i < |s| && !s[i].used
  {
    PlugBackward(PlugForward(s, i), i)
  }

  function Release(s: seq<Block>, i: nat): (s': seq<Block>)
    requires i < |s|
  {
    PlugHoles(Marked(s, i, false), i)
  }

  /** A block shortened in place; its tail joins the free block behind it. */
  function Shrink(s: seq<Block>, i: nat, n: nat): (s': seq<Block>)
    requires i < |s|
  {
    PlugHoles(Cut(s, i, n), i + 1)
  }

  // ----- what the operations keep -----

  lemma CutAt(s: seq<Block>, i: nat, n: nat, j: nat)
    requires i < |s| && j <= |s|
    ensures |Cut(s, i, n)| == |s| + 1
    ensures var at := s[i].start + SIZEOF_STRUCT_MEM + n;
            Cut(s, i, n)[j] == if j < i then s[j]
                               else if j == i then Block(s[i].start, at, true)
                               else if j == i + 1 then Block(at, s[i].next, false)
                               else s[j - 1]
  {
  }

  lemma CutTiles(s: seq<Block>, end: nat, i: nat, n: nat)
    requires Tiles(s, end) && i < |s| && s[i].Payload() >= n + SIZEOF_STRUCT_MEM
    ensures Tiles(Cut(s, i, n), end)
  {
    var c := Cut(s, i, n);
    forall j | 0 <= j < |c| - 1 ensures c[j].next == c[j + 1].start {
      CutAt(s, i, n, j);
      CutAt(s, i, n, j + 1);
    }
    forall j | 0 <= j < |c| ensures c[j].start + SIZEOF_STRUCT_MEM <= c[j].next {
      CutAt(s, i, n, j);
    }
  }

  lemma CutAligned(s: seq<Block>, i: nat, n: nat)
    requires AllAligned(s) && i < |s| && n % RT_ALIGN_SIZE == 0
    ensures AllAligned(Cut(s, i, n))
  {
    forall j | 0 <= j < |Cut(s, i, n)| ensures AlignedBlock(Cut(s, i, n)[j]) {
      CutAlignedAt(s, i, n, j);
    }
  }

  lemma CutAlignedAt(s: seq<Block>, i: nat, n: nat, j: nat)
    requires AllAligned(s) && i < |s| && n % RT_ALIGN_SIZE == 0 && j < |Cut(s, i, n)|
    ensures AlignedBlock(Cut(s, i, n)[j])
  {
    CutAt(s, i, n, j);
    assert AlignedBlock(s[i]);
    AlignedCut(s[i].start, n);
    if j < i { assert AlignedBlock(s[j]); } else if j > i + 1 { assert AlignedBlock(s[j - 1]); }
  }

  lemma AlignedCut(start: nat, n: nat)
    requires start % RT_ALIGN_SIZE == 0 && n % RT_ALIGN_SIZE == 0
    ensures (start + SIZEOF_STRUCT_MEM + n) % RT_ALIGN_SIZE == 0
  {
  }

  lemma CutAsInsert(s: seq<Block>, i: nat, n: nat, t: seq<Block>)
    requires i < |s| && t == s[i := Cut(s, i, n)[i]]
    ensures Cut(s, i, n) == t[..i + 1] + [Cut(s, i, n)[i + 1]] + t[i + 1..]
  {
  }

  lemma CutUsed(s: seq<Block>, i: nat, n: nat)
    requires i < |s|
    ensures UsedBytes(Cut(s, i, n)) == UsedBytes(s) - s[i].UsedSpan() + SIZEOF_STRUCT_MEM + n
  {
    CutAt(s, i, n, i);
    CutAt(s, i, n, i + 1);
    var head, tail := Cut(s, i, n)[i], Cut(s, i, n)[i + 1];
    UsedReplace(s, i, head);
    UsedInsert(s[i := head], i, tail);
    CutAsInsert(s, i, n, s[i := head]);
  }

  lemma CutCoalesced(s: seq<Block>, i: nat, n: nat)
    requires i < |s| && CoalescedBut(s, -2)
    ensures CoalescedBut(Cut(s, i, n), i + 1)
    ensures !s[i].used ==> CoalescedBut(Cut(s, i, n), -2)
  {
    var c := Cut(s, i, n);
    forall j | 0 <= j < |c| - 1 && (s[i].used ==> j != i + 1)
      ensures c[j].used || c[j + 1].used
    {
      CutAt(s, i, n, j);
      CutAt(s, i, n, j + 1);
      if j > i + 1 {
        assert s[j - 1].used || s[j].used;
      } else if j == i + 1 {
        assert s[i].used || s[i + 1].used;
      } else if j < i {
        assert s[j].used || s[j + 1].used;
      }
    }
  }

  /** Handing out a free block keeps the shape and adds the block's span to `used`. */
  lemma CarveKeeps(s: seq<Block>, end: nat, i: nat, n: nat)
    requires Shape(s, end) && i < |s| && n % RT_ALIGN_SIZE == 0 && s[i].Fits(n)
    ensures Shape(Carve(s, i, n), end)
    ensures var b := Carve(s, i, n)[i];
            b.used && b.start == s[i].start && b.Payload() >= n
            && UsedBytes(Carve(s, i, n)) == UsedBytes(s) + (b.next - b.start)
  {
    if Splits(s[i], n) {
      CutTiles(s, end, i, n);
      CutAligned(s, i, n);
      CutUsed(s, i, n);
      CutCoalesced(s, i, n);
      CutAt(s, i, n, i);
    } else {
      UsedReplace(s, i, s[i].(used := true));
      MarkedKeeps(s, end, i, true);
    }
  }

  lemma MergeAt(s: seq<Block>, i: nat, j: nat)
    requires i + 1 < |s| && j < |s| - 1
    ensures |Merge(s, i)| == |s| - 1
    ensures Merge(s, i)[j] == if j < i then s[j] else if j == i then Block(s[i].start, s[i + 1].next, false) else s[j + 1]
  {
  }

  lemma MergeTiles(s: seq<Block>, end: nat, i: nat)
    requires Tiles(s, end) && i + 1 < |s|
    ensures Tiles(Merge(s, i), end)
  {
    var m := Merge(s, i);
    forall j | 0 <= j < |m| - 1 ensures m[j].next == m[j + 1].start {
      MergeAt(s, i, j);
      MergeAt(s, i, j + 1);
    }
    forall j | 0 <= j < |m| ensures m[j].start + SIZEOF_STRUCT_MEM <= m[j].next {
      MergeAt(s, i, j);
    }
  }

  lemma MergeAligned(s: seq<Block>, i: nat)
    requires AllAligned(s) && i + 1 < |s|
    ensures AllAligned(Merge(s, i))
  {
    forall j | 0 <= j < |s| - 1
      ensures Merge(s, i)[j].start % RT_ALIGN_SIZE == 0 && Merge(s, i)[j].next % RT_ALIGN_SIZE == 0
    {
      MergeAt(s, i, j);
    }
  }

  lemma MergeUsed(s: seq<Block>, i: nat)
    requires i + 1 < |s| && !s[i].used && !s[i + 1].used
    ensures UsedBytes(Merge(s, i)) == UsedBytes(s)
  {
    var m := Merge(s, i);
    UsedInsert(m, i, s[i + 1]);
    var t := m[..i + 1] + [s[i + 1]] + m[i + 1..];
    UsedReplace(t, i, s[i]);
    assert t[i := s[i]] == s;
  }

  /** Merging the hole with its free right neighbour, or its left one, leaves a smaller hole. */
  lemma MergeCoalesced(s: seq<Block>, hole: nat, i: nat)
    requires i + 1 < |s| && (hole == i || hole == i + 1) && CoalescedBut(s, hole)
    requires hole == i + 1 && i + 2 < |s| ==> s[i + 2].used
    ensures CoalescedBut(Merge(s, i), i)
    ensures hole == i + 1 && (i > 0 ==> s[i - 1].used) ==> CoalescedBut(Merge(s, i), -2)
  {
    var m := Merge(s, i);
    forall j | 0 <= j < |m| - 1 && (j == i || j + 1 == i ==> hole == i + 1 && (i > 0 ==> s[i - 1].used))
      ensures m[j].used || m[j + 1].used
    {
      MergeAt(s, i, j);
      MergeAt(s, i, j + 1);
      if j < i - 1 {
        assert s[j].used || s[j + 1].used;
      } else if j > i {
        assert s[j + 1].used || s[j + 2].used;
      }
    }
  }

  /** Plugging forward leaves block `i` in place and loses no used block. */
  lemma PlugForwardAt(s: seq<Block>, i: nat)
    requires i < |s| && !s[i].used
    ensures var s1 := PlugForward(s, i);
            i < |s1| && s1[i].start == s[i].start && !s1[i].used
            && forall j :: 0 <= j < |s| && s[j].used ==> s[j] in s1
  {
    var s1 := PlugForward(s, i);
    forall j | 0 <= j < |s| && s[j].used ensures s[j] in s1 {
      if s1 != s {
        MergeAt(s, i, if j < i then j else j - 1);
      }
    }
  }

  lemma PlugForwardKeeps(s: seq<Block>, end: nat, i: nat)
    requires Tiles(s, end) && i < |s| && !s[i].used && CoalescedBut(s, i) && AllAligned(s)
    ensures var s1 := PlugForward(s, i);
            Tiles(s1, end) && i < |s1| && !s1[i].used && CoalescedBut(s1, i) && AllAligned(s1)
            && (i + 1 < |s1| ==> s1[i + 1].used) && (i > 0 ==> s1[i - 1] == s[i - 1])
            && UsedBytes(s1) == UsedBytes(s)
  {
    if i + 1 < |s| && !s[i + 1].used {
      MergeTiles(s, end, i);
      MergeAligned(s, i);
      MergeUsed(s, i);
      MergeCoalesced(s, i, i);
      if i + 2 < |s| { assert s[i + 2].used; }
    }
  }

  /** Plugging the holes around one free block restores the shape. */
  lemma PlugHolesKeeps(s: seq<Block>, end: nat, i: nat)
    requires Tiles(s, end) && i < |s| && !s[i].used && CoalescedBut(s, i) && AllAligned(s)
    ensures Shape(PlugHoles(s, i), end)
    ensures UsedBytes(PlugHoles(s, i)) == UsedBytes(s)
  {
    PlugForwardKeeps(s, end, i);
    PlugBackwardKeeps(PlugForward(s, i), end, i);
  }

  lemma PlugBackwardKeeps(s: seq<Block>, end: nat, i: nat)
    requires Tiles(s, end) && i < |s| && !s[i].used && CoalescedBut(s, i) && AllAligned(s)
    requires i + 1 < |s| ==> s[i + 1].used
    ensures Shape(PlugBackward(s, i), end)
    ensures UsedBytes(PlugBackward(s, i)) == UsedBytes(s)
  {
    if i > 0 && !s[i - 1].used {
      MergeBackwardKeeps(s, end, i);
    } else {
      LastHole(s, i);
    }
  }

  lemma MergeBackwardKeeps(s: seq<Block>, end: nat, i: nat)
    requires Tiles(s, end) && 0 < i < |s| && !s[i].used && !s[i - 1].used && CoalescedBut(s, i) && AllAligned(s)
    requires i + 1 < |s| ==> s[i + 1].used
    ensures Shape(Merge(s, i - 1), end)
    ensures UsedBytes(Merge(s, i - 1)) == UsedBytes(s)
  {
    MergeTiles(s, end, i - 1);
    MergeAligned(s, i - 1);
    MergeUsed(s, i - 1);
    PlugBackwardCoalesced(s, i);
  }

  lemma PlugBackwardCoalesced(s: seq<Block>, i: nat)
    requires 0 < i < |s| && !s[i].used && !s[i - 1].used && CoalescedBut(s, i)
    requires i + 1 < |s| ==> s[i + 1].used
    ensures CoalescedBut(Merge(s, i - 1), -2)
  {
    if i > 1 { assert s[i - 2].used; }
    MergeCoalesced(s, i, i - 1);
  }

  lemma LastHole(s: seq<Block>, i: nat)
    requires i < |s| && CoalescedBut(s, i)
    requires (i + 1 < |s| ==> s[i + 1].used) && (i > 0 ==> s[i - 1].used)
    ensures CoalescedBut(s, -2)
  {
  }

  lemma ReleaseKeeps(s: seq<Block>, end: nat, i: nat)
    requires Shape(s, end) && i < |s| && s[i].used
    ensures Shape(Release(s, i), end)
    ensures UsedBytes(Release(s, i)) == UsedBytes(s) - (s[i].next - s[i].start)
  {
    var freed := Marked(s, i, false);
    UsedReplace(s, i, s[i].(used := false));
    MarkedKeeps(s, end, i, false);
    PlugHolesKeeps(freed, end, i);
  }

  lemma ReleaseFits(s: seq<Block>, end: nat, i: nat)
    requires Shape(s, end) && i < |s| && s[i].used
    ensures Shape(Release(s, i), end)
    ensures UsedBytes(Release(s, i)) == UsedBytes(s) - (s[i].next - s[i].start) <= UsedBytes(s)
  {
    ReleaseKeeps(s, end, i);
  }

  lemma MarkedKeeps(s: seq<Block>, end: nat, i: nat, used: bool)
    requires Shape(s, end) && i < |s|
    ensures Tiles(Marked(s, i, used), end) && CoalescedBut(Marked(s, i, used), i) && AllAligned(Marked(s, i, used))
    ensures used ==> Shape(Marked(s, i, used), end)
  {
    var m := Marked(s, i, used);
    forall j | 0 <= j < |m| - 1 && (!used ==> j != i && j + 1 != i) ensures m[j].used || m[j + 1].used {
      assert s[j].used || s[j + 1].used;
    }
  }

  lemma ShrinkKeeps(s: seq<Block>, end: nat, i: nat, n: nat)
    requires Shape(s, end) && i < |s| && s[i].used
    requires n % RT_ALIGN_SIZE == 0 && s[i].Payload() >= n + SIZEOF_STRUCT_MEM
    ensures Shape(Shrink(s, i, n), end)
    ensures UsedBytes(Shrink(s, i, n)) == UsedBytes(s) - (s[i].Payload() - n)
  {
    CutTiles(s, end, i, n);
    CutAligned(s, i, n);
    CutUsed(s, i, n);
    CutCoalesced(s, i, n);
    PlugHolesKeeps(Cut(s, i, n), end, i + 1);
  }

  // ----- what the operations undo -----

  /** Releasing what was just handed out restores the block list, whether or not the block was split. */
  lemma AllocFreeRoundTrip(s: seq<Block>, end: nat, i: nat, n: nat)
    requires Shape(s, end) && i < |s| && s[i].Fits(n)
    ensures Release(Carve(s, i, n), i) == s
  {
    var c := Carve(s, i, n);
    var freed := Marked(c, i, false);
    if Splits(s[i], n) {
      assert Merge(freed, i) == s;
    } else {
      assert freed == s;
    }
  }

  lemma Neighbours(s: seq<Block>, end: nat, i: nat)
    requires Shape(s, end) && i + 1 < |s|
    ensures s[i].used || s[i + 1].used
  {
  }

  /** With nothing handed out the heap is the one block it began as. */
  lemma EmptyHeapIsWhole(s: seq<Block>, end: nat)
    requires Shape(s, end) && forall i :: 0 <= i < |s| ==> !s[i].used
    ensures s == [Block(0, end, false)]
  {
    if |s| > 1 {
      Neighbours(s, end, 0);
      assert false;
    }
  }

  // ----- runs -----

  datatype Op = Alloc(size: nat) | Free(i: nat) | Realloc(i: nat, newsize: nat)

  ghost predicate Legal(s: seq<Block>, op: Op) {
    match op
    case Alloc(size) => size < SIZE_T_SPAN
    case Free(i) => i < |s| && s[i].used
    case Realloc(i, newsize) => i < |s| && s[i].used && newsize < SIZE_T_SPAN
  }

  /** The block list after an allocation request; unchanged when it is refused. */
  ghost function AllocSpec(s: seq<Block>, size: nat): (s': seq<Block>)
    requires size < SIZE_T_SPAN
  {
    var k := FirstFit(s, Demand(size));
    if size == 0 || k == |s| then s else Carve(s, k, Demand(size))
  }

  /** Where block `i` is after an allocation carved block `k`. */
  function Shifted(s: seq<Block>, k: nat, n: nat, i: nat): (i': nat)
    requires k < |s|
  {
    if k < i && Splits(s[k], n) then i + 1 else i
  }

  /** Handing out one block leaves every other block as it was. */
  lemma CarveElsewhere(s: seq<Block>, k: nat, n: nat, i: nat)
    requires k < |s| && i < |s| && i != k
    ensures Shifted(s, k, n, i) < |Carve(s, k, n)| && Carve(s, k, n)[Shifted(s, k, n, i)] == s[i]
  {
  }

  /** Block `i` moved to a fresh block for `n` bytes, or left alone when there is no room for one. */
  ghost function Moved(s: seq<Block>, i: nat, n: nat): (s': seq<Block>)
    requires i < |s| && s[i].used && n < SIZE_T_SPAN
  {
    var k := FirstFit(s, Demand(n));
    if k == |s| then s
    else
      CarveElsewhere(s, k, Demand(n), i);
      Release(Carve(s, k, Demand(n)), Shifted(s, k, Demand(n), i))
  }

  /** The peak while both copies exist. */
  ghost function PeakOfMove(s: seq<Block>, n: nat, max: int): (peak: int)
    requires n < SIZE_T_SPAN
  {
    var both := UsedBytes(AllocSpec(s, n));
    if max < both then both else max
  }

  /** A live block resized to `n` bytes, already rounded: unchanged, shortened in place, or moved. */
  ghost function ResizeSpec(s: seq<Block>, i: nat, n: nat): (s': seq<Block>)
    requires i < |s| && s[i].used && n < SIZE_T_SPAN
  {
    if n == s[i].Payload() then s
    else if n + SIZEOF_STRUCT_MEM + MIN_SIZE < s[i].Payload() then Shrink(s, i, n)
    else Moved(s, i, n)
  }

  ghost function ReallocSpec(s: seq<Block>, end: nat, i: nat, newsize: nat): (s': seq<Block>)
    requires i < |s| && s[i].used && newsize < SIZE_T_SPAN && end >= SIZEOF_STRUCT_MEM
  {
    ReallocTo(s, end, i, Align(newsize))
  }

  /** rt_smem_realloc of block `i`, with the size already rounded. */
  ghost function ReallocTo(s: seq<Block>, end: nat, i: nat, n: nat): (s': seq<Block>)
    requires i < |s| && s[i].used && n < SIZE_T_SPAN && end >= SIZEOF_STRUCT_MEM
  {
    if n > end - SIZEOF_STRUCT_MEM then s
    else if n == 0 then Release(s, i)
    else ResizeSpec(s, i, n)
  }

  ghost function Apply(s: seq<Block>, end: nat, op: Op): (s': seq<Block>)
    requires Legal(s, op) && end >= SIZEOF_STRUCT_MEM
  {
    match op
    case Alloc(size) => AllocSpec(s, size)
    case Free(i) => Release(s, i)
    case Realloc(i, newsize) => ReallocSpec(s, end, i, newsize)
  }

  lemma ReallocKeeps(s: seq<Block>, end: nat, i: nat, newsize: nat)
    requires Shape(s, end) && i < |s| && s[i].used && newsize < SIZE_T_SPAN && end >= SIZEOF_STRUCT_MEM
    ensures Shape(ReallocSpec(s, end, i, newsize), end)
  {
    var n := Align(newsize);
    if n == 0 {
      ReleaseKeeps(s, end, i);
    } else {
      ResizeKeeps(s, end, i, n);
    }
  }

  lemma ResizeKeeps(s: seq<Block>, end: nat, i: nat, n: nat)
    requires Shape(s, end) && i < |s| && s[i].used && n < SIZE_T_SPAN && n % RT_ALIGN_SIZE == 0
    ensures Shape(ResizeSpec(s, i, n), end)
  {
    if n + SIZEOF_STRUCT_MEM + MIN_SIZE < s[i].Payload() {
      ShrinkKeeps(s, end, i, n);
    } else {
      MovedKeeps(s, end, i, n);
    }
  }

  lemma MoveFacts(s: seq<Block>, end: nat, k: nat, n: nat, i: nat)
    requires Shape(s, end) && i < |s| && s[i].used && k < |s| && s[k].Fits(n) && n % RT_ALIGN_SIZE == 0
    ensures var c, i' := Carve(s, k, n), Shifted(s, k, n, i);
            Shape(c, end) && k < |c| && i' < |c| && i' != k && c[i'] == s[i] && c[i'].used
            && c[k].used && c[k].start == s[k].start && c[k].Payload() >= n
  {
    CarveKeeps(s, end, k, n);
    CarveElsewhere(s, k, n, i);
  }

  lemma MovedKeeps(s: seq<Block>, end: nat, i: nat, n: nat)
    requires Shape(s, end) && i < |s| && s[i].used && n < SIZE_T_SPAN
    ensures Shape(Moved(s, i, n), end)
  {
    var k := FirstFit(s, Demand(n));
    if k < |s| {
      MoveFacts(s, end, k, Demand(n), i);
      ReleaseKeeps(Carve(s, k, Demand(n)), end, Shifted(s, k, Demand(n), i));
    }
  }

  lemma ApplyKeeps(s: seq<Block>, end: nat, op: Op)
    requires Shape(s, end) && Legal(s, op) && end >= SIZEOF_STRUCT_MEM
    ensures Shape(Apply(s, end, op), end)
  {
    match op {
      case Alloc(size) =>
        var k := FirstFit(s, Demand(size));
        if k < |s| { CarveKeeps(s, end, k, Demand(size)); }
      case Free(i) => ReleaseKeeps(s, end, i);
      case Realloc(i, newsize) => ReallocKeeps(s, end, i, newsize);
    }
  }

  /** `s'` is reached from `s` by legal calls. */
  ghost predicate Run(s: seq<Block>, end: nat, ops: seq<Op>, s': seq<Block>)
    requires end >= SIZEOF_STRUCT_MEM
    decreases |ops|
  {
    if ops == [] then s == s'
    else Legal(s, ops[0]) && Run(Apply(s, end, ops[0]), end, ops[1..], s')
  }

  // ----- what a call returns and what it notes as the peak -----

  /** The address an allocation returns: the lowest block that fits, or 0 when none does. */
  ghost function AllocAddress(s: seq<Block>, size: nat): (rmem: nat)
    requires size < SIZE_T_SPAN
  {
    var k := FirstFit(s, Demand(size));
    if size == 0 || k == |s| then 0 else s[k].start + SIZEOF_STRUCT_MEM
  }

  /** A resize to `n` bytes neither finds the size right nor has enough to cut off. */
  ghost predicate MustMove(s: seq<Block>, i: nat, n: nat)
    requires i < |s|
  {
    n != s[i].Payload() && !(n + SIZEOF_STRUCT_MEM + MIN_SIZE < s[i].Payload())
  }

  /** The address of block `i` after a resize: its own unless it must move. */
  ghost function ResizeAddress(s: seq<Block>, i: nat, n: nat): (nmem: nat)
    requires i < |s| && n < SIZE_T_SPAN
  {
    if MustMove(s, i, n) then AllocAddress(s, n) else s[i].start + SIZEOF_STRUCT_MEM
  }

  /** The peak a resize leaves: only a move allocates, while the old copy still counts. */
  ghost function PeakOfResize(s: seq<Block>, i: nat, n: nat, max: int): (peak: int)
    requires i < |s| && n < SIZE_T_SPAN
  {
    if MustMove(s, i, n) then PeakOfMove(s, n, max) else max
  }

  /** The peak after a call, as the calls note it: at each allocation. */
  ghost function PeakAfter(s: seq<Block>, op: Op, max: int): (peak: int)
    requires Legal(s, op)
  {
    match op
    case Alloc(size) => PeakOfMove(s, size, max)
    case Free(i) => max
    case Realloc(i, newsize) => PeakOfRealloc(s, i, Align(newsize), max)
  }

  ghost function PeakOfRealloc(s: seq<Block>, i: nat, n: nat, max: int): (peak: int)
    requires i < |s| && s[i].used && n < SIZE_T_SPAN
  {
    if n == 0 then max else PeakOfResize(s, i, n, max)
  }

  ghost function PeakAfterAll(s: seq<Block>, end: nat, ops: seq<Op>, max: int): (peak: int)
    requires end >= SIZEOF_STRUCT_MEM && AllLegal(s, end, ops)
    decreases |ops|
  {
    if ops == [] then max
    else PeakAfterAll(Apply(s, end, ops[0]), end, ops[1..], PeakAfter(s, ops[0], max))
  }

  ghost predicate AllLegal(s: seq<Block>, end: nat, ops: seq<Op>)
    requires end >= SIZEOF_STRUCT_MEM
    decreases |ops|
  {
    ops == [] || (Legal(s, ops[0]) && AllLegal(Apply(s, end, ops[0]), end, ops[1..]))
  }

  /** The heap in the middle of a call: a move holds the old and the new block for a while. */
  ghost function Midway(s: seq<Block>, op: Op): (t: seq<Block>)
    requires Legal(s, op)
  {
    match op
    case Alloc(size) => s
    case Free(i) => s
    case Realloc(i, newsize) =>
      if Align(newsize) > 0 && MustMove(s, i, Align(newsize)) then AllocSpec(s, Align(newsize)) else s
  }

  /** Every heap a sequence of calls passes through, from the first to the last. */
  ghost function Passed(s: seq<Block>, end: nat, ops: seq<Op>): (ts: seq<seq<Block>>)
    requires end >= SIZEOF_STRUCT_MEM && AllLegal(s, end, ops)
    decreases |ops|
  {
    if ops == [] then [s] else [s, Midway(s, ops[0])] + Passed(Apply(s, end, ops[0]), end, ops[1..])
  }

  lemma AllocGrows(s: seq<Block>, end: nat, size: nat)
    requires Shape(s, end) && size < SIZE_T_SPAN
    ensures UsedBytes(AllocSpec(s, size)) >= UsedBytes(s)
  {
    var k := FirstFit(s, Demand(size));
    if size > 0 && k < |s| { CarveKeeps(s, end, k, Demand(size)); }
  }

  lemma MovedUsed(s: seq<Block>, end: nat, i: nat, n: nat)
    requires Shape(s, end) && i < |s| && s[i].used && n < SIZE_T_SPAN && n > 0
    ensures UsedBytes(Moved(s, i, n)) <= UsedBytes(AllocSpec(s, n))
  {
    var k := FirstFit(s, Demand(n));
    if k < |s| {
      MoveFacts(s, end, k, Demand(n), i);
      ReleaseFits(Carve(s, k, Demand(n)), end, Shifted(s, k, Demand(n), i));
    }
  }

  /** A resize beyond the heap would have to move, and nothing fits. */
  lemma BeyondHeap(s: seq<Block>, end: nat, i: nat, n: nat)
    requires Shape(s, end) && i < |s| && n < SIZE_T_SPAN && n % RT_ALIGN_SIZE == 0 && n > end - SIZEOF_STRUCT_MEM && end >= SIZEOF_STRUCT_MEM
    ensures MustMove(s, i, n) && FirstFit(s, Demand(n)) == |s| && AllocSpec(s, n) == s
  {
    NothingFits(s, end, n);
    Bounds(s, end, i);
  }

  lemma NothingFits(s: seq<Block>, end: nat, n: nat)
    requires Shape(s, end) && n < SIZE_T_SPAN && n % RT_ALIGN_SIZE == 0 && n > end - SIZEOF_STRUCT_MEM && end >= SIZEOF_STRUCT_MEM
    ensures FirstFit(s, Demand(n)) == |s| && AllocSpec(s, n) == s && AllocAddress(s, n) == 0
  {
    forall j | 0 <= j < |s| ensures s[j].Payload() < n && n <= Demand(n) {
      Bounds(s, end, j);
    }
  }

  /** Each call notes exactly the largest use it passes through. */
  lemma PeakIsNoted(s: seq<Block>, end: nat, op: Op, max: int)
    requires Shape(s, end) && Legal(s, op) && end >= SIZEOF_STRUCT_MEM && UsedBytes(s) <= max
    ensures var peak := PeakAfter(s, op, max);
            && peak >= max && peak >= UsedBytes(Midway(s, op)) && peak >= UsedBytes(Apply(s, end, op))
            && (peak == max || peak == UsedBytes(Midway(s, op)) || peak == UsedBytes(Apply(s, end, op)))
  {
    match op
    case Alloc(size) => AllocGrows(s, end, size);
    case Free(i) => ReleaseFits(s, end, i);
    case Realloc(i, newsize) => ReallocPeak(s, end, i, newsize);
  }

  lemma ReallocPeak(s: seq<Block>, end: nat, i: nat, newsize: nat)
    requires Shape(s, end) && i < |s| && s[i].used && newsize < SIZE_T_SPAN && end >= SIZEOF_STRUCT_MEM
    ensures UsedBytes(Midway(s, Realloc(i, newsize))) >= UsedBytes(ReallocSpec(s, end, i, newsize))
    ensures UsedBytes(Midway(s, Realloc(i, newsize))) >= UsedBytes(s)
  {
    var n := Align(newsize);
    if n == 0 {
      ReleaseFits(s, end, i);
    } else if n > end - SIZEOF_STRUCT_MEM {
      BeyondHeap(s, end, i, n);
    } else if MustMove(s, i, n) {
      AllocGrows(s, end, n);
      MovedUsed(s, end, i, n);
    } else if n != s[i].Payload() {
      ShrinkKeeps(s, end, i, n);
    }
  }

  /** Over any sequence of calls, from any heap on: the peak noted is the largest use of all heaps
      passed through, moves in progress included. */
  lemma {:induction false} RunNotesPeak(s: seq<Block>, end: nat, ops: seq<Op>, max: int)
    requires end >= SIZEOF_STRUCT_MEM && Shape(s, end) && AllLegal(s, end, ops) && UsedBytes(s) <= max
    ensures var peak, ts := PeakAfterAll(s, end, ops, max), Passed(s, end, ops);
            && (forall k :: 0 <= k < |ts| ==> UsedBytes(ts[k]) <= peak)
            && Found(ts, max, peak) && max <= peak
    decreases |ops|
  {
    if ops != [] {
      var s1, max1 := Apply(s, end, ops[0]), PeakAfter(s, ops[0], max);
      ApplyKeeps(s, end, ops[0]);
      PeakIsNoted(s, end, ops[0], max);
      RunNotesPeak(s1, end, ops[1..], max1);
      PassedFrom(s1, end, ops[1..]);
      FoundFurtherOn(s, Midway(s, ops[0]), Passed(s1, end, ops[1..]), max, max1, PeakAfterAll(s1, end, ops[1..], max1));
    }
  }

  lemma PassedFrom(s: seq<Block>, end: nat, ops: seq<Op>)
    requires end >= SIZEOF_STRUCT_MEM && AllLegal(s, end, ops)
    ensures Passed(s, end, ops) != [] && Passed(s, end, ops)[0] == s
  {
  }

  /** A peak is the initial one or found among the heaps. */
  ghost predicate Found(ts: seq<seq<Block>>, max: int, peak: int) {
    peak == max || exists k :: 0 <= k < |ts| && UsedBytes(ts[k]) == peak
  }

  lemma FoundFurtherOn(s: seq<Block>, mid: seq<Block>, ts: seq<seq<Block>>, max: int, max1: int, peak: int)
    requires ts != [] && (max1 == max || max1 == UsedBytes(mid) || max1 == UsedBytes(ts[0])) && Found(ts, max1, peak)
    ensures Found([s, mid] + ts, max, peak)
  {
    var all := [s, mid] + ts;
    if peak != max1 {
      var k :| 0 <= k < |ts| && UsedBytes(ts[k]) == peak;
      assert all[k + 2] == ts[k];
    } else if max1 != max {
      assert all[1] == mid && all[2] == ts[0];
    }
  }

  /** From the empty heap on, whose use and peak are both 0, the peak is that of some heap passed. */
  lemma PeakFromStart(end: nat, ops: seq<Op>)
    requires end >= SIZEOF_STRUCT_MEM && end % RT_ALIGN_SIZE == 0 && AllLegal([Block(0, end, false)], end, ops)
    ensures var s := [Block(0, end, false)];
            var peak, ts := PeakAfterAll(s, end, ops, 0), Passed(s, end, ops);
            && (forall k :: 0 <= k < |ts| ==> UsedBytes(ts[k]) <= peak)
            && exists k :: 0 <= k < |ts| && UsedBytes(ts[k]) == peak
  {
    var s := [Block(0, end, false)];
    UsedOne(s[0]);
    RunNotesPeak(s, end, ops, 0);
    PassedFrom(s, end, ops);
    assert UsedBytes(Passed(s, end, ops)[0]) == 0;
  }

  /** Over any sequence of calls the blocks tile the heap and stay coalesced; once
      everything is released the heap is the single initial block again. */
  lemma {:induction false} RunKeepsShape(s: seq<Block>, end: nat, ops: seq<Op>, s': seq<Block>)
    requires end >= SIZEOF_STRUCT_MEM && Shape(s, end) && Run(s, end, ops, s')
    ensures Shape(s', end)
    ensures (forall i :: 0 <= i < |s'| ==> !s'[i].used) ==> s' == [Block(0, end, false)]
    decreases |ops|
  {
    if ops == [] {
      if forall i :: 0 <= i < |s'| ==> !s'[i].used { EmptyHeapIsWhole(s', end); }
    } else {
      ApplyKeeps(s, end, ops[0]);
      RunKeepsShape(Apply(s, end, ops[0]), end, ops[1..], s');
    }
  }
}
