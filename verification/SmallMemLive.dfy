/**
 The heap as its callers see it: the set of blocks handed out. Since blocks tile the
 heap and free neighbours are joined, that set determines the whole block list, so what
 a call does is said by what it does to the set.
 */
module SmallMemLive {
  import opened SmallMemSpec

  /** The blocks handed out. */
  ghost function Live(s: seq<Block>): (live: set<Block>) {
    set b | b in s && b.used
  }

  // ----- what is handed out determines the heap -----

  lemma SameBlock(s: seq<Block>, end: nat, i: nat, j: nat)
    requires Tiles(s, end) && i < |s| && j < |s| && s[i].start <= s[j].start < s[i].next
    ensures i == j
  {
    if i < j { Ordered(s, end, i, j); } else if j < i { Ordered(s, end, j, i); }
  }

  /** The walk along two heaps goes on or ends in both. */
  lemma NextStart(s: seq<Block>, end: nat, k: nat)
    requires Tiles(s, end) && k <= |s|
    ensures k < |s| ==> s[k].start == if k == 0 then 0 else s[k - 1].next
    ensures 0 < k ==> (k == |s| <==> s[k - 1].next == end)
  {
    if 0 < k < |s| { Ordered(s, end, k - 1, |s| - 1); Bounds(s, end, k); }
  }

  lemma UsedFound(s: seq<Block>, t: seq<Block>, end: nat, k: nat)
    requires Tiles(s, end) && Tiles(t, end) && Live(s) == Live(t)
    requires k < |s| && k < |t| && s[k].start == t[k].start && s[k].used
    ensures t[k] == s[k]
  {
    assert s[k] in Live(t);
    var j :| 0 <= j < |t| && t[j] == s[k];
    SameBlock(t, end, k, j);
  }

  lemma FreeReaches(s: seq<Block>, t: seq<Block>, end: nat, k: nat)
    requires Shape(s, end) && Shape(t, end) && Live(s) == Live(t)
    requires k < |s| && k < |t| && s[k].start == t[k].start && !s[k].used && !t[k].used
    ensures t[k].next <= s[k].next
  {
    if s[k].next < t[k].next {
      Bounds(t, end, k);
      NextStart(s, end, k + 1);
      Neighbours(s, end, k);
      assert s[k + 1] in Live(t);
      var j :| 0 <= j < |t| && t[j] == s[k + 1];
      SameBlock(t, end, k, j);
      assert false;
    }
  }

  lemma SameAt(s: seq<Block>, t: seq<Block>, end: nat, k: nat)
    requires Shape(s, end) && Shape(t, end) && Live(s) == Live(t)
    requires k < |s| && k < |t| && s[k].start == t[k].start
    ensures s[k] == t[k]
  {
    if s[k].used {
      UsedFound(s, t, end, k);
    } else if t[k].used {
      UsedFound(t, s, end, k);
    } else {
      FreeReaches(s, t, end, k);
      FreeReaches(t, s, end, k);
    }
  }

  lemma {:induction false} SameUpTo(s: seq<Block>, t: seq<Block>, end: nat, k: nat)
    requires Shape(s, end) && Shape(t, end) && Live(s) == Live(t) && k <= |s|
    ensures k <= |t| && s[..k] == t[..k]
  {
    if k > 0 {
      SameUpTo(s, t, end, k - 1);
      NextStart(s, end, k - 1);
      NextStart(t, end, k - 1);
      if k > 1 { assert s[k - 2] == s[..k - 1][k - 2] == t[k - 2]; }
      SameAt(s, t, end, k - 1);
    }
  }

  /** Two heaps of one size with the same blocks handed out are the same heap. */
  lemma LiveDetermines(s: seq<Block>, t: seq<Block>, end: nat)
    requires Shape(s, end) && Shape(t, end) && Live(s) == Live(t)
    ensures s == t
  {
    SameUpTo(s, t, end, |s|);
    SameUpTo(t, s, end, |t|);
  }

  // ----- what the steps do to it -----

  lemma LiveParts(a: seq<Block>, b: seq<Block>, c: seq<Block>)
    ensures Live(a + b + c) == Live(a) + Live(b) + Live(c)
  {
  }

  lemma LiveCarved(s: seq<Block>, i: nat, n: nat)
    requires i < |s| && !s[i].used
    ensures i < |Carve(s, i, n)| && Live(Carve(s, i, n)) == Live(s) + {Carve(s, i, n)[i]}
  {
    var c := Carve(s, i, n);
    assert s == s[..i] + [s[i]] + s[i + 1..];
    if Splits(s[i], n) {
      assert c == s[..i] + [c[i], c[i + 1]] + s[i + 1..];
    } else {
      assert c == s[..i] + [c[i]] + s[i + 1..];
    }
  }

  lemma LiveMerged(s: seq<Block>, i: nat)
    requires i + 1 < |s| && !s[i].used && !s[i + 1].used
    ensures Live(Merge(s, i)) == Live(s)
  {
    assert s == s[..i] + [s[i], s[i + 1]] + s[i + 2..];
    assert Merge(s, i) == s[..i] + [Merge(s, i)[i]] + s[i + 2..];
  }

  lemma LivePlugged(s: seq<Block>, i: nat)
    requires i < |s| && !s[i].used
    ensures Live(PlugHoles(s, i)) == Live(s)
  {
    PlugForwardAt(s, i);
    if i + 1 < |s| && !s[i + 1].used { LiveMerged(s, i); }
    var s1 := PlugForward(s, i);
    if i > 0 && !s1[i - 1].used { LiveMerged(s1, i - 1); }
  }

  lemma OnlyOnce(s: seq<Block>, end: nat, i: nat)
    requires Tiles(s, end) && i < |s|
    ensures s[i] !in s[..i] && s[i] !in s[i + 1..]
  {
    forall j | 0 <= j < |s| && j != i ensures s[j] != s[i] {
      if s[j] == s[i] { SameBlock(s, end, i, j); }
    }
  }

  lemma LiveFreed(s: seq<Block>, end: nat, i: nat)
    requires Shape(s, end) && i < |s| && s[i].used
    ensures Live(Release(s, i)) == Live(s) - {s[i]}
  {
    var m := Marked(s, i, false);
    OnlyOnce(s, end, i);
    assert s == s[..i] + [s[i]] + s[i + 1..];
    assert m == s[..i] + [m[i]] + s[i + 1..];
    LivePlugged(m, i);
  }

  lemma LiveShrunk(s: seq<Block>, end: nat, i: nat, n: nat)
    requires Shape(s, end) && i < |s| && s[i].used && s[i].Payload() >= n + SIZEOF_STRUCT_MEM
    ensures Replaces(s, Shrink(s, i, n), s[i], Block(s[i].start, s[i].start + SIZEOF_STRUCT_MEM + n, true))
  {
    var c := Cut(s, i, n);
    LiveCut(s, end, i, n);
    LivePlugged(c, i + 1);
  }

  lemma LiveCut(s: seq<Block>, end: nat, i: nat, n: nat)
    requires Tiles(s, end) && i < |s| && s[i].used
    ensures i + 1 < |Cut(s, i, n)| && !Cut(s, i, n)[i + 1].used
    ensures Live(Cut(s, i, n)) == Live(s) - {s[i]} + {Block(s[i].start, s[i].start + SIZEOF_STRUCT_MEM + n, true)}
  {
    var c := Cut(s, i, n);
    OnlyOnce(s, end, i);
    assert s == s[..i] + [s[i]] + s[i + 1..];
    assert c == s[..i] + [c[i], c[i + 1]] + s[i + 1..];
    LiveParts(s[..i], [s[i]], s[i + 1..]);
    LiveParts(s[..i], [c[i], c[i + 1]], s[i + 1..]);
    LiveOne(s[i]);
    LivePair(c[i], c[i + 1]);
    Swapped(Live(s[..i]), Live(s[i + 1..]), s[i], c[i]);
  }

  lemma LiveOne(b: Block)
    requires b.used
    ensures Live([b]) == {b}
  {
  }

  lemma LivePair(b: Block, c: Block)
    requires b.used && !c.used
    ensures Live([b, c]) == {b}
  {
  }

  lemma Swapped(a: set<Block>, c: set<Block>, x: Block, y: Block)
    requires x !in a && x !in c
    ensures a + {y} + c == a + {x} + c - {x} + {y}
  {
  }

  // ----- sizes -----

  /** `n` is what a request of `size` bytes is rounded to on 32 bits: the next multiple of the alignment,
      which is 0 for the last sizes, where the sum wraps. */
  predicate RoundsTo(size: nat, n: nat) {
    && n % 4 == 0
    && if size + 4 <= 0x1_0000_0000 then size <= n < size + 4 else n == 0
  }

  /** `n` is the room an allocation of `size` bytes looks for: 12 bytes at least. */
  ghost predicate NeedsRoom(size: nat, n: nat) {
    exists r: nat :: RoundsTo(size, r) && n == if r < 12 then 12 else r
  }

  lemma AlignRounds(size: nat)
    requires size < SIZE_T_SPAN
    ensures RoundsTo(size, Align(size)) && NeedsRoom(size, Demand(size))
  {
    if size + 4 <= 0x1_0000_0000 { RoundedUp(size); } else { RoundedOver(size); }
    assert RoundsTo(size, Align(size));
    assert Demand(size) == if Align(size) < 12 then 12 else Align(size);
  }

  lemma RoundedOver(size: nat)
    requires size < SIZE_T_SPAN < size + 4
    ensures Align(size) == 0
  {
    assert (size + RT_ALIGN_SIZE - 1) % SIZE_T_SPAN == size + RT_ALIGN_SIZE - 1 - SIZE_T_SPAN;
  }

  lemma RoundedUp(size: nat)
    requires size + 4 <= 0x1_0000_0000
    ensures size <= Align(size) < size + 4
  {
    assert (size + 3) % 0x1_0000_0000 == size + 3;
  }

  // ----- what the calls do to it -----

  /** No free block has room for `n` bytes. */
  ghost predicate NoRoom(s: seq<Block>, n: nat) {
    forall b :: b in s && !b.used ==> b.next - b.start < 12 + n
  }

  /** `b` is the lowest free block with room for `n` bytes. */
  ghost predicate LowestRoom(s: seq<Block>, n: nat, b: Block) {
    && b in s && !b.used && b.next - b.start >= 12 + n
    && forall c :: c in s && !c.used && c.next - c.start >= 12 + n ==> b.start <= c.start
  }

  /** The part of free block `b` that a request for `n` bytes gets: `n` bytes when another header and
      12 bytes remain, and otherwise all of it. */
  function Part(b: Block, n: nat): (p: Block) {
    Block(b.start, if b.next - b.start >= 12 + n + 24 then b.start + 12 + n else b.next, true)
  }

  /** `s'` comes from `s` by handing out the block at `rmem` with room for `n` bytes, or by nothing if
      there is no such room. What is cut off is one free block. */
  ghost predicate HandsOut(s: seq<Block>, s': seq<Block>, n: nat, rmem: nat) {
    if NoRoom(s, n) then rmem == 0 && s' == s
    else exists b :: LowestRoom(s, n, b) && rmem == b.start + 12 && Grown(s, s', b, Part(b, n))
  }

  ghost predicate Grown(s: seq<Block>, s': seq<Block>, b: Block, p: Block) {
    && Live(s') == Live(s) + {p} && p !in s && p in s'
    && (p.next < b.next ==> Block(p.next, b.next, false) in s')
    && UsedBytes(s') == UsedBytes(s) + (p.next - p.start)
  }

  lemma LowestIsFirst(s: seq<Block>, end: nat, n: nat, k: nat)
    requires Tiles(s, end) && k < |s| && s[k].Fits(n) && forall j :: 0 <= j < k ==> !s[j].Fits(n)
    ensures LowestRoom(s, n, s[k])
  {
    forall c | c in s && !c.used && c.next - c.start >= 12 + n ensures s[k].start <= c.start {
      var j :| 0 <= j < |s| && s[j] == c;
      assert s[j].Fits(n);
      if k < j { Ordered(s, end, k, j); }
    }
  }

  lemma CarvedIs(s: seq<Block>, k: nat, n: nat)
    requires k < |s| && s[k].Fits(n)
    ensures k < |Carve(s, k, n)| && Carve(s, k, n)[k] == Part(s[k], n)
    ensures Part(s[k], n).next < s[k].next ==> Block(Part(s[k], n).next, s[k].next, false) in Carve(s, k, n)
  {
    if Splits(s[k], n) {
      CutAt(s, k, n, k);
      CutAt(s, k, n, k + 1);
    }
  }

  lemma AllocHandsOut(s: seq<Block>, end: nat, size: nat)
    requires Shape(s, end) && 0 < size < SIZE_T_SPAN
    ensures HandsOut(s, AllocSpec(s, size), Demand(size), AllocAddress(s, size))
  {
    var n := Demand(size);
    var k := FirstFit(s, n);
    if k == |s| {
      assert NoRoom(s, n);
    } else {
      assert s[k] in s && !NoRoom(s, n);
      LowestIsFirst(s, end, n, k);
      LiveCarved(s, k, n);
      CarvedIs(s, k, n);
      CarveKeeps(s, end, k, n);
      FreshPart(s, end, k, n);
      assert Grown(s, Carve(s, k, n), s[k], Part(s[k], n));
    }
  }

  lemma FreshPart(s: seq<Block>, end: nat, k: nat, n: nat)
    requires Tiles(s, end) && k < |s| && !s[k].used
    ensures Part(s[k], n) !in s
  {
    if Part(s[k], n) in s {
      var j :| 0 <= j < |s| && s[j] == Part(s[k], n);
      SameBlock(s, end, k, j);
      assert false;
    }
  }

  /** What an allocation of `size` bytes does: nothing for 0 bytes or without room. */
  ghost predicate Allocates(s: seq<Block>, s': seq<Block>, size: nat, rmem: nat) {
    if size == 0 then rmem == 0 && s' == s
    else exists n: nat :: NeedsRoom(size, n) && HandsOut(s, s', n, rmem)
  }

  lemma AllocMeans(s: seq<Block>, end: nat, size: nat)
    requires Shape(s, end) && size < SIZE_T_SPAN
    ensures Allocates(s, AllocSpec(s, size), size, AllocAddress(s, size))
  {
    if size > 0 {
      AlignRounds(size);
      AllocHandsOut(s, end, size);
    }
  }

  /** What a resize of block `b` to `n` bytes does: nothing when it has them, a cut when a header and
      more than 12 bytes can be cut off, and otherwise a move, or nothing without room for one. */
  ghost predicate Resizes(s: seq<Block>, s': seq<Block>, b: Block, n: nat, nmem: nat) {
    if b.next - b.start == 12 + n then nmem == b.start + 12 && s' == s
    else if b.next - b.start > 12 + n + 24 then
      nmem == b.start + 12 && Replaces(s, s', b, Block(b.start, b.start + 12 + n, true))
    else Relocates(s, s', b, n, nmem)
  }

  ghost predicate Replaces(s: seq<Block>, s': seq<Block>, b: Block, b': Block) {
    Live(s') == Live(s) - {b} + {b'}
  }

  ghost predicate Relocates(s: seq<Block>, s': seq<Block>, b: Block, n: nat, nmem: nat) {
    exists m: nat :: NeedsRoom(n, m) && Moves(s, s', b, m, nmem)
  }

  /** The new block is found while the old one is still there. */
  ghost predicate Moves(s: seq<Block>, s': seq<Block>, b: Block, n: nat, nmem: nat) {
    if NoRoom(s, n) then nmem == 0 && s' == s
    else exists c :: LowestRoom(s, n, c) && nmem == c.start + 12 && Replaces(s, s', b, Part(c, n))
  }

  lemma MovedMeans(s: seq<Block>, end: nat, i: nat, n: nat)
    requires Shape(s, end) && i < |s| && s[i].used && 0 < n < SIZE_T_SPAN
    ensures Moves(s, Moved(s, i, n), s[i], Demand(n), AllocAddress(s, n))
  {
    var d := Demand(n);
    var k := FirstFit(s, d);
    if k == |s| {
      assert NoRoom(s, d);
    } else {
      assert s[k] in s && !NoRoom(s, d);
      LowestIsFirst(s, end, d, k);
      LiveMoved(s, end, k, d, i);
    }
  }

  lemma LiveMoved(s: seq<Block>, end: nat, k: nat, n: nat, i: nat)
    requires Shape(s, end) && i < |s| && s[i].used && k < |s| && s[k].Fits(n) && n % RT_ALIGN_SIZE == 0
    ensures Shifted(s, k, n, i) < |Carve(s, k, n)| && !Marked(Carve(s, k, n), Shifted(s, k, n, i), false)[Shifted(s, k, n, i)].used
    ensures Replaces(s, Release(Carve(s, k, n), Shifted(s, k, n, i)), s[i], Part(s[k], n))
  {
    MoveFacts(s, end, k, n, i);
    LiveCarved(s, k, n);
    CarvedIs(s, k, n);
    FreshPart(s, end, k, n);
    LiveFreed(Carve(s, k, n), end, Shifted(s, k, n, i));
  }

  lemma ResizeMeans(s: seq<Block>, end: nat, i: nat, n: nat)
    requires Shape(s, end) && i < |s| && s[i].used && 0 < n < SIZE_T_SPAN
    ensures Resizes(s, ResizeSpec(s, i, n), s[i], n, ResizeAddress(s, i, n))
  {
    if MustMove(s, i, n) {
      MustMoveMeans(s, end, i, n);
    } else if n != s[i].Payload() {
      ShrinkMeans(s, end, i, n);
    } else {
      StayMeans(s, i, n);
    }
  }

  lemma StayMeans(s: seq<Block>, i: nat, n: nat)
    requires i < |s| && s[i].used && 0 < n < SIZE_T_SPAN && s[i].Payload() == n
    ensures Resizes(s, ResizeSpec(s, i, n), s[i], n, ResizeAddress(s, i, n))
  {
  }

  lemma ShrinkMeans(s: seq<Block>, end: nat, i: nat, n: nat)
    requires Shape(s, end) && i < |s| && s[i].used && 0 < n < SIZE_T_SPAN && n + 24 < s[i].Payload()
    ensures Resizes(s, ResizeSpec(s, i, n), s[i], n, ResizeAddress(s, i, n))
  {
    LiveShrunk(s, end, i, n);
    CutResizes(s, Shrink(s, i, n), s[i], n);
  }

  lemma CutResizes(s: seq<Block>, s': seq<Block>, b: Block, n: nat)
    requires b.next - b.start > 12 + n + 24 && Replaces(s, s', b, Block(b.start, b.start + 12 + n, true))
    ensures Resizes(s, s', b, n, b.start + 12)
  {
  }

  lemma MustMoveMeans(s: seq<Block>, end: nat, i: nat, n: nat)
    requires Shape(s, end) && i < |s| && s[i].used && 0 < n < SIZE_T_SPAN && MustMove(s, i, n)
    ensures Relocates(s, ResizeSpec(s, i, n), s[i], n, ResizeAddress(s, i, n))
  {
    AlignRounds(n);
    MovedMeans(s, end, i, n);
  }

  /** What a reallocation of block `b` to `size` bytes does: a size that rounds to 0 frees it. */
  ghost predicate Reallocates(s: seq<Block>, s': seq<Block>, b: Block, size: nat, nmem: nat) {
    exists n: nat :: RoundsTo(size, n) &&
      if n == 0 then nmem == 0 && Live(s') == Live(s) - {b} else Resizes(s, s', b, n, nmem)
  }

  /** The call with a null pointer: the size is rounded before it is requested. */
  ghost predicate AllocatesRounded(s: seq<Block>, s': seq<Block>, size: nat, nmem: nat) {
    exists n: nat :: RoundsTo(size, n) && Allocates(s, s', n, nmem)
  }

  lemma RoundedMeans(s: seq<Block>, end: nat, size: nat)
    requires Shape(s, end) && size < SIZE_T_SPAN
    ensures AllocatesRounded(s, AllocSpec(s, Align(size)), size, if Align(size) == 0 then 0 else AllocAddress(s, Align(size)))
  {
    AlignRounds(size);
    assert RoundsTo(size, Align(size));
    AllocMeans(s, end, Align(size));
  }

  lemma ReallocMeans(s: seq<Block>, end: nat, i: nat, size: nat)
    requires end >= SIZEOF_STRUCT_MEM && Shape(s, end) && i < |s| && s[i].used && size < SIZE_T_SPAN
    ensures Reallocates(s, ReallocSpec(s, end, i, size), s[i], size,
                        if Align(size) == 0 then 0 else ResizeAddress(s, i, Align(size)))
  {
    var n := Align(size);
    AlignRounds(size);
    if n == 0 {
      LiveFreed(s, end, i);
    } else {
      ResizeMeans(s, end, i, n);
      if n > end - SIZEOF_STRUCT_MEM { BeyondHeap(s, end, i, n); }
    }
  }
}
