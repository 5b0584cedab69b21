/**
 How a block list is laid out in memory: each item is a header of three fields
 (pool_ptr, next, prev) in the same cell array as the payloads. One cell per byte
 address; a header field is kept in the cell at the field's address.
 The functions below are the header writes of split and coalesce.
 */
module SmallMemHeap {
  import opened SmallMemSpec

  const NEXT: nat := 4
  const PREV: nat := 8

  /** pool_ptr field: the owner's (even) address, with bit 0 set while the item is used. */
  function Tag(pool: int, used: bool): (tag: int) {
    if used then pool + 1 else pool
  }

  function PrevOf(s: seq<Block>, i: nat): (p: nat)
    requires i < |s|
  {
    if i == 0 then 0 else s[i - 1].start
  }

  ghost predicate Item(h: seq<int>, s: seq<Block>, i: nat, pool: int)
    requires i < |s|
  {
    && s[i].start + SIZEOF_STRUCT_MEM <= |h|
    && h[s[i].start] == Tag(pool, s[i].used)
    && h[s[i].start + NEXT] == s[i].next
    && h[s[i].start + PREV] == PrevOf(s, i)
  }

  /** The headers in `h` spell out `s`. The prev field of the end marker is not constrained:
      a split leaves it stale. */
  ghost predicate Linked(h: seq<int>, s: seq<Block>, end: nat, pool: int) {
    && |h| == end + SIZEOF_STRUCT_MEM
    && Tiles(s, end)
    && (forall i :: 0 <= i < |s| ==> Item(h, s, i, pool))
    && h[end] == Tag(pool, true) && h[end + NEXT] == end
  }

  ghost predicate Kept(h: seq<int>, h': seq<int>, lo: nat, hi: nat) {
    |h'| == |h| && hi <= |h| && forall a :: lo <= a < hi ==> h'[a] == h[a]
  }

  /** No payload byte of a used block differs. */
  ghost predicate PayloadsKept(h: seq<int>, h': seq<int>, s: seq<Block>) {
    forall i :: 0 <= i < |s| && s[i].used ==> Kept(h, h', s[i].start + SIZEOF_STRUCT_MEM, s[i].next)
  }

  lemma PayloadsKeptRefl(h: seq<int>, s: seq<Block>, end: nat, pool: int)
    requires Linked(h, s, end, pool)
    ensures PayloadsKept(h, h, s)
  {
    forall i | 0 <= i < |s| ensures s[i].next <= |h| { Bounds(s, end, i); }
  }

  lemma PayloadsKeptTrans(h: seq<int>, h1: seq<int>, h2: seq<int>, s: seq<Block>, t: seq<Block>)
    requires PayloadsKept(h, h1, s) && PayloadsKept(h1, h2, t)
    requires forall i :: 0 <= i < |s| && s[i].used ==> s[i] in t
    ensures PayloadsKept(h, h2, s)
  {
    forall i | 0 <= i < |s| && s[i].used ensures Kept(h, h2, s[i].start + SIZEOF_STRUCT_MEM, s[i].next) {
      var j :| 0 <= j < |t| && t[j] == s[i];
      assert Kept(h1, h2, t[j].start + SIZEOF_STRUCT_MEM, t[j].next);
    }
  }

  lemma PayloadsKeptTwice(h: seq<int>, h1: seq<int>, h2: seq<int>, s: seq<Block>)
    requires PayloadsKept(h, h1, s) && PayloadsKept(h1, h2, s)
    ensures PayloadsKept(h, h2, s)
  {
  }

  // ----- marking -----

  lemma MarkLinked(h: seq<int>, s: seq<Block>, end: nat, pool: int, i: nat, used: bool)
    requires Linked(h, s, end, pool) && i < |s|
    ensures s[i].start < |h| && Linked(h[s[i].start := Tag(pool, used)], Marked(s, i, used), end, pool)
    ensures PayloadsKept(h, h[s[i].start := Tag(pool, used)], s)
  {
    assert Item(h, s, i, pool);
    Bounds(s, end, i);
    var h' := h[s[i].start := Tag(pool, used)];
    var m := Marked(s, i, used);
    forall j | 0 <= j < |m| ensures Item(h', m, j, pool) {
      assert Item(h, s, j, pool);
      Apart(s, end, i, j);
    }
    forall j | 0 <= j < |s| && s[j].used ensures Kept(h, h', s[j].start + SIZEOF_STRUCT_MEM, s[j].next) {
      Apart(s, end, i, j);
      Bounds(s, end, j);
    }
  }

  /** Distinct blocks lie entirely before or after one another. */
  lemma Apart(s: seq<Block>, end: nat, i: nat, j: nat)
    requires Tiles(s, end) && i < |s| && j < |s|
    ensures i < j ==> s[i].next <= s[j].start
    ensures j < i ==> s[j].next <= s[i].start
  {
    if i < j { Ordered(s, end, i, j); } else if j < i { Ordered(s, end, j, i); }
  }

  lemma PayloadsKeptMarked(h: seq<int>, h': seq<int>, s: seq<Block>, i: nat)
    requires PayloadsKept(h, h', s) && i < |s|
    ensures PayloadsKept(h, h', Marked(s, i, false))
  {
  }

  // ----- splitting -----

  ghost function DivideHeap(h: seq<int>, p: nat, at: nat, next: nat, end: nat, pool: int): (h': seq<int>)
    requires p + SIZEOF_STRUCT_MEM <= at && at + SIZEOF_STRUCT_MEM <= next <= end && |h| == end + SIZEOF_STRUCT_MEM
  {
    var h1 := h[at := Tag(pool, false)][at + NEXT := next][at + PREV := p][p + NEXT := at];
    if next != end then h1[next + PREV := at] else h1
  }

  lemma DivideAt(s: seq<Block>, i: nat, n: nat, j: nat)
    requires i < |s| && j <= |s|
    ensures |Divide(s, i, n)| == |s| + 1
    ensures var at := s[i].start + SIZEOF_STRUCT_MEM + n;
            Divide(s, i, n)[j] == if j < i then s[j]
                                  else if j == i then Block(s[i].start, at, s[i].used)
                                  else if j == i + 1 then Block(at, s[i].next, false)
                                  else s[j - 1]
  {
  }

  lemma DivideTiles(s: seq<Block>, end: nat, i: nat, n: nat)
    requires Tiles(s, end) && i < |s| && s[i].Payload() >= n + SIZEOF_STRUCT_MEM
    ensures Tiles(Divide(s, i, n), end)
  {
    var c := Divide(s, i, n);
    forall j | 0 <= j < |c| - 1 ensures c[j].next == c[j + 1].start {
      DivideAt(s, i, n, j);
      DivideAt(s, i, n, j + 1);
    }
    forall j | 0 <= j < |c| ensures c[j].start + SIZEOF_STRUCT_MEM <= c[j].next {
      DivideAt(s, i, n, j);
    }
  }

  /** The cells a split writes, and that it writes no other. */
  lemma DivideCells(h: seq<int>, p: nat, at: nat, next: nat, end: nat, pool: int)
    requires p + SIZEOF_STRUCT_MEM <= at && at + SIZEOF_STRUCT_MEM <= next <= end && |h| == end + SIZEOF_STRUCT_MEM
    ensures var h' := DivideHeap(h, p, at, next, end, pool);
            |h'| == |h|
            && h'[at] == Tag(pool, false) && h'[at + NEXT] == next && h'[at + PREV] == p && h'[p + NEXT] == at
            && (next != end ==> h'[next + PREV] == at)
            && forall a :: 0 <= a < |h| && a != at && a != at + NEXT && a != at + PREV && a != p + NEXT && a != next + PREV
                   ==> h'[a] == h[a]
  {
  }

  lemma DivideItemLeft(h: seq<int>, s: seq<Block>, end: nat, pool: int, i: nat, n: nat, j: nat)
    requires Linked(h, s, end, pool) && i < |s| && s[i].Payload() >= n + SIZEOF_STRUCT_MEM && s[i].next <= end && j < i
    ensures j < |Divide(s, i, n)|
    ensures Item(DivideHeap(h, s[i].start, s[i].start + SIZEOF_STRUCT_MEM + n, s[i].next, end, pool), Divide(s, i, n), j, pool)
  {
    DivideAt(s, i, n, j);
    if j > 0 { DivideAt(s, i, n, j - 1); }
    DivideCells(h, s[i].start, s[i].start + SIZEOF_STRUCT_MEM + n, s[i].next, end, pool);
    assert Item(h, s, j, pool);
    Apart(s, end, i, j);
  }

  lemma DivideItemHere(h: seq<int>, s: seq<Block>, end: nat, pool: int, i: nat, n: nat, j: nat)
    requires Linked(h, s, end, pool) && i < |s| && s[i].Payload() >= n + SIZEOF_STRUCT_MEM && s[i].next <= end
    requires j == i || j == i + 1
    ensures j < |Divide(s, i, n)|
    ensures Item(DivideHeap(h, s[i].start, s[i].start + SIZEOF_STRUCT_MEM + n, s[i].next, end, pool), Divide(s, i, n), j, pool)
  {
    if j == i { DivideItemKept(h, s, end, pool, i, n); } else { DivideItemCut(h, s, end, pool, i, n); }
  }

  lemma DivideItemKept(h: seq<int>, s: seq<Block>, end: nat, pool: int, i: nat, n: nat)
    requires Linked(h, s, end, pool) && i < |s| && s[i].Payload() >= n + SIZEOF_STRUCT_MEM && s[i].next <= end
    ensures i < |Divide(s, i, n)|
    ensures Item(DivideHeap(h, s[i].start, s[i].start + SIZEOF_STRUCT_MEM + n, s[i].next, end, pool), Divide(s, i, n), i, pool)
  {
    DivideAt(s, i, n, i);
    if i > 0 { DivideAt(s, i, n, i - 1); }
    assert Item(h, s, i, pool);
    var h' := DivideHeap(h, s[i].start, s[i].start + SIZEOF_STRUCT_MEM + n, s[i].next, end, pool);
    DivideKept(h, s[i].start, s[i].start + SIZEOF_STRUCT_MEM + n, s[i].next, end, pool);
    ItemShortened(h, s, i, h', Divide(s, i, n), pool);
  }

  /** The header of the kept part only gets a new next. */
  lemma DivideKept(h: seq<int>, p: nat, at: nat, next: nat, end: nat, pool: int)
    requires p + SIZEOF_STRUCT_MEM <= at && at + SIZEOF_STRUCT_MEM <= next <= end && |h| == end + SIZEOF_STRUCT_MEM
    ensures var h' := DivideHeap(h, p, at, next, end, pool);
            |h'| == |h| && h'[p] == h[p] && h'[p + NEXT] == at && h'[p + PREV] == h[p + PREV]
  {
    DivideCells(h, p, at, next, end, pool);
  }

  lemma ItemShortened(h: seq<int>, s: seq<Block>, i: nat, h': seq<int>, d: seq<Block>, pool: int)
    requires i < |s| && i < |d| && Item(h, s, i, pool) && |h'| == |h|
    requires d[i].start == s[i].start && d[i].used == s[i].used && PrevOf(d, i) == PrevOf(s, i)
    requires var p := s[i].start; h'[p] == h[p] && h'[p + NEXT] == d[i].next && h'[p + PREV] == h[p + PREV]
    ensures Item(h', d, i, pool)
  {
  }

  lemma DivideItemCut(h: seq<int>, s: seq<Block>, end: nat, pool: int, i: nat, n: nat)
    requires Linked(h, s, end, pool) && i < |s| && s[i].Payload() >= n + SIZEOF_STRUCT_MEM && s[i].next <= end
    ensures i + 1 < |Divide(s, i, n)|
    ensures Item(DivideHeap(h, s[i].start, s[i].start + SIZEOF_STRUCT_MEM + n, s[i].next, end, pool), Divide(s, i, n), i + 1, pool)
  {
    DivideAt(s, i, n, i);
    DivideAt(s, i, n, i + 1);
    DivideCells(h, s[i].start, s[i].start + SIZEOF_STRUCT_MEM + n, s[i].next, end, pool);
  }

  /** The block behind the cut gets its prev redirected to the remainder. */
  lemma DivideItemNext(h: seq<int>, s: seq<Block>, end: nat, pool: int, i: nat, n: nat)
    requires Linked(h, s, end, pool) && i + 1 < |s| && s[i].Payload() >= n + SIZEOF_STRUCT_MEM && s[i].next <= end
    ensures i + 2 < |Divide(s, i, n)|
    ensures Item(DivideHeap(h, s[i].start, s[i].start + SIZEOF_STRUCT_MEM + n, s[i].next, end, pool), Divide(s, i, n), i + 2, pool)
  {
    DivideAt(s, i, n, i + 2);
    DivideAt(s, i, n, i + 1);
    DivideCells(h, s[i].start, s[i].start + SIZEOF_STRUCT_MEM + n, s[i].next, end, pool);
    assert Item(h, s, i + 1, pool);
    Bounds(s, end, i + 1);
  }

  lemma DivideItemRight(h: seq<int>, s: seq<Block>, end: nat, pool: int, i: nat, n: nat, j: nat)
    requires Linked(h, s, end, pool) && i < |s| && s[i].Payload() >= n + SIZEOF_STRUCT_MEM && s[i].next <= end
    requires i + 2 < j <= |s|
    ensures j < |Divide(s, i, n)|
    ensures Item(DivideHeap(h, s[i].start, s[i].start + SIZEOF_STRUCT_MEM + n, s[i].next, end, pool), Divide(s, i, n), j, pool)
  {
    DivideAt(s, i, n, j);
    DivideAt(s, i, n, j - 1);
    Bounds(s, end, j - 1);
    Apart(s, end, i + 1, j - 1);
    var h' := DivideHeap(h, s[i].start, s[i].start + SIZEOF_STRUCT_MEM + n, s[i].next, end, pool);
    DivideBeyond(h, s[i].start, s[i].start + SIZEOF_STRUCT_MEM + n, s[i].next, end, pool, s[j - 1].start);
    ItemAs(h, s, j - 1, h', Divide(s, i, n), j, pool);
  }

  /** A header that keeps its cells stands for the same block at another place in the list. */
  lemma ItemAs(h: seq<int>, s: seq<Block>, a: nat, h': seq<int>, d: seq<Block>, b: nat, pool: int)
    requires a < |s| && b < |d| && Item(h, s, a, pool) && d[b] == s[a] && PrevOf(d, b) == PrevOf(s, a) && |h'| == |h|
    requires var start := s[a].start;
             h'[start] == h[start] && h'[start + NEXT] == h[start + NEXT] && h'[start + PREV] == h[start + PREV]
    ensures Item(h', d, b, pool)
  {
  }

  /** Headers behind the next one keep their cells. */
  lemma DivideBeyond(h: seq<int>, p: nat, at: nat, next: nat, end: nat, pool: int, start: nat)
    requires p + SIZEOF_STRUCT_MEM <= at && at + SIZEOF_STRUCT_MEM <= next <= end && |h| == end + SIZEOF_STRUCT_MEM
    requires next + SIZEOF_STRUCT_MEM <= start && start + SIZEOF_STRUCT_MEM <= |h|
    ensures var h' := DivideHeap(h, p, at, next, end, pool);
            |h'| == |h| && h'[start] == h[start] && h'[start + NEXT] == h[start + NEXT] && h'[start + PREV] == h[start + PREV]
  {
    DivideCells(h, p, at, next, end, pool);
  }

  lemma DivideLinked(h: seq<int>, s: seq<Block>, end: nat, pool: int, i: nat, n: nat)
    requires Linked(h, s, end, pool) && i < |s| && s[i].Payload() >= n + SIZEOF_STRUCT_MEM
    ensures s[i].next <= end
    ensures var at := s[i].start + SIZEOF_STRUCT_MEM + n;
            Linked(DivideHeap(h, s[i].start, at, s[i].next, end, pool), Divide(s, i, n), end, pool)
  {
    Bounds(s, end, i);
    DivideTiles(s, end, i, n);
    DivideAt(s, i, n, 0);
    var d, h' := Divide(s, i, n), DivideHeap(h, s[i].start, s[i].start + SIZEOF_STRUCT_MEM + n, s[i].next, end, pool);
    forall j | 0 <= j < |d| ensures Item(h', d, j, pool) {
      if j < i { DivideItemLeft(h, s, end, pool, i, n, j); }
      else if j <= i + 1 { DivideItemHere(h, s, end, pool, i, n, j); }
      else if j == i + 2 { DivideItemNext(h, s, end, pool, i, n); }
      else { DivideItemRight(h, s, end, pool, i, n, j); }
    }
    DivideCells(h, s[i].start, s[i].start + SIZEOF_STRUCT_MEM + n, s[i].next, end, pool);
    if i + 1 < |s| { Bounds(s, end, i + 1); }
  }

  /** A split touches only the cut block's own cells from its header on, beyond the kept part. */
  lemma DivideKeeps(h: seq<int>, s: seq<Block>, end: nat, pool: int, i: nat, n: nat)
    requires Linked(h, s, end, pool) && i < |s| && s[i].Payload() >= n + SIZEOF_STRUCT_MEM && s[i].next <= end
    ensures var at := s[i].start + SIZEOF_STRUCT_MEM + n;
            var h' := DivideHeap(h, s[i].start, at, s[i].next, end, pool);
            Kept(h, h', s[i].start + SIZEOF_STRUCT_MEM, at)
            && forall j :: 0 <= j < |s| && j != i && s[j].used ==> Kept(h, h', s[j].start + SIZEOF_STRUCT_MEM, s[j].next)
  {
    var at := s[i].start + SIZEOF_STRUCT_MEM + n;
    var h' := DivideHeap(h, s[i].start, at, s[i].next, end, pool);
    forall j | 0 <= j < |s| && j != i && s[j].used ensures Kept(h, h', s[j].start + SIZEOF_STRUCT_MEM, s[j].next) {
      Apart(s, end, i, j);
      Bounds(s, end, j);
      if i + 1 < |s| { Apart(s, end, i + 1, j); }
    }
  }

  /** The blocks whose payloads survive when block `i` is shortened to `n` bytes. */
  function Truncated(s: seq<Block>, i: nat, n: nat): (t: seq<Block>)
    requires i < |s|
  {
    s[i := Block(s[i].start, s[i].start + SIZEOF_STRUCT_MEM + n, s[i].used)]
  }

  lemma DividePayloads(h: seq<int>, h': seq<int>, s: seq<Block>, i: nat, n: nat)
    requires i < |s|
    requires Kept(h, h', s[i].start + SIZEOF_STRUCT_MEM, s[i].start + SIZEOF_STRUCT_MEM + n)
    requires forall j :: 0 <= j < |s| && j != i && s[j].used ==> Kept(h, h', s[j].start + SIZEOF_STRUCT_MEM, s[j].next)
    ensures PayloadsKept(h, h', Truncated(s, i, n))
  {
  }

  lemma TruncatedKept(h: seq<int>, h': seq<int>, s: seq<Block>, i: nat, n: nat)
    requires i < |s| && s[i].used && PayloadsKept(h, h', Truncated(s, i, n))
    ensures PayloadsKept(h, h', Marked(s, i, false))
    ensures Copied(h, s[i].start + SIZEOF_STRUCT_MEM, h', s[i].start + SIZEOF_STRUCT_MEM, n)
  {
    var t := Truncated(s, i, n);
    forall j | 0 <= j < |s| && j != i && s[j].used ensures Kept(h, h', s[j].start + SIZEOF_STRUCT_MEM, s[j].next) {
      assert t[j] == s[j];
    }
    assert Kept(h, h', t[i].start + SIZEOF_STRUCT_MEM, t[i].next);
  }

  lemma TruncatedIn(s: seq<Block>, i: nat, n: nat)
    requires i < |s| && s[i].used
    ensures forall j :: 0 <= j < |Truncated(s, i, n)| && Truncated(s, i, n)[j].used ==> Truncated(s, i, n)[j] in Cut(s, i, n)
  {
    var t := Truncated(s, i, n);
    forall j | 0 <= j < |t| && t[j].used ensures t[j] in Cut(s, i, n) {
      CutAt(s, i, n, if j <= i then j else j + 1);
    }
  }

  lemma DivideKeepsUsed(s: seq<Block>, s1: seq<Block>, i: nat, n: nat)
    requires i < |s| && !s[i].used && (s1 == s || s1 == Divide(s, i, n))
    ensures forall j :: 0 <= j < |s| && s[j].used ==> s[j] in s1
  {
    forall j | 0 <= j < |s| && s[j].used ensures s[j] in s1 {
      if s1 != s { DivideAt(s, i, n, if j < i then j else j + 1); }
    }
  }

  // ----- coalescing -----

  ghost function MergeHeap(h: seq<int>, p: nat, q: nat, next: nat, end: nat): (h': seq<int>)
    requires p + SIZEOF_STRUCT_MEM <= q && q + SIZEOF_STRUCT_MEM <= next <= end && |h| == end + SIZEOF_STRUCT_MEM
  {
    h[q := 0][p + NEXT := next][next + PREV := p]
  }

  lemma MergeItemLeft(h: seq<int>, s: seq<Block>, end: nat, pool: int, i: nat, j: nat)
    requires Linked(h, s, end, pool) && i + 1 < |s| && !s[i].used && j <= i && s[i + 1].next <= end
    ensures j < |Merge(s, i)|
    ensures Item(MergeHeap(h, s[i].start, s[i + 1].start, s[i + 1].next, end), Merge(s, i), j, pool)
  {
    MergeAt(s, i, j);
    if j > 0 { MergeAt(s, i, j - 1); }
    assert Item(h, s, j, pool);
    Apart(s, end, i, j);
  }

  lemma MergeItemRight(h: seq<int>, s: seq<Block>, end: nat, pool: int, i: nat, j: nat)
    requires Linked(h, s, end, pool) && i + 1 < |s| && !s[i].used && i < j < |s| - 1 && s[i + 1].next <= end
    ensures j < |Merge(s, i)|
    ensures Item(MergeHeap(h, s[i].start, s[i + 1].start, s[i + 1].next, end), Merge(s, i), j, pool)
  {
    MergeAt(s, i, j);
    MergeAt(s, i, j - 1);
    assert Item(h, s, j + 1, pool);
    Bounds(s, end, j + 1);
    if j > i + 1 {
      Apart(s, end, i + 2, j + 1);
      assert s[j + 1].start >= s[i + 1].next + SIZEOF_STRUCT_MEM;
    }
  }

  lemma MergeLinked(h: seq<int>, s: seq<Block>, end: nat, pool: int, i: nat)
    requires Linked(h, s, end, pool) && i + 1 < |s| && !s[i].used && !s[i + 1].used
    ensures s[i + 1].next <= end
    ensures Linked(MergeHeap(h, s[i].start, s[i + 1].start, s[i + 1].next, end), Merge(s, i), end, pool)
    ensures PayloadsKept(h, MergeHeap(h, s[i].start, s[i + 1].start, s[i + 1].next, end), s)
  {
    Bounds(s, end, i + 1);
    if i + 2 < |s| { Bounds(s, end, i + 2); }
    MergeTiles(s, end, i);
    var h' := MergeHeap(h, s[i].start, s[i + 1].start, s[i + 1].next, end);
    forall j | 0 <= j < |Merge(s, i)| ensures Item(h', Merge(s, i), j, pool) {
      if j <= i { MergeItemLeft(h, s, end, pool, i, j); } else { MergeItemRight(h, s, end, pool, i, j); }
    }
    forall j | 0 <= j < |s| && s[j].used ensures Kept(h, h', s[j].start + SIZEOF_STRUCT_MEM, s[j].next) {
      Apart(s, end, i, j);
      Apart(s, end, i + 1, j);
      Bounds(s, end, j);
    }
  }

  // ----- the lowest-free cursor -----

  /** Address of the lowest free block, or of the end marker when there is none. */
  function LowestFree(s: seq<Block>, end: nat): (p: nat) {
    StartOf(s, end, FirstFree(s))
  }

  lemma FirstFreeIs(s: seq<Block>, k: nat)
    requires k <= |s| && (forall j :: 0 <= j < k ==> s[j].used) && (k < |s| ==> !s[k].used)
    ensures FirstFree(s) == k
  {
  }

  lemma LowestAtMost(s: seq<Block>, end: nat, i: nat)
    requires Tiles(s, end) && i < |s| && !s[i].used
    ensures LowestFree(s, end) <= s[i].start
  {
    Apart(s, end, FirstFree(s), i);
  }

  /** A block at the cursor's address is the first free one. */
  lemma LowestIs(s: seq<Block>, end: nat, i: nat)
    requires Tiles(s, end) && i < |s| && !s[i].used && s[i].start == LowestFree(s, end)
    ensures FirstFree(s) == i
  {
    Apart(s, end, FirstFree(s), i);
  }

  lemma MergeLowest(s: seq<Block>, end: nat, i: nat)
    requires i + 1 < |s| && !s[i].used && !s[i + 1].used
    ensures LowestFree(Merge(s, i), end) == LowestFree(s, end)
  {
    var f, m := FirstFree(s), Merge(s, i);
    assert f <= i;
    MergeAt(s, i, f);
    forall j | 0 <= j < f ensures m[j].used { MergeAt(s, i, j); }
    FirstFreeIs(m, f);
  }

  /** The cursor after plugging around block `i`: it leaves an item that is absorbed. */
  function CursorForward(s: seq<Block>, i: nat, p: nat): (p': nat)
    requires i < |s|
  {
    if i + 1 < |s| && !s[i + 1].used && p == s[i + 1].start then s[i].start else p
  }

  function CursorBackward(s: seq<Block>, i: nat, p: nat): (p': nat)
    requires i < |s|
  {
    if i > 0 && !s[i - 1].used && p == s[i].start then s[i - 1].start else p
  }

  /** Plugging holes keeps the cursor at the lowest free block. */
  lemma PlugLowest(s: seq<Block>, end: nat, i: nat)
    requires Tiles(s, end) && i < |s| && !s[i].used
    ensures i < |PlugForward(s, i)|
    ensures CursorBackward(PlugForward(s, i), i, CursorForward(s, i, LowestFree(s, end))) == LowestFree(PlugHoles(s, i), end)
  {
    LowestAtMost(s, end, i);
    var s1 := PlugForward(s, i);
    if i + 1 < |s| && !s[i + 1].used {
      MergeLowest(s, end, i);
      MergeTiles(s, end, i);
      MergeAt(s, i, i);
    }
    if i > 0 && !s1[i - 1].used {
      LowestAtMost(s1, end, i - 1);
      MergeLowest(s1, end, i - 1);
    }
  }

  /** Freeing block `i` moves the cursor down to it, or leaves it. */
  lemma ReleaseLowest(s: seq<Block>, end: nat, i: nat)
    requires Tiles(s, end) && i < |s| && s[i].used
    ensures LowestFree(Marked(s, i, false), end)
         == if s[i].start < LowestFree(s, end) then s[i].start else LowestFree(s, end)
  {
    var f, m := FirstFree(s), Marked(s, i, false);
    Bounds(s, end, i);
    if f < |s| { Apart(s, end, i, f); }
    FirstFreeIs(m, if i < f then i else f);
  }

  lemma DivideLowest(s: seq<Block>, end: nat, i: nat, n: nat)
    requires Tiles(s, end) && i < |s| && s[i].used && s[i].Payload() >= n + SIZEOF_STRUCT_MEM
    ensures var at := s[i].start + SIZEOF_STRUCT_MEM + n;
            LowestFree(Divide(s, i, n), end) == if at < LowestFree(s, end) then at else LowestFree(s, end)
  {
    var f, d := FirstFree(s), Divide(s, i, n);
    Bounds(s, end, i);
    if f < |s| { Apart(s, end, i, f); }
    DivideAt(s, i, n, 0);
    var g := if i < f then i + 1 else f;
    DivideAt(s, i, n, g);
    forall j | 0 <= j < g ensures d[j].used { DivideAt(s, i, n, j); }
    FirstFreeIs(d, g);
  }

  /** Taking a block other than the lowest free one does not move the cursor. */
  lemma CarveLowest(s: seq<Block>, end: nat, k: nat, n: nat)
    requires Tiles(s, end) && k < |s| && !s[k].used && s[k].start != LowestFree(s, end)
    ensures LowestFree(Carve(s, k, n), end) == LowestFree(s, end)
  {
    var f, c := FirstFree(s), Carve(s, k, n);
    assert f < k;
    CarveElsewhere(s, k, n, f);
    forall j | 0 <= j < f ensures c[j].used { CarveElsewhere(s, k, n, j); }
    FirstFreeIs(c, f);
  }

  lemma CarveBefore(s: seq<Block>, k: nat, n: nat)
    requires k < |s| && forall j :: 0 <= j < k ==> s[j].used
    ensures k < |Carve(s, k, n)| && forall j :: 0 <= j < k ==> Carve(s, k, n)[j].used
  {
    var c := Carve(s, k, n);
    forall j | 0 <= j < k ensures c[j].used { CarveElsewhere(s, k, n, j); }
  }

  // ----- payload writes -----

  ghost predicate Copied(h: seq<int>, src: nat, h': seq<int>, dst: nat, m: nat) {
    src + m <= |h| && dst + m <= |h'| && h'[dst..dst + m] == h[src..src + m]
  }

  function Common(x: int, y: int): (m: int) {
    if x < y then x else y
  }

  /** All payloads but those of blocks `k` and `i` are untouched. */
  ghost predicate OthersKept(h: seq<int>, h': seq<int>, s: seq<Block>, k: nat, i: nat) {
    forall j :: 0 <= j < |s| && j != k && j != i && s[j].used ==> Kept(h, h', s[j].start + SIZEOF_STRUCT_MEM, s[j].next)
  }

  /** Payload bookkeeping of a move: allocation (h to h1), then copy and release (h1 to h2). */
  lemma MovedPayloads(h: seq<int>, h1: seq<int>, h2: seq<int>, s: seq<Block>, end: nat, k: nat, n: nat, i: nat, m: nat)
    requires Shape(s, end) && i < |s| && s[i].used && k < |s| && s[k].Fits(n) && n % RT_ALIGN_SIZE == 0
    requires m <= s[i].Payload() && PayloadsKept(h, h1, s)
    requires OthersKept(h1, h2, Carve(s, k, n), k, Shifted(s, k, n, i))
    requires Copied(h1, s[i].start + SIZEOF_STRUCT_MEM, h2, s[k].start + SIZEOF_STRUCT_MEM, m)
    ensures PayloadsKept(h, h2, Marked(s, i, false))
    ensures Copied(h, s[i].start + SIZEOF_STRUCT_MEM, h2, s[k].start + SIZEOF_STRUCT_MEM, m)
  {
    var c := Carve(s, k, n);
    forall j | 0 <= j < |s| && j != i && s[j].used ensures Kept(h, h2, s[j].start + SIZEOF_STRUCT_MEM, s[j].next) {
      CarveElsewhere(s, k, n, j);
      assert Kept(h1, h2, c[Shifted(s, k, n, j)].start + SIZEOF_STRUCT_MEM, c[Shifted(s, k, n, j)].next);
      assert Kept(h, h1, s[j].start + SIZEOF_STRUCT_MEM, s[j].next);
    }
    assert Kept(h, h1, s[i].start + SIZEOF_STRUCT_MEM, s[i].next);
    CopiedFrom(h, h1, h2, s[i].start + SIZEOF_STRUCT_MEM, s[k].start + SIZEOF_STRUCT_MEM, m);
  }

  lemma CopiedFrom(h: seq<int>, h1: seq<int>, h2: seq<int>, src: nat, dst: nat, m: nat)
    requires Kept(h, h1, src, src + m) && Copied(h1, src, h2, dst, m)
    ensures Copied(h, src, h2, dst, m)
  {
    assert h1[src..src + m] == h[src..src + m];
  }

  lemma CopiedTo(h: seq<int>, h1: seq<int>, h2: seq<int>, src: nat, dst: nat, m: nat)
    requires Copied(h, src, h1, dst, m) && Kept(h1, h2, dst, dst + m)
    ensures Copied(h, src, h2, dst, m)
  {
    assert h2[dst..dst + m] == h1[dst..dst + m];
  }

  lemma OthersKeptThen(h: seq<int>, h1: seq<int>, h2: seq<int>, s: seq<Block>, k: nat, i: nat)
    requires i < |s| && k < |s| && k != i && s[k].used
    requires forall j :: 0 <= j < |s| && j != k ==> Kept(h, h1, s[j].start + SIZEOF_STRUCT_MEM, s[j].next)
    requires PayloadsKept(h1, h2, Marked(s, i, false))
    ensures OthersKept(h, h2, s, k, i)
    ensures Kept(h1, h2, s[k].start + SIZEOF_STRUCT_MEM, s[k].next)
  {
    var t := Marked(s, i, false);
    forall j | 0 <= j < |s| && j != i && s[j].used ensures Kept(h1, h2, s[j].start + SIZEOF_STRUCT_MEM, s[j].next) {
      assert t[j] == s[j];
    }
  }

  /** The copy into block `k` and then the release of block `i`. */
  lemma CopiedThenFreed(h: seq<int>, h1: seq<int>, h2: seq<int>, s: seq<Block>, k: nat, i: nat, src: nat, m: nat)
    requires i < |s| && k < |s| && k != i && s[k].used && m <= s[k].Payload()
    requires forall j :: 0 <= j < |s| && j != k ==> Kept(h, h1, s[j].start + SIZEOF_STRUCT_MEM, s[j].next)
    requires PayloadsKept(h1, h2, Marked(s, i, false)) && Copied(h, src, h1, s[k].start + SIZEOF_STRUCT_MEM, m)
    ensures OthersKept(h, h2, s, k, i) && Copied(h, src, h2, s[k].start + SIZEOF_STRUCT_MEM, m)
  {
    OthersKeptThen(h, h1, h2, s, k, i);
    CopiedTo(h, h1, h2, src, s[k].start + SIZEOF_STRUCT_MEM, m);
  }

  /** Writing inside one block's payload disturbs no header and no other payload. */
  lemma PayloadWrite(h: seq<int>, h': seq<int>, s: seq<Block>, end: nat, pool: int, i: nat)
    requires Linked(h, s, end, pool) && i < |s| && |h'| == |h|
    requires forall a :: 0 <= a < |h| && !(s[i].start + SIZEOF_STRUCT_MEM <= a < s[i].next) ==> h'[a] == h[a]
    ensures Linked(h', s, end, pool)
    ensures forall j :: 0 <= j < |s| && j != i ==> Kept(h, h', s[j].start + SIZEOF_STRUCT_MEM, s[j].next)
  {
    Bounds(s, end, i);
    forall j | 0 <= j < |s| ensures Item(h', s, j, pool) {
      assert Item(h, s, j, pool);
      Apart(s, end, i, j);
    }
    forall j | 0 <= j < |s| && j != i ensures Kept(h, h', s[j].start + SIZEOF_STRUCT_MEM, s[j].next) {
      Apart(s, end, i, j);
      Bounds(s, end, j);
    }
  }

  /** Blocks from `k` on cannot hold `n` bytes when they begin beyond `memSize - n`. */
  lemma NoneBeyond(s: seq<Block>, end: nat, k: nat, n: nat)
    requires Tiles(s, end) && k <= |s| && end >= SIZEOF_STRUCT_MEM
    requires StartOf(s, end, k) + n > end - SIZEOF_STRUCT_MEM
    ensures forall j :: k <= j < |s| ==> !s[j].Fits(n)
  {
    forall j | k <= j < |s| ensures !s[j].Fits(n) {
      Bounds(s, end, j);
      Apart(s, end, k, j);
    }
  }
}
