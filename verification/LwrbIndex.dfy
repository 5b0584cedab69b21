/**
 Index arithmetic of the LwRB ring buffer: the pure computations that both the
 sequential operations (`Lwrb`) and the producer/consumer protocol (`LwrbSpsc`)
 are built from. Each is stated against stream positions: `wrote` and `took`
 count the bytes that ever entered and left the ring, and an index is such a
 count reduced modulo the size.
 */
module LwrbIndex {

  function Min(x: nat, y: nat): (m: nat)
  {
    if x < y then x else y
  }

  /** Bytes that still fit, from one snapshot of each index. */
  function FreeFrom(size: nat, w: nat, r: nat): (free: nat)
    requires w < size && r < size
  {
    (if w >= r then size - (w - r) else r - w) - 1
  }

  /** Bytes held, from one snapshot of each index. */
  function FullFrom(size: nat, w: nat, r: nat): (full: nat)
    requires w < size && r < size
  {
    if w >= r then w - r else size - (r - w)
  }

  /** Where byte `k` of an `n`-byte transfer that begins at `ptr` lives: the linear
      part first, then the overflow part at the beginning of the memory. */
  function CellOf(size: nat, ptr: nat, n: nat, k: nat): (cell: nat)
    requires ptr < size && k < n < size
    ensures cell < size
  {
    var tocopy := Min(size - ptr, n);
    if k < tocopy then ptr + k else k - tocopy
  }

  /** The index published at the end of an `n`-byte transfer. */
  function IndexAfter(size: nat, ptr: nat, n: nat): (ptr': nat)
    requires ptr < size && n < size
    ensures ptr' < size
  {
    var tocopy := Min(size - ptr, n);
    var moved := if n - tocopy > 0 then n - tocopy else ptr + tocopy;
    if moved >= size then 0 else moved
  }

  lemma ModShift(a: nat, k: nat, n: nat)
    requires k < n
    ensures (a + k) % n == if a % n + k >= n then a % n + k - n else a % n + k
  {
    var q, m := a / n, a % n;
    assert a == q * n + m;
    if m + k >= n {
      assert a + k == (q + 1) * n + (m + k - n);
      ModOf(q + 1, n, m + k - n);
    } else {
      assert a + k == q * n + (m + k);
      ModOf(q, n, m + k);
    }
  }

  lemma ModOf(q: nat, n: nat, m: nat)
    requires m < n
    ensures (q * n + m) % n == m
  {
    var x := q * n + m;
    NotLess(q, m, x / n, x % n, n);
    NotLess(x / n, x % n, q, m, n);
  }

  lemma NotLess(q: nat, m: nat, q': nat, m': nat, n: nat)
    requires m < n && m' < n && q * n + m == q' * n + m'
    ensures q' <= q
  {
    if q < q' {
      MulGap(q, q' - q, n);
      assert false;
    }
  }

  lemma MulGap(q: nat, d: nat, n: nat)
    requires d > 0
    ensures (q + d) * n >= q * n + n
  {
    calc {
      (q + d) * n;
      q * n + d * n;
      q * n + (d - 1) * n + n;
    }
    assert (d - 1) * n >= 0;
  }

  /** The two snapshots determine the fill level exactly, whatever lap the indices are on. */
  lemma Level(size: nat, took: nat, wrote: nat)
    requires took <= wrote < took + size
    ensures FullFrom(size, wrote % size, took % size) == wrote - took
    ensures FreeFrom(size, wrote % size, took % size) == size - 1 - (wrote - took)
  {
    ModShift(took, wrote - took, size);
  }

  /** A transfer touches the cells of consecutive stream positions and publishes the next one. */
  lemma Transfer(size: nat, at: nat, n: nat)
    requires n < size
    ensures forall k :: 0 <= k < n ==> CellOf(size, at % size, n, k) == (at + k) % size
    ensures IndexAfter(size, at % size, n) == (at + n) % size
  {
    forall k | 0 <= k < n ensures CellOf(size, at % size, n, k) == (at + k) % size {
      ModShift(at, k, size);
    }
    ModShift(at, n, size);
  }

  /** Positions less than one lap apart never share a cell. */
  lemma DistinctCells(size: nat, a: nat, b: nat)
    requires a < b < a + size
    ensures a % size != b % size
  {
    ModShift(a, b - a, size);
  }
}
