/**
 The ready bitmap of the scheduler, in both of its builds: one word for up to 32
 priorities, or a word of groups over a table of bytes for up to 256.
 */
module ReadyBitmap {
  import opened FindFirstSet

  // ----- setting and clearing one bit of a word -----

  /** `n | 1 << i` */
  function SetBit(n: nat, i: nat): (m: nat)
    ensures m > 0
  {
    if i == 0 then n / 2 * 2 + 1 else 2 * SetBit(n / 2, i - 1) + n % 2
  }

  /** `n & ~(1 << i)` */
  function ClearBit(n: nat, i: nat): nat {
    if i == 0 then n / 2 * 2 else 2 * ClearBit(n / 2, i - 1) + n % 2
  }

  lemma {:induction false} SetBitAt(n: nat, i: nat, j: nat)
    ensures Bit(SetBit(n, i), j) <==> i == j || Bit(n, j)
  {
    if i == 0 {
      assert SetBit(n, i) / 2 == n / 2;
    } else if j > 0 {
      SetBitAt(n / 2, i - 1, j - 1);
      assert SetBit(n, i) / 2 == SetBit(n / 2, i - 1);
    }
  }

  lemma {:induction false} ClearBitAt(n: nat, i: nat, j: nat)
    ensures Bit(ClearBit(n, i), j) <==> i != j && Bit(n, j)
  {
    if i == 0 {
      assert ClearBit(n, i) / 2 == n / 2;
    } else {
      ClearBitHalf(n, i);
      if j > 0 { ClearBitAt(n / 2, i - 1, j - 1); }
    }
  }

  lemma ClearBitHalf(n: nat, i: nat)
    requires i > 0
    ensures ClearBit(n, i) / 2 == ClearBit(n / 2, i - 1) && ClearBit(n, i) % 2 == n % 2
  {
  }

  lemma {:induction false} BitsFit(n: nat, i: nat, k: nat)
    requires n < Pow2(k) && i < k
    ensures SetBit(n, i) < Pow2(k) && ClearBit(n, i) < Pow2(k)
  {
    assert Pow2(k) == 2 * Pow2(k - 1) && n / 2 < Pow2(k - 1);
    if i > 0 { BitsFit(n / 2, i - 1, k - 1); }
  }

  /** A word below 2^k has no bit at k or above, and some bit unless it is zero. */
  lemma {:induction false} NoHighBit(n: nat, k: nat, i: nat)
    requires n < Pow2(k) && k <= i
    ensures !Bit(n, i)
  {
    if k == 0 { NoBits(i); } else { NoHighBit(n / 2, k - 1, i - 1); }
  }

  // ----- the two builds -----

  datatype Bitmap = OneLevel(group: nat) | TwoLevel(group: nat, table: seq<nat>)

  function Capacity(b: Bitmap): nat {
    if b.OneLevel? then 32 else 256
  }

  ghost predicate Valid(b: Bitmap) {
    && b.group < Pow2(32)
    && (b.TwoLevel? ==>
          |b.table| == 32 && forall n :: 0 <= n < 32 ==> b.table[n] < Pow2(8) && (Bit(b.group, n) <==> b.table[n] != 0))
  }

  /** Whether priority `p` is marked ready. */
  predicate Marked(b: Bitmap, p: nat)
    requires b.TwoLevel? ==> |b.table| == 32
  {
    match b
    case OneLevel(group) => Bit(group, p)
    case TwoLevel(group, table) => p / 8 < 32 && Bit(table[p / 8], p % 8)
  }

  function Mark(b: Bitmap, p: nat): (b': Bitmap)
    requires p < Capacity(b) && (b.TwoLevel? ==> |b.table| == 32)
  {
    match b
    case OneLevel(group) => OneLevel(SetBit(group, p))
    case TwoLevel(group, table) => TwoLevel(SetBit(group, p / 8), table[p / 8 := SetBit(table[p / 8], p % 8)])
  }

  function Unmark(b: Bitmap, p: nat): (b': Bitmap)
    requires p < Capacity(b) && (b.TwoLevel? ==> |b.table| == 32)
  {
    match b
    case OneLevel(group) => OneLevel(ClearBit(group, p))
    case TwoLevel(group, table) =>
      var row := ClearBit(table[p / 8], p % 8);
      TwoLevel(if row == 0 then ClearBit(group, p / 8) else group, table[p / 8 := row])
  }

  lemma WordSizes()
    ensures Pow2(8) == 256 && Pow2(32) == WORD
  {
    assert Pow2(8) == 256;
    assert Pow2(16) == 0x1_0000;
    assert Pow2(24) == 0x100_0000;
  }

  /** The priority the scheduler looks up: _scheduler_get_highest_priority_thread. */
  function Highest(b: Bitmap): int
    requires Valid(b)
  {
    WordSizes();
    match b
    case OneLevel(group) => FfsByBytes(group) - 1
    case TwoLevel(group, table) =>
      var number := FfsByBytes(group) - 1;
      FfsBound(group);
      if number < 0 then -1 else 8 * number + FfsByBytes(table[number]) - 1
  }

  lemma FfsBound(n: nat)
    requires n < WORD
    ensures FfsByBytes(n) <= 32
  {
    FfsFindsFirst(n);
  }

  lemma MarkKeeps(b: Bitmap, p: nat)
    requires Valid(b) && p < Capacity(b)
    ensures Valid(Mark(b, p)) && Capacity(Mark(b, p)) == Capacity(b)
    ensures forall q :: 0 <= q < Capacity(b) ==> (Marked(Mark(b, p), q) <==> q == p || Marked(b, q))
  {
    match b
    case OneLevel(group) =>
      BitsFit(group, p, 32);
      forall q | 0 <= q < 32 ensures Marked(Mark(b, p), q) <==> q == p || Marked(b, q) { SetBitAt(group, p, q); }
    case TwoLevel(group, table) =>
      BitsFit(group, p / 8, 32);
      BitsFit(table[p / 8], p % 8, 8);
      forall n | 0 <= n < 32 ensures Bit(Mark(b, p).group, n) <==> Mark(b, p).table[n] != 0 { SetBitAt(group, p / 8, n); }
      forall q | 0 <= q < 256 ensures Marked(Mark(b, p), q) <==> q == p || Marked(b, q) {
        if q / 8 == p / 8 { SetBitAt(table[p / 8], p % 8, q % 8); }
      }
  }

  lemma UnmarkKeeps(b: Bitmap, p: nat)
    requires Valid(b) && p < Capacity(b)
    ensures Valid(Unmark(b, p)) && Capacity(Unmark(b, p)) == Capacity(b)
    ensures forall q :: 0 <= q < Capacity(b) ==> (Marked(Unmark(b, p), q) <==> q != p && Marked(b, q))
  {
    match b
    case OneLevel(group) =>
      BitsFit(group, p, 32);
      forall q | 0 <= q < 32 ensures Marked(Unmark(b, p), q) <==> q != p && Marked(b, q) { ClearBitAt(group, p, q); }
    case TwoLevel(group, table) =>
      BitsFit(group, p / 8, 32);
      BitsFit(table[p / 8], p % 8, 8);
      ClearedRow(group, table, p);
      forall q | 0 <= q < 256 ensures Marked(Unmark(b, p), q) <==> q != p && Marked(b, q) {
        if q / 8 == p / 8 { ClearBitAt(table[p / 8], p % 8, q % 8); }
      }
  }

  lemma ClearedRow(group: nat, table: seq<nat>, p: nat)
    requires Valid(TwoLevel(group, table)) && p < 256
    ensures var b' := Unmark(TwoLevel(group, table), p);
            forall n :: 0 <= n < 32 ==> (Bit(b'.group, n) <==> b'.table[n] != 0)
  {
    var b' := Unmark(TwoLevel(group, table), p);
    forall n | 0 <= n < 32 ensures Bit(b'.group, n) <==> b'.table[n] != 0 {
      ClearBitAt(group, p / 8, n);
      if n == p / 8 && table[n] == 0 { ClearNothing(p % 8); }
    }
  }

  lemma {:induction false} ClearNothing(i: nat)
    ensures ClearBit(0, i) == 0
  {
    if i > 0 { ClearNothing(i - 1); }
  }

  /** The group word is zero exactly when nothing is marked, and otherwise the lookup returns the
      most urgent marked priority. */
  lemma HighestIsMostUrgent(b: Bitmap)
    requires Valid(b)
    ensures b.group == 0 ==> forall q :: 0 <= q < Capacity(b) ==> !Marked(b, q)
    ensures b.group != 0 ==>
              var p := Highest(b);
              0 <= p < Capacity(b) && Marked(b, p) && forall q :: 0 <= q < p ==> !Marked(b, q)
  {
    WordSizes();
    FfsFindsFirst(b.group);
    forall q | 0 <= q < 32 && b.group == 0 ensures !Bit(b.group, q) { NoBits(q); }
    if b.TwoLevel? {
      HighestOfTwo(b);
    }
  }

  lemma HighestOfTwo(b: Bitmap)
    requires Valid(b) && b.TwoLevel?
    ensures b.group == 0 ==> forall q :: 0 <= q < 256 ==> !Marked(b, q)
    ensures b.group != 0 ==>
              var p := Highest(b);
              0 <= p < 256 && Marked(b, p) && forall q :: 0 <= q < p ==> !Marked(b, q)
  {
    if b.group == 0 {
      NoneOfTwo(b);
    } else {
      FirstOfTwo(b);
    }
  }

  lemma NoneOfTwo(b: Bitmap)
    requires Valid(b) && b.TwoLevel? && b.group == 0
    ensures forall q :: 0 <= q < 256 ==> !Marked(b, q)
  {
    forall q | 0 <= q < 256 ensures !Marked(b, q) {
      NoBits(q / 8);
      EmptyRow(b, q);
    }
  }

  lemma FirstOfTwo(b: Bitmap)
    requires Valid(b) && b.TwoLevel? && b.group != 0
    ensures var p := Highest(b); 0 <= p < 256 && Marked(b, p) && forall q :: 0 <= q < p ==> !Marked(b, q)
  {
    WordSizes();
    FfsFindsFirst(b.group);
    var number := FfsByBytes(b.group) - 1;
    var i := FirstOfRow(b, number);
    HighestIs(b, number, i);
  }

  lemma HighestIs(b: Bitmap, number: nat, i: nat)
    requires Valid(b) && b.TwoLevel? && b.group < WORD && number == FfsByBytes(b.group) - 1 && number < 32
    requires b.table[number] < WORD && i == FfsByBytes(b.table[number]) - 1
    ensures Highest(b) == 8 * number + i
  {
  }

  /** The first mark of the first nonempty row is the first mark of all. */
  lemma FirstOfRow(b: Bitmap, number: nat) returns (i: nat)
    requires Valid(b) && b.TwoLevel? && number < 32 && Bit(b.group, number)
    requires forall n :: 0 <= n < number ==> !Bit(b.group, n)
    ensures b.table[number] < WORD && i == FfsByBytes(b.table[number]) - 1 && i < 8
    ensures Marked(b, 8 * number + i) && forall q :: 0 <= q < 8 * number + i ==> !Marked(b, q)
  {
    WordSizes();
    FfsFindsFirst(b.table[number]);
    RowBit(b.table[number]);
    i := FfsByBytes(b.table[number]) - 1;
    InRow(number, i);
    forall q | 0 <= q < 8 * number + i ensures !Marked(b, q) {
      if q < 8 * number {
        EmptyRow(b, q);
      } else {
        InRow(number, q - 8 * number);
      }
    }
  }

  lemma EmptyRow(b: Bitmap, q: nat)
    requires Valid(b) && b.TwoLevel? && q < 256 && !Bit(b.group, q / 8)
    ensures !Marked(b, q)
  {
    NoBits(q % 8);
  }

  lemma InRow(number: nat, i: nat)
    requires i < 8
    ensures (8 * number + i) / 8 == number && (8 * number + i) % 8 == i
  {
  }

  lemma RowBit(row: nat)
    requires 0 < row < 256
    ensures 1 <= FfsByBytes(row) <= 8
  {
    WordSizes();
    VariantsAgree(row);
    LowestBounded(row, 8);
  }
}
