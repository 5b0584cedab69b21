/**
 `__rt_ffs`: both table-driven variants return one more than the index of the lowest
 set bit. Words are naturals below 2^32 and their bits are read by halving.
 */
module FindFirstSet {
  import LwrbIndex

  const WORD: nat := 0x1_0000_0000

  predicate Bit(n: nat, i: nat) {
    if i == 0 then n % 2 == 1 else Bit(n / 2, i - 1)
  }

  function Pow2(k: nat): (p: nat)
    ensures p > 0
  {
    if k == 0 then 1 else 2 * Pow2(k - 1)
  }

  function And(a: nat, b: nat): nat {
    if a == 0 then 0 else 2 * And(a / 2, b / 2) + (if a % 2 == 1 && b % 2 == 1 then 1 else 0)
  }

  function Xor(a: nat, b: nat): nat {
    if a == 0 then b else 2 * Xor(a / 2, b / 2) + (if a % 2 != b % 2 then 1 else 0)
  }

  /** Index of the lowest set bit. */
  function Lowest(n: nat): nat
    requires n > 0
  {
    if n % 2 == 1 then 0 else 1 + Lowest(n / 2)
  }

  lemma {:induction false} LowestIsLowest(n: nat)
    requires n > 0
    ensures Bit(n, Lowest(n)) && forall j :: 0 <= j < Lowest(n) ==> !Bit(n, j)
  {
    if n % 2 == 0 {
      LowestIsLowest(n / 2);
      forall j | 0 <= j < Lowest(n) ensures !Bit(n, j) {
        if j > 0 { assert !Bit(n / 2, j - 1); }
      }
    }
  }

  lemma {:induction false} LowestFirst(n: nat, i: nat)
    requires n > 0 && Bit(n, i)
    ensures Lowest(n) <= i
  {
    if n % 2 == 0 { LowestFirst(n / 2, i - 1); }
  }

  lemma {:induction false} NoBits(i: nat)
    ensures !Bit(0, i)
  {
    if i > 0 { NoBits(i - 1); }
  }

  lemma {:induction false} LowestBounded(n: nat, k: nat)
    requires 0 < n < Pow2(k)
    ensures Lowest(n) < k
  {
    if n % 2 == 0 { LowestBounded(n / 2, k - 1); }
  }

  // ----- the byte table -----

  /** Every row of 16 of `__lowest_bit_bitmap` reads the same but for its first entry. */
  const ROW: seq<nat> := [0, 0, 1, 0, 2, 0, 1, 0, 3, 0, 1, 0, 2, 0, 1, 0]
  const FIRST: seq<nat> := [0, 4, 5, 4, 6, 4, 5, 4, 7, 4, 5, 4, 6, 4, 5, 4]

  function ByteEntry(i: nat): nat
    requires i < 256
  {
    if i % 16 == 0 then FIRST[i / 16] else ROW[i % 16]
  }

  function FfsByBytes(value: nat): nat
    requires value < WORD
  {
    if value == 0 then 0
    else FfsOfBytes(value % 256, value / 0x100 % 256, value / 0x1_0000 % 256, value / 0x100_0000)
  }

  /** The bytes of a nonzero word, the low one first. */
  function FfsOfBytes(b0: nat, b1: nat, b2: nat, b3: nat): nat
    requires b0 < 256 && b1 < 256 && b2 < 256 && b3 < 256
  {
    if b0 != 0 then ByteEntry(b0) + 1
    else if b1 != 0 then ByteEntry(b1) + 9
    else if b2 != 0 then ByteEntry(b2) + 17
    else ByteEntry(b3) + 25
  }

  lemma {:induction false} LowestSplit(q: nat, m: nat, k: nat)
    requires m < Pow2(k) && q * Pow2(k) + m > 0
    ensures m > 0 ==> Lowest(q * Pow2(k) + m) == Lowest(m)
    ensures m == 0 ==> q > 0 && Lowest(q * Pow2(k) + m) == k + Lowest(q)
  {
    if k > 0 {
      var n, x := q * Pow2(k) + m, q * Pow2(k - 1);
      Halved(q, Pow2(k - 1), m);
      assert n % 2 == m % 2 && n / 2 == x + m / 2;
      if m % 2 == 0 { LowestSplit(q, m / 2, k - 1); }
    }
  }

  lemma Halved(q: nat, half: nat, m: nat)
    ensures q * (2 * half) + m == 2 * (q * half) + m
    ensures (q * (2 * half) + m) / 2 == q * half + m / 2 && (q * (2 * half) + m) % 2 == m % 2
  {
    var x := q * half;
    assert q * (2 * half) == 2 * x;
  }

  lemma LowestNibble(i: nat)
    requires 0 < i < 16
    ensures Lowest(i) == ROW[i] && 4 + Lowest(i) == FIRST[i]
  {
    match i
    case 1 => case 2 => case 3 => case 4 => case 5 => case 6 => case 7 =>
    case 8 => assert Lowest(4) == 2;
    case 9 => case 10 => case 11 => case 12 => case 13 => case 14 => case 15 =>
  }

  lemma ByteEntryIsLowest(i: nat)
    requires 0 < i < 256
    ensures ByteEntry(i) == Lowest(i)
  {
    assert Pow2(4) == 16;
    assert i / 16 * Pow2(4) + i % 16 == i;
    LowestSplit(i / 16, i % 16, 4);
    LowestNibble(if i % 16 == 0 then i / 16 else i % 16);
  }

  /** One byte is stripped at a time. */
  lemma LowestByte(n: nat)
    requires n > 0
    ensures n % 256 != 0 ==> Lowest(n) == Lowest(n % 256)
    ensures n % 256 == 0 ==> n / 256 > 0 && Lowest(n) == 8 + Lowest(n / 256)
  {
    assert Pow2(8) == 256 by { assert Pow2(4) == 16; }
    assert n / 256 * Pow2(8) + n % 256 == n;
    LowestSplit(n / 256, n % 256, 8);
  }

  lemma BytesOf(value: nat)
    requires value < WORD
    ensures value / 0x100 / 0x100 == value / 0x1_0000
    ensures value / 0x1_0000 / 0x100 == value / 0x100_0000 < 256
  {
  }

  lemma ByBytes(value: nat)
    requires 0 < value < WORD
    ensures FfsByBytes(value) == Lowest(value) + 1
  {
    LowestByte(value);
    if value % 256 != 0 {
      ByteEntryIsLowest(value % 256);
    } else {
      BytesOf(value);
      UpperBytes(value / 0x100, value / 0x1_0000, value / 0x100_0000);
    }
  }

  lemma UpperBytes(b1: nat, b2: nat, b3: nat)
    requires b1 > 0 && b1 / 0x100 == b2 && b2 / 0x100 == b3 < 256
    ensures FfsOfBytes(0, b1 % 256, b2 % 256, b3) == Lowest(b1) + 9
  {
    LowestByte(b1);
    if b1 % 256 != 0 {
      ByteEntryIsLowest(b1 % 256);
    } else {
      LowestByte(b2);
      if b2 % 256 != 0 {
        ByteEntryIsLowest(b2 % 256);
      } else {
        ByteEntryIsLowest(b3);
      }
    }
  }

  // ----- the tiny table -----

  const TINY: seq<nat> := [
    0, 1, 2, 27, 3, 24, 28, 32,
    4, 17, 25, 31, 29, 12, 32, 14,
    5, 8, 18, 32, 26, 23, 32, 16,
    30, 11, 13, 7, 32, 22, 15, 10,
    6, 21, 9, 20, 19
  ]

  function FfsTiny(value: nat): nat
    requires value < WORD
  {
    TINY[Xor(And(value, if value == 0 then WORD - 1 else value - 1), value) % 37]
  }

  lemma {:induction false} AndSelf(n: nat)
    ensures And(n, n) == n
  {
    if n > 0 { AndSelf(n / 2); }
  }

  lemma {:induction false} XorSelf(n: nat)
    ensures Xor(n, n) == 0
  {
    if n > 0 { XorSelf(n / 2); }
  }

  /** `n & (n - 1) ^ n` is the lowest set bit alone. */
  lemma {:induction false} Isolates(n: nat)
    requires n > 0
    ensures Xor(And(n, n - 1), n) == Pow2(Lowest(n))
  {
    var m := n / 2;
    if n % 2 == 1 {
      assert (n - 1) / 2 == m;
      AndSelf(m);
      assert And(n, n - 1) == 2 * m;
      XorSelf(m);
    } else {
      Isolates(m);
      assert (n - 1) / 2 == m - 1;
      var a := And(m, m - 1);
      assert And(n, n - 1) == 2 * a;
      assert Xor(2 * a, n) == 2 * Xor(a, m);
    }
  }

  function Doubled(r: nat): nat {
    if 2 * r >= 37 then 2 * r - 37 else 2 * r
  }

  /** 2^k mod 37, by doubling. */
  function Remainder(k: nat): nat {
    if k == 0 then 1 else Doubled(Remainder(k - 1))
  }

  lemma {:induction false} Divided(k: nat) returns (q: nat)
    ensures Pow2(k) == 37 * q + Remainder(k) && Remainder(k) < 37
  {
    if k == 0 {
      q := 0;
    } else {
      var h := Divided(k - 1);
      q := if 2 * Remainder(k - 1) >= 37 then 2 * h + 1 else 2 * h;
    }
  }

  lemma RemainderIsMod(k: nat)
    ensures Pow2(k) % 37 == Remainder(k)
  {
    var q := Divided(k);
    LwrbIndex.ModOf(q, 37, Remainder(k));
  }

  lemma Remainders0()
    requires Remainder(0) == 1
    ensures Remainder(1) == 2 && Remainder(2) == 4 && Remainder(3) == 8 && Remainder(4) == 16
    ensures Remainder(5) == 32 && Remainder(6) == 27 && Remainder(7) == 17 && Remainder(8) == 34
  {
  }

  lemma Remainders1()
    requires Remainder(8) == 34
    ensures Remainder(9) == 31 && Remainder(10) == 25 && Remainder(11) == 13 && Remainder(12) == 26
    ensures Remainder(13) == 15 && Remainder(14) == 30 && Remainder(15) == 23 && Remainder(16) == 9
  {
  }

  lemma Remainders2()
    requires Remainder(16) == 9
    ensures Remainder(17) == 18 && Remainder(18) == 36 && Remainder(19) == 35 && Remainder(20) == 33
    ensures Remainder(21) == 29 && Remainder(22) == 21 && Remainder(23) == 5 && Remainder(24) == 10
  {
  }

  lemma Remainders3()
    requires Remainder(24) == 10
    ensures Remainder(25) == 20 && Remainder(26) == 3 && Remainder(27) == 6 && Remainder(28) == 12
    ensures Remainder(29) == 24 && Remainder(30) == 11 && Remainder(31) == 22 && Remainder(32) == 7
  {
  }

  lemma TinyRow0(k: nat)
    requires 0 <= k < 8
    ensures Remainder(0) == 1 && Remainder(k) < 37 && TINY[Remainder(k)] == k + 1
  {
    Remainders0();
    match k {
      case 0 =>
      case 1 =>
      case 2 =>
      case 3 =>
      case 4 =>
      case 5 =>
      case 6 =>
      case 7 =>
    }
  }

  lemma TinyRow1(k: nat)
    requires 8 <= k < 16
    ensures Remainder(8) == 34 && Remainder(k) < 37 && TINY[Remainder(k)] == k + 1
  {
    Remainders0();
    Remainders1();
    match k {
      case 8 =>
      case 9 =>
      case 10 =>
      case 11 =>
      case 12 =>
      case 13 =>
      case 14 =>
      case 15 =>
    }
  }

  lemma TinyRow2(k: nat)
    requires 16 <= k < 24
    ensures Remainder(16) == 9 && Remainder(k) < 37 && TINY[Remainder(k)] == k + 1
  {
    Remainders0();
    Remainders1();
    Remainders2();
    match k {
      case 16 =>
      case 17 =>
      case 18 =>
      case 19 =>
      case 20 =>
      case 21 =>
      case 22 =>
      case 23 =>
    }
  }

  lemma TinyRow3(k: nat)
    requires 24 <= k < 32
    ensures Remainder(24) == 10 && Remainder(k) < 37 && TINY[Remainder(k)] == k + 1
  {
    Remainders0();
    Remainders1();
    Remainders2();
    Remainders3();
    match k {
      case 24 =>
      case 25 =>
      case 26 =>
      case 27 =>
      case 28 =>
      case 29 =>
      case 30 =>
      case 31 =>
    }
  }

  /** The powers of two leave distinct remainders modulo 37, and the table lists them. */
  lemma TinyEntry(k: nat)
    requires k < 32
    ensures TINY[Pow2(k) % 37] == k + 1
  {
    RemainderIsMod(k);
    if k < 8 { TinyRow0(k); } else if k < 16 { TinyRow1(k); } else if k < 24 { TinyRow2(k); } else { TinyRow3(k); }
  }

  /** Both variants, on every word. */
  lemma VariantsAgree(value: nat)
    requires value < WORD
    ensures FfsByBytes(value) == FfsTiny(value) == if value == 0 then 0 else Lowest(value) + 1
  {
    if value > 0 {
      ByBytes(value);
      Isolates(value);
      assert Pow2(32) == WORD by { assert Pow2(8) == 256; assert Pow2(16) == 0x1_0000; assert Pow2(24) == 0x100_0000; }
      LowestBounded(value, 32);
      TinyEntry(Lowest(value));
    }
  }

  /** What `__rt_ffs` is for: zero exactly for zero, else the first set bit, counted from one. */
  lemma FfsFindsFirst(value: nat)
    requires value < WORD
    ensures FfsByBytes(value) == 0 <==> value == 0
    ensures value > 0 ==>
              var i := FfsByBytes(value) - 1;
              i < 32 && Bit(value, i) && forall j :: 0 <= j < i ==> !Bit(value, j)
  {
    if value > 0 {
      VariantsAgree(value);
      LowestIsLowest(value);
      assert Pow2(32) == WORD by { assert Pow2(8) == 256; assert Pow2(16) == 0x1_0000; assert Pow2(24) == 0x100_0000; }
      LowestBounded(value, 32);
    }
  }
}
