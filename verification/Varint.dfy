/**
 Variable-length integers of LwUTIL: the store and load loops, against the unsigned
 LEB128 encoding of section 7.6 of DWARF Version 4. Bytes are naturals below 256.
 */
module Varint {

  const WORD: nat := 0x1_0000_0000

  type Byte = b: nat | b < 256

  function Pow128(k: nat): (p: nat)
    ensures p > 0
  {
    if k == 0 then 1 else 128 * Pow128(k - 1)
  }

  /** The encoding: groups of seven bits, the low one first, all but the last with bit 7 set. */
  function Leb(val: nat): (bs: seq<Byte>)
    ensures bs != []
  {
    if val < 128 then [val] else [val % 128 + 128] + Leb(val / 128)
  }

  /** The number that a sequence of groups denotes. */
  function Value(bs: seq<Byte>): nat {
    if bs == [] then 0 else bs[0] % 128 + 128 * Value(bs[1..])
  }

  predicate Continues(b: Byte) {
    b >= 128
  }

  /** Place of the first byte that ends a number, or the length if there is none. */
  function End(bs: seq<Byte>): (k: nat)
    ensures k <= |bs| && (forall i :: 0 <= i < k ==> Continues(bs[i])) && (k < |bs| ==> !Continues(bs[k]))
  {
    if bs == [] || !Continues(bs[0]) then 0 else 1 + End(bs[1..])
  }

  // ----- the encoding -----

  lemma {:induction false} LebValue(val: nat)
    ensures Value(Leb(val)) == val
    ensures End(Leb(val)) == |Leb(val)| - 1
  {
    if val >= 128 {
      LebValue(val / 128);
      assert Leb(val)[1..] == Leb(val / 128);
    }
  }

  /** The encoding has as many bytes as the number has base-128 digits. */
  lemma {:induction false} LebMinimal(val: nat)
    ensures val < Pow128(|Leb(val)|)
    ensures |Leb(val)| > 1 ==> Pow128(|Leb(val)| - 1) <= val
  {
    if val >= 128 {
      LebMinimal(val / 128);
    }
  }

  lemma LebFits(val: nat)
    requires val < WORD
    ensures |Leb(val)| <= 5
  {
    LebMinimal(val);
    if |Leb(val)| > 5 { Pow128Grows(5, |Leb(val)| - 1); }
    assert Pow128(5) == 128 * 128 * 128 * 128 * 128;
  }

  lemma {:induction false} Pow128Grows(a: nat, b: nat)
    requires a <= b
    ensures Pow128(a) <= Pow128(b)
  {
    if a < b { Pow128Grows(a, b - 1); }
  }

  lemma {:induction false} ValueAppend(bs: seq<Byte>, b: Byte)
    ensures Value(bs + [b]) == Value(bs) + b % 128 * Pow128(|bs|)
    ensures Value(bs) < Pow128(|bs|)
  {
    if bs == [] {
      assert [b][1..] == [];
    } else {
      ValueAppend(bs[1..], b);
      assert (bs + [b])[1..] == bs[1..] + [b];
      Shifted(b % 128, Pow128(|bs| - 1));
    }
  }

  lemma Shifted(x: nat, p: nat)
    ensures 128 * (x * p) == x * (128 * p)
  {
  }

  lemma {:induction false} EndOfPrefix(bs: seq<Byte>, n: nat)
    requires n <= |bs|
    ensures End(bs[..n]) == if n <= End(bs) then n else End(bs)
  {
    if n > 0 && Continues(bs[0]) {
      assert bs[..n][1..] == bs[1..][..n - 1];
      EndOfPrefix(bs[1..], n - 1);
    }
  }

  // ----- storing -----

  /** What is left to store after `n` bytes. */
  function Rest(val: nat, n: nat): nat {
    if n == 0 then val else Rest(val / 128, n - 1)
  }

  lemma {:induction false} RestStep(val: nat, n: nat)
    ensures Rest(val, n + 1) == Rest(val, n) / 128
  {
    if n > 0 { RestStep(val / 128, n - 1); }
  }

  /** Byte `n` of the encoding comes from what is left, and the encoding ends with nothing left. */
  lemma {:induction false} LebAt(val: nat, n: nat)
    requires n < |Leb(val)|
    ensures Leb(val)[n] == Rest(val, n) % 128 + (if Rest(val, n) > 127 then 128 else 0)
    ensures Rest(val, n + 1) == 0 <==> n + 1 == |Leb(val)|
  {
    if n > 0 {
      LebAt(val / 128, n - 1);
    }
  }

  lemma {:induction false} RestIs(val: nat, n: nat)
    ensures Rest(val, n) * Pow128(n) <= val < (Rest(val, n) + 1) * Pow128(n)
  {
    if n > 0 {
      RestIs(val / 128, n - 1);
      Scaled(val, Rest(val, n), Pow128(n - 1));
    }
  }

  lemma Scaled(val: nat, x: nat, p: nat)
    requires x * p <= val / 128 < (x + 1) * p
    ensures x * (128 * p) <= val < (x + 1) * (128 * p)
  {
    Shifted(x, p);
    Shifted(x + 1, p);
    Between(val, x * p, (x + 1) * p);
  }

  lemma Between(val: nat, lo: nat, hi: nat)
    requires lo <= val / 128 < hi
    ensures 128 * lo <= val < 128 * hi
  {
  }

  /** Byte `n` of an encoding holds the digit of 128 to the `n`, with bit 7 set in all bytes but the last. */
  lemma LebBytes(val: nat, n: nat)
    requires n < |Leb(val)|
    ensures exists above: nat ::
              && above * Pow128(n) <= val < (above + 1) * Pow128(n)
              && Leb(val)[n] == above % 128 + if n + 1 < |Leb(val)| then 128 else 0
  {
    LebAt(val, n);
    RestIs(val, n);
    RestStep(val, n);
  }

  /** lwutil_st_u32_varint: the number of bytes stored, or 0 when the buffer is too short, which by
      then holds the beginning of the encoding. */
  method Store(val: nat, buf: array<Byte>) returns (cnt: nat)
    requires val < WORD
    modifies buf
    ensures cnt == if |Leb(val)| <= buf.Length then |Leb(val)| else 0
    ensures |Leb(val)| <= buf.Length ==> buf[..cnt] == Leb(val) && buf[cnt..] == old(buf[cnt..])
    ensures |Leb(val)| > buf.Length ==> buf[..] == Leb(val)[..buf.Length]
  {
    cnt := 0;
    if buf.Length == 0 {
      return;
    }
    var left, n, more := val, 0, true;
    while more
      invariant n <= buf.Length && n <= |Leb(val)| && left == Rest(val, n)
      invariant more <==> n < buf.Length && n < |Leb(val)|
      invariant forall i :: 0 <= i < n ==> buf[i] == Leb(val)[i]
      invariant forall i :: n <= i < buf.Length ==> buf[i] == old(buf[i])
      invariant n > 0 ==> (left == 0 <==> n == |Leb(val)|)
      invariant n == 0 ==> more
      decreases buf.Length - n
    {
      LebAt(val, n);
      RestStep(val, n);
      buf[n] := left % 128 + if left > 0x7F then 0x80 else 0;
      left := left / 128;
      n := n + 1;
      more := n < buf.Length && left > 0;
    }
    cnt := if left > 0 then 0 else n;
  }

  // ----- loading -----

  /** What a load returns: the count of bytes and the number, or nothing without an end. */
  function Loaded(bs: seq<Byte>): (r: (nat, nat))
  {
    if End(bs) == |bs| then (0, 0) else (End(bs) + 1, Value(bs[..End(bs) + 1]) % WORD)
  }

  /** lwutil_ld_u32_varint. The shift of a sixth group would be undefined, so the number ends, or
      the buffer does, within five bytes. The groups do not overlap: `|=` adds them. */
  method Load(buf: seq<Byte>) returns (cnt: nat, val: nat)
    requires |buf| <= 5 || End(buf) < 5
    ensures (cnt, val) == Loaded(buf)
  {
    cnt, val := 0, 0;
    if |buf| == 0 {
      return;
    }
    var byt: Byte := 0;
    var more := true;
    while more
      invariant cnt <= |buf| && cnt <= 5 && val == Value(buf[..cnt]) % WORD
      invariant cnt > 0 ==> byt == buf[cnt - 1]
      invariant more ==> cnt < |buf| && End(buf) >= cnt
      invariant !more ==> cnt > 0 && (if Continues(byt) then cnt == |buf| == End(buf) else cnt == End(buf) + 1)
      decreases |buf| - cnt, more
    {
      byt := buf[cnt];
      LoadStep(buf, cnt);
      val := (val + byt % 128 * Pow128(cnt)) % WORD;
      cnt := cnt + 1;
      more := cnt < |buf| && Continues(byt);
    }
    if Continues(byt) {
      cnt, val := 0, 0;
    }
  }

  lemma LoadStep(buf: seq<Byte>, cnt: nat)
    requires cnt < |buf| && cnt <= End(buf)
    ensures (Value(buf[..cnt]) % WORD + buf[cnt] % 128 * Pow128(cnt)) % WORD == Value(buf[..cnt + 1]) % WORD
    ensures Continues(buf[cnt]) ==> End(buf) >= cnt + 1
    ensures !Continues(buf[cnt]) ==> End(buf) == cnt
  {
    assert buf[..cnt + 1] == buf[..cnt] + [buf[cnt]];
    ValueAppend(buf[..cnt], buf[cnt]);
    ModAdd(Value(buf[..cnt]), buf[cnt] % 128 * Pow128(cnt));
  }

  lemma ModAdd(a: nat, b: nat)
    ensures (a % WORD + b) % WORD == (a + b) % WORD
  {
    var q := a / WORD;
    assert a + b == WORD * q + (a % WORD + b);
  }

  // ----- the two together -----

  /** A stored number is loaded back from any buffer that begins with its encoding. */
  lemma RoundTrip(val: nat, tail: seq<Byte>)
    requires val < WORD
    ensures Loaded(Leb(val) + tail) == (|Leb(val)|, val)
    ensures End(Leb(val) + tail) < 5
  {
    var buf := Leb(val) + tail;
    var n := |Leb(val)|;
    LebValue(val);
    LebFits(val);
    assert buf[..n] == Leb(val);
    EndOfPrefix(buf, n);
    assert End(buf) == n - 1;
  }

  /** A proper nonempty part of an encoding is no encoding: it loads as an error. */
  lemma PrefixFails(val: nat, n: nat)
    requires 0 < n < |Leb(val)|
    ensures Loaded(Leb(val)[..n]) == (0, 0)
  {
    LebValue(val);
    EndOfPrefix(Leb(val), n);
  }
}
