/**
 LwRB used by one party at a time: the operations of `lwrb.c` on the index pair
 and the byte memory, each specified by what it does to the byte sequence held.
 */
module Lwrb {
  import opened LwrbIndex

  type Byte = bv8

  /** Length of the block readable from `r` without wrapping. */
  function LinearRead(size: nat, w: nat, r: nat): (len: nat)
    requires w < size && r < size
  {
    if w > r then w - r else if r > w then size - r else 0
  }

  /** Length of the block writable at `w` without wrapping; one cell always stays unused. */
  function LinearWrite(size: nat, w: nat, r: nat): (len: nat)
    requires w < size && r < size
  {
    if w >= r then (if r == 0 then size - w - 1 else size - w) else r - w - 1
  }

  /** The cell `i` places after `base`. */
  function RingAt(size: nat, base: nat, i: nat): (j: nat)
    requires base < size && i <= size
    ensures j < size
  {
    if base + i >= size then base + i - size else base + i
  }

  /** Reading the linear block and then the linear block that follows it empties the ring;
      writing the two linear blocks fills it. A block is missing only when there is nothing to do. */
  lemma TwoBlocksSuffice(size: nat, w: nat, r: nat)
    requires w < size && r < size
    ensures LinearRead(size, w, r) == 0 <==> FullFrom(size, w, r) == 0
    ensures LinearWrite(size, w, r) == 0 <==> FreeFrom(size, w, r) == 0
    ensures FullFrom(size, w, r) + FreeFrom(size, w, r) == size - 1
    ensures var r' := RingAt(size, r, LinearRead(size, w, r));
            LinearRead(size, w, r) + LinearRead(size, w, r') == FullFrom(size, w, r)
            && RingAt(size, r', LinearRead(size, w, r')) == w
    ensures var w' := RingAt(size, w, LinearWrite(size, w, r));
            LinearWrite(size, w, r) + LinearWrite(size, w', r) == FreeFrom(size, w, r)
            && FreeFrom(size, RingAt(size, w', LinearWrite(size, w', r)), r) == 0
  {
    var r' := RingAt(size, r, LinearRead(size, w, r));
    var w' := RingAt(size, w, LinearWrite(size, w, r));
    assert r' == w || r' == 0;
    assert w' == 0 || FreeFrom(size, w', r) == 0;
  }

  /** `needle` occurs in `s` at offset `at`. */
  predicate OccursAt(s: seq<Byte>, needle: seq<Byte>, at: nat)
  {
    at + |needle| <= |s| && s[at..at + |needle|] == needle
  }

  ghost predicate AbsentIn(s: seq<Byte>, needle: seq<Byte>, lo: nat, hi: nat)
  {
    forall i :: lo <= i < hi ==> !OccursAt(s, needle, i)
  }

  /** The bytes between the read and the write index, oldest first. */
  function Held(mem: seq<Byte>, w: nat, r: nat): (s: seq<Byte>)
    requires w < |mem| && r < |mem|
    ensures |s| == FullFrom(|mem|, w, r)
  {
    if r <= w then mem[r..w] else mem[r..] + mem[..w]
  }

  lemma HeldAt(mem: seq<Byte>, w: nat, r: nat, i: nat)
    requires w < |mem| && r < |mem| && i < FullFrom(|mem|, w, r)
    ensures Held(mem, w, r)[i] == mem[RingAt(|mem|, r, i)]
  {
  }

  /** Cells that take `d` while the held cells stay put append `d`. */
  lemma Appends(mem: seq<Byte>, mem': seq<Byte>, w: nat, r: nat, d: seq<Byte>)
    requires w < |mem| == |mem'| && r < |mem| && |d| <= FreeFrom(|mem|, w, r)
    requires forall i :: 0 <= i < |d| ==> mem'[CellOf(|mem|, w, |d|, i)] == d[i]
    requires forall i :: 0 <= i < FullFrom(|mem|, w, r) ==> mem'[RingAt(|mem|, r, i)] == mem[RingAt(|mem|, r, i)]
    ensures Held(mem', IndexAfter(|mem|, w, |d|), r) == Held(mem, w, r) + d
  {
    var w', full := IndexAfter(|mem|, w, |d|), FullFrom(|mem|, w, r);
    forall i | 0 <= i < full + |d| ensures Held(mem', w', r)[i] == (Held(mem, w, r) + d)[i] {
      HeldAt(mem', w', r, i);
      if i < full {
        HeldAt(mem, w, r, i);
      } else {
        assert RingAt(|mem|, r, i) == CellOf(|mem|, w, |d|, i - full);
      }
    }
  }

  /** The needle equals the cells from the `at`-th held one on. */
  ghost predicate CellsMatch(mem: seq<Byte>, r: nat, needle: seq<Byte>, at: nat)
    requires r < |mem| && at + |needle| <= |mem|
  {
    forall k :: 0 <= k < |needle| ==> mem[RingAt(|mem|, r, at + k)] == needle[k]
  }

  lemma MatchIsOccurrence(mem: seq<Byte>, w: nat, r: nat, needle: seq<Byte>, at: nat)
    requires w < |mem| && r < |mem| && at + |needle| <= FullFrom(|mem|, w, r)
    ensures CellsMatch(mem, r, needle, at) <==> OccursAt(Held(mem, w, r), needle, at)
  {
    var there := Held(mem, w, r)[at..at + |needle|];
    forall k | 0 <= k < |needle| ensures there[k] == mem[RingAt(|mem|, r, at + k)] {
      HeldAt(mem, w, r, at + k);
    }
    if CellsMatch(mem, r, needle, at) {
      assert there == needle;
    }
  }

  lemma DropHeld(mem: seq<Byte>, w: nat, r: nat, n: nat)
    requires w < |mem| && r < |mem| && n <= FullFrom(|mem|, w, r)
    ensures Held(mem, w, IndexAfter(|mem|, r, n)) == Held(mem, w, r)[n..]
    ensures Held(mem, w, RingAt(|mem|, r, n)) == Held(mem, w, r)[n..]
  {
    DropAt(mem, w, r, n);
    assert IndexAfter(|mem|, r, n) == RingAt(|mem|, r, n);
  }

  lemma DropAt(mem: seq<Byte>, w: nat, r: nat, n: nat)
    requires w < |mem| && r < |mem| && n <= FullFrom(|mem|, w, r)
    ensures Held(mem, w, RingAt(|mem|, r, n)) == Held(mem, w, r)[n..]
  {
  }

  lemma Stitched(now: seq<Byte>, was: seq<Byte>, held: seq<Byte>, at: nat, n: nat)
    requires |now| == |was| && n <= |was| && at + n <= |held|
    requires (forall i :: 0 <= i < n ==> now[i] == held[at + i]) && forall i :: n <= i < |now| ==> now[i] == was[i]
    ensures now == held[at..at + n] + was[n..]
  {
  }

  class Ring {
    var buff: array?<Byte>
    var size: nat
    var w: nat
    var r: nat

    predicate Ready()
      reads this
    {
      buff != null && size > 0
    }

    ghost predicate Valid()
      reads this
    {
      Ready() ==> buff.Length == size && w < size && r < size
    }

    /** The bytes held, oldest first; a handle whose memory was taken away holds none. */
    ghost function Contents(): (s: seq<Byte>)
      requires Valid()
      reads this, buff
    {
      if !Ready() then [] else Held(buff[..], w, r)
    }

    constructor (memory: array<Byte>)
      requires memory.Length > 0
      ensures Valid() && Ready() && buff == memory && size == memory.Length
      ensures Contents() == []
    {
      buff, size, w, r := memory, memory.Length, 0, 0;
    }

    function GetFree(): (free: nat)
      requires Valid()
      reads this, buff
      ensures free == if Ready() then size - 1 - |Contents()| else 0
    {
      if !Ready() then 0 else FreeFrom(size, w, r)
    }

    function GetFull(): (full: nat)
      requires Valid()
      reads this, buff
      ensures full == |Contents()|
    {
      if !Ready() then 0 else FullFrom(size, w, r)
    }

    method Reset()
      requires Valid()
      modifies this`w, this`r
      ensures Valid() && Contents() == []
    {
      if Ready() {
        w := 0;
        r := 0;
      }
    }

    /** Copies `n` bytes of `data` to the cells from `w` on: linear part, then overflow part. */
    method CopyIn(data: array<Byte>, n: nat)
      requires Valid() && Ready()
      requires n <= FreeFrom(size, w, r) && n <= data.Length && data != buff
      modifies buff
      ensures forall i :: 0 <= i < n ==> buff[CellOf(size, w, n, i)] == data[i]
      ensures forall i :: 0 <= i < FullFrom(size, w, r) ==> buff[RingAt(size, r, i)] == old(buff[RingAt(size, r, i)])
    {
      for k := 0 to n
        invariant forall i :: 0 <= i < k ==> buff[CellOf(size, w, n, i)] == data[i]
        invariant forall i :: 0 <= i < FullFrom(size, w, r) ==> buff[RingAt(size, r, i)] == old(buff[RingAt(size, r, i)])
      {
        buff[CellOf(size, w, n, k)] := data[k];
      }
    }

    method WriteEx(data: array?<Byte>, btw: nat, all: bool) returns (ok: bool, bw: nat)
      requires Valid()
      requires data != null ==> btw <= data.Length && data != buff
      modifies this`w, buff
      ensures Valid()
      ensures ok <==> Ready() && data != null && btw > 0 && old(GetFree()) > 0 && (all ==> btw <= old(GetFree()))
      ensures ok ==> bw == Min(old(GetFree()), btw) && Contents() == old(Contents()) + data[..bw]
      ensures !ok ==> bw == 0 && Contents() == old(Contents())
    {
      if !Ready() || data == null || btw == 0 {
        return false, 0;
      }
      var free := GetFree();
      if free == 0 || (free < btw && all) {
        return false, 0;
      }
      bw := Min(free, btw);
      CopyIn(data, bw);
      Appends(old(buff[..]), buff[..], w, r, data[..bw]);
      w := IndexAfter(size, w, bw);
      ok := true;
    }

    /** Copies the `n` bytes that start `at` bytes into the ring to the front of `data`. */
    method CopyOut(at: nat, n: nat, data: array<Byte>)
      requires Valid() && Ready()
      requires 0 < n && at + n <= |Contents()| && n <= data.Length && data != buff
      modifies data
      ensures data[..] == Contents()[at..at + n] + old(data[..])[n..]
    {
      var ptr := RingAt(size, r, at);
      for k := 0 to n
        invariant forall i :: 0 <= i < k ==> data[i] == buff[CellOf(size, ptr, n, i)]
        invariant forall i :: k <= i < data.Length ==> data[i] == old(data[i])
      {
        data[k] := buff[CellOf(size, ptr, n, k)];
      }
      forall i | 0 <= i < n ensures data[i] == Contents()[at + i] {
        HeldAt(buff[..], w, r, at + i);
      }
      Stitched(data[..], old(data[..]), Contents(), at, n);
    }

    method ReadEx(data: array?<Byte>, btr: nat, all: bool) returns (ok: bool, br: nat)
      requires Valid()
      requires data != null ==> btr <= data.Length && data != buff
      modifies this`r, data
      ensures Valid()
      ensures ok <==> Ready() && data != null && btr > 0 && old(GetFull()) > 0 && (all ==> btr <= old(GetFull()))
      ensures ok ==> br == Min(old(GetFull()), btr) && Contents() == old(Contents())[br..]
                     && data[..] == old(Contents())[..br] + old(data[..])[br..]
      ensures !ok ==> br == 0 && Contents() == old(Contents()) && (data != null ==> data[..] == old(data[..]))
    {
      if !Ready() || data == null || btr == 0 {
        return false, 0;
      }
      var full := GetFull();
      if full == 0 || (full < btr && all) {
        return false, 0;
      }
      var n := Min(full, btr);
      CopyOut(0, n, data);
      DropHeld(buff[..], w, r, n);
      r := IndexAfter(size, r, n);
      ok, br := true, n;
    }

    method Peek(skipCount: nat, data: array?<Byte>, btp: nat) returns (n: nat)
      requires Valid()
      requires data != null ==> btp <= data.Length && data != buff
      modifies data
      ensures Contents() == old(Contents())
      ensures n == if !Ready() || data == null || skipCount >= |Contents()| then 0 else Min(|Contents()| - skipCount, btp)
      ensures data != null && n > 0 ==> data[..] == old(Contents()[skipCount..skipCount + n] + data[n..])
      ensures data != null && n == 0 ==> data[..] == old(data[..])
    {
      if !Ready() || data == null || btp == 0 {
        return 0;
      }
      var full := GetFull();
      if skipCount >= full {
        return 0;
      }
      n := Min(full - skipCount, btp);
      CopyOut(skipCount, n, data);
    }

    method Skip(len: nat) returns (n: nat)
      requires Valid()
      modifies this`r
      ensures Valid()
      ensures n == Min(len, |old(Contents())|)
      ensures Contents() == old(Contents())[n..]
    {
      if !Ready() || len == 0 {
        return 0;
      }
      n := Min(len, GetFull());
      DropHeld(buff[..], w, r, n);
      r := RingAt(size, r, n);
    }

    method Advance(len: nat) returns (n: nat)
      requires Valid()
      modifies this`w
      ensures Valid()
      ensures n == Min(len, old(GetFree()))
      ensures |Contents()| == |old(Contents())| + n && old(Contents()) <= Contents()
    {
      if !Ready() || len == 0 {
        return 0;
      }
      n := Min(len, GetFree());
      w := RingAt(size, w, n);
    }

    /** A read is a peek at the front followed by a skip of what was peeked. */
    method ReadByPeekAndSkip(data: array<Byte>, btr: nat) returns (br: nat)
      requires Valid() && btr <= data.Length && data != buff
      modifies this`r, data
      ensures Valid()
      ensures br == Min(old(GetFull()), btr) && Contents() == old(Contents())[br..]
      ensures data[..] == old(Contents())[..br] + old(data[..])[br..]
    {
      br := Peek(0, data, btr);
      var skipped := Skip(br);
    }

    method CellsEqual(bts: array<Byte>, len: nat, at: nat) returns (found: bool)
      requires Valid() && Ready()
      requires 0 < len <= bts.Length && at + len <= FullFrom(size, w, r)
      ensures found <==> CellsMatch(buff[..], r, bts[..len], at)
    {
      var x := RingAt(size, r, at);
      for i := 0 to len
        invariant x == RingAt(size, r, at + i)
        invariant forall k :: 0 <= k < i ==> buff[RingAt(size, r, at + k)] == bts[k]
      {
        if buff[x] != bts[i] {
          return false;
        }
        x := if x + 1 >= size then 0 else x + 1;
      }
      found := true;
    }

    method MatchesAt(bts: array<Byte>, len: nat, at: nat) returns (found: bool)
      requires Valid() && Ready()
      requires 0 < len <= bts.Length && at + len <= FullFrom(size, w, r)
      ensures found <==> OccursAt(Contents(), bts[..len], at)
    {
      found := CellsEqual(bts, len, at);
      MatchIsOccurrence(buff[..], w, r, bts[..len], at);
    }

    /** The least offset at or after `startOffset` where the needle occurs, if there is one. */
    method Find(bts: array?<Byte>, len: nat, startOffset: nat) returns (found: bool, foundIdx: nat)
      requires Valid()
      requires bts != null ==> len <= bts.Length
      ensures !Ready() || bts == null || len == 0 ==> !found
      ensures found ==> bts != null && startOffset <= foundIdx && OccursAt(Contents(), bts[..len], foundIdx)
                        && AbsentIn(Contents(), bts[..len], startOffset, foundIdx)
      ensures Ready() && bts != null && len > 0 && !found ==>
                AbsentIn(Contents(), bts[..len], startOffset, |Contents()| + 1)
    {
      found, foundIdx := false, 0;
      if !Ready() || bts == null || len == 0 {
        return;
      }
      var full := GetFull();
      if full < len + startOffset {
        return;
      }
      found, foundIdx := Scan(bts, len, startOffset, full - len);
    }

    /** The search loop of `lwrb_find`. */
    method Scan(bts: array<Byte>, len: nat, startOffset: nat, maxX: nat) returns (found: bool, foundIdx: nat)
      requires Valid() && Ready()
      requires 0 < len <= bts.Length && startOffset <= maxX && maxX + len == FullFrom(size, w, r)
      ensures found ==> startOffset <= foundIdx && OccursAt(Contents(), bts[..len], foundIdx)
                        && AbsentIn(Contents(), bts[..len], startOffset, foundIdx)
      ensures !found ==> AbsentIn(Contents(), bts[..len], startOffset, |Contents()| + 1)
    {
      ghost var c, needle := Contents(), bts[..len];
      found, foundIdx := false, 0;
      var skipX := startOffset;
      while !found && skipX <= maxX
        invariant startOffset <= skipX
        invariant !found ==> skipX <= maxX + 1 && AbsentIn(c, needle, startOffset, skipX)
        invariant found ==> startOffset <= foundIdx && OccursAt(c, needle, foundIdx) && AbsentIn(c, needle, startOffset, foundIdx)
        decreases !found, maxX + 1 - skipX
      {
        found := MatchesAt(bts, len, skipX);
        if found {
          foundIdx := skipX;
        }
        skipX := skipX + 1;
      }
    }
  }
}
