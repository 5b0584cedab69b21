/**
 The bounded formatter as the kernel performs it: every character is offered to the
 buffer, stored when it is in range, and counted either way.
 */
module Printf {
  import opened PrintfSpec
  import opened PrintfFormat

  /** The buffer with the two pointers of rt_vsnprintf: `str` is the next place, `size` the end. */
  class Sink {
    const buf: array<char>
    const size: nat
    var str: nat
    ghost var out: string        // all characters so far, stored or not
    ghost const was: string      // what the buffer held at first

    ghost predicate Valid()
      reads this, buf
    {
      && size <= buf.Length == |was| && str == |out|
      && (forall k :: 0 <= k < size && k < str ==> buf[k] == out[k])
      && forall k :: 0 <= k < buf.Length && (k >= size || k >= str) ==> buf[k] == was[k]
    }

    constructor (buf: array<char>, size: nat)
      requires size <= buf.Length
      ensures Valid() && out == "" && was == buf[..] && this.buf == buf && this.size == size
    {
      this.buf, this.size, str, out, was := buf, size, 0, "", buf[..];
    }

    /** The test before every store. */
    method Put(c: char)
      requires Valid()
      modifies this, buf
      ensures Valid() && out == old(out) + [c]
    {
      if str < size {
        buf[str] := c;
      }
      str := str + 1;
      out := out + [c];
    }

    /** `while (n-- > 0)` with one character; the counter is left below zero. */
    method Fill(c: char, n: int) returns (left: int)
      requires Valid()
      modifies this, buf
      ensures Valid() && out == old(out) + Rep(c, n)
      ensures left == if n > 0 then -1 else n - 1
    {
      left := n;
      ghost var done := 0;
      while left > 0
        invariant Valid() && out == old(out) + Rep(c, done)
        invariant left + done == n && (n <= 0 ==> done == 0) && (n > 0 ==> left >= 0)
        decreases left
      {
        Put(c);
        left := left - 1;
        done := done + 1;
      }
      left := left - 1;
    }

    /** Characters of a string, in order. */
    method PutAll(s: string)
      requires Valid()
      modifies this, buf
      ensures Valid() && out == old(out) + s
    {
      var i := 0;
      while i < |s|
        invariant 0 <= i <= |s| && Valid() && out == old(out) + s[..i]
      {
        Put(s[i]);
        assert s[..i + 1] == s[..i] + [s[i]];
        i := i + 1;
      }
      assert s[..i] == s;
    }

    /** The digits of `tmp`, the last one first, unless the precision was zero. */
    method PutDigits(tmp: array<char>, count: nat, ghost digits: string, shown: bool)
      requires Valid() && tmp != buf && count == |digits| <= tmp.Length
      requires forall k :: 0 <= k < count ==> tmp[k] == digits[count - 1 - k]
      modifies this, buf
      ensures Valid() && out == old(out) + (if shown then digits else "")
    {
      var i: int := count;
      while i > 0 && shown
        invariant 0 <= i <= count && Valid()
        invariant shown ==> out == old(out) + digits[..count - i]
        invariant !shown ==> out == old(out)
        invariant forall k :: 0 <= k < count ==> tmp[k] == digits[count - 1 - k]
      {
        i := i - 1;
        Put(tmp[i]);
        assert digits[..count - i] == digits[..count - i - 1] + [digits[count - i - 1]];
      }
      assert shown ==> digits[..count] == digits;
    }

    /** The padding in front, the sign and the zeros of print_number, for `size` places left over by
        the digits; what remains of it is for padding behind. */
    method PutFront(size0: int, sign: string, zero: bool, left: bool) returns (size: int)
      requires Valid() && |sign| <= 1 && !(zero && left)
      modifies this, buf
      ensures Valid()
      ensures out == old(out) + Front(sign, size0 - |sign|, zero, left)
      ensures if left then size == size0 - |sign| else size < 0
    {
      size := size0;
      if !zero && !left {
        if sign != "" && size > 0 {
          size := size - 1;
        }
        size := Fill(' ', size);
      }
      if sign != "" {
        Put(sign[0]);
        size := size - 1;
      }
      if !left {
        size := Fill(if zero then '0' else ' ', size);
      }
    }

    method PutBack(zeros: int, tmp: array<char>, count: nat, ghost digits: string, shown: bool, size: int)
      requires Valid() && tmp != buf && count == |digits| <= tmp.Length
      requires forall k :: 0 <= k < count ==> tmp[k] == digits[count - 1 - k]
      modifies this, buf
      ensures Valid() && out == old(out) + Back(zeros, if shown then digits else "", size)
    {
      var _ := Fill('0', zeros);
      PutDigits(tmp, count, digits, shown);
      var _ := Fill(' ', size);
    }

    /** print_number. */
    method PrintNumber(num: int, base: nat, width: int, precision: int, f: Flags)
      requires Valid() && -(WORD / 2) <= num < WORD / 2
      modifies this, buf
      ensures Valid() && out == old(out) + Number(num, base, width, precision, f)
    {
      var tmp := new char[16];
      var i := MakeDigits(tmp, Magnitude(num, f), Radix(base), f.large);
      ghost var digits := Digits(Magnitude(num, f), Radix(base), f.large);
      LayOut(tmp, i, digits, SignOf(num, f), width, precision, f.zero && !f.left, f.left);
    }

    /** print_number from the padding on. */
    method LayOut(tmp: array<char>, count: nat, ghost digits: string, sign: string, width: int, precision: int, zero: bool, left: bool)
      requires Valid() && tmp != buf && count == |digits| <= tmp.Length && |sign| <= 1 && !(zero && left)
      requires forall k :: 0 <= k < count ==> tmp[k] == digits[count - 1 - k]
      modifies this, buf
      ensures Valid() && out == old(out) + Laid(sign, digits, width, precision, zero, left)
    {
      var least := if count > precision then count else precision;
      var size := PutFront(width - least, sign, zero, left);
      PutBack(least - count, tmp, count, digits, precision != 0, size);
      LaidIs(old(out), out, sign, digits, width, precision, zero, left, size);
    }

    /** The end of rt_vsnprintf: the NUL goes behind the output or on the last place. */
    method Terminate()
      requires Valid()
      modifies buf
      ensures size > 0 ==>
                var kept := if str < size then str else size - 1;
                buf[..kept] == out[..kept] && buf[kept] == '\0' && buf[kept + 1..] == was[kept + 1..]
      ensures size == 0 ==> buf[..] == was
    {
      if size > 0 {
        if str < size {
          buf[str] := '\0';
        } else {
          buf[size - 1] := '\0';
        }
      }
    }

    /** Text with blanks on one side. */
    method PutJustified(text: string, pad: int, left: bool)
      requires Valid()
      modifies this, buf
      ensures Valid() && out == old(out) + Justified(text, pad, left)
    {
      ghost var before := out;
      if left {
        PutAll(text);
        var _ := Fill(' ', pad);
        assert before + text + Rep(' ', pad) == before + (text + Rep(' ', pad));
      } else {
        var _ := Fill(' ', pad);
        PutAll(text);
        assert before + Rep(' ', pad) + text == before + (Rep(' ', pad) + text);
      }
    }

    method PutInt(c: Conversion, base: nat, f: Flags) returns (next: nat, args: seq<Arg>)
      requires Valid()
      modifies this, buf
      ensures Valid()
      ensures var t := IntConversion(c, base, f); out == old(out) + t.text && next == t.next && args == t.args
    {
      var raw, rest := TakeInt(c.args).0, TakeInt(c.args).1;
      PrintNumber(Fetched(raw, c.qualifier, f.sign), base, c.width, c.precision, f);
      next, args := c.at + 1, rest;
    }

    /** The switch over the conversion letter. */
    method Convert(fmt: string, c: Conversion) returns (next: nat, args: seq<Arg>)
      requires Valid() && c.at <= |fmt|
      modifies this, buf
      ensures Valid()
      ensures var t := Converted(fmt, c); out == old(out) + t.text && next == t.next && args == t.args
    {
      next, args := c.at + 1, c.args;
      var letter := At(fmt, c.at);
      if c.at == |fmt| {
        Put('%');
        next := c.at;
      } else if letter == 'c' {
        PutJustified([(TakeInt(c.args).0 % 256) as char], c.width - 1, c.flags.left);
        args := TakeInt(c.args).1;
      } else if letter == 's' {
        var text := TakeStr(c.args).0;
        var len := CutLength(text, c.width, c.precision);
        PutJustified(text[..len], c.width - len, c.flags.left);
        args := TakeStr(c.args).1;
      } else if letter == 'p' {
        var width, f := c.width, c.flags;
        if width == -1 {
          width, f := 8, f.(zero := true);
        }
        PrintNumber(Signed(TakeInt(c.args).0), 16, width, c.precision, f);
        args := TakeInt(c.args).1;
      } else if letter == '%' {
        Put('%');
      } else if letter == 'o' {
        next, args := PutInt(c, 8, c.flags);
      } else if letter == 'X' {
        next, args := PutInt(c, 16, c.flags.(large := true));
      } else if letter == 'x' {
        next, args := PutInt(c, 16, c.flags);
      } else if letter == 'd' || letter == 'i' {
        next, args := PutInt(c, 10, c.flags.(sign := true));
      } else if letter == 'u' {
        next, args := PutInt(c, 10, c.flags);
      } else {
        Put('%');
        Put(letter);
      }
    }
  }

  /** Front and back make up the whole; spaces left over below zero are none. */
  lemma LaidIs(before: string, after: string, sign: string, digits: string, width: int, precision: int, zero: bool, left: bool,
               size: int)
    requires var least := Most(precision, |digits|);
             && (if left then size == width - least - |sign| else size < 0)
             && after == before + Front(sign, width - least - |sign|, zero, left)
                         + Back(least - |digits|, if precision != 0 then digits else "", size)
    ensures after == before + Laid(sign, digits, width, precision, zero, left)
  {
    var least := Most(precision, |digits|);
    var front := Front(sign, width - least - |sign|, zero, left);
    var back := Back(least - |digits|, if precision != 0 then digits else "", size);
    if !left {
      assert back == Back(least - |digits|, if precision != 0 then digits else "", 0);
    }
    assert before + front + back == before + (front + back);
  }

  /** The digits of a number, the low one first. */
  method MakeDigits(tmp: array<char>, num: nat, radix: nat, large: bool) returns (i: nat)
    requires tmp.Length == 16 && num < WORD && (radix == 10 || radix == 16)
    modifies tmp
    ensures i == |Digits(num, radix, large)| <= 10
    ensures forall k :: 0 <= k < i ==> tmp[k] == Digits(num, radix, large)[i - 1 - k]
  {
    ghost var all := Digits(num, radix, large);
    DigitsFit(num, radix, large);
    if num == 0 {
      tmp[0] := '0';
      return 1;
    }
    var n: nat := num;
    i := 0;
    while n != 0
      invariant i <= |all| && (n > 0 ==> i < |all| && Digits(n, radix, large) == all[..|all| - i]) && (n == 0 ==> i == |all|)
      invariant forall k :: 0 <= k < i ==> tmp[k] == all[|all| - 1 - k]
      decreases n
    {
      LastDigit(n, radix, large, all, |all| - i);
      tmp[i] := DigitChar(n % radix, large);
      n := n / radix;
      i := i + 1;
    }
  }

  /** Dividing takes the last digit off. */
  lemma LastDigit(n: nat, radix: nat, large: bool, all: string, k: nat)
    requires (radix == 10 || radix == 16) && n > 0 && 0 < k <= |all| && Digits(n, radix, large) == all[..k]
    ensures 0 <= n / radix < n && all[k - 1] == DigitChar(n % radix, large)
    ensures if n / radix == 0 then k == 1 else k > 1 && Digits(n / radix, radix, large) == all[..k - 1]
  {
    assert n / radix == 0 <==> n < radix;
    assert all[..k][k - 1] == all[k - 1];
    if n < radix {
      assert n % radix == n;
    } else {
      assert all[..k][..k - 1] == all[..k - 1];
    }
  }

  /** The length loop of the string conversion and the cut by the precision. */
  method CutLength(text: string, width: int, precision: int) returns (len: nat)
    ensures len <= |text| && text[..len] == Cut(text, width, precision)
  {
    len := 0;
    while len != width && len < |text|
      invariant len <= |text| && (width >= 0 ==> len <= width)
      decreases |text| - len
    {
      len := len + 1;
    }
    if precision > 0 && len > precision {
      len := precision;
    }
  }

  /** skip_atoi. */
  method SkipAtoi(fmt: string, i: nat) returns (value: nat, next: nat)
    requires i <= |fmt|
    ensures (value, next) == Atoi(fmt, i, 0)
  {
    value, next := 0, i;
    while IsDigit(At(fmt, next))
      invariant i <= next <= |fmt| && Atoi(fmt, next, value) == Atoi(fmt, i, 0)
      decreases |fmt| - next
    {
      value := value * 10 + (fmt[next] as int - '0' as int);
      next := next + 1;
    }
  }

  method ParseFlags(fmt: string, i: nat) returns (f: Flags, next: nat)
    requires i <= |fmt|
    ensures (f, next) == FlagsFrom(fmt, i, NO_FLAGS)
  {
    f, next := NO_FLAGS, i;
    while IsFlag(At(fmt, next))
      invariant i <= next <= |fmt|
      invariant FlagsFrom(fmt, next, f) == FlagsFrom(fmt, i, NO_FLAGS)
      decreases |fmt| - next
    {
      f := WithFlag(f, fmt[next]);
      next := next + 1;
    }
  }

  method ParseField(fmt: string, i: nat, args: seq<Arg>, none: int) returns (value: int, next: nat, rest: seq<Arg>)
    requires i <= |fmt|
    ensures (value, next, rest) == Field(fmt, i, args, none)
  {
    value, next, rest := none, i, args;
    if IsDigit(At(fmt, i)) {
      value, next := SkipAtoi(fmt, i);
    } else if At(fmt, i) == '*' {
      value, next, rest := Signed(TakeInt(args).0), i + 1, TakeInt(args).1;
    }
  }

  /** Flags, width, precision and qualifier. */
  method Parse(fmt: string, i: nat, args: seq<Arg>) returns (c: Conversion)
    requires i <= |fmt|
    ensures c == Parsed(fmt, i, args) && Reads(fmt, i, args, AsRead(c, c.precision >= 0))
  {
    ghost var _ := ParserReads(fmt, i, args);
    c := Scan(fmt, i, args);
  }

  method Scan(fmt: string, i: nat, args: seq<Arg>) returns (c: Conversion)
    requires i <= |fmt|
    ensures c == Parsed(fmt, i, args)
  {
    var f, next := ParseFlags(fmt, i);
    var star := At(fmt, next) == '*';
    var width, rest;
    width, next, rest := ParseField(fmt, next, args, -1);
    if star && width < 0 {
      width, f := -width, f.(left := true);
    }
    var precision := -1;
    var asked := -1;  // history: the code keeps the precision only
    if At(fmt, next) == '.' {
      precision, next, rest := ParseField(fmt, next + 1, rest, 0);
      asked := precision;
      if precision < 0 {
        precision := 0;
      }
    }
    var q := At(fmt, next);
    if q == 'h' || q == 'l' {
      c := Conversion(f, width, precision, asked, q, next + 1, rest);
    } else {
      c := Conversion(f, width, precision, asked, '\0', next, rest);
    }
  }

  /** The main loop of rt_vsnprintf. */
  method PutFormat(sink: Sink, fmt: string, args: seq<Arg>)
    requires sink.Valid()
    modifies sink, sink.buf
    ensures sink.Valid() && sink.out == old(sink.out) + Output(fmt, 0, args)
  {
    var i: nat, rest := 0, args;
    while i < |fmt|
      invariant i <= |fmt| && sink.Valid()
      invariant sink.out + Output(fmt, i, rest) == old(sink.out) + Output(fmt, 0, args)
      decreases |fmt| - i
    {
      OneTurn(sink.out, fmt, i, rest);
      i, rest := PutTurn(sink, fmt, i, rest);
    }
    assert Output(fmt, i, rest) == "";
  }

  lemma OneTurn(before: string, fmt: string, i: nat, args: seq<Arg>)
    requires i < |fmt|
    ensures var t := TurnAt(fmt, i, args);
            before + Output(fmt, i, args) == before + t.text + Output(fmt, t.next, t.args)
  {
    var t := TurnAt(fmt, i, args);
    assert before + t.text + Output(fmt, t.next, t.args) == before + (t.text + Output(fmt, t.next, t.args));
  }

  method PutTurn(sink: Sink, fmt: string, i: nat, args: seq<Arg>) returns (next: nat, rest: seq<Arg>)
    requires sink.Valid() && i < |fmt|
    modifies sink, sink.buf
    ensures sink.Valid()
    ensures var t := TurnAt(fmt, i, args); sink.out == old(sink.out) + t.text && next == t.next && rest == t.args
  {
    if fmt[i] != '%' {
      sink.Put(fmt[i]);
      next, rest := i + 1, args;
    } else {
      var c := Parse(fmt, i + 1, args);
      next, rest := sink.Convert(fmt, c);
    }
  }

  /** The output and its end, for a text known by its name only. */
  method PutAllOf(buf: array<char>, size: nat, fmt: string, args: seq<Arg>) returns (n: nat, ghost all: string)
    requires size <= buf.Length
    modifies buf
    ensures all == Output(fmt, 0, args) && n == |all|
    ensures size > 0 ==>
              var kept := if n < size then n else size - 1;
              buf[..kept] == all[..kept] && buf[kept] == '\0' && buf[kept + 1..] == old(buf[..])[kept + 1..]
    ensures size == 0 ==> buf[..] == old(buf[..])
  {
    var sink := new Sink(buf, size);
    PutFormat(sink, fmt, args);
    all, n := sink.out, sink.str;
    sink.Terminate();
  }

  /** rt_vsnprintf, for a buffer of which `size` characters may be used: the result is the length of
      the untruncated output, of which as much as fits is in the buffer, ended by a NUL; nothing else
      is touched. This is the rule of section 7.21.6.12 of ISO/IEC 9899:2011. */
  method Vsnprintf(buf: array<char>, size: nat, fmt: string, args: seq<Arg>) returns (n: nat)
    requires size <= buf.Length
    modifies buf
    ensures n == |Output(fmt, 0, args)|
    ensures size > 0 ==>
              var kept := if n < size then n else size - 1;
              && buf[..kept] == Output(fmt, 0, args)[..kept] && buf[kept] == '\0'
              && buf[kept + 1..] == old(buf[..])[kept + 1..]
    ensures size == 0 ==> buf[..] == old(buf[..])
  {
    ghost var all;
    n, all := PutAllOf(buf, size, fmt, args);
  }
}
