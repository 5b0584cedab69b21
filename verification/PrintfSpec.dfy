/**
 What rt_vsnprintf puts out for a format and its arguments when nothing is truncated.
 Strings hold no NUL; reading past the end of the format yields one. Where C leaves a
 missing or mismatched argument undefined, the model reads zero or the empty string.
 The build has RT_PRINTF_PRECISION, and neither long long nor the "0x" prefix.
 */
module PrintfSpec {

  const WORD: nat := 0x1_0000_0000

  datatype Arg = Int(value: nat) | Str(text: string) | NullStr

  /** `alt` is the flag '#', which this build reads and does not use. */
  datatype Flags = Flags(zero: bool, sign: bool, plus: bool, space: bool, left: bool, large: bool, alt: bool)

  const NO_FLAGS := Flags(false, false, false, false, false, false, false)

  /** A parsed conversion: `at` is the place of its letter. `precision` is below 0 if there is none, and
      `asked` is what the format or the argument said, before a negative number became 0. */
  datatype Conversion = Conversion(flags: Flags, width: int, precision: int, asked: int, qualifier: char, at: nat, args: seq<Arg>)

  /** The characters of one turn of the main loop, and where it leaves the format and the arguments. */
  datatype Turn = Turn(text: string, next: nat, args: seq<Arg>)

  function At(fmt: string, i: nat): char {
    if i < |fmt| then fmt[i] else '\0'
  }

  function Rep(c: char, n: int): (s: string)
    ensures |s| == if n > 0 then n else 0
    ensures forall k :: 0 <= k < |s| ==> s[k] == c
    decreases n
  {
    if n <= 0 then "" else Rep(c, n - 1) + [c]
  }

  function Most(a: int, b: int): int {
    if a < b then b else a
  }

  // ----- arguments -----

  function TakeInt(args: seq<Arg>): (nat, seq<Arg>) {
    if args == [] then (0, []) else (if args[0].Int? then args[0].value % WORD else 0, args[1..])
  }

  function TakeStr(args: seq<Arg>): (string, seq<Arg>) {
    if args == [] then ("", [])
    else (match args[0] case Int(_) => "" case Str(text) => text case NullStr => "(NULL)", args[1..])
  }

  /** A 32-bit word as a signed number. */
  function Signed(num: nat): int {
    if num >= WORD / 2 then num - WORD else num
  }

  // ----- numbers -----

  predicate IsDigit(c: char) {
    '0' <= c <= '9'
  }

  function DigitChar(d: nat, large: bool): char
    requires d < 16
  {
    if d < 10 then '0' + d as char else if large then 'A' + (d - 10) as char else 'a' + (d - 10) as char
  }

  /** The digits of a number, the high one first; zero has one. */
  function Digits(n: nat, radix: nat, large: bool): (s: string)
    requires radix == 10 || radix == 16
    ensures s != []
  {
    if n < radix then [DigitChar(n, large)] else Digits(n / radix, radix, large) + [DigitChar(n % radix, large)]
  }

  function SignOf(num: int, f: Flags): string {
    if !f.sign then "" else if num < 0 then "-" else if f.plus then "+" else if f.space then " " else ""
  }

  /** The magnitude that is put in digits: an unsigned word, or the absolute value of a signed one. */
  function Magnitude(num: int, f: Flags): (m: nat)
    requires -(WORD / 2) <= num < WORD / 2
    ensures m < WORD
  {
    if num >= 0 then num else if f.sign then -num else num + WORD
  }

  /** `divide` knows the bases 10 and 16 only. */
  function Radix(base: nat): (r: nat)
    ensures r == 10 || r == 16
  {
    if base == 10 then 10 else 16
  }

  /** print_number: padding of one of three kinds, the sign, the zeros of the precision and the digits,
      which an explicit precision of zero suppresses. */
  function Number(num: int, base: nat, width: int, precision: int, f: Flags): string
    requires -(WORD / 2) <= num < WORD / 2
  {
    Laid(SignOf(num, f), Digits(Magnitude(num, f), Radix(base), f.large), width, precision, f.zero && !f.left, f.left)
  }

  function Laid(sign: string, digits: string, width: int, precision: int, zero: bool, left: bool): string {
    var least := Most(precision, |digits|);
    var pad := width - least - |sign|;
    Front(sign, pad, zero, left)
    + Back(least - |digits|, if precision == 0 then "" else digits, if left then pad else 0)
  }

  function Back(zeros: int, digits: string, pad: int): string {
    Rep('0', zeros) + digits + Rep(' ', pad)
  }

  /** Blanks go before the sign, zeros behind it; on the left there are none. */
  function Front(sign: string, pad: int, zero: bool, left: bool): string {
    Rep(' ', if left || zero then 0 else pad) + sign + Rep('0', if left || !zero then 0 else pad)
  }

  // ----- the parts of a conversion -----

  function WithFlag(f: Flags, c: char): Flags {
    if c == '-' then f.(left := true)
    else if c == '+' then f.(plus := true)
    else if c == ' ' then f.(space := true)
    else if c == '0' then f.(zero := true)
    else if c == '#' then f.(alt := true)
    else f
  }

  predicate IsFlag(c: char) {
    c == '-' || c == '+' || c == ' ' || c == '#' || c == '0'
  }

  function FlagsFrom(fmt: string, i: nat, f: Flags): (r: (Flags, nat))
    requires i <= |fmt|
    ensures i <= r.1 <= |fmt|
    decreases |fmt| - i
  {
    if IsFlag(At(fmt, i)) then FlagsFrom(fmt, i + 1, WithFlag(f, fmt[i])) else (f, i)
  }

  /** skip_atoi. */
  function Atoi(fmt: string, i: nat, acc: nat): (r: (nat, nat))
    requires i <= |fmt|
    ensures i <= r.1 <= |fmt|
    decreases |fmt| - i
  {
    if IsDigit(At(fmt, i)) then Atoi(fmt, i + 1, acc * 10 + (fmt[i] as int - '0' as int)) else (acc, i)
  }

  /** A number in the format, or an asterisk for the next argument, or nothing. */
  function Field(fmt: string, i: nat, args: seq<Arg>, none: int): (r: (int, nat, seq<Arg>))
    requires i <= |fmt|
    ensures i <= r.1 <= |fmt|
  {
    if IsDigit(At(fmt, i)) then (Atoi(fmt, i, 0).0, Atoi(fmt, i, 0).1, args)
    else if At(fmt, i) == '*' then (Signed(TakeInt(args).0), i + 1, TakeInt(args).1)
    else (none, i, args)
  }

  function WidthAt(fmt: string, i: nat, f: Flags, args: seq<Arg>): (r: (int, Flags, nat, seq<Arg>))
    requires i <= |fmt|
    ensures i <= r.2 <= |fmt|
  {
    var w := Field(fmt, i, args, -1);
    if At(fmt, i) == '*' && w.0 < 0 then (-w.0, f.(left := true), w.1, w.2) else (w.0, f, w.1, w.2)
  }

  /** The precision as asked for, -1 if there is none. */
  function PrecisionAt(fmt: string, i: nat, args: seq<Arg>): (r: (int, nat, seq<Arg>))
    requires i <= |fmt|
    ensures i <= r.1 <= |fmt|
  {
    if At(fmt, i) == '.' then
      Field(fmt, i + 1, args, 0)
    else (-1, i, args)
  }

  /** Flags, width, precision and qualifier, from behind the '%'. */
  function Parsed(fmt: string, i: nat, args: seq<Arg>): (c: Conversion)
    requires i <= |fmt|
    ensures i <= c.at <= |fmt|
  {
    var f := FlagsFrom(fmt, i, NO_FLAGS);
    var w := WidthAt(fmt, f.1, f.0, args);
    var p := PrecisionAt(fmt, w.2, w.3);
    var precision := if At(fmt, w.2) == '.' then Most(p.0, 0) else -1;
    var q := At(fmt, p.1);
    if q == 'h' || q == 'l' then Conversion(w.1, w.0, precision, p.0, q, p.1 + 1, p.2)
    else Conversion(w.1, w.0, precision, p.0, '\0', p.1, p.2)
  }

  // ----- the conversions -----

  /** Text in a field, left- or right-justified. */
  function Justified(text: string, pad: int, left: bool): string {
    if left then text + Rep(' ', pad) else Rep(' ', pad) + text
  }

  /** The part of a string that is put out: the field width cuts it as well as the precision. */
  function Cut(text: string, width: int, precision: int): (s: string) {
    var s := if 0 <= width < |text| then text[..width] else text;
    if 0 < precision < |s| then s[..precision] else s
  }

  /** The word a number conversion fetches, narrowed by 'h' and widened again. */
  function Fetched(raw: nat, qualifier: char, sign: bool): (num: int)
    requires raw < WORD
    ensures -(WORD / 2) <= num < WORD / 2
  {
    if qualifier == 'h' then
      var half := raw % 0x1_0000;
      if sign && half >= 0x8000 then half - 0x1_0000 else half
    else Signed(raw)
  }

  function IntConversion(c: Conversion, base: nat, f: Flags): Turn {
    var raw := TakeInt(c.args);
    Turn(Number(Fetched(raw.0, c.qualifier, f.sign), base, c.width, c.precision, f), c.at + 1, raw.1)
  }

  function Converted(fmt: string, c: Conversion): (t: Turn)
    requires c.at <= |fmt|
    ensures c.at <= t.next <= |fmt|
    ensures t.next == c.at ==> c.at == |fmt|
  {
    var letter := At(fmt, c.at);
    if c.at == |fmt| then Turn("%", c.at, c.args)
    else if letter == 'c' then
      var raw := TakeInt(c.args);
      Turn(Justified([(raw.0 % 256) as char], c.width - 1, c.flags.left), c.at + 1, raw.1)
    else if letter == 's' then
      var s := TakeStr(c.args);
      var text := Cut(s.0, c.width, c.precision);
      Turn(Justified(text, c.width - |text|, c.flags.left), c.at + 1, s.1)
    else if letter == 'p' then
      var raw := TakeInt(c.args);
      var wide := c.width == -1;
      Turn(Number(Signed(raw.0), 16, if wide then 8 else c.width, c.precision, if wide then c.flags.(zero := true) else c.flags),
           c.at + 1, raw.1)
    else if letter == '%' then Turn("%", c.at + 1, c.args)
    else if letter == 'o' then IntConversion(c, 8, c.flags)
    else if letter == 'X' then IntConversion(c, 16, c.flags.(large := true))
    else if letter == 'x' then IntConversion(c, 16, c.flags)
    else if letter == 'd' || letter == 'i' then IntConversion(c, 10, c.flags.(sign := true))
    else if letter == 'u' then IntConversion(c, 10, c.flags)
    else Turn(['%', letter], c.at + 1, c.args)
  }

  /** One turn of the main loop. */
  function TurnAt(fmt: string, i: nat, args: seq<Arg>): (t: Turn)
    requires i < |fmt|
    ensures i < t.next <= |fmt|
  {
    if fmt[i] == '%' then Converted(fmt, Parsed(fmt, i + 1, args)) else Turn([fmt[i]], i + 1, args)
  }

  /** The untruncated output. */
  function Output(fmt: string, i: nat, args: seq<Arg>): string
    requires i <= |fmt|
    decreases |fmt| - i
  {
    if i == |fmt| then ""
    else
      var t := TurnAt(fmt, i, args);
      t.text + Output(fmt, t.next, t.args)
  }

  // ----- what the output of a number means -----

  function DigitValue(c: char): nat {
    if IsDigit(c) then c as nat - '0' as nat
    else if 'a' <= c <= 'f' then c as nat - 'a' as nat + 10
    else if 'A' <= c <= 'F' then c as nat - 'A' as nat + 10
    else 0
  }

  function ValueOf(s: string, radix: nat): nat {
    if s == [] then 0 else ValueOf(s[..|s| - 1], radix) * radix + DigitValue(s[|s| - 1])
  }

  /** Reading the digits back gives the number. */
  lemma {:induction false} DigitsValue(n: nat, radix: nat, large: bool)
    requires radix == 10 || radix == 16
    ensures ValueOf(Digits(n, radix, large), radix) == n
  {
    var s := Digits(n, radix, large);
    if n < radix {
      assert s[..0] == [];
      assert ValueOf([], radix) == 0;
      OneDigit(n, large);
    } else {
      DigitsValue(n / radix, radix, large);
      assert s[..|s| - 1] == Digits(n / radix, radix, large);
      OneDigit(n % radix, large);
      Divided(n, radix);
    }
  }

  lemma OneDigit(d: nat, large: bool)
    requires d < 16
    ensures DigitValue(DigitChar(d, large)) == d
  {
  }

  lemma Divided(n: nat, radix: nat)
    requires radix > 0
    ensures n / radix * radix + n % radix == n
  {
  }

  lemma {:induction false} DigitsCount(n: nat, radix: nat, large: bool, k: nat, limit: nat)
    requires (radix == 10 || radix == 16) && k > 0 && n < limit == Power(radix, k)
    ensures |Digits(n, radix, large)| <= k
    decreases k
  {
    assert limit == radix * Power(radix, k - 1);
    if n >= radix && k > 1 {
      DigitsCount(n / radix, radix, large, k - 1, Power(radix, k - 1));
    }
  }

  function Power(radix: nat, k: nat): nat {
    if k == 0 then 1 else radix * Power(radix, k - 1)
  }

  /** A word never needs more than the 16 digits of `tmp`. */
  lemma DigitsFit(n: nat, radix: nat, large: bool)
    requires (radix == 10 || radix == 16) && n < WORD
    ensures |Digits(n, radix, large)| <= 10
  {
    if radix == 10 {
      assert Power(10, 5) == 100000;
      assert Power(10, 10) == 10000000000;
      DigitsCount(n, 10, large, 10, Power(10, 10));
    } else {
      assert Power(16, 4) == 0x1_0000;
      assert Power(16, 8) == WORD;
      DigitsCount(n, 16, large, 8, Power(16, 8));
    }
  }

  /** A number takes its field: as long as the width asks for, or longer if sign, precision and
      digits need it; an explicit precision of zero leaves all digits out of it. */
  lemma NumberLength(num: int, base: nat, width: int, precision: int, f: Flags)
    requires -(WORD / 2) <= num < WORD / 2
    ensures var digits := |Digits(Magnitude(num, f), Radix(base), f.large)|;
            |Number(num, base, width, precision, f)|
              == Most(width, |SignOf(num, f)| + Most(precision, digits)) - (if precision == 0 then digits else 0)
  {
  }

  /** An octal conversion prints what the hexadecimal one prints. */
  lemma OctalIsHex(num: int, width: int, precision: int, f: Flags)
    requires -(WORD / 2) <= num < WORD / 2
    ensures Number(num, 8, width, precision, f) == Number(num, 16, width, precision, f)
  {
  }

  // ----- what C asks for (ISO/IEC 9899, section 7.21.6.1) -----

  /** The precision as the code has it and as it was asked for. C takes a negative one for none. */
  predicate Asked(precision: int, asked: int) {
    if precision < 0 then asked < 0 else precision == Most(asked, 0)
  }

  /** Only the precision limits the characters of a string; the width never does. */
  function StandardText(text: string, precision: int): string {
    if 0 <= precision < |text| then text[..precision] else text
  }

  function StandardString(text: string, width: int, precision: int, left: bool): string {
    var s := StandardText(text, precision);
    Justified(s, width - |s|, left)
  }

  predicate Blank(text: string) {
    forall k :: 0 <= k < |text| ==> text[k] == ' '
  }

  /** When a string field is right: a width that does not cut, or with precision 0 only blanks that
      the field has room for. */
  predicate StringRight(text: string, width: int, asked: int) {
    if asked == 0 then (if width < 0 then text == "" else Blank(if width < |text| then text[..width] else text))
    else width < 0 || width >= |StandardText(text, asked)|
  }

  lemma StringFieldIff(text: string, width: int, precision: int, asked: int, left: bool)
    requires Asked(precision, asked) && width >= -1
    ensures var s := Cut(text, width, precision);
            Justified(s, width - |s|, left) == StandardString(text, width, asked, left) <==> StringRight(text, width, asked)
  {
    var s, r := Cut(text, width, precision), StandardText(text, asked);
    if asked == 0 {
      ZeroText(s, width, left);
    } else if s != r {
      assert |r| > width && |s| <= width;
    }
  }

  /** Against an empty text: only blanks that fit the field look the same. */
  lemma ZeroText(s: string, width: int, left: bool)
    ensures Justified(s, width - |s|, left) == Justified("", width, left) <==> s == "" || (|s| <= width && Blank(s))
  {
    var full, none := Justified(s, width - |s|, left), Justified("", width, left);
    assert none == Rep(' ', width);
    if s != "" && |s| <= width {
      var at := if left then 0 else width - |s|;
      if Blank(s) {
        assert full == none;
      } else {
        var k :| 0 <= k < |s| && s[k] != ' ';
        assert full[at + k] == s[k];
      }
    }
  }

  /** No digits for a zero with precision 0, and otherwise at least as many as the precision says. */
  function AskedDigits(m: nat, digits: string, precision: int): string {
    if precision == 0 && m == 0 then "" else Rep('0', precision - |digits|) + digits
  }

  /** With '#' an octal number begins with a zero. */
  function StandardDigits(m: nat, base: nat, precision: int, f: Flags): string {
    var full := AskedDigits(m, if base == 8 then Octal(m) else Digits(m, Radix(base), f.large), precision);
    if base == 8 && f.alt && (full == "" || full[0] != '0') then "0" + full else full
  }

  /** With '#' a hexadecimal number other than zero is marked as one. */
  function StandardPrefix(m: nat, base: nat, f: Flags): string {
    if base == 16 && f.alt && m != 0 then (if f.large then "0X" else "0x") else ""
  }

  /** The '0' flag counts only without a precision. */
  function StandardNumber(num: int, base: nat, width: int, precision: int, f: Flags): string
    requires -(WORD / 2) <= num < WORD / 2
  {
    var m := Magnitude(num, f);
    var head, digits := SignOf(num, f) + StandardPrefix(m, base, f), StandardDigits(m, base, precision, f);
    Fielded(head, digits, width - |head| - |digits|, f.zero && !f.left && precision < 0, f.left)
  }

  function Fielded(head: string, digits: string, pad: int, zero: bool, left: bool): string {
    if left then head + digits + Rep(' ', pad)
    else if zero then head + Rep('0', pad) + digits
    else Rep(' ', pad) + head + digits
  }

  /** The code's layout of a number is a field of its own. */
  lemma LaidAsField(sign: string, digits: string, width: int, precision: int, zero: bool, left: bool)
    requires !(zero && left) && precision != 0
    ensures var full := Rep('0', precision - |digits|) + digits;
            Laid(sign, digits, width, precision, zero, left) == Fielded(sign, full, width - |sign| - |full|, zero, left)
  {
    var full := Rep('0', precision - |digits|) + digits;
    assert |full| == Most(precision, |digits|);
  }

  /** Blanks in front of a sign are not zeros behind it. */
  lemma ZerosAreNotBlanks(sign: string, digits: string, pad: int)
    requires pad > 0 && (sign == "" || sign == "-" || sign == "+" || sign == " ")
    ensures Fielded(sign, digits, pad, true, false) != Fielded(sign, digits, pad, false, false)
  {
    var zeros, blanks := Fielded(sign, digits, pad, true, false), Fielded(sign, digits, pad, false, false);
    assert zeros[|sign|] == '0' && blanks[0] == ' ';
    if sign == " " { assert blanks[1] == ' '; }
  }

  lemma LaidLength(sign: string, digits: string, width: int, precision: int, zero: bool, left: bool)
    requires !(zero && left)
    ensures |Laid(sign, digits, width, precision, zero, left)|
              == Most(width, |sign| + Most(precision, |digits|)) - (if precision == 0 then |digits| else 0)
  {
  }

  lemma FieldedLength(head: string, digits: string, width: int, zero: bool, left: bool)
    ensures |Fielded(head, digits, width - |head| - |digits|, zero, left)| == Most(width, |head| + |digits|)
  {
  }

  /** When a field without '#' is right: there is no precision, or a positive one and no padding by
      zeros, or precision 0 was asked for a zero that needs no padding. */
  predicate PlainRight(m: nat, digits: nat, sign: nat, width: int, precision: int, asked: int, zero: bool) {
    || precision < 0
    || (asked > 0 && (!zero || width <= sign + Most(asked, digits)))
    || (asked == 0 && m == 0 && width <= sign)
  }

  /** The code lays out the field that C asks for. */
  predicate PlainSame(m: nat, sign: string, digits: string, width: int, precision: int, asked: int, zero: bool, left: bool) {
    var full := AskedDigits(m, digits, asked);
    Laid(sign, digits, width, precision, zero, left)
      == Fielded(sign, full, width - |sign| - |full|, zero && asked < 0, left)
  }

  lemma PlainIff(m: nat, sign: string, digits: string, width: int, precision: int, asked: int, zero: bool, left: bool)
    requires Asked(precision, asked) && !(zero && left) && digits != ""
    requires sign == "" || sign == "-" || sign == "+" || sign == " "
    ensures PlainSame(m, sign, digits, width, precision, asked, zero, left)
            <==> PlainRight(m, |digits|, |sign|, width, precision, asked, zero)
  {
    if precision == 0 {
      PlainZero(m, sign, digits, width, asked, zero, left);
    } else {
      PlainShown(sign, digits, width, precision, asked, zero, left);
      FullDigits(m, sign, digits, width, precision, asked, zero, left);
    }
  }

  /** With precision 0 in the code, the digits are missing. */
  lemma PlainZero(m: nat, sign: string, digits: string, width: int, asked: int, zero: bool, left: bool)
    requires asked <= 0 && !(zero && left) && digits != ""
    ensures PlainSame(m, sign, digits, width, 0, asked, zero, left) <==> asked == 0 && m == 0 && width <= |sign|
  {
    var full := AskedDigits(m, digits, asked);
    LaidLength(sign, digits, width, 0, zero, left);
    FieldedLength(sign, full, width, zero && asked < 0, left);
    if asked == 0 && m == 0 && width <= |sign| {
      assert Laid(sign, digits, width, 0, zero, left) == sign;
    }
  }

  predicate FullSame(sign: string, digits: string, width: int, precision: int, asked: int, zero: bool, left: bool) {
    var full := Rep('0', asked - |digits|) + digits;
    Laid(sign, digits, width, precision, zero, left)
      == Fielded(sign, full, width - |sign| - |full|, zero && asked < 0, left)
  }

  lemma FullDigits(m: nat, sign: string, digits: string, width: int, precision: int, asked: int, zero: bool, left: bool)
    requires asked != 0
    ensures PlainSame(m, sign, digits, width, precision, asked, zero, left)
            == FullSame(sign, digits, width, precision, asked, zero, left)
  {
    assert AskedDigits(m, digits, asked) == Rep('0', asked - |digits|) + digits;
  }

  lemma PlainShown(sign: string, digits: string, width: int, precision: int, asked: int, zero: bool, left: bool)
    requires Asked(precision, asked) && precision != 0 && !(zero && left) && digits != ""
    requires sign == "" || sign == "-" || sign == "+" || sign == " "
    ensures FullSame(sign, digits, width, precision, asked, zero, left)
            <==> precision < 0 || !zero || width <= |sign| + Most(asked, |digits|)
  {
    if precision < 0 {
      UnlimitedShown(sign, digits, width, precision, asked, zero, left);
    } else {
      LimitedShown(sign, digits, width, asked, zero, left);
    }
  }

  lemma UnlimitedShown(sign: string, digits: string, width: int, precision: int, asked: int, zero: bool, left: bool)
    requires precision < 0 && asked < 0 && !(zero && left)
    ensures FullSame(sign, digits, width, precision, asked, zero, left)
  {
    LaidAsField(sign, digits, width, precision, zero, left);
    assert Rep('0', precision - |digits|) == "" == Rep('0', asked - |digits|);
  }

  lemma LimitedShown(sign: string, digits: string, width: int, asked: int, zero: bool, left: bool)
    requires asked > 0 && !(zero && left)
    requires sign == "" || sign == "-" || sign == "+" || sign == " "
    ensures FullSame(sign, digits, width, asked, asked, zero, left) <==> !zero || width <= |sign| + Most(asked, |digits|)
  {
    LaidAsField(sign, digits, width, asked, zero, left);
    var full := Rep('0', asked - |digits|) + digits;
    PaddingIff(sign, full, width - |sign| - |full|, asked, zero, left);
  }

  /** Zeros that a precision forbids show exactly where there is something to pad. */
  lemma PaddingIff(sign: string, full: string, pad: int, asked: int, zero: bool, left: bool)
    requires !(zero && left) && asked != 0 && (sign == "" || sign == "-" || sign == "+" || sign == " ")
    ensures Fielded(sign, full, pad, zero, left) == Fielded(sign, full, pad, zero && asked < 0, left)
            <==> asked < 0 || !zero || pad <= 0
  {
    if asked > 0 && zero && pad > 0 { ZerosAreNotBlanks(sign, full, pad); }
    if asked > 0 && zero && pad <= 0 { NothingToPad(sign, full, pad); }
  }

  lemma NothingToPad(sign: string, full: string, pad: int)
    requires pad <= 0
    ensures Fielded(sign, full, pad, true, false) == Fielded(sign, full, pad, false, false)
  {
    assert Rep('0', pad) == "" && Rep(' ', pad) == "";
    assert sign + "" + full == "" + sign + full;
  }

  // ----- hexadecimal marks -----

  predicate NoMark(s: string) {
    forall k :: 0 <= k < |s| ==> s[k] != 'x' && s[k] != 'X'
  }

  lemma {:induction false} DigitsUnmarked(n: nat, radix: nat, large: bool)
    requires radix == 10 || radix == 16
    ensures NoMark(Digits(n, radix, large))
  {
    if n >= radix { DigitsUnmarked(n / radix, radix, large); }
  }

  lemma LaidUnmarked(sign: string, digits: string, width: int, precision: int, zero: bool, left: bool)
    requires NoMark(sign) && NoMark(digits)
    ensures NoMark(Laid(sign, digits, width, precision, zero, left))
  {
    var least := Most(precision, |digits|);
    var front := Front(sign, width - least - |sign|, zero, left);
    var back := Back(least - |digits|, if precision == 0 then "" else digits, if left then width - least - |sign| else 0);
    assert NoMark(front) && NoMark(back);
  }

  lemma MarkShows(sign: string, mark: string, digits: string, pad: int, zero: bool, left: bool)
    requires mark == "0x" || mark == "0X"
    ensures !NoMark(Fielded(sign + mark, digits, pad, zero, left))
  {
    var s := Fielded(sign + mark, digits, pad, zero, left);
    var at := |sign| + 1 + if left || zero then 0 else |Rep(' ', pad)|;
    assert s[at] == mark[1];
  }

  /** The octal digits of a number, the high one first. */
  function Octal(n: nat): (s: string)
    ensures s != []
  {
    if n < 8 then [DigitChar(n, false)] else Octal(n / 8) + [DigitChar(n % 8, false)]
  }

  lemma {:induction false} OctalValue(n: nat)
    ensures ValueOf(Octal(n), 8) == n
  {
    var s := Octal(n);
    if n < 8 {
      assert s[..0] == [] && ValueOf([], 8) == 0;
      OneDigit(n, false);
    } else {
      OctalValue(n / 8);
      assert s[..|s| - 1] == Octal(n / 8);
      OneDigit(n % 8, false);
      Divided(n, 8);
    }
  }

  lemma {:induction false} SmallerRadix(s: string)
    ensures ValueOf(s, 8) <= ValueOf(s, 16)
  {
    if s != [] { SmallerRadix(s[..|s| - 1]); }
  }

  /** Hexadecimal digits are the octal ones of small numbers only. */
  lemma HexIsOctalIff(m: nat, large: bool)
    ensures Digits(m, 16, large) == Octal(m) <==> m < 8
  {
    var s := Digits(m, 16, large);
    OctalValue(m);
    if m >= 16 {
      DigitsValue(m, 16, large);
      DigitsValue(m / 16, 16, large);
      assert s[..|s| - 1] == Digits(m / 16, 16, large);
      SmallerRadix(s[..|s| - 1]);
    }
  }

  predicate Filler(c: char) {
    c == ' ' || c == '+' || c == '-' || c == '0'
  }

  /** The text without its filling: from the first digit that is not 0 to the last that is not blank. */
  function Core(s: string): string {
    if s == [] then [] else if Filler(s[0]) then Core(s[1..]) else Trimmed(s)
  }

  function Trimmed(s: string): string {
    if s == [] || s[|s| - 1] != ' ' then s else Trimmed(s[..|s| - 1])
  }

  lemma {:induction false} CoreDrops(fill: string, s: string)
    requires forall k :: 0 <= k < |fill| ==> Filler(fill[k])
    ensures Core(fill + s) == Core(s)
  {
    if fill == [] {
      assert fill + s == s;
    } else {
      assert (fill + s)[1..] == fill[1..] + s;
      CoreDrops(fill[1..], s);
    }
  }

  lemma {:induction false} TrimmedDrops(s: string, n: int)
    requires s != [] && s[|s| - 1] != ' '
    ensures Trimmed(s + Rep(' ', n)) == s
    decreases n
  {
    if n <= 0 {
      assert s + Rep(' ', n) == s;
    } else {
      assert (s + Rep(' ', n))[..|s| + |Rep(' ', n)| - 1] == s + Rep(' ', n - 1);
      TrimmedDrops(s, n - 1);
    }
  }

  lemma CoreOfBack(zeros: int, digits: string, pad: int)
    requires digits != [] && !Filler(digits[0]) && digits[|digits| - 1] != ' '
    ensures Core(Back(zeros, digits, pad)) == digits
  {
    var front, blanks := Rep('0', zeros), Rep(' ', pad);
    Associates(front, digits, blanks);
    CoreDrops(front, digits + blanks);
    TrimmedDrops(digits, pad);
  }

  lemma Associates(a: string, b: string, c: string)
    ensures a + b + c == a + (b + c)
  {
  }

  /** What is laid out can be read back. */
  lemma CoreOfLaid(sign: string, digits: string, width: int, precision: int, zero: bool, left: bool)
    requires precision != 0 && digits != [] && !Filler(digits[0]) && digits[|digits| - 1] != ' '
    requires sign == "" || sign == "-" || sign == "+" || sign == " "
    ensures Core(Laid(sign, digits, width, precision, zero, left)) == digits
  {
    var least := Most(precision, |digits|);
    var pad := width - least - |sign|;
    CoreDrops(Front(sign, pad, zero, left), Back(least - |digits|, digits, if left then pad else 0));
    CoreOfBack(least - |digits|, digits, if left then pad else 0);
  }

  lemma {:induction false} DigitsPlain(n: nat, radix: nat, large: bool)
    requires n > 0 && (radix == 10 || radix == 16)
    ensures var s := Digits(n, radix, large); !Filler(s[0]) && s[|s| - 1] != ' '
  {
    if n >= radix { DigitsPlain(n / radix, radix, large); }
  }

  lemma {:induction false} OctalPlain(n: nat)
    requires n > 0
    ensures var s := Octal(n); !Filler(s[0]) && s[|s| - 1] != ' '
  {
    if n >= 8 { OctalPlain(n / 8); }
  }

  // ----- octal numbers -----

  /** When an octal field is right: below 8, and with '#' only where the padding happens to put out the
      zero that is asked for. */
  predicate OctalRight(m: nat, width: int, precision: int, asked: int, f: Flags) {
    m < 8
    && if f.alt && (if m == 0 then asked == 0 else asked <= 1)
       then m > 0 && f.zero && !f.left && if precision < 0 then width >= 2 else asked == 1 && width == 2
       else PlainRight(m, 1, 0, width, precision, asked, f.zero && !f.left)
  }

  lemma CoreOfField(fill: string, digits: string, n: int)
    requires forall k :: 0 <= k < |fill| ==> Filler(fill[k])
    requires digits != "" && !Filler(digits[0]) && digits[|digits| - 1] != ' '
    ensures Core(fill + (digits + Rep(' ', n))) == digits
  {
    CoreDrops(fill, digits + Rep(' ', n));
    TrimmedDrops(digits, n);
  }

  /** The zeros in front of the octal digits. */
  function OctalLead(m: nat, precision: int, f: Flags): (lead: string)
    requires m > 0
    ensures forall k :: 0 <= k < |lead| ==> lead[k] == '0'
    ensures StandardDigits(m, 8, precision, f) == lead + Octal(m)
  {
    OctalPlain(m);
    var zeros := Rep('0', precision - |Octal(m)|);
    assert zeros == "" ==> zeros + Octal(m) == Octal(m);
    if f.alt && zeros == "" then "0" else zeros
  }

  /** The octal digits of a number can be read back from the field C asks for. */
  lemma CoreOfStandardOctal(m: nat, width: int, precision: int, f: Flags)
    requires m > 0
    ensures var digits := StandardDigits(m, 8, precision, f);
            Core(Fielded("", digits, width - |digits|, f.zero && !f.left && precision < 0, f.left)) == Octal(m)
  {
    OctalPlain(m);
    var lead := OctalLead(m, precision, f);
    CoreOfFielded(lead, Octal(m), width - |lead + Octal(m)|, f.zero && !f.left && precision < 0, f.left);
  }

  lemma CoreOfFielded(lead: string, digits: string, pad: int, zero: bool, left: bool)
    requires forall k :: 0 <= k < |lead| ==> lead[k] == '0'
    requires digits != "" && !Filler(digits[0]) && digits[|digits| - 1] != ' '
    ensures Core(Fielded("", lead + digits, pad, zero, left)) == digits
  {
    var fill := (if left then "" else if zero then Rep('0', pad) else Rep(' ', pad)) + lead;
    var n := if left then pad else 0;
    assert Fielded("", lead + digits, pad, zero, left) == fill + (digits + Rep(' ', n));
    CoreOfField(fill, digits, n);
  }

  lemma {:induction false} CoreOfFiller(s: string)
    requires forall k :: 0 <= k < |s| ==> Filler(s[k])
    ensures Core(s) == ""
  {
    CoreDrops(s, "");
    assert s + "" == s;
  }

  lemma BigOctal(m: nat, width: int, precision: int, asked: int, f: Flags)
    requires m >= 8
    ensures var digits := StandardDigits(m, 8, asked, f);
            Laid("", Digits(m, 16, f.large), width, precision, f.zero && !f.left, f.left)
              != Fielded("", digits, width - |digits|, f.zero && !f.left && asked < 0, f.left)
  {
    CoreOfStandardOctal(m, width, asked, f);
    DigitsPlain(m, 16, f.large);
    HexIsOctalIff(m, f.large);
    if precision == 0 {
      CoreOfFiller(Laid("", Digits(m, 16, f.large), width, precision, f.zero && !f.left, f.left));
    } else {
      CoreOfLaid("", Digits(m, 16, f.large), width, precision, f.zero && !f.left, f.left);
    }
  }

  /** One digit where "0" and the digit are asked for. */
  lemma LeadingZero(d: char, width: int, precision: int, asked: int, zero: bool, left: bool)
    requires Asked(precision, asked) && asked <= 1 && !(zero && left) && d != '0' && d != ' '
    ensures Laid("", [d], width, precision, zero, left) == Fielded("", ['0', d], width - 2, zero && asked < 0, left)
            <==> zero && if precision < 0 then width >= 2 else asked == 1 && width == 2
  {
    var laid, asks := Laid("", [d], width, precision, zero, left), Fielded("", ['0', d], width - 2, zero && asked < 0, left);
    LaidLength("", [d], width, precision, zero, left);
    FieldedLength("", ['0', d], width, zero && asked < 0, left);
    if precision != 0 && width >= 2 {
      LaidAsField("", [d], width, precision, zero, left);
      assert Rep('0', precision - 1) + [d] == [d];
      LeadingZeroAt(d, width, zero, zero && asked < 0, left);
    }
  }

  lemma LeadingZeroAt(d: char, width: int, zero: bool, zero': bool, left: bool)
    requires width >= 2 && !(zero && left) && (zero' ==> zero) && d != '0' && d != ' '
    ensures Fielded("", [d], width - 1, zero, left) == Fielded("", ['0', d], width - 2, zero', left)
            <==> zero && (zero' || width == 2)
  {
    var one, two := Fielded("", [d], width - 1, zero, left), Fielded("", ['0', d], width - 2, zero', left);
    if left {
      assert one[0] == d && two[0] == '0';
    } else if !zero {
      assert one[width - 2] == ' ' && two[width - 2] == '0';
    } else if zero' || width == 2 {
      assert one == two;
    } else {
      assert one[0] == '0' && two[0] == ' ';
    }
  }

  lemma OctalIff(m: nat, width: int, precision: int, asked: int, f: Flags)
    requires Asked(precision, asked)
    ensures var digits := StandardDigits(m, 8, asked, f);
            Laid("", Digits(m, 16, f.large), width, precision, f.zero && !f.left, f.left)
              == Fielded("", digits, width - |digits|, f.zero && !f.left && asked < 0, f.left)
            <==> OctalRight(m, width, precision, asked, f)
  {
    if m >= 8 {
      BigOctal(m, width, precision, asked, f);
    } else if f.alt && (if m == 0 then asked == 0 else asked <= 1) {
      SmallOctalMarked(m, width, precision, asked, f);
    } else {
      SmallOctalPlain(m, width, precision, asked, f);
    }
  }

  lemma SmallOctalPlain(m: nat, width: int, precision: int, asked: int, f: Flags)
    requires Asked(precision, asked) && m < 8 && !(f.alt && (if m == 0 then asked == 0 else asked <= 1))
    ensures var digits := StandardDigits(m, 8, asked, f);
            Laid("", Digits(m, 16, f.large), width, precision, f.zero && !f.left, f.left)
              == Fielded("", digits, width - |digits|, f.zero && !f.left && asked < 0, f.left)
            <==> PlainRight(m, 1, 0, width, precision, asked, f.zero && !f.left)
  {
    SmallOctalSame(m, width, precision, asked, f);
    PlainIff(m, "", [DigitChar(m, f.large)], width, precision, asked, f.zero && !f.left, f.left);
  }

  lemma SmallOctalSame(m: nat, width: int, precision: int, asked: int, f: Flags)
    requires m < 8 && !(f.alt && (if m == 0 then asked == 0 else asked <= 1))
    ensures var digits := StandardDigits(m, 8, asked, f);
            Laid("", Digits(m, 16, f.large), width, precision, f.zero && !f.left, f.left)
              == Fielded("", digits, width - |digits|, f.zero && !f.left && asked < 0, f.left)
            <==> PlainSame(m, "", [DigitChar(m, f.large)], width, precision, asked, f.zero && !f.left, f.left)
  {
    OneOctalDigit(m, asked, f);
  }

  lemma OneOctalDigit(m: nat, asked: int, f: Flags)
    requires m < 8 && !(f.alt && (if m == 0 then asked == 0 else asked <= 1))
    ensures Digits(m, 16, f.large) == [DigitChar(m, f.large)]
    ensures StandardDigits(m, 8, asked, f) == AskedDigits(m, [DigitChar(m, f.large)], asked)
  {
    var full := AskedDigits(m, [DigitChar(m, f.large)], asked);
    assert Octal(m) == [DigitChar(m, f.large)];
    if asked > 1 { assert full[0] == '0'; }
  }

  lemma SmallOctalMarked(m: nat, width: int, precision: int, asked: int, f: Flags)
    requires Asked(precision, asked) && m < 8 && f.alt && (if m == 0 then asked == 0 else asked <= 1)
    ensures var digits := StandardDigits(m, 8, asked, f);
            Laid("", Digits(m, 16, f.large), width, precision, f.zero && !f.left, f.left)
              == Fielded("", digits, width - |digits|, f.zero && !f.left && asked < 0, f.left)
            <==> m > 0 && f.zero && !f.left && if precision < 0 then width >= 2 else asked == 1 && width == 2
  {
    var digits := StandardDigits(m, 8, asked, f);
    if m == 0 {
      assert digits == "0" && precision == 0;
      LaidLength("", Digits(m, 16, f.large), width, precision, f.zero && !f.left, f.left);
      FieldedLength("", digits, width, f.zero && !f.left && asked < 0, f.left);
    } else {
      var d := DigitChar(m, false);
      assert Digits(m, 16, f.large) == [d] == Octal(m) && digits == ['0', d];
      LeadingZero(d, width, precision, asked, f.zero && !f.left, f.left);
    }
  }

  // ----- from the format and the arguments -----

  predicate IsInteger(letter: char) {
    letter == 'd' || letter == 'i' || letter == 'u' || letter == 'x' || letter == 'X'
  }

  function BaseOf(letter: char): nat {
    if letter == 'o' then 8 else if letter == 'x' || letter == 'X' then 16 else 10
  }

  function FlagsOf(letter: char, f: Flags): Flags {
    if letter == 'd' || letter == 'i' then f.(sign := true) else if letter == 'X' then f.(large := true) else f
  }

  /** The number that an integer conversion puts out. */
  function NumberOf(c: Conversion, letter: char): (num: int)
    ensures -(WORD / 2) <= num < WORD / 2
  {
    Fetched(TakeInt(c.args).0, c.qualifier, FlagsOf(letter, c.flags).sign)
  }

  lemma ParsedAsks(fmt: string, i: nat, args: seq<Arg>)
    requires i <= |fmt|
    ensures var c := Parsed(fmt, i, args); Asked(c.precision, c.asked) && !c.flags.sign && !c.flags.large && c.width >= -1
  {
    FlagsUnsigned(fmt, i, NO_FLAGS);
  }

  lemma {:induction false} FlagsUnsigned(fmt: string, i: nat, f: Flags)
    requires i <= |fmt| && !f.sign && !f.large
    ensures !FlagsFrom(fmt, i, f).0.sign && !FlagsFrom(fmt, i, f).0.large
    decreases |fmt| - i
  {
    if IsFlag(At(fmt, i)) { FlagsUnsigned(fmt, i + 1, WithFlag(f, fmt[i])); }
  }

  /** What one turn of the main loop puts out for an integer conversion. */
  lemma IntegerTurn(fmt: string, i: nat, args: seq<Arg>)
    requires i < |fmt| && fmt[i] == '%'
    requires var letter := At(fmt, Parsed(fmt, i + 1, args).at); IsInteger(letter) || letter == 'o'
    ensures var c := Parsed(fmt, i + 1, args); var letter := At(fmt, c.at);
            TurnAt(fmt, i, args).text
              == Number(NumberOf(c, letter), BaseOf(letter), c.width, c.precision, FlagsOf(letter, c.flags))
  {
    var c := Parsed(fmt, i + 1, args);
    assert c.at < |fmt|;
    ConvertsInteger(fmt, c);
  }

  lemma ConvertsInteger(fmt: string, c: Conversion)
    requires c.at < |fmt| && (IsInteger(fmt[c.at]) || fmt[c.at] == 'o')
    ensures var letter := fmt[c.at];
            Converted(fmt, c).text
              == Number(NumberOf(c, letter), BaseOf(letter), c.width, c.precision, FlagsOf(letter, c.flags))
  {
  }

  /** The code lays out a number as C does. */
  predicate NumberSame(num: int, base: nat, width: int, precision: int, asked: int, f: Flags)
    requires -(WORD / 2) <= num < WORD / 2
  {
    Number(num, base, width, precision, f) == StandardNumber(num, base, width, asked, f)
  }

  lemma NumberFieldIff(num: int, base: nat, width: int, precision: int, asked: int, f: Flags)
    requires -(WORD / 2) <= num < WORD / 2 && Asked(precision, asked) && (base == 10 || base == 16)
    ensures var m := Magnitude(num, f);
            NumberSame(num, base, width, precision, asked, f) <==>
              && !(base == 16 && f.alt && m != 0)
              && PlainRight(m, |Digits(m, Radix(base), f.large)|, |SignOf(num, f)|, width, precision, asked, f.zero && !f.left)
  {
    var m, sign := Magnitude(num, f), SignOf(num, f);
    var digits := Digits(m, Radix(base), f.large);
    if base == 16 && f.alt && m != 0 {
      MarkMissing(num, width, precision, asked, f);
    } else {
      UnmarkedSame(num, base, width, precision, asked, f);
      PlainIff(m, sign, digits, width, precision, asked, f.zero && !f.left, f.left);
    }
  }

  lemma MarkMissing(num: int, width: int, precision: int, asked: int, f: Flags)
    requires -(WORD / 2) <= num < WORD / 2 && f.alt && Magnitude(num, f) != 0
    ensures !NumberSame(num, 16, width, precision, asked, f)
  {
    var m, sign := Magnitude(num, f), SignOf(num, f);
    DigitsUnmarked(m, 16, f.large);
    LaidUnmarked(sign, Digits(m, 16, f.large), width, precision, f.zero && !f.left, f.left);
    var wanted, mark := StandardDigits(m, 16, asked, f), StandardPrefix(m, 16, f);
    MarkShows(sign, mark, wanted, width - |sign + mark| - |wanted|, f.zero && !f.left && asked < 0, f.left);
  }

  lemma UnmarkedStandard(num: int, base: nat, width: int, asked: int, f: Flags)
    requires -(WORD / 2) <= num < WORD / 2 && base != 8 && !(base == 16 && f.alt && Magnitude(num, f) != 0)
    ensures var m, sign := Magnitude(num, f), SignOf(num, f);
            var full := AskedDigits(m, Digits(m, Radix(base), f.large), asked);
            StandardNumber(num, base, width, asked, f)
              == Fielded(sign, full, width - |sign| - |full|, f.zero && !f.left && asked < 0, f.left)
  {
    assert SignOf(num, f) + StandardPrefix(Magnitude(num, f), base, f) == SignOf(num, f);
  }

  lemma UnmarkedSame(num: int, base: nat, width: int, precision: int, asked: int, f: Flags)
    requires -(WORD / 2) <= num < WORD / 2 && base != 8 && !(base == 16 && f.alt && Magnitude(num, f) != 0)
    ensures var m, sign := Magnitude(num, f), SignOf(num, f);
            NumberSame(num, base, width, precision, asked, f) <==>
              PlainSame(m, sign, Digits(m, Radix(base), f.large), width, precision, asked, f.zero && !f.left, f.left)
  {
    UnmarkedStandard(num, base, width, asked, f);
  }

  lemma OctalFieldIff(num: int, width: int, precision: int, asked: int, f: Flags)
    requires -(WORD / 2) <= num < WORD / 2 && Asked(precision, asked) && !f.sign
    ensures NumberSame(num, 8, width, precision, asked, f) <==>
              OctalRight(Magnitude(num, f), width, precision, asked, f)
  {
    OctalIff(Magnitude(num, f), width, precision, asked, f);
    UnsignedOctal(num, width, asked, f);
  }

  lemma UnsignedOctal(num: int, width: int, asked: int, f: Flags)
    requires -(WORD / 2) <= num < WORD / 2 && !f.sign
    ensures var digits := StandardDigits(Magnitude(num, f), 8, asked, f);
            StandardNumber(num, 8, width, asked, f)
              == Fielded("", digits, width - |digits|, f.zero && !f.left && asked < 0, f.left)
  {
    assert SignOf(num, f) + StandardPrefix(Magnitude(num, f), 8, f) == "";
  }

  /** Without a precision a string is whole exactly when the width does not fall short of it. */
  lemma WholeIff(text: string, width: int)
    ensures Cut(text, width, -1) == text <==> width < 0 || width >= |text|
  {
  }
}
