/**
 How C reads a conversion specification (section 7.21.6.1 of ISO/IEC 9899:2011), said without
 the parser, and when the formatter puts out what C asks for.
 */
module PrintfFormat {
  import opened PrintfSpec

  /** A specification as C reads it. `width` is -1 if there is none; a precision is named by a point, and
      counts unless it is negative; `half` is the qualifier 'h'; `at` is the place of the letter. */
  datatype Reading = Reading(left: bool, plus: bool, space: bool, alt: bool, zero: bool, width: int, point: bool,
                             precision: int, half: bool, at: nat, args: seq<Arg>)

  // ----- reading -----

  /** The flag characters from `i` on end at `k`. */
  predicate FlagsEnd(fmt: string, i: nat, k: nat) {
    && i <= k <= |fmt| && (forall x :: i <= x < k ==> fmt[x] in "-+ #0")
    && (k < |fmt| ==> fmt[k] !in "-+ #0")
  }

  predicate Within(fmt: string, i: nat, k: nat, c: char) {
    exists x :: i <= x < k && x < |fmt| && fmt[x] == c
  }

  predicate DigitsEnd(fmt: string, i: nat, k: nat) {
    && i <= k <= |fmt| && (forall x :: i <= x < k ==> '0' <= fmt[x] <= '9')
    && (k < |fmt| ==> !('0' <= fmt[k] <= '9'))
  }

  /** A signed word that is the next argument. */
  function Argument(args: seq<Arg>): int {
    if args == [] || !args[0].Int? then 0
    else var w := args[0].value % 0x1_0000_0000; if w < 0x8000_0000 then w else w - 0x1_0000_0000
  }

  /** At `i` stands a decimal number up to `end`, or an asterisk for the next argument, or neither. */
  ghost predicate Amount(fmt: string, i: nat, args: seq<Arg>, none: int, value: int, end: nat, rest: seq<Arg>) {
    if At(fmt, i) == '*' then value == Argument(args) && end == i + 1 && rest == (if args == [] then [] else args[1..])
    else DigitsEnd(fmt, i, end) && value == (if end == i then none else ValueOf(fmt[i..end], 10)) && rest == args
  }

  /** Qualifier and letter. */
  predicate Tail(fmt: string, i: nat, args: seq<Arg>, r: Reading) {
    && (r.half <==> At(fmt, i) == 'h') && r.args == args
    && r.at == if At(fmt, i) == 'h' || At(fmt, i) == 'l' then i + 1 else i
  }

  ghost predicate ReadsPrecision(fmt: string, i: nat, args: seq<Arg>, r: Reading) {
    && (r.point <==> At(fmt, i) == '.')
    && if !r.point then r.precision == -1 && Tail(fmt, i, args, r)
       else exists end: nat, rest :: Amount(fmt, i + 1, args, 0, r.precision, end, rest) && Tail(fmt, end, rest, r)
  }

  /** Each flag says whether its character is among the flag characters; a negative width from an
      argument is a '-' and a width. */
  ghost predicate ReadsWidth(fmt: string, i: nat, k: nat, args: seq<Arg>, r: Reading) {
    && (r.plus <==> Within(fmt, i, k, '+')) && (r.space <==> Within(fmt, i, k, ' '))
    && (r.alt <==> Within(fmt, i, k, '#')) && (r.zero <==> Within(fmt, i, k, '0'))
    && exists w, end: nat, rest :: WidthIs(fmt, i, k, args, r, w, end, rest)
  }

  ghost predicate WidthIs(fmt: string, i: nat, k: nat, args: seq<Arg>, r: Reading, w: int, end: nat, rest: seq<Arg>) {
    && Amount(fmt, k, args, -1, w, end, rest)
    && (r.left <==> Within(fmt, i, k, '-') || (At(fmt, k) == '*' && w < 0))
    && r.width == (if At(fmt, k) == '*' && w < 0 then -w else w)
    && ReadsPrecision(fmt, end, rest, r)
  }

  /** The specification from `i` on, behind the '%', is read as `r`. */
  ghost predicate Reads(fmt: string, i: nat, args: seq<Arg>, r: Reading) {
    exists k: nat :: FlagsEnd(fmt, i, k) && ReadsWidth(fmt, i, k, args, r)
  }

  // ----- the parser reads so -----

  /** The flag that a character stands for. */
  function Flag(f: Flags, c: char): bool {
    if c == '-' then f.left
    else if c == '+' then f.plus
    else if c == ' ' then f.space
    else if c == '#' then f.alt
    else f.zero
  }

  lemma {:induction false} FlagRead(fmt: string, i: nat, f: Flags, c: char)
    requires i <= |fmt| && IsFlag(c)
    ensures var (g, k) := FlagsFrom(fmt, i, f); Flag(g, c) <==> Flag(f, c) || Within(fmt, i, k, c)
    decreases |fmt| - i
  {
    if IsFlag(At(fmt, i)) {
      FlagRead(fmt, i + 1, WithFlag(f, fmt[i]), c);
      WithinNext(fmt, i, FlagsFrom(fmt, i, f).1, c);
      OneFlag(f, fmt[i], c);
    }
  }

  lemma OneFlag(f: Flags, d: char, c: char)
    requires IsFlag(c)
    ensures Flag(WithFlag(f, d), c) <==> Flag(f, c) || d == c
  {
  }

  lemma {:induction false} FlagsEndRead(fmt: string, i: nat, f: Flags)
    requires i <= |fmt|
    ensures FlagsEnd(fmt, i, FlagsFrom(fmt, i, f).1)
    decreases |fmt| - i
  {
    if IsFlag(At(fmt, i)) { FlagsEndRead(fmt, i + 1, WithFlag(f, fmt[i])); }
  }

  lemma FlagsRead(fmt: string, i: nat)
    requires i <= |fmt|
    ensures var (g, k) := FlagsFrom(fmt, i, NO_FLAGS);
            && FlagsEnd(fmt, i, k)
            && (g.left <==> Within(fmt, i, k, '-')) && (g.plus <==> Within(fmt, i, k, '+'))
            && (g.space <==> Within(fmt, i, k, ' ')) && (g.alt <==> Within(fmt, i, k, '#'))
            && (g.zero <==> Within(fmt, i, k, '0'))
  {
    FlagsEndRead(fmt, i, NO_FLAGS);
    FlagRead(fmt, i, NO_FLAGS, '-');
    FlagRead(fmt, i, NO_FLAGS, '+');
    FlagRead(fmt, i, NO_FLAGS, ' ');
    FlagRead(fmt, i, NO_FLAGS, '#');
    FlagRead(fmt, i, NO_FLAGS, '0');
  }

  lemma WithinNext(fmt: string, i: nat, k: nat, c: char)
    requires i < k <= |fmt|
    ensures Within(fmt, i, k, c) <==> fmt[i] == c || Within(fmt, i + 1, k, c)
  {
  }

  lemma {:induction false} AtoiReads(fmt: string, i: nat, j: nat)
    requires i <= j <= |fmt| && forall x :: i <= x < j ==> '0' <= fmt[x] <= '9'
    ensures var (v, k) := Atoi(fmt, j, ValueOf(fmt[i..j], 10)); DigitsEnd(fmt, i, k) && v == ValueOf(fmt[i..k], 10)
    decreases |fmt| - j
  {
    if IsDigit(At(fmt, j)) {
      OneDigitMore(fmt, i, j);
      AtoiReads(fmt, i, j + 1);
      assert Atoi(fmt, j, ValueOf(fmt[i..j], 10)) == Atoi(fmt, j + 1, ValueOf(fmt[i..j + 1], 10));
    }
  }

  lemma OneDigitMore(fmt: string, i: nat, j: nat)
    requires i <= j < |fmt| && '0' <= fmt[j] <= '9'
    ensures ValueOf(fmt[i..j + 1], 10) == ValueOf(fmt[i..j], 10) * 10 + (fmt[j] as int - '0' as int)
  {
    var s := fmt[i..j + 1];
    assert s[..|s| - 1] == fmt[i..j] && s[|s| - 1] == fmt[j];
  }

  lemma FieldReads(fmt: string, i: nat, args: seq<Arg>, none: int)
    requires i <= |fmt|
    ensures var (v, k, rest) := Field(fmt, i, args, none); Amount(fmt, i, args, none, v, k, rest)
    ensures At(fmt, i) != '*' && none >= -1 ==> Field(fmt, i, args, none).0 >= -1
  {
    if IsDigit(At(fmt, i)) {
      assert fmt[i..i] == [];
      AtoiReads(fmt, i, i);
      assert Atoi(fmt, i, 0).1 > i;
    }
  }

  function AsRead(c: Conversion, point: bool): Reading {
    Reading(c.flags.left, c.flags.plus, c.flags.space, c.flags.alt, c.flags.zero, c.width, point, c.asked,
            c.qualifier == 'h', c.at, c.args)
  }

  lemma PrecisionReads(fmt: string, i: nat, args: seq<Arg>, r: Reading)
    requires i <= |fmt|
    requires var p := PrecisionAt(fmt, i, args);
             r.point == (At(fmt, i) == '.') && r.precision == p.0 && Tail(fmt, p.1, p.2, r)
    ensures ReadsPrecision(fmt, i, args, r)
  {
    if r.point { FieldReads(fmt, i + 1, args, 0); }
  }

  /** The conversion that the parser finds, and whether it names a precision. */
  lemma ParserReads(fmt: string, i: nat, args: seq<Arg>) returns (r: Reading)
    requires i <= |fmt|
    ensures var c := Parsed(fmt, i, args);
            Reads(fmt, i, args, r) && r == AsRead(c, r.point) && (r.point <==> c.precision >= 0)
  {
    var c := Parsed(fmt, i, args);
    var f := FlagsFrom(fmt, i, NO_FLAGS);
    var w := WidthAt(fmt, f.1, f.0, args);
    r := AsRead(c, At(fmt, w.2) == '.');
    FlagsRead(fmt, i);
    FieldReads(fmt, f.1, args, -1);
    PrecisionReads(fmt, w.2, w.3, r);
    assert WidthIs(fmt, i, f.1, args, r, Field(fmt, f.1, args, -1).0, w.2, w.3);
    assert ReadsWidth(fmt, i, f.1, args, r);
  }

  // ----- there is one reading -----

  lemma OneDigitsEnd(fmt: string, i: nat, k: nat, k': nat)
    requires DigitsEnd(fmt, i, k) && DigitsEnd(fmt, i, k')
    ensures k == k'
  {
  }

  lemma OneFlagsEnd(fmt: string, i: nat, k: nat, k': nat)
    requires FlagsEnd(fmt, i, k) && FlagsEnd(fmt, i, k')
    ensures k == k'
  {
  }

  lemma OneAmount(fmt: string, i: nat, args: seq<Arg>, none: int, v: int, k: nat, rest: seq<Arg>, v': int, k': nat, rest': seq<Arg>)
    requires Amount(fmt, i, args, none, v, k, rest) && Amount(fmt, i, args, none, v', k', rest')
    ensures v == v' && k == k' && rest == rest'
  {
    if At(fmt, i) != '*' { OneDigitsEnd(fmt, i, k, k'); }
  }

  lemma OnePrecision(fmt: string, i: nat, args: seq<Arg>, r: Reading, r': Reading)
    requires ReadsPrecision(fmt, i, args, r) && ReadsPrecision(fmt, i, args, r')
    ensures r.point == r'.point && r.precision == r'.precision && r.half == r'.half && r.at == r'.at && r.args == r'.args
  {
    if r.point {
      var end: nat, rest :| Amount(fmt, i + 1, args, 0, r.precision, end, rest) && Tail(fmt, end, rest, r);
      var end': nat, rest' :| Amount(fmt, i + 1, args, 0, r'.precision, end', rest') && Tail(fmt, end', rest', r');
      OneAmount(fmt, i + 1, args, 0, r.precision, end, rest, r'.precision, end', rest');
    }
  }

  lemma OneWidth(fmt: string, i: nat, k: nat, args: seq<Arg>, r: Reading, r': Reading)
    requires ReadsWidth(fmt, i, k, args, r) && ReadsWidth(fmt, i, k, args, r')
    ensures r == r'
  {
    var w, end: nat, rest :| WidthIs(fmt, i, k, args, r, w, end, rest);
    var w', end': nat, rest' :| WidthIs(fmt, i, k, args, r', w', end', rest');
    OneAmount(fmt, k, args, -1, w, end, rest, w', end', rest');
    OnePrecision(fmt, end, rest, r, r');
  }

  /** No specification can be read in two ways. */
  lemma ReadsOnce(fmt: string, i: nat, args: seq<Arg>, r: Reading, r': Reading)
    requires Reads(fmt, i, args, r) && Reads(fmt, i, args, r')
    ensures r == r'
  {
    var k: nat :| FlagsEnd(fmt, i, k) && ReadsWidth(fmt, i, k, args, r);
    var k': nat :| FlagsEnd(fmt, i, k') && ReadsWidth(fmt, i, k', args, r');
    OneFlagsEnd(fmt, i, k, k');
    OneWidth(fmt, i, k, args, r, r');
  }

  /** The parser finds what C reads: every flag, width and precision, the place of the letter and the
      arguments left. */
  lemma ParsedIs(fmt: string, i: nat, args: seq<Arg>, r: Reading)
    requires i <= |fmt| && Reads(fmt, i, args, r)
    ensures var c := Parsed(fmt, i, args); r == AsRead(c, r.point) && (r.point <==> c.precision >= 0)
    ensures r.at <= |fmt|
  {
    var r' := ParserReads(fmt, i, args);
    ReadsOnce(fmt, i, args, r, r');
  }

  // ----- fields -----

  predicate Only(s: string, c: char) {
    forall k :: 0 <= k < |s| ==> s[k] == c
  }

  /** `out` is `head` and `digits` in a field of at least `width` places: with blanks behind them, with
      zeros between them, or with blanks in front of them. */
  predicate InField(out: string, head: string, digits: string, width: int, zero: bool, left: bool) {
    var n, h := |head| + |digits|, |head|;
    && |out| == (if width > n then width else n)
    && var pad := |out| - n;
       if left then out[..n] == head + digits && Only(out[n..], ' ')
       else if zero then out[..h] == head && Only(out[h..h + pad], '0') && out[h + pad..] == digits
       else Only(out[..pad], ' ') && out[pad..] == head + digits
  }

  lemma InFieldIs(out: string, head: string, digits: string, width: int, zero: bool, left: bool)
    ensures InField(out, head, digits, width, zero, left)
            <==> out == Fielded(head, digits, width - |head| - |digits|, zero, left)
  {
    var f := Fielded(head, digits, width - |head| - |digits|, zero, left);
    FieldedIn(head, digits, width, zero, left);
    if InField(out, head, digits, width, zero, left) { OneField(out, f, head, digits, width, zero, left); }
  }

  lemma FieldedIn(head: string, digits: string, width: int, zero: bool, left: bool)
    ensures InField(Fielded(head, digits, width - |head| - |digits|, zero, left), head, digits, width, zero, left)
  {
    var pad := width - |head| - |digits|;
    if left {
      TwoParts(head + digits, Rep(' ', pad));
    } else if zero {
      ThreeParts(head, Rep('0', pad), digits);
    } else {
      assert Rep(' ', pad) + head + digits == Rep(' ', pad) + (head + digits);
      TwoParts(Rep(' ', pad), head + digits);
    }
  }

  lemma TwoParts(a: string, b: string)
    ensures (a + b)[..|a|] == a && (a + b)[|a|..] == b
  {
  }

  lemma ThreeParts(a: string, b: string, c: string)
    ensures var s := a + b + c; s[..|a|] == a && s[|a|..|a| + |b|] == b && s[|a| + |b|..] == c
  {
  }

  lemma OneField(out: string, out': string, head: string, digits: string, width: int, zero: bool, left: bool)
    requires InField(out, head, digits, width, zero, left) && InField(out', head, digits, width, zero, left)
    ensures out == out'
  {
    var n, h := |head| + |digits|, |head|;
    var pad := |out| - n;
    if left {
      assert out == out[..n] + out[n..] && out' == out'[..n] + out'[n..];
    } else if zero {
      assert out == out[..h] + out[h..h + pad] + out[h + pad..] && out' == out'[..h] + out'[h..h + pad] + out'[h + pad..];
    } else {
      assert out == out[..pad] + out[pad..] && out' == out'[..pad] + out'[pad..];
    }
  }

  // ----- what C asks for -----

  /** The argument as the conversion sees it: `top` values, the upper half of them negative if it is signed. */
  function Word(r: Reading): (w: nat)
    ensures w < Top(r)
  {
    if r.args == [] || !r.args[0].Int? then 0 else r.args[0].value % 0x1_0000_0000 % Top(r)
  }

  function Top(r: Reading): nat {
    if r.half then 0x1_0000 else 0x1_0000_0000
  }

  predicate IsSigned(letter: char) {
    letter == 'd' || letter == 'i'
  }

  predicate Negative(r: Reading, letter: char) {
    IsSigned(letter) && 2 * Word(r) >= Top(r)
  }

  function Absolute(r: Reading, letter: char): (m: nat) {
    if Negative(r, letter) then Top(r) - Word(r) else Word(r)
  }

  function StandardSign(r: Reading, letter: char): string {
    if Negative(r, letter) then "-"
    else if IsSigned(letter) && r.plus then "+"
    else if IsSigned(letter) && r.space then " "
    else ""
  }

  function Mark(r: Reading, letter: char): string {
    if r.alt && Absolute(r, letter) != 0 && letter == 'x' then "0x"
    else if r.alt && Absolute(r, letter) != 0 && letter == 'X' then "0X"
    else ""
  }

  function Head(r: Reading, letter: char): string {
    StandardSign(r, letter) + Mark(r, letter)
  }

  function Numeral(m: nat, letter: char): string {
    if letter == 'o' then Octal(m)
    else if letter == 'x' || letter == 'X' then Digits(m, 16, letter == 'X')
    else Digits(m, 10, false)
  }

  /** As many digits as the precision asks for, and none for a zero with precision 0; with '#' an octal
      number begins with a zero. */
  function Shown(r: Reading, letter: char): string {
    var m := Absolute(r, letter);
    var digits := Numeral(m, letter);
    var full := if r.precision == 0 && m == 0 then "" else Rep('0', r.precision - |digits|) + digits;
    if letter == 'o' && r.alt && (full == "" || full[0] != '0') then "0" + full else full
  }

  /** `out` is what C asks of an integer conversion. The '0' flag counts only without a precision. */
  predicate StandardInteger(out: string, r: Reading, letter: char) {
    InField(out, Head(r, letter), Shown(r, letter), r.width, r.zero && !r.left && r.precision < 0, r.left)
  }

  /** `out` is what C asks of a string conversion: only the precision limits the text. */
  predicate StandardText(out: string, r: Reading, text: string) {
    InField(out, "", if 0 <= r.precision < |text| then text[..r.precision] else text, r.width, false, r.left)
  }

  predicate IsIntegral(letter: char) {
    IsInteger(letter) || letter == 'o'
  }

  lemma SameNumber(c: Conversion, letter: char, r: Reading)
    requires r == AsRead(c, r.point) && !c.flags.sign && !c.flags.large && IsIntegral(letter)
    ensures var num, f := NumberOf(c, letter), FlagsOf(letter, c.flags);
            Magnitude(num, f) == Absolute(r, letter) && SignOf(num, f) == StandardSign(r, letter)
  {
  }

  lemma SameDigits(c: Conversion, letter: char, r: Reading)
    requires r == AsRead(c, r.point) && !c.flags.sign && !c.flags.large && IsIntegral(letter)
    ensures var m, f := Absolute(r, letter), FlagsOf(letter, c.flags);
            StandardPrefix(m, BaseOf(letter), f) == Mark(r, letter) && StandardDigits(m, BaseOf(letter), c.asked, f) == Shown(r, letter)
    ensures letter != 'o' ==>
              Numeral(Absolute(r, letter), letter) == Digits(Absolute(r, letter), Radix(BaseOf(letter)), FlagsOf(letter, c.flags).large)
  {
  }

  lemma SameInteger(c: Conversion, letter: char, r: Reading, out: string)
    requires r == AsRead(c, r.point) && !c.flags.sign && !c.flags.large && IsIntegral(letter)
    ensures StandardInteger(out, r, letter)
            <==> out == StandardNumber(NumberOf(c, letter), BaseOf(letter), c.width, c.asked, FlagsOf(letter, c.flags))
  {
    SameStandard(c, letter, r);
    InFieldIs(out, Head(r, letter), Shown(r, letter), r.width, r.zero && !r.left && r.precision < 0, r.left);
  }

  lemma SameStandard(c: Conversion, letter: char, r: Reading)
    requires r == AsRead(c, r.point) && !c.flags.sign && !c.flags.large && IsIntegral(letter)
    ensures var head, digits := Head(r, letter), Shown(r, letter);
            StandardNumber(NumberOf(c, letter), BaseOf(letter), c.width, c.asked, FlagsOf(letter, c.flags))
            == Fielded(head, digits, r.width - |head| - |digits|, r.zero && !r.left && r.precision < 0, r.left)
  {
    SameNumber(c, letter, r);
    SameDigits(c, letter, r);
    StandardLaid(NumberOf(c, letter), BaseOf(letter), c.width, c.asked, FlagsOf(letter, c.flags), Head(r, letter), Shown(r, letter));
  }

  lemma StandardLaid(num: int, base: nat, width: int, asked: int, f: Flags, head: string, digits: string)
    requires -(WORD / 2) <= num < WORD / 2
    requires head == SignOf(num, f) + StandardPrefix(Magnitude(num, f), base, f)
    requires digits == StandardDigits(Magnitude(num, f), base, asked, f)
    ensures StandardNumber(num, base, width, asked, f)
            == Fielded(head, digits, width - |head| - |digits|, f.zero && !f.left && asked < 0, f.left)
  {
  }

  // ----- when the formatter meets it -----

  /** When a field without '#' is right: no precision is named, or a positive one without padding by zeros,
      or precision 0 for a zero that needs no padding. */
  predicate PlainField(r: Reading, m: nat, digits: nat, sign: nat) {
    || !r.point
    || (r.precision > 0 && (!r.zero || r.left || r.width <= sign + if r.precision < digits then digits else r.precision))
    || (r.precision == 0 && m == 0 && r.width <= sign)
  }

  /** With '#' no hexadecimal number but zero is right. */
  predicate NumberRight(r: Reading, letter: char) {
    && Mark(r, letter) == ""
    && PlainField(r, Absolute(r, letter), |Numeral(Absolute(r, letter), letter)|, |StandardSign(r, letter)|)
  }

  /** Octal numbers are right below 8 only, and with '#' only where the padding happens to put out the
      zero that is asked for. */
  predicate OctalRight(r: Reading) {
    var m := Word(r);
    && m < 8
    && if r.alt && (if m == 0 then r.precision == 0 else r.precision <= 1)
       then m > 0 && r.zero && !r.left && if r.point then r.precision == 1 && r.width == 2 else r.width >= 2
       else PlainField(r, m, 1, 0)
  }

  /** For every format and arguments, as C reads them: a decimal or hexadecimal conversion puts out the
      field that C asks for exactly when `NumberRight` holds. */
  lemma NumberRightIff(fmt: string, i: nat, args: seq<Arg>, r: Reading)
    requires i < |fmt| && fmt[i] == '%' && Reads(fmt, i + 1, args, r) && IsInteger(At(fmt, r.at))
    ensures StandardInteger(TurnAt(fmt, i, args).text, r, fmt[r.at]) <==> NumberRight(r, fmt[r.at])
  {
    Agreed(fmt, i + 1, args, r);
    IntegerTurn(fmt, i, args);
    NumberIff(Parsed(fmt, i + 1, args), fmt[r.at], r, TurnAt(fmt, i, args).text);
  }

  /** `r` is what C reads where the parser finds `c`. */
  predicate Agree(c: Conversion, r: Reading) {
    && r == AsRead(c, r.point) && (r.point <==> c.precision >= 0) && Asked(c.precision, c.asked)
    && !c.flags.sign && !c.flags.large
  }

  lemma Agreed(fmt: string, i: nat, args: seq<Arg>, r: Reading)
    requires i <= |fmt| && Reads(fmt, i, args, r)
    ensures var c := Parsed(fmt, i, args); Agree(c, r) && c.width >= -1 && c.at == r.at <= |fmt|
  {
    ParsedIs(fmt, i, args, r);
    ParsedAsks(fmt, i, args);
  }

  lemma NumberIff(c: Conversion, letter: char, r: Reading, out: string)
    requires Agree(c, r) && IsInteger(letter)
    requires out == Number(NumberOf(c, letter), BaseOf(letter), c.width, c.precision, FlagsOf(letter, c.flags))
    ensures StandardInteger(out, r, letter) <==> NumberRight(r, letter)
  {
    SameInteger(c, letter, r, out);
    SameNumber(c, letter, r);
    SameDigits(c, letter, r);
    NumberFieldIff(NumberOf(c, letter), BaseOf(letter), c.width, c.precision, c.asked, FlagsOf(letter, c.flags));
    PlainFieldIs(c, r, Absolute(r, letter), |Numeral(Absolute(r, letter), letter)|, |StandardSign(r, letter)|);
  }

  lemma PlainFieldIs(c: Conversion, r: Reading, m: nat, digits: nat, sign: nat)
    requires Agree(c, r)
    ensures PlainField(r, m, digits, sign) <==> PlainRight(m, digits, sign, c.width, c.precision, c.asked, c.flags.zero && !c.flags.left)
  {
  }

  /** The same for octal conversions. */
  lemma OctalRightIff(fmt: string, i: nat, args: seq<Arg>, r: Reading)
    requires i < |fmt| && fmt[i] == '%' && Reads(fmt, i + 1, args, r) && At(fmt, r.at) == 'o'
    ensures StandardInteger(TurnAt(fmt, i, args).text, r, 'o') <==> OctalRight(r)
  {
    Agreed(fmt, i + 1, args, r);
    IntegerTurn(fmt, i, args);
    OctalIff(Parsed(fmt, i + 1, args), r, TurnAt(fmt, i, args).text);
  }

  lemma OctalIff(c: Conversion, r: Reading, out: string)
    requires Agree(c, r) && out == Number(NumberOf(c, 'o'), 8, c.width, c.precision, c.flags)
    ensures StandardInteger(out, r, 'o') <==> OctalRight(r)
  {
    SameInteger(c, 'o', r, out);
    SameNumber(c, 'o', r);
    OctalFieldIff(NumberOf(c, 'o'), c.width, c.precision, c.asked, c.flags);
    PlainFieldIs(c, r, Word(r), 1, 0);
  }

  /** When a string field is right: the width does not cut, or with precision 0 there are only blanks that
      the field has room for. */
  predicate StringRight(r: Reading, text: string) {
    if r.precision == 0 then
      if r.width < 0 then text == "" else Only(if r.width < |text| then text[..r.width] else text, ' ')
    else r.width < 0 || r.width >= |text| || 0 <= r.precision <= r.width
  }

  /** The text of the next argument. */
  function Text(r: Reading): string {
    if r.args == [] || r.args[0].Int? then "" else if r.args[0].NullStr? then "(NULL)" else r.args[0].text
  }

  /** And for strings. */
  lemma StringRightIff(fmt: string, i: nat, args: seq<Arg>, r: Reading)
    requires i < |fmt| && fmt[i] == '%' && Reads(fmt, i + 1, args, r) && At(fmt, r.at) == 's'
    ensures StandardText(TurnAt(fmt, i, args).text, r, Text(r)) <==> StringRight(r, Text(r))
  {
    Agreed(fmt, i + 1, args, r);
    StringTurn(fmt, i, args, r);
    StringIff(Parsed(fmt, i + 1, args), r, Text(r), TurnAt(fmt, i, args).text);
  }

  lemma StringTurn(fmt: string, i: nat, args: seq<Arg>, r: Reading)
    requires i < |fmt| && fmt[i] == '%' && Agree(Parsed(fmt, i + 1, args), r) && At(fmt, r.at) == 's'
    ensures var c := Parsed(fmt, i + 1, args);
            var text := Cut(Text(r), c.width, c.precision);
            TurnAt(fmt, i, args).text == Justified(text, c.width - |text|, c.flags.left)
  {
    ConvertsString(fmt, Parsed(fmt, i + 1, args), r);
  }

  lemma ConvertsString(fmt: string, c: Conversion, r: Reading)
    requires c.at < |fmt| && fmt[c.at] == 's' && Agree(c, r)
    ensures var text := Cut(Text(r), c.width, c.precision);
            Converted(fmt, c).text == Justified(text, c.width - |text|, c.flags.left)
  {
  }

  lemma StringIff(c: Conversion, r: Reading, text: string, out: string)
    requires Agree(c, r) && c.width >= -1
    requires var cut := Cut(text, c.width, c.precision); out == Justified(cut, c.width - |cut|, c.flags.left)
    ensures StandardText(out, r, text) <==> StringRight(r, text)
  {
    StringFieldIff(text, c.width, c.precision, c.asked, c.flags.left);
    JustifiedIs(out, PrintfSpec.StandardText(text, c.asked), r.width, r.left);
    SameStringRight(r, text);
  }

  lemma SameStringRight(r: Reading, text: string)
    requires r.width >= -1
    ensures StringRight(r, text) <==> PrintfSpec.StringRight(text, r.width, r.precision)
  {
  }

  lemma JustifiedIs(out: string, text: string, width: int, left: bool)
    ensures InField(out, "", text, width, false, left) <==> out == Justified(text, width - |text|, left)
  {
    InFieldIs(out, "", text, width, false, left);
    assert "" + text == text && Rep(' ', width - |text|) + "" + text == Rep(' ', width - |text|) + text;
  }

  // ----- the other conversions, and what comes next -----

  /** A character is right always. */
  lemma CharacterRight(fmt: string, i: nat, args: seq<Arg>, r: Reading)
    requires i < |fmt| && fmt[i] == '%' && Reads(fmt, i + 1, args, r) && At(fmt, r.at) == 'c'
    ensures InField(TurnAt(fmt, i, args).text, "", [Character(r)], r.width, false, r.left)
  {
    Agreed(fmt, i + 1, args, r);
    ConvertsCharacter(fmt, Parsed(fmt, i + 1, args), r);
    JustifiedIs(Justified([Character(r)], r.width - 1, r.left), [Character(r)], r.width, r.left);
  }

  function Character(r: Reading): char {
    (Word(r.(half := false)) % 256) as char
  }

  lemma ConvertsCharacter(fmt: string, c: Conversion, r: Reading)
    requires c.at < |fmt| && fmt[c.at] == 'c' && Agree(c, r)
    ensures Converted(fmt, c).text == Justified([Character(r)], r.width - 1, r.left)
  {
  }

  /** A pointer without a precision is a hexadecimal number, of eight digits unless a width is given. */
  lemma PointerField(fmt: string, i: nat, args: seq<Arg>, r: Reading)
    requires i < |fmt| && fmt[i] == '%' && Reads(fmt, i + 1, args, r) && At(fmt, r.at) == 'p' && !r.point
    ensures InField(TurnAt(fmt, i, args).text, "", Digits(Word(r.(half := false)), 16, false),
                    if r.width == -1 then 8 else r.width, (r.zero || r.width == -1) && !r.left, r.left)
  {
    Agreed(fmt, i + 1, args, r);
    var c := Parsed(fmt, i + 1, args);
    var digits, width, zero := Digits(Word(r.(half := false)), 16, false), if r.width == -1 then 8 else r.width, r.zero || r.width == -1;
    ConvertsPointer(fmt, c, r);
    UnlimitedShown("", digits, width, c.precision, c.precision, zero && !r.left, r.left);
    assert Rep('0', c.precision - |digits|) + digits == digits;
    InFieldIs(Converted(fmt, c).text, "", digits, width, zero && !r.left, r.left);
  }

  lemma ConvertsPointer(fmt: string, c: Conversion, r: Reading)
    requires c.at < |fmt| && fmt[c.at] == 'p' && Agree(c, r) && !r.point
    ensures Converted(fmt, c).text
            == Laid("", Digits(Word(r.(half := false)), 16, false), if r.width == -1 then 8 else r.width, c.precision,
                    (r.zero || r.width == -1) && !r.left, r.left)
  {
    var f := if c.width == -1 then c.flags.(zero := true) else c.flags;
    PointerNumber(fmt, c);
    PointerWord(TakeInt(c.args).0, f);
    assert TakeInt(c.args).0 == Word(r.(half := false));
  }

  lemma PointerWord(raw: nat, f: Flags)
    requires raw < WORD && !f.sign
    ensures SignOf(Signed(raw), f) == "" && Magnitude(Signed(raw), f) == raw
  {
  }

  lemma PointerNumber(fmt: string, c: Conversion)
    requires c.at < |fmt| && fmt[c.at] == 'p'
    ensures var wide := c.width == -1;
            Converted(fmt, c).text
              == Number(Signed(TakeInt(c.args).0), 16, if wide then 8 else c.width, c.precision,
                        if wide then c.flags.(zero := true) else c.flags)
  {
    assert At(fmt, c.at) == 'p';
    var raw, wide := TakeInt(c.args), c.width == -1;
    assert Converted(fmt, c)
           == Turn(Number(Signed(raw.0), 16, if wide then 8 else c.width, c.precision, if wide then c.flags.(zero := true) else c.flags),
                   c.at + 1, raw.1);
  }

  /** Plain text puts out itself, "%%" a percent sign, and an unknown letter itself behind one; a format
      that ends in a specification puts out a percent sign. Every other conversion goes on behind its
      letter, with the next argument. */
  lemma GoesOn(fmt: string, i: nat, args: seq<Arg>, r: Reading)
    requires i < |fmt| && (fmt[i] == '%' ==> Reads(fmt, i + 1, args, r))
    ensures var t := TurnAt(fmt, i, args);
            if fmt[i] != '%' then t == Turn([fmt[i]], i + 1, args)
            else r.at <= |fmt| && Follows(fmt, r, t)
  {
    if fmt[i] == '%' {
      Agreed(fmt, i + 1, args, r);
      ConvertedFollows(fmt, Parsed(fmt, i + 1, args), r);
    }
  }

  predicate Follows(fmt: string, r: Reading, t: Turn)
    requires r.at <= |fmt|
  {
    if r.at == |fmt| then t == Turn("%", |fmt|, r.args)
    else if fmt[r.at] == '%' then t == Turn("%", r.at + 1, r.args)
    else if fmt[r.at] in "cspoxXdiu" then t.next == r.at + 1 && t.args == if r.args == [] then [] else r.args[1..]
    else t == Turn(['%', fmt[r.at]], r.at + 1, r.args)
  }

  lemma ConvertedFollows(fmt: string, c: Conversion, r: Reading)
    requires c.at <= |fmt| && Agree(c, r)
    ensures Follows(fmt, r, Converted(fmt, c))
  {
  }

  /** The output is that of one turn and then of the rest, from where `GoesOn` says with what it says. */
  lemma TurnByTurn(fmt: string, i: nat, args: seq<Arg>, t: Turn)
    requires i < |fmt| && t == TurnAt(fmt, i, args)
    ensures Output(fmt, i, args) == t.text + Output(fmt, t.next, t.args)
  {
  }

  /** A text without percent signs comes out as it is. */
  lemma {:induction false} PlainFormat(fmt: string, i: nat, args: seq<Arg>)
    requires i <= |fmt| && forall k :: i <= k < |fmt| ==> fmt[k] != '%'
    ensures Output(fmt, i, args) == fmt[i..]
    decreases |fmt| - i
  {
    if i < |fmt| {
      PlainFormat(fmt, i + 1, args);
      assert fmt[i..] == [fmt[i]] + fmt[i + 1..];
    }
  }

  /** A numeral has no leading zero, and its letters are small or, for 'X', large. With the value of its
      digits that determines it. */
  lemma {:induction false} DigitsLook(n: nat, radix: nat, large: bool)
    requires radix == 10 || radix == 16
    ensures var s := Digits(n, radix, large);
            && (n > 0 ==> s[0] != '0')
            && forall k :: 0 <= k < |s| ==> '0' <= s[k] <= '9' || (radix == 16 && if large then 'A' <= s[k] <= 'F' else 'a' <= s[k] <= 'f')
  {
    if n >= radix { DigitsLook(n / radix, radix, large); }
  }
}
