/**
 * `number_converter.py`: integers written in binary and in upper-case
 * hexadecimal, and read back with Python's `int(text, base)`, whose
 * accepted grammar is spelled out here for ASCII text.
 */
module NumberConverter {
  import opened Wrappers
  import opened Text

  predicate IsBase(base: nat) { base == 2 || base == 16 }

  /** `"0123456789ABCDEF"`; `str(d)` of a binary digit is its first two entries. */
  function Numeral(d: nat): (c: char)
    requires d < 16
    ensures IsDigit(c) || IsUpper(c)
  {
    "0123456789ABCDEF"[d]
  }

  /** The digits of `n` in `base`, most significant first, none for zero. */
  function DigitsOf(n: nat, base: nat): (r: string)
    requires IsBase(base)
    ensures (r == []) <==> n == 0
    ensures r != [] ==> r[0] != '0'
    ensures forall i :: 0 <= i < |r| ==> IsDigit(r[i]) || IsUpper(r[i])
  {
    if n == 0 then ""
    else
      var rest := DigitsOf(n / base, base);
      assert rest == [] ==> n % base != 0;
      rest + [Numeral(n % base)]
  }

  /** Python's `abs`. */
  function Abs(n: int): (r: nat)
    ensures r == n || r == -n
  {
    if n < 0 then -n else n
  }

  /** `decimal_to_binary` and `decimal_to_hex`: `"0"`, or an optional `-` and the digits of the magnitude. */
  function Format(n: int, base: nat): (r: string)
    requires IsBase(base)
  {
    if n == 0 then "0"
    else if n < 0 then "-" + DigitsOf(Abs(n), base)
    else DigitsOf(Abs(n), base)
  }

  /** Zero is `"0"`; otherwise a sign exactly for a negative number and digits without a leading zero. */
  lemma FormatShape(n: int, base: nat)
    requires IsBase(base)
    ensures n == 0 ==> Format(n, base) == "0"
    ensures n != 0 ==> var r := Format(n, base);
      var digits := if n < 0 then r[1..] else r;
      (r[0] == '-' <==> n < 0) && digits == DigitsOf(Abs(n), base)
      && digits != [] && digits[0] != '0'
  {
    if n < 0 {
      assert Format(n, base)[1..] == DigitsOf(Abs(n), base);
    }
  }

  /** `decimal_to_binary`. */
  method DecimalToBinary(decimalNum: int) returns (binary: string)
    ensures binary == Format(decimalNum, 2)
  {
    if decimalNum == 0 {
      return "0";
    }
    binary := "";
    var num := Abs(decimalNum);
    while num > 0
      invariant DigitsOf(num, 2) + binary == DigitsOf(Abs(decimalNum), 2)
    {
      binary := [Numeral(num % 2)] + binary;
      num := num / 2;
    }
    if decimalNum < 0 {
      binary := "-" + binary;
    }
  }

  /** `decimal_to_hex`. */
  method DecimalToHex(decimalNum: int) returns (hexNum: string)
    ensures hexNum == Format(decimalNum, 16)
  {
    if decimalNum == 0 {
      return "0";
    }
    hexNum := "";
    var num := Abs(decimalNum);
    while num > 0
      invariant DigitsOf(num, 16) + hexNum == DigitsOf(Abs(decimalNum), 16)
    {
      hexNum := [Numeral(num % 16)] + hexNum;
      num := num / 16;
    }
    if decimalNum < 0 {
      hexNum := "-" + hexNum;
    }
  }

  /** The value Python gives an ASCII digit or letter in any base up to 36. */
  function DigitValue(c: char): (r: Option<nat>)
    ensures r.Some? <==> IsDigit(c) || IsLetter(c)
    ensures r.Some? ==> r.value < 36
  {
    if IsDigit(c) then Some(c as int - '0' as int)
    else if IsUpper(c) then Some(c as int - 'A' as int + 10)
    else if IsLower(c) then Some(c as int - 'a' as int + 10)
    else None
  }

  predicate IsDigitIn(c: char, base: nat) {
    DigitValue(c).Some? && DigitValue(c).value < base
  }

  /**
   * A run of digits in `base` in which an underscore may stand between two
   * digits, but not first, last or next to another underscore.
   */
  predicate WellFormed(u: string, base: nat) {
    u != [] && u[0] != '_' && u[|u| - 1] != '_'
    && (forall i :: 0 <= i < |u| ==> u[i] == '_' || IsDigitIn(u[i], base))
    && (forall i :: 0 <= i < |u| - 1 ==> !(u[i] == '_' && u[i + 1] == '_'))
  }

  /** The value of the digits of `u`, underscores skipped. */
  function Value(u: string, base: nat): nat
    requires forall i :: 0 <= i < |u| ==> u[i] == '_' || IsDigitIn(u[i], base)
  {
    if u == [] then 0
    else if u[|u| - 1] == '_' then Value(u[..|u| - 1], base)
    else
      assert u[|u| - 1] == '_' || IsDigitIn(u[|u| - 1], base);
      Value(u[..|u| - 1], base) * base + DigitValue(u[|u| - 1]).value
  }

  /** One leading sign taken off: whether it was `-`, and what follows it. */
  function Unsign(t: string): (r: (bool, string))
    ensures r.0 <==> t != [] && t[0] == '-'
    ensures r.1 == if t != [] && (t[0] == '-' || t[0] == '+') then t[1..] else t
  {
    if t != [] && (t[0] == '-' || t[0] == '+') then (t[0] == '-', t[1..]) else (false, t)
  }

  /** The prefix `0b` (base 2) or `0x` (base 16), in either case, taken off, with one underscore after it. */
  function Unprefix(u: string, base: nat): (v: string)
    requires IsBase(base)
    ensures |u| < 2 || u[0] != '0' ==> v == u
    ensures |v| <= |u| && v == u[|u| - |v|..]
    ensures v != u ==> |u| - |v| <= 3
  {
    var letter := if base == 2 then 'b' else 'x';
    if |u| >= 2 && u[0] == '0' && ToLower(u[1]) == letter then
      (if |u| > 2 && u[2] == '_' then u[3..] else u[2..])
    else u
  }

  /**
   * The whitespace `int()` skips around a number: the ASCII space and `\t`
   * to `\r`, and every non-ASCII character `str.isspace` accepts.  The
   * separators `\x1c` to `\x1f` are not skipped, although `str.isspace`
   * accepts them.
   */
  predicate IntSpace(c: char) {
    IsSpace(c) && !('\U{1c}' <= c <= '\U{1f}')
  }

  function IntStripLeft(s: string): (r: string)
    ensures |r| <= |s| && r == s[|s| - |r|..]
    ensures r == [] || !IntSpace(r[0])
  {
    if s != [] && IntSpace(s[0]) then IntStripLeft(s[1..]) else s
  }

  function IntStripRight(s: string): (r: string)
    ensures |r| <= |s| && r == s[..|r|]
    ensures r == [] || !IntSpace(r[|r| - 1])
  {
    if s != [] && IntSpace(s[|s| - 1]) then IntStripRight(s[..|s| - 1]) else s
  }

  /** The text between the whitespace `int()` skips at either end. */
  function IntStrip(s: string): (r: string)
    ensures r == [] || (!IntSpace(r[0]) && !IntSpace(r[|r| - 1]))
    ensures |r| <= |s|
  {
    IntStripRight(IntStripLeft(s))
  }

  lemma IntStripNoSpace(s: string)
    requires s == [] || (!IntSpace(s[0]) && !IntSpace(s[|s| - 1]))
    ensures IntStrip(s) == s
  {
  }

  /** Skipping whitespace keeps every character that is not skipped. */
  lemma {:induction false} IntStripLeftKeeps(s: string, c: char)
    requires c in s && !IntSpace(c)
    ensures c in IntStripLeft(s)
    decreases |s|
  {
    if s[0] != c {
      assert c in s[1..];
      if IntSpace(s[0]) {
        IntStripLeftKeeps(s[1..], c);
      }
    }
  }

  lemma {:induction false} IntStripRightKeeps(s: string, c: char)
    requires c in s && !IntSpace(c)
    ensures c in IntStripRight(s)
    decreases |s|
  {
    if s[|s| - 1] != c {
      assert c in s[..|s| - 1];
      if IntSpace(s[|s| - 1]) {
        IntStripRightKeeps(s[..|s| - 1], c);
      }
    }
  }

  lemma IntStripKeeps(s: string, c: char)
    requires c in s && !IntSpace(c)
    ensures c in IntStrip(s)
  {
    IntStripLeftKeeps(s, c);
    IntStripRightKeeps(IntStripLeft(s), c);
  }

  /**
   * Python's `int(text, base)` for base 2 or 16: surrounding whitespace, one
   * sign, the prefix, then well-formed digits; `None` where Python raises
   * `ValueError`.
   */
  function IntOf(text: string, base: nat): (r: Option<int>)
    requires IsBase(base)
  {
    ReadStripped(IntStrip(text), base)
  }

  /** `int(text, base)` once the surrounding whitespace is gone. */
  function ReadStripped(t: string, base: nat): (r: Option<int>)
    requires IsBase(base)
  {
    var signed := Unsign(t);
    var v := Unprefix(signed.1, base);
    if !WellFormed(v, base) then None
    else if signed.0 then Some(-(Value(v, base) as int))
    else Some(Value(v, base))
  }

  /** `int(text, base)` as a reader of texts. */
  function Reader(base: nat): string -> Option<int>
    requires IsBase(base)
  {
    text => IntOf(text, base)
  }

  /** A leading `-` taken off, the rest read with `read` and negated. */
  function Signed(text: string, read: string -> Option<int>): Option<int> {
    if text != [] && text[0] == '-' then
      var r := read(text[1..]);
      if r.None? then None else Some(-r.value)
    else read(text)
  }

  /** `binary_to_decimal` and `hex_to_decimal`: a leading `-` is taken off and the rest read and negated. */
  function ParseSigned(text: string, base: nat): Option<int>
    requires IsBase(base)
  {
    Signed(text, Reader(base))
  }

  /** `binary_to_decimal`. */
  function BinaryToDecimal(binaryStr: string): (r: Option<int>)
    ensures r == ParseSigned(binaryStr, 2)
  {
    ParseSigned(binaryStr, 2)
  }

  /** `hex_to_decimal`. */
  function HexToDecimal(hexStr: string): (r: Option<int>)
    ensures r == ParseSigned(hexStr, 16)
  {
    ParseSigned(hexStr, 16)
  }

  /** Every numeral reads back as the digit it writes. */
  lemma NumeralValue(d: nat, base: nat)
    requires IsBase(base) && d < base
    ensures IsDigitIn(Numeral(d), base) && DigitValue(Numeral(d)).value == d
  {
  }

  /** The digits of `n` read back as `n`. */
  lemma {:induction false} DigitsValue(n: nat, base: nat)
    requires IsBase(base)
    ensures forall i :: 0 <= i < |DigitsOf(n, base)| ==> IsDigitIn(DigitsOf(n, base)[i], base)
    ensures Value(DigitsOf(n, base), base) == n
  {
    if n > 0 {
      var rest := DigitsOf(n / base, base);
      DigitsValue(n / base, base);
      NumeralValue(n % base, base);
      var r := DigitsOf(n, base);
      assert r == rest + [Numeral(n % base)];
      assert r[..|r| - 1] == rest;
    }
  }

  /** Python reads the digits of a positive `n`, as written, back as `n`. */
  lemma IntOfDigits(n: nat, base: nat)
    requires IsBase(base) && n > 0
    ensures IntOf(DigitsOf(n, base), base) == Some(n)
  {
    var r := DigitsOf(n, base);
    DigitsValue(n, base);
    PlainDigits(r, base);
  }

  /** Text with no skipped whitespace at either end is read as it stands. */
  lemma IntOfClean(text: string, base: nat)
    requires IsBase(base) && text != [] && !IntSpace(text[0]) && !IntSpace(text[|text| - 1])
    ensures IntOf(text, base) == ReadStripped(text, base)
  {
    IntStripNoSpace(text);
  }

  /** `int()` reads well-formed digits, with no prefix to take off, as their value. */
  lemma PlainDigits(u: string, base: nat)
    requires IsBase(base) && WellFormed(u, base) && (|u| < 2 || u[0] != '0')
    ensures IntOf(u, base) == Some(Value(u, base))
  {
    assert IsDigitIn(u[0], base) && IsDigitIn(u[|u| - 1], base);
    IntOfClean(u, base);
    ReadPlain(u, base);
  }

  lemma ReadPlain(u: string, base: nat)
    requires IsBase(base) && WellFormed(u, base) && (|u| < 2 || u[0] != '0')
    ensures ReadStripped(u, base) == Some(Value(u, base))
  {
    assert IsDigitIn(u[0], base);
    assert Unsign(u) == (false, u);
    assert Unprefix(u, base) == u;
  }

  /** `binary_to_decimal(decimal_to_binary(n)) == n` and the same in hexadecimal, for every integer. */
  lemma RoundTrip(n: int, base: nat)
    requires IsBase(base)
    ensures ParseSigned(Format(n, base), base) == Some(n)
  {
    if n == 0 {
      ZeroRoundTrip(base);
    } else if n < 0 {
      NegativeRoundTrip(n, base);
    } else {
      PositiveRoundTrip(n, base);
    }
  }

  lemma ZeroRoundTrip(base: nat)
    requires IsBase(base)
    ensures ParseSigned(Format(0, base), base) == Some(0)
  {
    ZeroReadsBack(base);
    SignedPlain("0", Reader(base), 0);
  }

  lemma PositiveRoundTrip(n: int, base: nat)
    requires IsBase(base) && n > 0
    ensures ParseSigned(Format(n, base), base) == Some(n)
  {
    var d := DigitsOf(Abs(n), base);
    assert Format(n, base) == d;
    IntOfDigits(Abs(n), base);
    SignedPlain(d, Reader(base), n);
  }

  lemma NegativeRoundTrip(n: int, base: nat)
    requires IsBase(base) && n < 0
    ensures ParseSigned(Format(n, base), base) == Some(n)
  {
    IntOfDigits(Abs(n), base);
    NegativeSigned(n, base, Reader(base));
  }

  lemma NegativeSigned(n: int, base: nat, read: string -> Option<int>)
    requires IsBase(base) && n < 0 && read(DigitsOf(Abs(n), base)) == Some(Abs(n))
    ensures Signed(Format(n, base), read) == Some(n)
  {
    FormatNegative(n, base);
    SignedMinus(DigitsOf(Abs(n), base), read, Abs(n));
  }

  lemma FormatNegative(n: int, base: nat)
    requires IsBase(base) && n < 0
    ensures Format(n, base) == "-" + DigitsOf(Abs(n), base)
  {
  }

  /** Without a leading `-` the text is read as it is. */
  lemma SignedPlain(d: string, read: string -> Option<int>, v: int)
    requires d != [] && d[0] != '-' && read(d) == Some(v)
    ensures Signed(d, read) == Some(v)
  {
  }

  /** A leading `-` negates what the rest reads as. */
  lemma SignedMinus(d: string, read: string -> Option<int>, v: int)
    requires read(d) == Some(v)
    ensures Signed("-" + d, read) == Some(-v)
  {
    var text := "-" + d;
    assert text[1..] == d;
  }

  lemma ZeroReadsBack(base: nat)
    requires IsBase(base)
    ensures IntOf("0", base) == Some(0)
  {
    assert WellFormed("0", base);
    PlainDigits("0", base);
    assert Value("0", base) == 0 by {
      assert "0"[..0] == "";
    }
  }

  /** The binary round trip. */
  lemma BinaryRoundTrip(n: int)
    ensures BinaryToDecimal(Format(n, 2)) == Some(n)
  {
    RoundTrip(n, 2);
  }

  /** The hexadecimal round trip. */
  lemma HexRoundTrip(n: int)
    ensures HexToDecimal(Format(n, 16)) == Some(n)
  {
    RoundTrip(n, 16);
  }

  /**
   * A text holding a character that is no digit of the base, no sign, no
   * underscore, no whitespace and no prefix letter reads as `None`.
   */
  lemma StrayCharRejected(text: string, base: nat, c: char)
    requires IsBase(base) && c in text
    requires !IsDigitIn(c, base) && c != '_' && c != '-' && c != '+' && !IntSpace(c)
             && ToLower(c) != 'b' && ToLower(c) != 'x'
    ensures ParseSigned(text, base) == None
  {
    if text != [] && text[0] == '-' {
      assert c in text[1..];
      IntOfRejects(text[1..], base, c);
    } else {
      IntOfRejects(text, base, c);
    }
  }

  /** The separators `\x1c` to `\x1f` around the digits are not skipped, so `int` raises and nothing is read. */
  lemma SeparatorNotSkipped()
    ensures BinaryToDecimal("\U{1c}1") == None
    ensures HexToDecimal("1\U{1f}") == None
  {
    assert "\U{1c}1"[0] == '\U{1c}';
    StrayCharRejected("\U{1c}1", 2, '\U{1c}');
    assert "1\U{1f}"[1] == '\U{1f}';
    StrayCharRejected("1\U{1f}", 16, '\U{1f}');
  }

  /** A no-break space before the digits is skipped. */
  lemma NoBreakSpaceSkipped()
    ensures IntOf("\U{a0}1", 2) == Some(1)
  {
    NoBreakSpaceStripped();
    OneIsOne();
  }

  lemma NoBreakSpaceStripped()
    ensures IntStrip("\U{a0}1") == "1"
  {
    var s, one := "\U{a0}1", "1";
    assert s[1..] == one;
    SkippedFirst(s);
    OneStripped();
  }

  lemma SkippedFirst(s: string)
    requires s != [] && s[0] == '\U{a0}'
    ensures IntStripLeft(s) == IntStripLeft(s[1..])
  {
    assert IntSpace(s[0]);
  }

  lemma OneStripped()
    ensures IntStrip("1") == "1"
  {
    var one := "1";
    assert !IntSpace(one[0]);
  }

  lemma OneIsOne()
    ensures ReadStripped("1", 2) == Some(1)
  {
    var one := "1";
    assert one[..0] == [];
    assert Value(one, 2) == 1;
    assert WellFormed(one, 2);
    ReadPlain(one, 2);
  }

  lemma IntOfRejects(s: string, base: nat, c: char)
    requires IsBase(base) && c in s
    requires !IsDigitIn(c, base) && c != '_' && c != '-' && c != '+' && !IntSpace(c)
             && ToLower(c) != 'b' && ToLower(c) != 'x'
    ensures IntOf(s, base) == None
  {
    IntStripKeeps(s, c);
    var t := IntStrip(s);
    var u := Unsign(t).1;
    assert c in u by {
      var j :| 0 <= j < |t| && t[j] == c;
      if t[0] == '-' || t[0] == '+' {
        assert u[j - 1] == c;
      }
    }
    UnprefixKeeps(u, base, c);
    NotWellFormedWith(Unprefix(u, base), base, c);
  }

  lemma UnprefixKeeps(u: string, base: nat, c: char)
    requires IsBase(base) && c in u
    requires !IsDigitIn(c, base) && c != '_' && ToLower(c) != 'b' && ToLower(c) != 'x'
    ensures c in Unprefix(u, base)
  {
    var v := Unprefix(u, base);
    var j :| 0 <= j < |u| && u[j] == c;
    assert IsDigitIn('0', base);
    if v != u {
      assert j != 0 && j != 1;
      assert j != 2 || |u| - |v| == 2;
      assert v[j - (|u| - |v|)] == c;
    }
  }

  lemma NotWellFormedWith(v: string, base: nat, c: char)
    requires c in v && !IsDigitIn(c, base) && c != '_'
    ensures !WellFormed(v, base)
  {
  }

  /** `int()` takes its own sign, so `binary_to_decimal("--1")` is 1, not an error. */
  lemma DoubleMinus()
    ensures BinaryToDecimal("--1") == Some(1)
  {
    MinusOneBinary();
    SignedMinus("-1", Reader(2), -1);
    assert "-" + "-1" == "--1";
  }

  lemma MinusOneBinary()
    ensures IntOf("-1", 2) == Some(-1)
  {
    assert WellFormed("1", 2);
    assert Value("1", 2) == 1 by {
      assert "1"[..0] == "";
    }
    assert "-1"[1..] == "1";
    NegatedDigits("-1", 2);
  }

  /** `int()` reads `-` and well-formed digits without a prefix as the negated value. */
  lemma NegatedDigits(t: string, base: nat)
    requires IsBase(base) && |t| >= 2 && t[0] == '-'
    requires WellFormed(t[1..], base) && (|t| < 3 || t[1] != '0')
    ensures IntOf(t, base) == Some(-(Value(t[1..], base) as int))
  {
    ReadNegated(t, base);
    assert IsDigitIn(t[1..][|t| - 2], base);
    IntOfClean(t, base);
  }

  lemma ReadNegated(t: string, base: nat)
    requires IsBase(base) && |t| >= 2 && t[0] == '-'
    requires WellFormed(t[1..], base) && (|t| < 3 || t[1] != '0')
    ensures ReadStripped(t, base) == Some(-(Value(t[1..], base) as int))
  {
    assert Unsign(t) == (true, t[1..]);
    assert Unprefix(t[1..], base) == t[1..];
  }

  /** `hex_to_decimal` reads lower-case digits as well as the upper-case ones it writes. */
  lemma LowerHexAccepted()
    ensures HexToDecimal("ff") == Some(255)
  {
    FfReads();
    SignedPlain("ff", Reader(16), 255);
  }

  lemma FfReads()
    ensures IntOf("ff", 16) == Some(255)
  {
    assert WellFormed("ff", 16);
    PlainDigits("ff", 16);
    FfValue();
  }

  lemma FfValue()
    ensures Value("ff", 16) == 255
  {
    assert Value("f", 16) == 15 by {
      assert "f"[..0] == "";
    }
    assert "ff"[..1] == "f";
  }

  /** A decimal digit beyond 1 is no binary digit. */
  lemma TwoIsNotBinary()
    ensures BinaryToDecimal("102") == None
  {
    StrayCharRejected("102", 2, '2');
  }
}
