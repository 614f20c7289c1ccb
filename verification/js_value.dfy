/** The small part of JavaScript's value semantics the application relies on:
    `String(v)` on property values, `parseInt` with no radix, `padStart`,
    `repeat`, `toLowerCase` on ASCII letters and the `<` order on strings. */
module JsValue {
  import opened Wrappers

  /** A property value of a record. Integers stand for the numbers the
      application looks up by; non-integer numbers and objects are not
      modelled as column values. */
  datatype Value = Undefined | Null | Bool(b: bool) | Int(i: int) | Str(s: string)

  predicate IsDecimalDigit(c: char) {
    '0' <= c <= '9'
  }

  function DigitChar(d: nat): (c: char)
    requires d < 10
    ensures IsDecimalDigit(c)
  {
    ('0' as int + d) as char
  }

  /** Decimal digits of a natural number, most significant first. */
  function NatString(n: nat): (s: string)
    ensures |s| > 0
    ensures forall i | 0 <= i < |s| :: IsDecimalDigit(s[i])
    ensures s[0] == '0' ==> n == 0
    decreases n
  {
    if n < 10 then [DigitChar(n)] else NatString(n / 10) + [DigitChar(n % 10)]
  }

  /** `Number.prototype.toString()` on an integer. */
  function DecimalString(n: int): string {
    if n < 0 then "-" + NatString(-n) else NatString(n)
  }

  /** `String(v)`: the key under which a value is indexed or compared. */
  function StringOf(v: Value): string {
    match v
    case Undefined => "undefined"
    case Null => "null"
    case Bool(b) => if b then "true" else "false"
    case Int(i) => DecimalString(i)
    case Str(s) => s
  }

  // ---------------------------------------------------------------------
  // parseInt(s) with the radix left undefined
  // ---------------------------------------------------------------------

  /** White space and line terminators that `parseInt` skips: tab, the
      vertical tab, form feed, space, NBSP and the BOM, every other space
      separator (category Zs) of Unicode, and the line terminators LF, CR,
      LS and PS. */
  predicate IsWhiteSpace(c: char) {
    c == ' ' || c == '\t' || c == '\n' || c == '\r' || c as int == 0x0B || c as int == 0x0C
    || c as int == 0xA0 || c as int == 0xFEFF || c as int == 0x2028 || c as int == 0x2029
    || c as int == 0x1680 || 0x2000 <= c as int <= 0x200A || c as int == 0x202F
    || c as int == 0x205F || c as int == 0x3000
  }

  function TrimStart(s: string): (t: string)
    ensures |t| <= |s| && t == s[|s| - |t|..]
    ensures |t| == 0 || !IsWhiteSpace(t[0])
    ensures forall i | 0 <= i < |s| - |t| :: IsWhiteSpace(s[i])
  {
    if |s| > 0 && IsWhiteSpace(s[0]) then TrimStart(s[1..]) else s
  }

  /** The value of `c` as a digit in any radix up to 36, or 36 when it is no digit. */
  function DigitValue(c: char): (d: nat)
    ensures d <= 36
  {
    if '0' <= c <= '9' then c as int - '0' as int
    else if 'a' <= c <= 'z' then c as int - 'a' as int + 10
    else if 'A' <= c <= 'Z' then c as int - 'A' as int + 10
    else 36
  }

  predicate IsDigitIn(c: char, radix: nat) {
    DigitValue(c) < radix
  }

  /** Length of the longest prefix of `s` made of digits in `radix`. */
  function DigitPrefixLength(s: string, radix: nat): (n: nat)
    ensures n <= |s|
    ensures forall i | 0 <= i < n :: IsDigitIn(s[i], radix)
    ensures n < |s| ==> !IsDigitIn(s[n], radix)
  {
    if |s| == 0 || !IsDigitIn(s[0], radix) then 0 else 1 + DigitPrefixLength(s[1..], radix)
  }

  /** Positional value of a digit string, most significant digit first. */
  function DigitsValue(s: string, radix: nat): nat {
    if |s| == 0 then 0
    else DigitsValue(s[..|s| - 1], radix) * radix + DigitValue(s[|s| - 1])
  }

  /** Splits off an optional leading sign: whether it was `-`, and the rest. */
  function SplitSign(t: string): (bool, string) {
    if |t| > 0 && (t[0] == '-' || t[0] == '+') then (t[0] == '-', t[1..]) else (false, t)
  }

  /** Splits off a `0x`/`0X` prefix: the radix it selects, and the rest. */
  function SplitRadix(u: string): (nat, string) {
    if |u| >= 2 && u[0] == '0' && (u[1] == 'x' || u[1] == 'X') then (16, u[2..]) else (10, u)
  }

  /** `parseInt(s)`: skip leading white space, read an optional sign, read a
      `0x`/`0X` prefix as radix 16, then the longest digit prefix. `None`
      is NaN (no digit at all). */
  function ParseInt(s: string): Option<int> {
    ParseTrimmed(TrimStart(s))
  }

  /** `parseInt` after the leading white space is gone. */
  function ParseTrimmed(t: string): Option<int> {
    var (negative, u) := SplitSign(t);
    var (radix, v) := SplitRadix(u);
    var n := DigitPrefixLength(v, radix);
    if n == 0 then None
    else
      var magnitude: int := DigitsValue(v[..n], radix);
      Some(if negative then -magnitude else magnitude)
  }

  lemma {:induction false} DigitsValueOfNatString(n: nat)
    ensures DigitsValue(NatString(n), 10) == n
    decreases n
  {
    var s := NatString(n);
    if n < 10 {
      assert s[..0] == [];
    } else {
      DigitsValueOfNatString(n / 10);
      assert s[..|s| - 1] == NatString(n / 10);
    }
  }

  lemma NatStringIsAllDigits(n: nat)
    ensures DigitPrefixLength(NatString(n), 10) == |NatString(n)|
  {
  }

  /** The digits of a natural number, read after an optional sign. */
  lemma ParseDigitsOfNatString(m: nat)
    ensures SplitRadix(NatString(m)) == (10, NatString(m))
    ensures DigitsValue(NatString(m)[..DigitPrefixLength(NatString(m), 10)], 10) == m
  {
    var digits := NatString(m);
    NatStringIsAllDigits(m);
    DigitsValueOfNatString(m);
    assert digits[..|digits|] == digits;
  }

  /** `parseInt(String(n)) === n`: printing an integer and parsing it back
      is the identity. */
  lemma ParseIntOfDecimalString(n: int)
    ensures ParseInt(DecimalString(n)) == Some(n)
  {
    var m: nat := if n < 0 then -n else n;
    var s := DecimalString(n);
    assert TrimStart(s) == s by {
      assert s[0] == '-' || IsDecimalDigit(s[0]);
    }
    ParseDigitsOfNatString(m);
    NatStringIsAllDigits(m);
    if n < 0 {
      assert SplitSign(s) == (true, NatString(m));
    } else {
      assert SplitSign(s) == (false, NatString(m));
    }
  }

  /** `parseInt` skips a leading white space character, the ideographic
      space U+3000 included. */
  lemma ParseIntSkipsSpace(c: char, s: string)
    requires IsWhiteSpace(c)
    ensures ParseInt([c] + s) == ParseInt(s)
  {
    assert ([c] + s)[1..] == s;
  }

  /** Distinct integers stringify differently, so an integer needle never
      matches the key of another integer. */
  lemma DecimalStringInjective(a: int, b: int)
    ensures DecimalString(a) == DecimalString(b) <==> a == b
  {
    ParseIntOfDecimalString(a);
    ParseIntOfDecimalString(b);
  }

  /** The key coincidence `$find` and `$query` rely on: an integer needle
      finds a string column value, and the other way round, exactly when the
      string is the integer's decimal form, the one `parseInt` reads back. */
  lemma IntAndStringFormShareKey(n: int, s: string)
    ensures StringOf(Int(n)) == StringOf(Str(s)) <==> ParseInt(s) == Some(n) && s == DecimalString(n)
  {
    ParseIntOfDecimalString(n);
  }

  // ---------------------------------------------------------------------
  // UTF-16 code units
  // ---------------------------------------------------------------------

  /** The UTF-16 code units of one character: the character itself below
      U+10000, otherwise a high and a low surrogate. */
  function CodeUnits(c: char): (u: seq<int>)
    ensures |u| == if c as int < 0x10000 then 1 else 2
    ensures forall i | 0 <= i < |u| :: 0 <= u[i] < 0x10000
    ensures 0xD800 <= u[0] < 0xDC00 <==> c as int >= 0x10000
  {
    if c as int < 0x10000 then [c as int]
    else [0xD800 + (c as int - 0x10000) / 0x400, 0xDC00 + (c as int - 0x10000) % 0x400]
  }

  /** A string as JavaScript holds it: the sequence of its UTF-16 code units. */
  function Units(s: string): seq<int> {
    if |s| == 0 then [] else CodeUnits(s[0]) + Units(s[1..])
  }

  /** `s.length`, counted in code units. */
  function Utf16Length(s: string): nat {
    |Units(s)|
  }

  lemma {:induction false} UnitsOfConcat(a: string, b: string)
    ensures Units(a + b) == Units(a) + Units(b)
    decreases |a|
  {
    if |a| == 0 {
      assert a + b == b;
    } else {
      assert (a + b)[1..] == a[1..] + b;
      UnitsOfConcat(a[1..], b);
    }
  }

  lemma {:induction false} UnitsOfRepeat(c: char, n: nat)
    requires c as int < 0x10000
    ensures Utf16Length(Repeat(c, n)) == n
    decreases n
  {
    if n > 0 {
      assert Repeat(c, n)[1..] == Repeat(c, n - 1);
      UnitsOfRepeat(c, n - 1);
    }
  }

  /** A character's code units determine the character. */
  lemma CodeUnitsInjective(c: char, d: char)
    ensures CodeUnits(c) == CodeUnits(d) ==> c == d
  {
    if CodeUnits(c) == CodeUnits(d) && c as int >= 0x10000 {
      var v, w := c as int - 0x10000, d as int - 0x10000;
      assert v / 0x400 == w / 0x400 && v % 0x400 == w % 0x400;
      assert v == 0x400 * (v / 0x400) + v % 0x400;
      assert w == 0x400 * (w / 0x400) + w % 0x400;
    }
  }

  /** Different strings have different code units: the encoding loses
      nothing. */
  lemma {:induction false} UnitsInjective(a: string, b: string)
    ensures Units(a) == Units(b) ==> a == b
    decreases |a|
  {
    if Units(a) == Units(b) {
      if |a| == 0 {
        assert |b| == 0;
      } else {
        assert |b| > 0;
        var ua, ub := CodeUnits(a[0]), CodeUnits(b[0]);
        assert ua[0] == Units(a)[0] && ub[0] == Units(b)[0];
        assert |ua| == |ub|;
        assert ua == Units(a)[..|ua|] && ub == Units(b)[..|ub|];
        CodeUnitsInjective(a[0], b[0]);
        assert Units(a[1..]) == Units(a)[|ua|..] && Units(b[1..]) == Units(b)[|ub|..];
        UnitsInjective(a[1..], b[1..]);
        assert a == [a[0]] + a[1..] && b == [b[0]] + b[1..];
      }
    }
  }

  // ---------------------------------------------------------------------
  // String helpers
  // ---------------------------------------------------------------------

  /** `c.repeat(n)` for a one-character string and n >= 0. */
  function Repeat(c: char, n: nat): (r: string)
    ensures |r| == n
    ensures forall i | 0 <= i < n :: r[i] == c
  {
    seq(n, _ => c)
  }

  /** `s.padStart(n, fill)` with a fill of one character below U+10000 (one
      code unit): `s` itself when it is already n code units long, otherwise
      fill characters in front up to a length of n code units. */
  function PadStart(s: string, n: nat, fill: char): (r: string)
    requires fill as int < 0x10000
    ensures Utf16Length(r) == if Utf16Length(s) >= n then Utf16Length(s) else n
    ensures |s| <= |r| && r[|r| - |s|..] == s
    ensures forall i | 0 <= i < |r| - |s| :: r[i] == fill
  {
    if Utf16Length(s) >= n then s
    else
      UnitsOfConcat(Repeat(fill, n - Utf16Length(s)), s);
      UnitsOfRepeat(fill, n - Utf16Length(s));
      Repeat(fill, n - Utf16Length(s)) + s
  }

  /** A character above U+FFFF already has length 2: padding it to two code
      units adds nothing, and to three adds one fill character. */
  lemma PadStartCountsCodeUnits(c: char)
    requires c as int >= 0x10000
    ensures PadStart([c], 2, '0') == [c]
    ensures PadStart([c], 3, '0') == ['0', c]
  {
    assert Units([c]) == CodeUnits(c) by {
      assert [c][1..] == [];
    }
    assert Repeat('0', 1) + [c] == ['0', c];
  }

  function LowerChar(c: char): (d: char)
    ensures 'A' <= c <= 'Z' ==> d as int == c as int + 32
    ensures !('A' <= c <= 'Z') ==> d == c
  {
    if 'A' <= c <= 'Z' then (c as int + 32) as char else c
  }

  /** `s.toLowerCase()` on ASCII letters. */
  function ToLower(s: string): (r: string)
    ensures |r| == |s|
    ensures forall i | 0 <= i < |s| :: r[i] == LowerChar(s[i])
  {
    seq(|s|, i requires 0 <= i < |s| => LowerChar(s[i]))
  }

  // ---------------------------------------------------------------------
  // The order `<` on strings
  // ---------------------------------------------------------------------

  /** Lexicographic order on code unit sequences, a proper prefix being smaller. */
  predicate UnitsLess(a: seq<int>, b: seq<int>)
    decreases |a|
  {
    if |a| == 0 then |b| > 0
    else if |b| == 0 then false
    else if a[0] != b[0] then a[0] < b[0]
    else UnitsLess(a[1..], b[1..])
  }

  /** JavaScript `a < b` on strings: lexicographic by UTF-16 code unit, so a
      character above U+FFFF compares by its high surrogate. */
  predicate StrLess(a: string, b: string) {
    UnitsLess(Units(a), Units(b))
  }

  /** A character above U+FFFF sorts before one from U+E000 to U+FFFF,
      although its code point is larger. */
  lemma SurrogatesSortLow(c: char, d: char)
    requires c as int >= 0x10000 && 0xE000 <= d as int < 0x10000
    ensures StrLess([c], [d]) && !StrLess([d], [c])
  {
    var cu, du := CodeUnits(c), CodeUnits(d);
    assert Units([c]) == cu by {
      assert [c][1..] == [];
    }
    assert Units([d]) == du by {
      assert [d][1..] == [];
    }
    assert cu[0] < du[0];
  }

  lemma {:induction false} UnitsLessIrreflexive(a: seq<int>)
    ensures !UnitsLess(a, a)
    decreases |a|
  {
    if |a| > 0 {
      UnitsLessIrreflexive(a[1..]);
    }
  }

  lemma {:induction false} UnitsLessTotal(a: seq<int>, b: seq<int>)
    ensures a == b || UnitsLess(a, b) || UnitsLess(b, a)
    decreases |a|
  {
    if |a| > 0 && |b| > 0 && a[0] == b[0] {
      UnitsLessTotal(a[1..], b[1..]);
      if a[1..] == b[1..] {
        assert a == [a[0]] + a[1..] && b == [b[0]] + b[1..];
      }
    }
  }

  lemma {:induction false} UnitsLessAsymmetric(a: seq<int>, b: seq<int>)
    ensures UnitsLess(a, b) ==> !UnitsLess(b, a)
    decreases |a|
  {
    if |a| > 0 && |b| > 0 && a[0] == b[0] {
      UnitsLessAsymmetric(a[1..], b[1..]);
    }
  }

  lemma {:induction false} UnitsLessTransitive(a: seq<int>, b: seq<int>, c: seq<int>)
    ensures UnitsLess(a, b) && UnitsLess(b, c) ==> UnitsLess(a, c)
    decreases |a|
  {
    if |a| > 0 && |b| > 0 && |c| > 0 && a[0] == b[0] && b[0] == c[0] {
      UnitsLessTransitive(a[1..], b[1..], c[1..]);
    }
  }

  lemma StrLessIrreflexive(a: string)
    ensures !StrLess(a, a)
  {
    UnitsLessIrreflexive(Units(a));
  }

  /** Two different strings are always ordered one way or the other. */
  lemma StrLessTotal(a: string, b: string)
    ensures a == b || StrLess(a, b) || StrLess(b, a)
  {
    UnitsLessTotal(Units(a), Units(b));
    UnitsInjective(a, b);
  }

  lemma StrLessAsymmetric(a: string, b: string)
    ensures StrLess(a, b) ==> !StrLess(b, a)
  {
    UnitsLessAsymmetric(Units(a), Units(b));
  }

  lemma StrLessTransitive(a: string, b: string, c: string)
    ensures StrLess(a, b) && StrLess(b, c) ==> StrLess(a, c)
  {
    UnitsLessTransitive(Units(a), Units(b), Units(c));
  }
}
