/**
 * The ECMAScript built-ins the portfolio code calls: the white-space set of
 * section 12.2 (WhiteSpace) and 12.3 (LineTerminator) of ECMA-262,
 * `String.prototype.trim`, `String.prototype.split` with a one-character
 * separator, the global `parseInt` (section 19.2.5 of ECMA-262), the UTF-16
 * `length` of a string and `Array.prototype.find`.
 */
module JsBuiltins {
  import opened Wrappers

  /** StrWhiteSpaceChar: WhiteSpace (TAB, VT, FF, ZWNBSP and the Zs category) or LineTerminator. */
  predicate IsJsWhitespace(c: char) {
    var n := c as int;
    || n == 0x09 || n == 0x0B || n == 0x0C || n == 0xFEFF
    || n == 0x20 || n == 0xA0 || n == 0x1680 || (0x2000 <= n <= 0x200A)
    || n == 0x202F || n == 0x205F || n == 0x3000
    || n == 0x0A || n == 0x0D || n == 0x2028 || n == 0x2029
  }

  /** Drops the leading white space (TrimString with `start`). */
  function TrimStart(s: string): (r: string)
    ensures |r| <= |s| && r == s[|s| - |r|..]
    ensures forall i :: 0 <= i < |s| - |r| ==> IsJsWhitespace(s[i])
    ensures r == [] || !IsJsWhitespace(r[0])
  {
    if s != [] && IsJsWhitespace(s[0]) then
      var r := TrimStart(s[1..]);
      assert forall i :: 1 <= i < |s| ==> s[i] == s[1..][i - 1];
      r
    else s
  }

  /** Drops the trailing white space (TrimString with `end`). */
  function TrimEnd(s: string): (r: string)
    ensures |r| <= |s| && r == s[..|r|]
    ensures forall i :: |r| <= i < |s| ==> IsJsWhitespace(s[i])
    ensures r == [] || !IsJsWhitespace(r[|r| - 1])
  {
    if s != [] && IsJsWhitespace(s[|s| - 1]) then
      var r := TrimEnd(s[..|s| - 1]);
      assert forall i :: 0 <= i < |s| - 1 ==> s[i] == s[..|s| - 1][i];
      r
    else s
  }

  /** `s.trim()`: both ends of `s` without their white space. */
  function Trim(s: string): (r: string)
    ensures |r| <= |s|
    ensures r == [] || (!IsJsWhitespace(r[0]) && !IsJsWhitespace(r[|r| - 1]))
  {
    TrimEnd(TrimStart(s))
  }

  /**
   * What `trim` keeps: the part of `s` between its longest white-space
   * prefix and its longest white-space suffix, starting at position `i`.
   */
  lemma TrimInfix(s: string) returns (i: int)
    ensures 0 <= i <= i + |Trim(s)| <= |s|
    ensures forall k :: 0 <= k < |Trim(s)| ==> Trim(s)[k] == s[i + k]
    ensures forall k :: 0 <= k < i ==> IsJsWhitespace(s[k])
    ensures forall k :: i + |Trim(s)| <= k < |s| ==> IsJsWhitespace(s[k])
  {
    var t := TrimStart(s);
    var r := TrimEnd(t);
    i := |s| - |t|;
    assert t == s[i..];
    assert r == t[..|r|];
    forall k | 0 <= k < |r| ensures r[k] == s[i + k] {
      assert r[k] == t[k];
    }
    forall k | i + |r| <= k < |s| ensures IsJsWhitespace(s[k]) {
      assert s[k] == t[k - i];
    }
  }

  /** How many times `c` occurs in `s`. */
  function Count(s: string, c: char): nat {
    if s == [] then 0 else (if s[0] == c then 1 else 0) + Count(s[1..], c)
  }

  /** `pieces.join(sep)`, the inverse of Split. */
  function Join(pieces: seq<string>, sep: char): string {
    if |pieces| == 0 then ""
    else if |pieces| == 1 then pieces[0]
    else pieces[0] + [sep] + Join(pieces[1..], sep)
  }

  /**
   * `s.split(sep)` for a one-character separator: the pieces between
   * separators, empty pieces included, so there is always at least one.
   */
  function Split(s: string, sep: char): (r: seq<string>)
    ensures |r| == Count(s, sep) + 1
    ensures forall i :: 0 <= i < |r| ==> sep !in r[i]
    ensures Join(r, sep) == s
  {
    if s == [] then [""]
    else
      var rest := Split(s[1..], sep);
      if s[0] == sep then [""] + rest
      else
        assert Join(rest, sep) == s[1..];
        JoinHead(s[0], rest, sep);
        [[s[0]] + rest[0]] + rest[1..]
  }

  /** A leading character other than the separator starts the first piece. */
  lemma SplitCons(c: char, s: string, sep: char)
    requires c != sep
    ensures Split([c] + s, sep) == [[c] + Split(s, sep)[0]] + Split(s, sep)[1..]
  {
    assert ([c] + s)[1..] == s;
  }

  /** A leading separator ends an empty first piece. */
  lemma SplitSep(s: string, sep: char)
    ensures Split([sep] + s, sep) == [""] + Split(s, sep)
  {
    assert ([sep] + s)[1..] == s;
  }

  /** Prepending a character to the first piece prepends it to the joined string. */
  lemma JoinHead(c: char, pieces: seq<string>, sep: char)
    requires |pieces| >= 1
    ensures Join([[c] + pieces[0]] + pieces[1..], sep) == [c] + Join(pieces, sep)
  {
    var p := [[c] + pieces[0]] + pieces[1..];
    assert p[1..] == pieces[1..];
  }

  /** Splitting a join of separator-free pieces gives the pieces back. */
  lemma {:induction false} SplitJoin(pieces: seq<string>, sep: char)
    requires |pieces| >= 1
    requires forall i :: 0 <= i < |pieces| ==> sep !in pieces[i]
    ensures Split(Join(pieces, sep), sep) == pieces
    decreases |pieces|, |pieces[0]|
  {
    if pieces[0] == [] {
      if |pieces| == 1 {
      } else {
        var tail := pieces[1..];
        assert Join(pieces, sep) == [sep] + Join(tail, sep);
        SplitJoin(tail, sep);
        assert [sep] + Join(tail, sep) != [];
        assert ([sep] + Join(tail, sep))[1..] == Join(tail, sep);
        assert pieces == [""] + tail;
      }
    } else {
      var c := pieces[0][0];
      var shorter := [pieces[0][1..]] + pieces[1..];
      assert shorter[1..] == pieces[1..];
      assert forall i :: 0 <= i < |shorter| ==> sep !in shorter[i] by {
        forall i | 0 <= i < |shorter| ensures sep !in shorter[i] {
          if i == 0 {
            assert forall x :: x in pieces[0][1..] ==> x in pieces[0];
          } else {
            assert shorter[i] == pieces[i];
          }
        }
      }
      SplitJoin(shorter, sep);
      JoinHead(c, shorter, sep);
      assert [c] + pieces[0][1..] == pieces[0];
      assert [[c] + shorter[0]] + shorter[1..] == pieces;
      var s := Join(pieces, sep);
      assert s == [c] + Join(shorter, sep);
      assert s[1..] == Join(shorter, sep);
      assert c != sep;
      var rest := Split(s[1..], sep);
      assert rest == shorter;
    }
  }

  /** The number of UTF-16 code units of `s`: JavaScript's `s.length`. */
  function Utf16Length(s: string): (n: nat)
    ensures |s| <= n <= 2 * |s|
    ensures (forall i :: 0 <= i < |s| ==> s[i] < '\U{10000}') ==> n == |s|
  {
    if s == [] then 0 else (if s[0] < '\U{10000}' then 1 else 2) + Utf16Length(s[1..])
  }

  /** `xs.find(p)`: the first element satisfying `p`, or `undefined`. */
  function Find<T>(xs: seq<T>, p: T -> bool): (r: Option<T>)
    ensures r.None? <==> forall i :: 0 <= i < |xs| ==> !p(xs[i])
    ensures r.Some? ==> exists i :: 0 <= i < |xs| && xs[i] == r.value && p(xs[i]) &&
                                    forall j :: 0 <= j < i ==> !p(xs[j])
  {
    if xs == [] then None
    else if p(xs[0]) then Some(xs[0])
    else
      var r := Find(xs[1..], p);
      assert forall i :: 1 <= i < |xs| ==> xs[i] == xs[1..][i - 1];
      r
  }

  /** The position of the element `Find` returns: the first that satisfies `p`. */
  lemma FindIndex<T>(xs: seq<T>, p: T -> bool) returns (i: int)
    requires Find(xs, p).Some?
    ensures 0 <= i < |xs| && xs[i] == Find(xs, p).value && p(xs[i])
    ensures forall j :: 0 <= j < i ==> !p(xs[j])
  {
    i :| 0 <= i < |xs| && xs[i] == Find(xs, p).value && p(xs[i]) && forall j :: 0 <= j < i ==> !p(xs[j]);
  }

  // parseInt

  /** The value of `c` as a digit in `radix` (10 or 16), or -1 when it is not one. */
  function DigitValue(c: char, radix: nat): (d: int)
    ensures -1 <= d < radix
    ensures radix == 10 ==> (d >= 0 <==> '0' <= c <= '9')
  {
    var v :=
      if '0' <= c <= '9' then c as int - '0' as int
      else if 'a' <= c <= 'z' then c as int - 'a' as int + 10
      else if 'A' <= c <= 'Z' then c as int - 'A' as int + 10
      else -1;
    if 0 <= v < radix then v else -1
  }

  /** The longest prefix of `s` made of digits of `radix`. */
  function DigitPrefix(s: string, radix: nat): (z: string)
    ensures |z| <= |s| && z == s[..|z|]
    ensures forall i :: 0 <= i < |z| ==> DigitValue(z[i], radix) >= 0
    ensures |z| < |s| ==> DigitValue(s[|z|], radix) < 0
  {
    if s != [] && DigitValue(s[0], radix) >= 0 then [s[0]] + DigitPrefix(s[1..], radix) else []
  }

  /** The mathematical value of the digit string `z` in `radix`. */
  function DigitsValue(z: string, radix: nat): int
    requires forall i :: 0 <= i < |z| ==> DigitValue(z[i], radix) >= 0
  {
    if z == [] then 0
    else DigitsValue(z[..|z| - 1], radix) * radix + DigitValue(z[|z| - 1], radix)
  }

  /** DigitsValue is never negative. */
  function DigitsValueNat(z: string, radix: nat): (v: nat)
    requires forall i :: 0 <= i < |z| ==> DigitValue(z[i], radix) >= 0
    ensures v == DigitsValue(z, radix)
  {
    DigitsValueNonNegative(z, radix);
    DigitsValue(z, radix)
  }

  lemma {:induction false} DigitsValueNonNegative(z: string, radix: nat)
    requires forall i :: 0 <= i < |z| ==> DigitValue(z[i], radix) >= 0
    ensures DigitsValue(z, radix) >= 0
  {
    if z != [] {
      var y := z[..|z| - 1];
      assert forall i :: 0 <= i < |y| ==> y[i] == z[i];
      DigitsValueNonNegative(y, radix);
      var v := DigitsValue(y, radix);
      assert v * radix >= 0 by { MulNonNegative(v, radix); }
    }
  }

  lemma MulNonNegative(a: int, b: int)
    requires a >= 0 && b >= 0
    ensures a * b >= 0
  {
  }

  /**
   * The digits after the sign: a `0x`/`0X` prefix selects radix 16,
   * otherwise radix 10, and the longest run of digits that follows is the
   * value; nothing after it matters. None is NaN.
   */
  function ParseUnsigned(u: string): Option<nat>
  {
    var hex := |u| >= 2 && u[0] == '0' && (u[1] == 'x' || u[1] == 'X');
    var radix := if hex then 16 else 10;
    var z := DigitPrefix(if hex then u[2..] else u, radix);
    if z == [] then None else Some(DigitsValueNat(z, radix))
  }

  /**
   * `parseInt(s)` with no radix argument: None is NaN. Leading white space
   * is skipped and one `+` or `-` is taken as the sign. A negative zero is
   * the integer 0 (a Map lookup does not tell -0 from +0).
   */
  function ParseInt(s: string): (r: Option<int>)
  {
    ParseSigned(TrimStart(s))
  }

  /** parseInt on text that starts with no white space: an optional sign, then the digits. */
  function ParseSigned(t: string): (r: Option<int>)
  {
    if t != [] && t[0] == '-' then
      (match ParseUnsigned(t[1..]) case None => None case Some(n) => Some(-(n as int)))
    else if t != [] && t[0] == '+' then
      (match ParseUnsigned(t[1..]) case None => None case Some(n) => Some(n as int))
    else
      (match ParseUnsigned(t) case None => None case Some(n) => Some(n as int))
  }

  /** The decimal numeral of `n`, as `String(n)` writes it. */
  function DecimalString(n: nat): (s: string)
    ensures |s| >= 1
    ensures forall i :: 0 <= i < |s| ==> '0' <= s[i] <= '9'
    ensures |s| >= 2 ==> s[0] != '0'
  {
    var d := ['0' + (n % 10) as char];
    if n < 10 then d else DecimalString(n / 10) + d
  }

  /** The value of a decimal numeral is the number it was written from. */
  lemma {:induction false} DecimalStringValue(n: nat)
    ensures DigitsValue(DecimalString(n), 10) == n
  {
    var s := DecimalString(n);
    if n >= 10 {
      DecimalStringValue(n / 10);
      assert s[..|s| - 1] == DecimalString(n / 10);
    }
  }

  lemma {:induction false} DecimalPrefixDigits(d: string, rest: string)
    requires forall i :: 0 <= i < |d| ==> '0' <= d[i] <= '9'
    requires rest == [] || !('0' <= rest[0] <= '9')
    ensures DigitPrefix(d + rest, 10) == d
  {
    if d != [] {
      assert (d + rest)[1..] == d[1..] + rest;
      DecimalPrefixDigits(d[1..], rest);
    } else {
      assert d + rest == rest;
    }
  }

  /** A decimal numeral `d` followed by text that does not continue it reads as `d`'s value. */
  lemma UnsignedDecimalPrefix(d: string, rest: string)
    requires |d| >= 1 && forall i :: 0 <= i < |d| ==> '0' <= d[i] <= '9'
    requires rest == [] || !('0' <= rest[0] <= '9')
    requires !(d == "0" && rest != [] && (rest[0] == 'x' || rest[0] == 'X'))
    ensures ParseUnsigned(d + rest) == Some(DigitsValue(d, 10))
  {
    var u := d + rest;
    assert u[0] == d[0];
    assert |u| >= 2 && u[0] == '0' ==> (u[1] == 'x' || u[1] == 'X') == false by {
      if |u| >= 2 && u[0] == '0' {
        if |d| >= 2 { assert u[1] == d[1]; } else { assert u[1] == rest[0]; }
      }
    }
    DecimalPrefixDigits(d, rest);
  }

  /**
   * parseInt reads only the leading digits: a decimal numeral `d` followed
   * by text that does not start with a digit parses to the numeral's value
   * ("12abc" gives 12), unless `d` is "0" and the text starts with `x` or
   * `X`, which makes it a hexadecimal literal.
   */
  lemma DecimalPrefix(d: string, rest: string)
    requires |d| >= 1 && forall i :: 0 <= i < |d| ==> '0' <= d[i] <= '9'
    requires rest == [] || !('0' <= rest[0] <= '9')
    requires !(d == "0" && rest != [] && (rest[0] == 'x' || rest[0] == 'X'))
    ensures ParseInt(d + rest) == Some(DigitsValue(d, 10))
  {
    var s := d + rest;
    assert s[0] == d[0];
    assert !IsJsWhitespace(s[0]);
    assert TrimStart(s) == s;
    UnsignedDecimalPrefix(d, rest);
    assert s[0] != '-' && s[0] != '+';
  }

  /** parseInt reads back every number written in decimal. */
  lemma ParseIntDecimal(n: nat)
    ensures ParseInt(DecimalString(n)) == Some(n)
  {
    var d := DecimalString(n);
    DecimalStringValue(n);
    assert d + "" == d;
    DecimalPrefix(d, "");
  }

  /** The digits of a decimal numeral, after any sign, read back as its number. */
  lemma ParseUnsignedDecimal(n: nat)
    ensures ParseUnsigned(DecimalString(n)) == Some(n)
  {
    var d := DecimalString(n);
    DecimalStringValue(n);
    assert d + "" == d;
    UnsignedDecimalPrefix(d, "");
  }

  /** parseInt reads back every negative number written in decimal. */
  lemma ParseIntNegativeDecimal(n: nat)
    ensures ParseInt("-" + DecimalString(n)) == Some(-(n as int))
  {
    ParseUnsignedDecimal(n);
    NegatedParse(DecimalString(n));
  }

  /** A minus sign in front of the digits negates the value. */
  lemma NegatedParse(u: string)
    ensures ParseInt("-" + u) == match ParseUnsigned(u) case None => None case Some(n) => Some(-(n as int))
  {
    var m := "-" + u;
    assert m[0] == '-' && !IsJsWhitespace(m[0]);
    assert TrimStart(m) == m;
    assert m[1..] == u;
  }

  /** Worked example: a route parameter "12abc" reads as 12. */
  lemma ParseIntTrailingLetters()
    ensures ParseInt("12abc") == Some(12)
  {
    assert DigitsValue("1", 10) == 1 by { assert "1"[..0] == ""; }
    assert DigitsValue("12", 10) == 12 by { assert "12"[..1] == "1"; }
    assert "12" + "abc" == "12abc";
    DecimalPrefix("12", "abc");
  }

  /** Worked example: a fraction is cut at the point, "1.5" reads as 1. */
  lemma ParseIntFraction()
    ensures ParseInt("1.5") == Some(1)
  {
    assert DigitsValue("1", 10) == 1 by { assert "1"[..0] == ""; }
    assert "1" + ".5" == "1.5";
    DecimalPrefix("1", ".5");
  }

  /** Skipping a white-space prefix. */
  lemma {:induction false} TrimStartSkips(w: string, s: string)
    requires forall i :: 0 <= i < |w| ==> IsJsWhitespace(w[i])
    ensures TrimStart(w + s) == TrimStart(s)
  {
    if w != [] {
      assert (w + s)[0] == w[0];
      assert (w + s)[1..] == w[1..] + s;
      TrimStartSkips(w[1..], s);
    } else {
      assert w + s == s;
    }
  }

  /** Skipping a white-space suffix. */
  lemma {:induction false} TrimEndSkips(s: string, w: string)
    requires forall i :: 0 <= i < |w| ==> IsJsWhitespace(w[i])
    ensures TrimEnd(s + w) == TrimEnd(s)
  {
    if w != [] {
      var u := w[..|w| - 1];
      assert (s + w)[|s + w| - 1] == w[|w| - 1];
      assert (s + w)[..|s + w| - 1] == s + u;
      TrimEndSkips(s, u);
    } else {
      assert s + w == s;
    }
  }

  /** parseInt ignores leading white space. */
  lemma ParseIntLeadingWhitespace(w: string, s: string)
    requires forall i :: 0 <= i < |w| ==> IsJsWhitespace(w[i])
    ensures ParseInt(w + s) == ParseInt(s)
  {
    TrimStartSkips(w, s);
    assert TrimStart(w + s) == TrimStart(s);
  }

  /** Worked example: "-7" reads as -7. */
  lemma ParseIntMinus()
    ensures ParseInt("-7") == Some(-7)
  {
    assert DigitsValue("7", 10) == 7 by { assert "7"[..0] == ""; }
    assert "7" + "" == "7";
    UnsignedDecimalPrefix("7", "");
    NegatedParse("7");
    assert "-" + "7" == "-7";
  }

  /** Worked example: a `0x` prefix switches to base 16. */
  lemma ParseIntHex()
    ensures ParseInt("0x1A") == Some(26)
  {
    assert TrimStart("0x1A") == "0x1A";
    assert "0x1A"[2..] == "1A";
    assert DigitPrefix("1A", 16) == "1A" by {
      assert "1A"[1..] == "A";
      assert "A"[1..] == "";
    }
    assert DigitsValue("1A", 16) == 26 by { assert "1A"[..1] == "1"; }
  }

  /** Worked example: a word with no digits reads as NaN. */
  lemma ParseIntLetters()
    ensures ParseInt("abc") == None
  {
    assert TrimStart("abc") == "abc";
    assert DigitPrefix("abc", 10) == "";
  }

  /** Worked example: the empty string reads as NaN. */
  lemma ParseIntEmpty()
    ensures ParseInt("") == None
  {
    assert TrimStart("") == "";
    assert DigitPrefix("", 10) == "";
  }

  /** Worked example: a bare `0x` has no hexadecimal digits and reads as NaN. */
  lemma ParseIntBareHex()
    ensures ParseInt("0x") == None
  {
    assert TrimStart("0x") == "0x";
    assert ParseUnsigned("0x") == None by {
      assert "0x"[2..] == "";
      assert DigitPrefix("", 16) == "";
    }
    assert ParseSigned("0x") == None;
  }

}
