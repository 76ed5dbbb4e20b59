/** `parseInt(string)` with no radix argument, as defined in section 19.2.5
    of ECMAScript 2023: skip leading white space and line terminators, take
    an optional sign, take a "0x"/"0X" prefix to mean radix 16 (radix 10
    otherwise), then read the longest prefix of radix digits. No digits gives
    NaN, here `None`. */
module JsNumber {
  import opened Records

  /** WhiteSpace (section 12.2) and LineTerminator (section 12.3) code points;
      the Zs category is listed out. */
  predicate IsSpace(c: char) {
    c == '\t' || c == '\U{000B}' || c == '\U{000C}' || c == ' ' || c == '\U{00A0}' || c == '\U{FEFF}'
    || c == '\U{1680}' || ('\U{2000}' <= c <= '\U{200A}') || c == '\U{202F}' || c == '\U{205F}'
    || c == '\U{3000}' || c == '\n' || c == '\r' || c == '\U{2028}' || c == '\U{2029}'
  }

  /** TrimString(s, start). */
  function TrimStart(s: string): (t: string)
    ensures |t| <= |s| && t == s[|s| - |t|..]
    ensures forall i :: 0 <= i < |s| - |t| ==> IsSpace(s[i])
    ensures t == [] || !IsSpace(t[0])
    decreases |s|
  {
    if s != [] && IsSpace(s[0]) then TrimStart(s[1..]) else s
  }

  /** The value of `c` as a digit in `radix` (10 or 16), if it is one. */
  function DigitValue(c: char, radix: nat): (d: Option<nat>)
    requires radix == 10 || radix == 16
    ensures d.Some? ==> d.value < radix
  {
    if '0' <= c <= '9' then Some(c as nat - '0' as nat)
    else if radix == 16 && 'a' <= c <= 'f' then Some(c as nat - 'a' as nat + 10)
    else if radix == 16 && 'A' <= c <= 'F' then Some(c as nat - 'A' as nat + 10)
    else None
  }

  predicate IsDigit(c: char, radix: nat)
    requires radix == 10 || radix == 16
  {
    DigitValue(c, radix).Some?
  }

  /** Length of the longest prefix of `s` made of radix digits (the index
      `end` of step 11). */
  function DigitPrefix(s: string, radix: nat): (n: nat)
    requires radix == 10 || radix == 16
    ensures n <= |s|
    ensures forall i :: 0 <= i < n ==> IsDigit(s[i], radix)
    ensures n < |s| ==> !IsDigit(s[n], radix)
    decreases |s|
  {
    if s != [] && IsDigit(s[0], radix) then 1 + DigitPrefix(s[1..], radix) else 0
  }

  /** The mathematical value of a string of radix digits, most significant first. */
  function DigitsValue(s: string, radix: nat): nat
    requires radix == 10 || radix == 16
    requires forall i :: 0 <= i < |s| ==> IsDigit(s[i], radix)
    decreases |s|
  {
    if s == [] then 0
    else
      assert IsDigit(s[|s| - 1], radix);
      DigitsValue(s[..|s| - 1], radix) * radix + DigitValue(s[|s| - 1], radix).value
  }

  /** `parseInt(s)`; `None` is NaN. A result of -0 is the integer 0. A number
      is read only when the string, past its leading white space, starts
      with a sign or a decimal digit; only a '-' gives a negative result. */
  function ParseInt(s: string): (r: Option<int>)
    ensures r.Some? ==>
      var t := TrimStart(s);
      t != [] && (t[0] == '-' || t[0] == '+' || IsDigit(t[0], 10))
    ensures var t := TrimStart(s);
      r.Some? && t != [] && t[0] != '-' ==> r.value >= 0
  {
    ParseTrimmed(TrimStart(s))
  }

  /** Steps 4 to 17, once the leading white space is gone: the sign, then the magnitude. */
  function ParseTrimmed(t: string): Option<int> {
    var negative := t != [] && t[0] == '-';
    var u := if t != [] && (t[0] == '-' || t[0] == '+') then t[1..] else t;
    match ParseUnsigned(u)
    case None => None
    case Some(m) => var v: int := m; Some(if negative then -v else v)
  }

  /** Steps 10 to 15: the radix prefix, then the digits. */
  function ParseUnsigned(u: string): Option<nat> {
    if HasHexPrefix(u) then ParseDigits(u[2..], 16) else ParseDigits(u, 10)
  }

  /** Steps 11 to 15: the value of the longest run of leading digits; none is NaN. */
  function ParseDigits(v: string, radix: nat): Option<nat>
    requires radix == 10 || radix == 16
  {
    var n := DigitPrefix(v, radix);
    if n == 0 then None else Some(DigitsValue(v[..n], radix))
  }

  /** Step 10: "0x" or "0X" selects radix 16. */
  predicate HasHexPrefix(u: string) {
    |u| >= 2 && u[0] == '0' && (u[1] == 'x' || u[1] == 'X')
  }

  /** The decimal digit for `d`. */
  function DigitChar(d: nat): (c: char)
    requires d < 10
    ensures DigitValue(c, 10) == Some(d)
  {
    ('0' as nat + d) as char
  }

  /** Decimal notation of a natural number, as `String(n)` writes it. */
  function Decimal(n: nat): (s: string)
    ensures s != []
    ensures forall i :: 0 <= i < |s| ==> IsDigit(s[i], 10)
    ensures n > 0 ==> s[0] != '0'
  {
    if n < 10 then [DigitChar(n)] else Decimal(n / 10) + [DigitChar(n % 10)]
  }

  /** Decimal notation of an integer, with a leading '-' when negative. */
  function IntToString(i: int): string {
    if i < 0 then "-" + Decimal(-i) else Decimal(i)
  }

  lemma {:induction false} DecimalValue(n: nat)
    ensures DigitsValue(Decimal(n), 10) == n
  {
    if n >= 10 {
      var s := Decimal(n);
      assert s[..|s| - 1] == Decimal(n / 10);
      DecimalValue(n / 10);
    }
  }

  /** A string of digits followed by a character that is not a digit: the
      digit prefix is exactly the digits. */
  lemma {:induction false} DigitPrefixOfDigits(d: string, t: string, radix: nat)
    requires radix == 10 || radix == 16
    requires forall i :: 0 <= i < |d| ==> IsDigit(d[i], radix)
    requires t == [] || !IsDigit(t[0], radix)
    ensures DigitPrefix(d + t, radix) == |d|
    decreases |d|
  {
    if d != [] {
      assert (d + t)[1..] == d[1..] + t;
      DigitPrefixOfDigits(d[1..], t, radix);
    }
  }

  /** The digits of a run followed by a non-digit are read as that run. */
  lemma ParseDigitsOfRun(d: string, t: string, radix: nat)
    requires radix == 10 || radix == 16
    requires d != [] && forall i :: 0 <= i < |d| ==> IsDigit(d[i], radix)
    requires t == [] || !IsDigit(t[0], radix)
    ensures ParseDigits(d + t, radix) == Some(DigitsValue(d, radix))
  {
    DigitPrefixOfDigits(d, t, radix);
    assert (d + t)[..|d|] == d;
  }

  /** A string that starts with a decimal digit is left alone by TrimStart. */
  lemma TrimDigits(s: string)
    requires s != [] && IsDigit(s[0], 10)
    ensures TrimStart(s) == s
  {
  }

  /** The unsigned part of parseInt reads the decimal notation of n, up to
      the first non-digit; only an x right after "0" makes a hexadecimal prefix. */
  lemma ParseUnsignedDecimal(n: nat, t: string)
    requires t == [] || (!IsDigit(t[0], 10) && (n != 0 || (t[0] != 'x' && t[0] != 'X')))
    ensures ParseUnsigned(Decimal(n) + t) == Some(n)
  {
    var d := Decimal(n);
    var s := d + t;
    assert !HasHexPrefix(s) by {
      if |s| >= 2 && s[0] == '0' {
        assert d[0] == '0';
        assert n == 0;
        assert d == "0";
        assert s[1] == t[0];
      }
    }
    ParseDigitsOfRun(d, t, 10);
    DecimalValue(n);
  }

  /** parseInt reads the decimal notation of a natural number back, and stops
      at the first character that is not a digit (unless that character is an
      x turning "0" into a hexadecimal prefix). */
  lemma ParseDecimalPrefix(n: nat, t: string)
    requires t == [] || (!IsDigit(t[0], 10) && (n != 0 || (t[0] != 'x' && t[0] != 'X')))
    ensures ParseInt(Decimal(n) + t) == Some(n)
  {
    var s := Decimal(n) + t;
    assert s[0] == Decimal(n)[0];
    TrimDigits(s);
    ParseUnsignedDecimal(n, t);
    assert s[0] != '-' && s[0] != '+';
  }

  /** Any run of decimal digits, leading zeros included, followed by a
      non-digit is read as the run's value, unless it is the "0" of a
      hexadecimal prefix. */
  lemma ParseIntDecimalRun(d: string, t: string)
    requires d != [] && forall i :: 0 <= i < |d| ==> IsDigit(d[i], 10)
    requires t == [] || !IsDigit(t[0], 10)
    requires !HasHexPrefix(d + t)
    ensures ParseInt(d + t) == Some(DigitsValue(d, 10))
  {
    var s := d + t;
    var v := DigitsValue(d, 10);
    assert ParseUnsigned(s) == Some(v) by { ParseDigitsOfRun(d, t, 10); }
    assert TrimStart(s) == s by {
      assert s[0] == d[0];
      TrimDigits(s);
    }
    assert s[0] != '-' && s[0] != '+';
  }

  /** "007" followed by a non-digit is read as 7. */
  lemma ParseIntLeadingZerosExample()
    ensures ParseInt("007") == Some(7)
  {
    var d := "007";
    assert d[..2] == "00" && "00"[..1] == "0" && "0"[..0] == [];
    assert DigitsValue(d, 10) == 7;
    assert d + [] == d;
    ParseIntDecimalRun(d, []);
  }

  /** Round trip: parseInt reads back the decimal notation of every integer. */
  lemma ParseIntToString(i: int)
    ensures ParseInt(IntToString(i)) == Some(i)
  {
    if i >= 0 {
      ParseDecimalPrefix(i, []);
      assert Decimal(i) + [] == Decimal(i);
    } else {
      var s := IntToString(i);
      var d := Decimal(-i);
      assert TrimStart(s) == s;
      assert s[1..] == d;
      assert d[0] != '0';
      ParseDigitsOfRun(d, [], 10);
      assert d + [] == d;
      DecimalValue(-i);
      assert ParseUnsigned(d) == Some(-i);
      assert ParseTrimmed(s) == Some(i);
    }
  }

  /** A single decimal digit is read as itself. */
  lemma ParseIntDigit(d: nat)
    requires d < 10
    ensures ParseInt([DigitChar(d)]) == Some(d)
  {
    ParseDecimalPrefix(d, []);
    assert Decimal(d) + [] == [DigitChar(d)];
  }

  /** Leading white space is skipped. */
  lemma ParseIntSkipsSpace(c: char, s: string)
    requires IsSpace(c)
    ensures ParseInt([c] + s) == ParseInt(s)
  {
    assert ([c] + s)[1..] == s;
    assert TrimStart([c] + s) == TrimStart(s);
  }

  /** A string whose first character is not white space, a sign or a decimal
      digit is NaN. */
  lemma ParseIntNaN(s: string)
    requires s == [] || (!IsSpace(s[0]) && s[0] != '-' && s[0] != '+' && !IsDigit(s[0], 10))
    ensures ParseInt(s) == None
  {
    assert TrimStart(s) == s;
    assert !HasHexPrefix(s);
    assert DigitPrefix(s, 10) == 0;
  }

  /** A leading sign is read once: '-' negates the magnitude, '+' keeps it,
      and a magnitude that is NaN stays NaN. */
  lemma ParseIntSign(c: char, u: string)
    requires c == '-' || c == '+'
    ensures ParseInt([c] + u) ==
      match ParseUnsigned(u)
      case None => None
      case Some(m) => Some((if c == '-' then -1 else 1) * m)
  {
    var t := [c] + u;
    assert !IsSpace(t[0]);
    assert TrimStart(t) == t;
    assert t[1..] == u;
  }

  /** A "0x" or "0X" prefix selects radix 16 for the rest of the string. */
  lemma ParseIntHexPrefix(x: char, w: string)
    requires x == 'x' || x == 'X'
    ensures ParseInt(['0', x] + w) ==
      match ParseDigits(w, 16)
      case None => None
      case Some(m) => Some(m)
  {
    var s := ['0', x] + w;
    assert s[2..] == w;
    assert TrimStart(s) == s by {
      assert s[0] == '0';
      TrimDigits(s);
    }
  }

  /** A "0x" or "0X" prefix followed by a run of hexadecimal digits reads
      that run in radix 16, up to the first non-hexadecimal character. */
  lemma ParseIntHex(x: char, d: string, t: string)
    requires x == 'x' || x == 'X'
    requires d != [] && forall i :: 0 <= i < |d| ==> IsDigit(d[i], 16)
    requires t == [] || !IsDigit(t[0], 16)
    ensures ParseInt(['0', x] + (d + t)) == Some(DigitsValue(d, 16))
  {
    ParseDigitsOfRun(d, t, 16);
    ParseIntHexPrefix(x, d + t);
  }

  /** "0x" followed by hexadecimal digits reads them in radix 16. */
  lemma ParseIntHexExample()
    ensures ParseInt("0x1A") == Some(26)
  {
    assert TrimStart("0x1A") == "0x1A";
    var v := "0x1A"[2..];
    assert v == "1A" && v[1..] == "A" && "A"[1..] == [];
    assert DigitPrefix(v, 16) == 2;
    assert v[..2] == "1A" && "1A"[..1] == "1" && "1"[..0] == [];
    assert DigitsValue("1", 16) == 1;
  }

  /** A hexadecimal prefix with no digits after it is NaN. */
  lemma ParseIntEmptyHexExample()
    ensures ParseInt("0x") == None
  {
    var s := "0x";
    assert !IsSpace(s[0]);
    assert TrimStart(s) == s;
    assert HasHexPrefix(s);
    assert s[2..] == [];
    assert ParseDigits([], 16) == None;
    assert ParseUnsigned(s) == None;
  }

  /** Reading stops at the first non-digit, and a leading '-' negates. */
  lemma ParseIntSignedExample()
    ensures ParseInt("-12abc") == Some(-12)
  {
    var t := "-12abc";
    assert !IsSpace(t[0]);
    assert TrimStart(t) == t;
    var v := t[1..];
    assert v == "12abc" && v[1..] == "2abc" && "2abc"[1..] == "abc";
    assert DigitPrefix(v, 10) == 2;
    assert v[..2] == "12" && "12"[..1] == "1" && "1"[..0] == [];
    assert DigitsValue("1", 10) == 1;
  }
}
