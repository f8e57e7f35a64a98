/**
 * The number formatting and parsing of .NET that the amplifier protocol
 * relies on: positional numerals in base 10 and 16, `int.ToString()`,
 * `ToString("D2")`, `ToString("X")`, `int.TryParse` and
 * `Convert.ToInt32(s, 16)`.
 */
module NumText {
  import opened Int32
  import opened Wrappers

  /** The character of digit `d`; letters are upper-case, as the "X" format writes them. */
  function DigitChar(d: nat): char
    requires d < 16
  {
    if d < 10 then ('0' as int + d) as char else ('A' as int + (d - 10)) as char
  }

  /** The value of a hexadecimal digit of either case; 16 for any other character. */
  function DigitValue(c: char): nat
  {
    if '0' <= c <= '9' then c as int - '0' as int
    else if 'A' <= c <= 'F' then c as int - 'A' as int + 10
    else if 'a' <= c <= 'f' then c as int - 'a' as int + 10
    else 16
  }

  predicate IsDigit(c: char, base: nat) { DigitValue(c) < base }

  predicate AllDigits(s: string, base: nat) { forall i :: 0 <= i < |s| ==> IsDigit(s[i], base) }

  /** Euclid's division of `n` by `base` in the form the numeral functions use. */
  lemma DivMod(n: nat, base: nat)
    requires 2 <= base <= 16 && n >= base
    ensures 1 <= n / base < n && 0 <= n % base < base
    ensures n == (n / base) * base + n % base
  {
  }

  /** The numeral of `n` in `base`, most significant digit first, without leading zeros. */
  function Numeral(n: nat, base: nat): (s: string)
    requires 2 <= base <= 16
    ensures |s| >= 1 && AllDigits(s, base)
    ensures s[0] == '0' <==> n == 0
    ensures |s| == 1 <==> n < base
    decreases n
  {
    if n < base then [DigitChar(n)]
    else
      DivMod(n, base);
      Numeral(n / base, base) + [DigitChar(n % base)]
  }

  /** The value of a string of digits of `base` (leading zeros allowed; 0 for the empty string). */
  function ValueOf(s: string, base: nat): nat
    requires AllDigits(s, base)
  {
    if s == [] then 0 else ValueOf(s[..|s| - 1], base) * base + DigitValue(s[|s| - 1])
  }

  /** Reading back a numeral gives the number it was written from. */
  lemma {:induction false} NumeralRoundTrip(n: nat, base: nat)
    requires 2 <= base <= 16
    ensures ValueOf(Numeral(n, base), base) == n
    decreases n
  {
    if n >= base {
      DivMod(n, base);
      var s := Numeral(n, base);
      assert s[..|s| - 1] == Numeral(n / base, base);
      NumeralRoundTrip(n / base, base);
    }
  }

  /** A leading zero does not change the value of a numeral. */
  lemma {:induction false} LeadingZero(s: string, base: nat)
    requires 2 <= base <= 16 && AllDigits(s, base)
    ensures AllDigits("0" + s, base) && ValueOf("0" + s, base) == ValueOf(s, base)
    decreases |s|
  {
    var z := "0" + s;
    assert AllDigits(z, base) by {
      forall i | 0 <= i < |z| ensures IsDigit(z[i], base) {
        if i > 0 { assert z[i] == s[i - 1]; }
      }
    }
    if s != [] {
      assert z[..|z| - 1] == "0" + s[..|s| - 1];
      LeadingZero(s[..|s| - 1], base);
    }
  }

  /** `int.ToString()`, which is also what the `+` of a string and an int appends. */
  function IntToDec(n: int): (s: string)
    ensures |s| > 0 && (s[0] == '-' <==> n < 0)
  {
    if n < 0 then "-" + Numeral(-n, 10) else Numeral(n, 10)
  }

  /** Zero-padding to at least two digits. */
  function Pad2(d: string): string
  {
    if |d| < 2 then "0" + d else d
  }

  /** `ToString("D2")`: at least two decimal digits, zero-padded, with '-' in front of a negative value. */
  function D2(n: int): (s: string)
    ensures |s| >= 2 && (s[0] == '-' <==> n < 0)
  {
    if n < 0 then "-" + Pad2(Numeral(-n, 10)) else Pad2(Numeral(n, 10))
  }

  /** For a value in 0..99, "D2" writes exactly two decimal digits, and they read back as the value. */
  lemma D2TwoDigits(n: int)
    requires 0 <= n < 100
    ensures |D2(n)| == 2 && AllDigits(D2(n), 10) && ValueOf(D2(n), 10) == n
  {
    var d := Numeral(n, 10);
    NumeralRoundTrip(n, 10);
    if n < 10 {
      LeadingZero(d, 10);
    } else {
      DivMod(n, 10);
      assert |Numeral(n / 10, 10)| == 1;
    }
  }

  /** `ToString("X")` on an int: upper-case hex digits of its two's-complement 32-bit pattern. */
  function Hex32(v: int32): (s: string)
    ensures |s| > 0 && AllDigits(s, 16)
    ensures s[0] == '0' <==> v == 0
  {
    Numeral(if v < 0 then v + TwoTo32 else v, 16)
  }

  /** The white space `int.TryParse` skips around a number. */
  predicate IsWhite(c: char) { c == ' ' || '\t' <= c <= '\r' }

  function TrimStart(s: string): (t: string)
    ensures |t| <= |s| && t == s[|s| - |t|..]
    ensures t == [] || !IsWhite(t[0])
  {
    if s != [] && IsWhite(s[0]) then TrimStart(s[1..]) else s
  }

  function TrimEnd(s: string): (t: string)
    ensures |t| <= |s| && t == s[..|t|]
    ensures t == [] || !IsWhite(t[|t| - 1])
  {
    if s != [] && IsWhite(s[|s| - 1]) then TrimEnd(s[..|s| - 1]) else s
  }

  /** A string with no white space at either end is left as it is by trimming. */
  lemma TrimNothing(s: string)
    requires s == [] || (!IsWhite(s[0]) && !IsWhite(s[|s| - 1]))
    ensures TrimStart(TrimEnd(s)) == s
  {
  }

  /** An optional sign followed by decimal digits, in the 32-bit range (no white space). */
  function ParseSigned(t: string): Option<int32>
  {
    var signed := |t| > 0 && (t[0] == '-' || t[0] == '+');
    var digits := if signed then t[1..] else t;
    if |digits| == 0 || !AllDigits(digits, 10) then None
    else
      var magnitude: int := ValueOf(digits, 10);
      var v := if t[0] == '-' then -magnitude else magnitude;
      if Int32Min <= v <= Int32Max then Some(v) else None
  }

  /**
   * `int.TryParse(s, out n)` with the default style: white space around the
   * number, one optional leading sign, at least one decimal digit, and a value
   * in the 32-bit range; None where TryParse returns false.
   */
  function TryParseInt32(s: string): (r: Option<int32>)
    ensures r.Some? ==> FirstDigit(s) < |s|
  {
    var e := TrimEnd(s);
    var t := TrimStart(e);
    var r := ParseSigned(t);
    if r.Some? then ParsedHasDigit(s, e, t); r else r
  }

  /** The place of the first decimal digit of `s`; |s| when there is none. */
  function FirstDigit(s: string): (k: nat)
    ensures k <= |s| && (k < |s| ==> IsDigit(s[k], 10))
  {
    if s == [] then 0 else if IsDigit(s[0], 10) then 0 else 1 + FirstDigit(s[1..])
  }

  /** A digit at `j` means the first digit is no later than `j`. */
  lemma {:induction false} FirstDigitBound(s: string, j: nat)
    requires j < |s| && IsDigit(s[j], 10)
    ensures FirstDigit(s) <= j
  {
    if !IsDigit(s[0], 10) {
      assert s[1..][j - 1] == s[j];
      FirstDigitBound(s[1..], j - 1);
    }
  }

  /** Text whose trimmed middle `t` parses holds a decimal digit somewhere. */
  lemma ParsedHasDigit(s: string, e: string, t: string)
    requires e == TrimEnd(s) && t == TrimStart(e) && ParseSigned(t).Some?
    ensures FirstDigit(s) < |s|
  {
    TrimEndPrefix(s, e);
    TrimStartSuffix(e, t);
    var j := MiddleHasDigit(s, e, t);
    FirstDigitBound(s, j);
  }

  /** What TrimEnd keeps is a prefix of its argument. */
  lemma TrimEndPrefix(s: string, e: string)
    requires e == TrimEnd(s)
    ensures |e| <= |s| && e == s[..|e|]
  {
  }

  /** What TrimStart keeps is a suffix of its argument. */
  lemma TrimStartSuffix(e: string, t: string)
    requires t == TrimStart(e)
    ensures |t| <= |e| && t == e[|e| - |t|..]
  {
  }

  /** Where a signed number has its first digit: right after the sign, if any. */
  lemma SignedDigit(t: string) returns (k: nat)
    requires ParseSigned(t).Some?
    ensures k < |t| && IsDigit(t[k], 10)
  {
    k := if |t| > 0 && (t[0] == '-' || t[0] == '+') then 1 else 0;
    var digits := t[k..];
    assert |digits| > 0 && AllDigits(digits, 10);
    assert digits[0] == t[k];
  }

  /** A digit of a signed number that sits inside `s` is a digit of `s`. */
  lemma MiddleHasDigit(s: string, e: string, t: string) returns (j: nat)
    requires |e| <= |s| && e == s[..|e|] && |t| <= |e| && t == e[|e| - |t|..]
    requires ParseSigned(t).Some?
    ensures j < |s| && IsDigit(s[j], 10)
  {
    var k := SignedDigit(t);
    SuffixAt(e, t, k);
    j := |e| - |t| + k;
    PrefixAt(s, e, j);
  }

  /** A character of a suffix is the character at the shifted place of the whole. */
  lemma SuffixAt(a: string, b: string, k: nat)
    requires |b| <= |a| && b == a[|a| - |b|..] && k < |b|
    ensures b[k] == a[|a| - |b| + k]
  {
  }

  /** A character of a prefix is the character at the same place of the whole. */
  lemma PrefixAt(a: string, b: string, j: nat)
    requires |b| <= |a| && b == a[..|b|] && j < |b|
    ensures b[j] == a[j]
  {
  }

  /** A signed number starts with a sign or a digit. */
  lemma ParsedStart(t: string)
    requires ParseSigned(t).Some?
    ensures |t| > 0 && (t[0] == '-' || t[0] == '+' || IsDigit(t[0], 10))
  {
    if |t| > 0 && !(t[0] == '-' || t[0] == '+') {
      assert t[0] == t[0..][0];
    }
  }

  /** A reply without a single decimal digit never parses. */
  lemma NoDigitNoNumber(s: string)
    requires forall i :: 0 <= i < |s| ==> !IsDigit(s[i], 10)
    ensures TryParseInt32(s) == None
  {
  }

  /** Decimal digits, with or without a '-' in front, parse to their signed value. */
  lemma ParseDigits(p: string, m: nat)
    requires |p| > 0 && AllDigits(p, 10) && ValueOf(p, 10) == m
    ensures m <= Int32Max ==> ParseSigned(p) == Some(m)
    ensures m <= -Int32Min ==> ParseSigned("-" + p) == Some(-(m as int))
  {
    assert ("-" + p)[1..] == p;
  }

  /** The numerals "D2" writes are read back by the sign-and-digits parser. */
  lemma ParseSignedD2(n: int32)
    ensures ParseSigned(D2(n)) == Some(n)
  {
    var m: nat := if n < 0 then -(n as int) else n;
    var d := Numeral(m, 10);
    var p := Pad2(d);
    NumeralRoundTrip(m, 10);
    assert AllDigits(p, 10) && ValueOf(p, 10) == m by {
      if |d| < 2 { LeadingZero(d, 10); }
    }
    ParseDigits(p, m);
  }

  /** The numerals `ToString()` writes are read back by the sign-and-digits parser. */
  lemma ParseSignedIntToDec(n: int32)
    ensures ParseSigned(IntToDec(n)) == Some(n)
  {
    var m: nat := if n < 0 then -(n as int) else n;
    NumeralRoundTrip(m, 10);
    ParseDigits(Numeral(m, 10), m);
  }

  /** A number written with "D2" parses back to itself. */
  lemma TryParseD2(n: int32)
    ensures TryParseInt32(D2(n)) == Some(n)
  {
    ParseSignedD2(n);
    D2Ends(n);
    TrimNothing(D2(n));
  }

  /** "D2" text neither starts nor ends with white space. */
  lemma D2Ends(n: int32)
    ensures !IsWhite(D2(n)[0]) && !IsWhite(D2(n)[|D2(n)| - 1])
  {
    var m: nat := if n < 0 then -(n as int) else n;
    var d := Numeral(m, 10);
    var p := Pad2(d);
    assert p[|p| - 1] == d[|d| - 1] && IsDigit(d[|d| - 1], 10);
    assert p[0] == '0' || p[0] == d[0];
    assert IsDigit(d[0], 10);
  }

  /** An int written with `ToString()` parses back to itself. */
  lemma TryParseIntToDec(n: int32)
    ensures TryParseInt32(IntToDec(n)) == Some(n)
  {
    ParseSignedIntToDec(n);
    IntToDecEnds(n);
    TrimNothing(IntToDec(n));
  }

  /** Decimal text neither starts nor ends with white space. */
  lemma IntToDecEnds(n: int32)
    ensures !IsWhite(IntToDec(n)[0]) && !IsWhite(IntToDec(n)[|IntToDec(n)| - 1])
  {
    var m: nat := if n < 0 then -(n as int) else n;
    var d := Numeral(m, 10);
    assert IntToDec(n)[|IntToDec(n)| - 1] == d[|d| - 1] && IsDigit(d[|d| - 1], 10);
    assert IsDigit(d[0], 10);
  }

  /** A carriage return left at the end of a reply line does not change what TryParse reads. */
  lemma TryParseIgnoresCarriageReturn(s: string)
    ensures TryParseInt32(s + "\r") == TryParseInt32(s)
  {
    var s' := s + "\r";
    assert s'[..|s'| - 1] == s;
    assert TrimEnd(s') == TrimEnd(s);
  }

  /**
   * `Convert.ToInt32(s, 16)` on a non-null string: one optional leading '+',
   * an optional "0x" or "0X" prefix, then hex digits of either case whose
   * value fits in 32 bits, read as a two's-complement pattern; None where it
   * throws. A minus sign is refused, as in every base but 10.
   */
  function ParseHex32(s: string): (r: Option<int32>)
    ensures r.Some? ==> |s| > 0 && IsDigit(s[|s| - 1], 16)
    ensures |s| > 0 && s[0] == '-' ==> r.None?
  {
    var t := if |s| > 0 && s[0] == '+' then s[1..] else s;
    var digits := if |t| >= 2 && t[0] == '0' && (t[1] == 'x' || t[1] == 'X') then t[2..] else t;
    assert digits == s[|s| - |digits|..];
    assert |digits| > 0 ==> digits[|digits| - 1] == s[|s| - 1];
    if |digits| == 0 || !AllDigits(digits, 16) then None
    else
      var u := ValueOf(digits, 16);
      if u >= TwoTo32 then None else Some(if u > Int32Max then u - TwoTo32 else u)
  }

  /** One leading '+' is skipped: it changes nothing about what Convert reads. */
  lemma HexPlusSign(s: string)
    requires s == [] || s[0] != '+'
    ensures ParseHex32("+" + s) == ParseHex32(s)
  {
    assert ("+" + s)[1..] == s;
  }

  /** Upper-case hex writing then base-16 parsing gives back every int, negative ones included. */
  lemma HexRoundTrip(v: int32)
    ensures ParseHex32(Hex32(v)) == Some(v)
  {
    var u := if v < 0 then v + TwoTo32 else v;
    NumeralRoundTrip(u, 16);
  }
}
