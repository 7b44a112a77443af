/**
 * The parts of Go's `strings` and `strconv` packages that main.go relies on,
 * stated over `string` (a sequence of Unicode scalar values). Where Go works on
 * the UTF-8 bytes of a string (`len`, slicing), the model encodes to UTF-8
 * explicitly.
 */
module GoText {
  import opened Wrappers

  type Byte = b: int | 0 <= b < 256

  // ---------------------------------------------------------------- UTF-8

  /** The UTF-8 encoding of one scalar value. */
  function EncodeRune(c: char): (r: seq<Byte>)
    ensures 1 <= |r| <= 4
    ensures (|r| == 1) <==> (c as int < 0x80)
    ensures |r| == 1 ==> r[0] == c as int
    ensures |r| > 1 ==> forall i :: 0 <= i < |r| ==> r[i] >= 0x80
  {
    var n := c as int;
    if n < 0x80 then [n]
    else if n < 0x800 then [0xC0 + n / 64, 0x80 + n % 64]
    else if n < 0x10000 then [0xE0 + n / 4096, 0x80 + (n / 64) % 64, 0x80 + n % 64]
    else [0xF0 + n / 262144, 0x80 + (n / 4096) % 64, 0x80 + (n / 64) % 64, 0x80 + n % 64]
  }

  /** The bytes Go stores for a string. */
  function Utf8(s: string): (r: seq<Byte>)
    ensures |r| >= |s|
  {
    if s == [] then [] else EncodeRune(s[0]) + Utf8(s[1..])
  }

  predicate IsAscii(s: string) {
    forall i :: 0 <= i < |s| ==> s[i] as int < 0x80
  }

  /** An ASCII string is stored as its character codes, one byte each. */
  lemma {:induction false} Utf8OfAscii(s: string)
    requires IsAscii(s)
    ensures |Utf8(s)| == |s|
    ensures forall i :: 0 <= i < |s| ==> Utf8(s)[i] == s[i] as int
  {
    if s != [] {
      Utf8OfAscii(s[1..]);
    }
  }

  /** A string holding any character outside ASCII takes more bytes than characters. */
  lemma {:induction false} Utf8OfNonAscii(s: string)
    requires !IsAscii(s)
    ensures |Utf8(s)| > |s|
  {
    if s[0] as int < 0x80 {
      Utf8OfNonAscii(s[1..]);
    }
  }

  // ---------------------------------------------------------------- whitespace

  /** unicode.IsSpace: the characters strings.TrimSpace removes. */
  predicate IsSpace(c: char) {
    || c == '\t' || c == '\n' || c == '\U{000B}' || c == '\U{000C}' || c == '\r' || c == ' '
    || c == '\U{0085}' || c == '\U{00A0}' || c == '\U{1680}'
    || ('\U{2000}' <= c <= '\U{200A}')
    || c == '\U{2028}' || c == '\U{2029}' || c == '\U{202F}' || c == '\U{205F}' || c == '\U{3000}'
  }

  predicate AllSpace(s: string) {
    forall i :: 0 <= i < |s| ==> IsSpace(s[i])
  }

  /** Drops leading white space: the result is a suffix that does not start with a space. */
  function TrimLeft(s: string): (r: string)
    ensures |r| <= |s| && r == s[|s| - |r|..]
    ensures r == [] || !IsSpace(r[0])
  {
    if s != [] && IsSpace(s[0]) then TrimLeft(s[1..]) else s
  }

  /** Only white space is dropped in front. */
  lemma {:induction false} TrimLeftCutsSpaces(s: string)
    ensures AllSpace(s[..|s| - |TrimLeft(s)|])
  {
    if s != [] && IsSpace(s[0]) {
      TrimLeftCutsSpaces(s[1..]);
      var k := |s| - 1 - |TrimLeft(s[1..])|;
      forall j | 0 <= j < k + 1
        ensures IsSpace(s[j])
      {
        if j > 0 {
          assert s[j] == s[1..][..k][j - 1];
        }
      }
    }
  }

  /** Drops trailing white space: the result is a prefix that does not end with a space. */
  function TrimRight(s: string): (r: string)
    ensures |r| <= |s| && r == s[..|r|]
    ensures r == [] || !IsSpace(r[|r| - 1])
  {
    if s != [] && IsSpace(s[|s| - 1]) then TrimRight(s[..|s| - 1]) else s
  }

  /** Only white space is dropped at the end. */
  lemma {:induction false} TrimRightCutsSpaces(s: string)
    ensures AllSpace(s[|TrimRight(s)|..])
  {
    if s != [] && IsSpace(s[|s| - 1]) {
      TrimRightCutsSpaces(s[..|s| - 1]);
      assert s[|TrimRight(s)|..] == s[..|s| - 1][|TrimRight(s[..|s| - 1])|..] + [s[|s| - 1]];
    }
  }

  /** strings.TrimSpace: neither starts nor ends with a space. */
  function TrimSpace(s: string): (r: string)
    ensures |r| <= |s|
    ensures r == [] || (!IsSpace(r[0]) && !IsSpace(r[|r| - 1]))
  {
    TrimRight(TrimLeft(s))
  }

  /** What TrimSpace keeps is a contiguous part of `s`, with only spaces cut away around it. */
  lemma TrimSpaceCutsSpaces(s: string)
    ensures exists i :: SpaceCut(s, TrimSpace(s), i)
  {
    var l := TrimLeft(s);
    var r := TrimRight(l);
    TrimLeftCutsSpaces(s);
    TrimRightCutsSpaces(l);
    CutOfParts(s, l, r);
    assert SpaceCut(s, TrimSpace(s), |s| - |l|);
  }

  /** A suffix cut after spaces, then a prefix of it cut before spaces, is a cut. */
  lemma CutOfParts(s: string, l: string, r: string)
    requires |l| <= |s| && l == s[|s| - |l|..] && AllSpace(s[..|s| - |l|])
    requires |r| <= |l| && r == l[..|r|] && AllSpace(l[|r|..])
    ensures SpaceCut(s, r, |s| - |l|)
  {
    var i := |s| - |l|;
    assert r == s[i..i + |r|];
    assert s[i + |r|..] == l[|r|..];
  }

  /** `r` sits at offset `i` of `s` with only white space before and after it. */
  predicate SpaceCut(s: string, r: string, i: int) {
    0 <= i <= |s| - |r| && r == s[i..i + |r|] && AllSpace(s[..i]) && AllSpace(s[i + |r|..])
  }

  /** Trimming twice is trimming once. */
  lemma TrimSpaceIdempotent(s: string)
    ensures TrimSpace(TrimSpace(s)) == TrimSpace(s)
  {
    var t := TrimSpace(s);
    assert TrimLeft(t) == t;
    assert TrimRight(t) == t;
  }

  /** A string of white space alone trims to the empty string. */
  lemma {:induction false} TrimSpaceOfSpaces(s: string)
    requires AllSpace(s)
    ensures TrimSpace(s) == []
  {
    if s != [] {
      TrimSpaceOfSpaces(s[1..]);
    }
  }

  // ---------------------------------------------------------------- prefixes and case

  /** strings.HasPrefix. */
  predicate HasPrefix(s: string, prefix: string) {
    prefix <= s
  }

  /** strings.TrimPrefix: removes one leading `prefix` if present. */
  function TrimPrefix(s: string, prefix: string): (r: string)
    ensures HasPrefix(s, prefix) ==> s == prefix + r
    ensures !HasPrefix(s, prefix) ==> r == s
  {
    if HasPrefix(s, prefix) then s[|prefix|..] else s
  }

  predicate IsLowerAscii(c: char) { 'a' <= c <= 'z' }
  predicate IsUpperAscii(c: char) { 'A' <= c <= 'Z' }

  function UpperChar(c: char): char {
    if IsLowerAscii(c) then (c as int - 32) as char else c
  }

  function LowerChar(c: char): char {
    if IsUpperAscii(c) then (c as int + 32) as char else c
  }

  /** strings.ToUpper, restricted to the ASCII letters: changes only the case of letters
      and leaves no lower-case letter behind. */
  function ToUpper(s: string): (r: string)
    ensures |r| == |s|
    ensures forall i :: 0 <= i < |r| ==> !IsLowerAscii(r[i])
    ensures forall i :: 0 <= i < |r| ==> LowerChar(r[i]) == LowerChar(s[i])
    ensures forall i :: 0 <= i < |r| ==> (r[i] == s[i] || IsLowerAscii(s[i]))
  {
    seq(|s|, i requires 0 <= i < |s| => UpperChar(s[i]))
  }

  /** Upper-casing twice is upper-casing once. */
  lemma ToUpperIdempotent(s: string)
    ensures ToUpper(ToUpper(s)) == ToUpper(s)
  {
  }

  /** Upper-casing does not touch white space, so it commutes with trimming. */
  lemma {:induction false} ToUpperTrimSpaceCommute(s: string)
    ensures ToUpper(TrimSpace(s)) == TrimSpace(ToUpper(s))
  {
    UpperTrimLeft(s);
    UpperTrimRight(TrimLeft(s));
  }

  lemma {:induction false} UpperTrimLeft(s: string)
    ensures ToUpper(TrimLeft(s)) == TrimLeft(ToUpper(s))
  {
    var u := ToUpper(s);
    if s == [] {
    } else if IsSpace(s[0]) {
      assert u[0] == UpperChar(s[0]) == s[0];
      assert u[1..] == ToUpper(s[1..]);
      UpperTrimLeft(s[1..]);
    } else {
      assert u[0] == UpperChar(s[0]) && !IsSpace(u[0]);
    }
  }

  lemma {:induction false} UpperTrimRight(s: string)
    ensures ToUpper(TrimRight(s)) == TrimRight(ToUpper(s))
  {
    var u := ToUpper(s);
    if s == [] {
    } else if IsSpace(s[|s| - 1]) {
      assert u[|s| - 1] == UpperChar(s[|s| - 1]) == s[|s| - 1];
      assert u[..|s| - 1] == ToUpper(s[..|s| - 1]);
      UpperTrimRight(s[..|s| - 1]);
    } else {
      assert u[|s| - 1] == UpperChar(s[|s| - 1]) && !IsSpace(u[|s| - 1]);
    }
  }

  // ---------------------------------------------------------------- decimal integers

  predicate IsDigit(c: char) { '0' <= c <= '9' }

  predicate AllDigits(s: string) {
    forall i :: 0 <= i < |s| ==> IsDigit(s[i])
  }

  function DigitValue(c: char): (d: nat)
    requires IsDigit(c)
    ensures d < 10
  {
    c as int - '0' as int
  }

  function DigitChar(d: nat): (c: char)
    requires d < 10
    ensures IsDigit(c) && DigitValue(c) == d
  {
    ('0' as int + d) as char
  }

  /** The value of a string of decimal digits, most significant first. */
  function DigitsValue(s: string): nat
    requires AllDigits(s)
  {
    if s == [] then 0 else DigitsValue(s[..|s| - 1]) * 10 + DigitValue(s[|s| - 1])
  }

  /** Shortest decimal text of a natural number (strconv.Itoa of a non-negative value,
      and JavaScript's String(n) for a non-negative integer). Reading it back gives `n`. */
  function Decimal(n: nat): (s: string)
    ensures |s| >= 1 && AllDigits(s)
    ensures DigitsValue(s) == n
    ensures s[0] == '0' ==> s == "0"
  {
    if n < 10 then [DigitChar(n)]
    else
      var p := Decimal(n / 10);
      var s := p + [DigitChar(n % 10)];
      assert s[..|s| - 1] == p;
      s
  }

  const MinInt64: int := -0x8000_0000_0000_0000
  const MaxInt64: int := 0x7fff_ffff_ffff_ffff

  /** strconv.ParseInt(s, 10, 64), and strconv.Atoi on a 64-bit platform: an optional
      sign, at least one decimal digit and nothing else, within the int64 range;
      every other input is an error (None). */
  function ParseInt64(s: string): (r: Option<int>)
    ensures r.Some? ==> MinInt64 <= r.value <= MaxInt64
  {
    if s == [] then None
    else
      var negative := s[0] == '-';
      var digits := if s[0] == '+' || s[0] == '-' then s[1..] else s;
      if digits == [] || !AllDigits(digits) then None
      else
        var magnitude: int := DigitsValue(digits);
        var v := if negative then -magnitude else magnitude;
        if MinInt64 <= v <= MaxInt64 then Some(v) else None
  }

  /** `s` is `sign` then `digits`: the sign "", "+" or "-", then at least one decimal
      digit, whose signed value is `v`. */
  predicate SignedForm(s: string, sign: string, digits: string, v: int) {
    && (sign == "" || sign == "+" || sign == "-")
    && s == sign + digits && digits != [] && AllDigits(digits)
    && var magnitude: int := DigitsValue(digits);
       v == (if sign == "-" then -magnitude else magnitude)
  }

  /** ParseInt64 accepts exactly an optional sign followed by decimal digits whose signed
      value fits in an int64, and gives that value. */
  lemma ParseInt64Iff(s: string, v: int)
    ensures ParseInt64(s) == Some(v) <==>
            (exists sign, digits :: SignedForm(s, sign, digits, v)) && MinInt64 <= v <= MaxInt64
  {
    if ParseInt64(s) == Some(v) {
      if s[0] == '+' || s[0] == '-' {
        assert SignedForm(s, s[..1], s[1..], v);
      } else {
        assert SignedForm(s, "", s, v);
      }
    }
    if (exists sign, digits :: SignedForm(s, sign, digits, v)) && MinInt64 <= v <= MaxInt64 {
      var sign, digits :| SignedForm(s, sign, digits, v);
      if sign == "" {
        assert s == digits && IsDigit(s[0]);
      } else {
        assert s[0] == sign[0] && s[1..] == digits;
      }
    }
  }

  /** White space, trailing junk, an empty string and a bare sign are all errors. */
  lemma ParseInt64Rejects()
    ensures ParseInt64(" 12").None? && ParseInt64("12a").None?
    ensures ParseInt64("").None? && ParseInt64("+").None? && ParseInt64("-").None?
  {
    assert !IsDigit(" 12"[0]) && !IsDigit("12a"[2]);
  }

  /** strconv.FormatInt(n, 10), and JavaScript's String(n) for an integer. */
  function FormatInt(n: int): string {
    if n < 0 then "-" + Decimal(-n) else Decimal(n)
  }

  /** Every int64 survives formatting and parsing. */
  lemma ParseFormatInt64(n: int)
    requires MinInt64 <= n <= MaxInt64
    ensures ParseInt64(FormatInt(n)) == Some(n)
  {
    var s := FormatInt(n);
    if n < 0 {
      assert s[1..] == Decimal(-n);
    }
  }

  /** Zeros in front of digits do not change their value. */
  lemma {:induction false} DigitsValueLeadingZeros(zeros: string, digits: string)
    requires forall i :: 0 <= i < |zeros| ==> zeros[i] == '0'
    requires AllDigits(digits)
    ensures AllDigits(zeros + digits) && DigitsValue(zeros + digits) == DigitsValue(digits)
  {
    var s := zeros + digits;
    if digits == [] {
      assert s == zeros;
      if zeros != [] {
        assert zeros[..|zeros| - 1] + [] == zeros[..|zeros| - 1];
        DigitsValueLeadingZeros(zeros[..|zeros| - 1], []);
      }
    } else {
      assert s[..|s| - 1] == zeros + digits[..|digits| - 1];
      DigitsValueLeadingZeros(zeros, digits[..|digits| - 1]);
    }
  }

  function Pow10(k: nat): (p: nat)
    ensures p >= 1
  {
    if k == 0 then 1 else 10 * Pow10(k - 1)
  }

  /** Decimal(n) has at most k digits exactly when n is below 10^k. */
  lemma {:induction false} DecimalLength(n: nat, k: nat)
    requires k >= 1
    ensures |Decimal(n)| <= k <==> n < Pow10(k)
  {
    if n >= 10 {
      if k == 1 {
        assert |Decimal(n / 10)| >= 1;
      } else {
        DecimalLength(n / 10, k - 1);
      }
    } else {
      assert Pow10(k) >= 10 by { if k > 1 { assert Pow10(k - 1) >= 1; } }
    }
  }

  /** The value of digits written one after the other. */
  lemma DigitsValueAppend(a: string, b: string)
    requires AllDigits(a) && AllDigits(b)
    ensures AllDigits(a + b) && DigitsValue(a + b) == DigitsValue(a) * Pow10(|b|) + DigitsValue(b)
  {
    AllDigitsAppend(a, b);
    DigitsValueFold(a, b);
    FoldShifts(DigitsValue(a), b);
  }

  /** Reading the digits of `b` on from an already read value `v`. */
  function DigitsFold(v: int, b: string): int
    requires AllDigits(b)
  {
    if b == [] then v else DigitsFold(v, b[..|b| - 1]) * 10 + DigitValue(b[|b| - 1])
  }

  lemma {:induction false} DigitsValueFold(a: string, b: string)
    requires AllDigits(a) && AllDigits(b)
    ensures AllDigits(a + b) && DigitsValue(a + b) == DigitsFold(DigitsValue(a), b)
  {
    AllDigitsAppend(a, b);
    var s := a + b;
    if b == [] {
      assert s == a;
    } else {
      var b' := b[..|b| - 1];
      assert s[..|s| - 1] == a + b';
      assert s[|s| - 1] == b[|b| - 1];
      DigitsValueFold(a, b');
    }
  }

  lemma {:induction false} FoldShifts(v: int, b: string)
    requires AllDigits(b)
    ensures DigitsFold(v, b) == v * Pow10(|b|) + DigitsValue(b)
  {
    if b != [] {
      var b' := b[..|b| - 1];
      FoldShifts(v, b');
      ShiftDigit(v, Pow10(|b'|), Pow10(|b|), DigitsValue(b'), DigitValue(b[|b| - 1]));
    }
  }

  lemma AllDigitsAppend(a: string, b: string)
    requires AllDigits(a) && AllDigits(b)
    ensures AllDigits(a + b)
  {
    var s := a + b;
    forall i | 0 <= i < |s| ensures IsDigit(s[i]) {
      if i < |a| { assert s[i] == a[i]; } else { assert s[i] == b[i - |a|]; }
    }
  }

  lemma ShiftDigit(va: int, p: int, q: int, vb: int, d: int)
    requires q == p * 10
    ensures (va * p + vb) * 10 + d == va * q + (vb * 10 + d)
  {
    assert (va * p) * 10 == va * (p * 10);
  }
}
