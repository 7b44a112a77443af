/**
 * The JavaScript string operations app.js relies on: String.prototype.trim,
 * toLowerCase (on ASCII letters), includes and padStart.
 */
module JsText {
  import opened GoText

  /** The characters String.prototype.trim removes: ECMAScript WhiteSpace and
      LineTerminator. Unlike Go's unicode.IsSpace this includes U+FEFF and excludes U+0085. */
  predicate IsJsSpace(c: char) {
    || c == '\t' || c == '\n' || c == '\U{000B}' || c == '\U{000C}' || c == '\r' || c == ' '
    || c == '\U{00A0}' || c == '\U{1680}'
    || ('\U{2000}' <= c <= '\U{200A}')
    || c == '\U{2028}' || c == '\U{2029}' || c == '\U{202F}' || c == '\U{205F}' || c == '\U{3000}'
    || c == '\U{FEFF}'
  }

  predicate AllJsSpace(s: string) {
    forall i :: 0 <= i < |s| ==> IsJsSpace(s[i])
  }

  /** Drops leading white space: the result is a suffix that does not start with a space. */
  function TrimStart(s: string): (r: string)
    ensures |r| <= |s| && r == s[|s| - |r|..]
    ensures r == [] || !IsJsSpace(r[0])
  {
    if s != [] && IsJsSpace(s[0]) then TrimStart(s[1..]) else s
  }

  /** Only white space is dropped in front. */
  lemma {:induction false} TrimStartCutsSpaces(s: string)
    ensures AllJsSpace(s[..|s| - |TrimStart(s)|])
  {
    if s != [] && IsJsSpace(s[0]) {
      TrimStartCutsSpaces(s[1..]);
      var k := |s| - 1 - |TrimStart(s[1..])|;
      forall j | 0 <= j < k + 1
        ensures IsJsSpace(s[j])
      {
        if j > 0 {
          assert s[j] == s[1..][..k][j - 1];
        }
      }
    }
  }

  /** Drops trailing white space: the result is a prefix that does not end with a space. */
  function TrimEnd(s: string): (r: string)
    ensures |r| <= |s| && r == s[..|r|]
    ensures r == [] || !IsJsSpace(r[|r| - 1])
  {
    if s != [] && IsJsSpace(s[|s| - 1]) then TrimEnd(s[..|s| - 1]) else s
  }

  /** Only white space is dropped at the end. */
  lemma {:induction false} TrimEndCutsSpaces(s: string)
    ensures AllJsSpace(s[|TrimEnd(s)|..])
  {
    if s != [] && IsJsSpace(s[|s| - 1]) {
      TrimEndCutsSpaces(s[..|s| - 1]);
      assert s[|TrimEnd(s)|..] == s[..|s| - 1][|TrimEnd(s[..|s| - 1])|..] + [s[|s| - 1]];
    }
  }

  /** String.prototype.trim: neither starts nor ends with white space. */
  function Trim(s: string): (r: string)
    ensures |r| <= |s|
    ensures r == [] || (!IsJsSpace(r[0]) && !IsJsSpace(r[|r| - 1]))
  {
    TrimEnd(TrimStart(s))
  }

  /** What trim keeps is a contiguous part of `s`, with only white space cut away around it. */
  lemma TrimCutsSpaces(s: string)
    ensures exists i :: JsSpaceCut(s, Trim(s), i)
  {
    var l := TrimStart(s);
    var r := TrimEnd(l);
    TrimStartCutsSpaces(s);
    TrimEndCutsSpaces(l);
    JsCutOfParts(s, l, r);
    assert JsSpaceCut(s, Trim(s), |s| - |l|);
  }

  /** A suffix cut after spaces, then a prefix of it cut before spaces, is a cut. */
  lemma JsCutOfParts(s: string, l: string, r: string)
    requires |l| <= |s| && l == s[|s| - |l|..] && AllJsSpace(s[..|s| - |l|])
    requires |r| <= |l| && r == l[..|r|] && AllJsSpace(l[|r|..])
    ensures JsSpaceCut(s, r, |s| - |l|)
  {
    var i := |s| - |l|;
    assert r == s[i..i + |r|];
    assert s[i + |r|..] == l[|r|..];
  }

  /** `r` sits at offset `i` of `s` with only white space before and after it. */
  predicate JsSpaceCut(s: string, r: string, i: int) {
    0 <= i <= |s| - |r| && r == s[i..i + |r|] && AllJsSpace(s[..i]) && AllJsSpace(s[i + |r|..])
  }

  /** A string of white space alone trims to the empty string, and only such a string. */
  lemma TrimEmpty(s: string)
    ensures Trim(s) == [] <==> AllJsSpace(s)
  {
    if AllJsSpace(s) {
      TrimStartOfSpaces(s);
    }
    if Trim(s) == [] {
      TrimCutsSpaces(s);
      var i :| JsSpaceCut(s, [], i);
      assert forall j :: 0 <= j < i ==> s[j] == s[..i][j];
      assert forall j :: i <= j < |s| ==> s[j] == s[i..][j - i];
    }
  }

  lemma {:induction false} TrimStartOfSpaces(s: string)
    requires AllJsSpace(s)
    ensures TrimStart(s) == []
  {
    if s != [] {
      assert AllJsSpace(s[1..]) by {
        assert forall j :: 0 <= j < |s| - 1 ==> s[1..][j] == s[j + 1];
      }
      TrimStartOfSpaces(s[1..]);
    }
  }

  /** toLowerCase, on ASCII letters. */
  function ToLower(s: string): (r: string)
    ensures |r| == |s|
    ensures forall i :: 0 <= i < |r| ==> !IsUpperAscii(r[i])
    ensures forall i :: 0 <= i < |r| ==> (r[i] == s[i] || IsUpperAscii(s[i]))
  {
    seq(|s|, i requires 0 <= i < |s| => LowerChar(s[i]))
  }

  /** Lower-casing twice is lower-casing once. */
  lemma ToLowerIdempotent(s: string)
    ensures ToLower(ToLower(s)) == ToLower(s)
  {
  }

  /** String.prototype.includes: `kw` occurs somewhere in `s` (the empty string occurs
      everywhere). */
  predicate Includes(s: string, kw: string) {
    exists i :: 0 <= i <= |s| && OccursAt(s, kw, i)
  }

  predicate OccursAt(s: string, kw: string, i: int) {
    0 <= i <= |s| - |kw| && s[i..i + |kw|] == kw
  }

  /** String.prototype.padStart(width, fill) with a one-character fill. */
  function PadStart(s: string, width: nat, fill: char): (r: string)
    ensures |r| == if |s| >= width then |s| else width
    ensures r[|r| - |s|..] == s
    ensures forall i :: 0 <= i < |r| - |s| ==> r[i] == fill
  {
    if |s| >= width then s else seq(width - |s|, _ => fill) + s
  }
}
