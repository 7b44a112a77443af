/**
 * parseHexColor (main.go) and the colour choice in the image endpoint. Parsing never
 * fails: anything it cannot read becomes opaque black or a zero channel.
 */
module Colour {
  import opened GoText

  /** color.RGBA: red, green, blue and alpha, one byte each. */
  datatype RGBA = RGBA(r: Byte, g: Byte, b: Byte, a: Byte)

  /** color.Black, whose RGBA() is that of opaque black. */
  const Black: RGBA := RGBA(0, 0, 0, 255)

  predicate IsHexByte(b: Byte) {
    (0x30 <= b <= 0x39) || (0x41 <= b <= 0x46) || (0x61 <= b <= 0x66)
  }

  function HexByteValue(b: Byte): (v: nat)
    requires IsHexByte(b)
    ensures v < 16
  {
    if b <= 0x39 then b - 0x30 else if b <= 0x46 then b - 0x41 + 10 else b - 0x61 + 10
  }

  /** strconv.ParseUint(pair, 16, 8) with its error ignored: the value of two hex digits,
      and 0 when either byte is not a hex digit (two digits never overflow 8 bits). */
  function ParseHexPair(hi: Byte, lo: Byte): Byte {
    if IsHexByte(hi) && IsHexByte(lo) then 16 * HexByteValue(hi) + HexByteValue(lo) else 0
  }

  /** What is left of the input once one leading '#' and then surrounding white space
      are removed, in that order. */
  function HexBody(s: string): string {
    TrimSpace(TrimPrefix(s, "#"))
  }

  /** parseHexColor: six bytes after clean-up are read as three channel pairs; any other
      byte length gives black. Alpha is always opaque. */
  function ParseHexColor(s: string): (c: RGBA)
    ensures c.a == 255
    ensures |Utf8(HexBody(s))| != 6 ==> c == Black
  {
    var b := Utf8(HexBody(s));
    if |b| != 6 then Black
    else RGBA(ParseHexPair(b[0], b[1]), ParseHexPair(b[2], b[3]), ParseHexPair(b[4], b[5]), 255)
  }

  /** The foreground colour of the image endpoint: black when `qrcolor` is empty,
      otherwise the parsed colour. */
  function QrColour(colorStr: string): RGBA {
    if colorStr == "" then Black else ParseHexColor(colorStr)
  }

  /** The empty-string guard only saves a call: the parser gives black for "" too. */
  lemma QrColourIsParsed(colorStr: string)
    ensures QrColour(colorStr) == ParseHexColor(colorStr)
  {
    if colorStr == "" {
      assert HexBody(colorStr) == [];
    }
  }

  // ---------------------------------------------------------------- round trip

  /** A hex digit character for a value below 16, upper- or lower-case. */
  function HexDigit(v: nat, upper: bool): (c: char)
    requires v < 16
    ensures c as int < 0x80 && IsHexByte(c as int) && HexByteValue(c as int) == v
  {
    if v < 10 then ('0' as int + v) as char
    else if upper then ('A' as int + v - 10) as char
    else ('a' as int + v - 10) as char
  }

  /** Two hex digits for a byte. */
  function Hex2(v: Byte, upper: bool): string {
    [HexDigit(v / 16, upper), HexDigit(v % 16, upper)]
  }

  /** The six-digit text of a colour, as a colour picker or a user writes it. */
  function HexText(r: Byte, g: Byte, b: Byte, upper: bool): (s: string)
    ensures |s| == 6 && IsAscii(s)
  {
    Hex2(r, upper) + Hex2(g, upper) + Hex2(b, upper)
  }

  /** The six characters of a colour's text, pair by pair. */
  lemma HexTextDigits(r: Byte, g: Byte, b: Byte, upper: bool)
    ensures var t := HexText(r, g, b, upper);
      && t[0] == HexDigit(r / 16, upper) && t[1] == HexDigit(r % 16, upper)
      && t[2] == HexDigit(g / 16, upper) && t[3] == HexDigit(g % 16, upper)
      && t[4] == HexDigit(b / 16, upper) && t[5] == HexDigit(b % 16, upper)
  {
  }

  /** Two hex digits read back as the byte they were written from. */
  lemma HexPairRoundTrip(v: Byte, upper: bool)
    ensures ParseHexPair(HexDigit(v / 16, upper) as int, HexDigit(v % 16, upper) as int) == v
  {
  }

  /** Every colour written as six hex digits, with or without a leading '#', in either
      case, is read back as that colour, fully opaque. */
  lemma HexColourRoundTrip(r: Byte, g: Byte, b: Byte, upper: bool, hash: bool)
    ensures ParseHexColor((if hash then "#" else "") + HexText(r, g, b, upper)) == RGBA(r, g, b, 255)
  {
    var t := HexText(r, g, b, upper);
    var s := (if hash then "#" else "") + t;
    PlainBody(t);
    if hash {
      assert s[1..] == t;
    } else {
      assert s == t;
    }
    assert HexBody(s) == t;
    HexTextDigits(r, g, b, upper);
    assert t[0] == HexDigit(r / 16, upper) && t[1] == HexDigit(r % 16, upper);
    assert t[2] == HexDigit(g / 16, upper) && t[3] == HexDigit(g % 16, upper);
    assert t[4] == HexDigit(b / 16, upper) && t[5] == HexDigit(b % 16, upper);
    SixAsciiCharacters(s);
    HexPairRoundTrip(r, upper);
    HexPairRoundTrip(g, upper);
    HexPairRoundTrip(b, upper);
  }

  /** Six ASCII characters after clean-up are read pair by pair. */
  lemma SixAsciiCharacters(s: string)
    requires IsAscii(HexBody(s)) && |HexBody(s)| == 6
    ensures var t := HexBody(s);
      ParseHexColor(s) == RGBA(ParseHexPair(t[0] as int, t[1] as int), ParseHexPair(t[2] as int, t[3] as int),
                               ParseHexPair(t[4] as int, t[5] as int), 255)
  {
    Utf8OfAscii(HexBody(s));
  }

  /** Text without white space or a leading '#' is its own clean-up. */
  lemma PlainBody(s: string)
    requires s != [] && s[0] != '#' && !IsSpace(s[0]) && !IsSpace(s[|s| - 1])
    ensures HexBody(s) == s
  {
    assert !HasPrefix(s, "#");
    assert TrimLeft(s) == s;
    assert TrimRight(s) == s;
  }

  /** Six ASCII characters that begin and end with a digit, a letter or punctuation
      above '/' have nothing to clean up and are read pair by pair. */
  lemma PlainSix(t: string)
    requires |t| == 6 && IsAscii(t) && t[0] >= '0' && t[5] >= '0'
    ensures ParseHexColor(t) == RGBA(ParseHexPair(t[0] as int, t[1] as int), ParseHexPair(t[2] as int, t[3] as int),
                                     ParseHexPair(t[4] as int, t[5] as int), 255)
  {
    PlainBody(t);
    SixAsciiCharacters(t);
  }

  /** The red example: "FF0000" is pure red. */
  lemma RedExample()
    ensures ParseHexColor("FF0000") == RGBA(255, 0, 0, 255)
  {
    var t := "FF0000";
    assert t[0] == 'F' && t[1] == 'F' && t[2] == '0' && t[5] == '0';
    PlainSix(t);
    RedPairs();
  }

  lemma RedPairs()
    ensures ParseHexPair('F' as int, 'F' as int) == 255 && ParseHexPair('0' as int, '0' as int) == 0
  {
    assert HexByteValue('F' as int) == 15 && HexByteValue('0' as int) == 0;
  }

  /** Any text whose clean-up is not six ASCII characters, nor fewer characters that
      encode to six bytes, is black; in particular every ASCII text of another length. */
  lemma WrongLengthIsBlack(s: string)
    requires IsAscii(HexBody(s)) && |HexBody(s)| != 6
    ensures ParseHexColor(s) == Black
  {
    Utf8OfAscii(HexBody(s));
  }

  /** A pair that is not two hex digits gives a zero channel while the others are read. */
  lemma NonHexPairExample()
    ensures ParseHexColor("zz8000") == RGBA(0, 0x80, 0, 255)
  {
    var t := "zz8000";
    PlainSix(t);
    assert ParseHexPair(t[0] as int, t[1] as int) == 0;
    assert ParseHexPair(t[2] as int, t[3] as int) == 0x80;
    assert ParseHexPair(t[4] as int, t[5] as int) == 0;
  }

  /** Space in front of the '#' keeps the '#', so six ASCII digits after it make seven
      characters: black, whatever the digits. */
  lemma SpaceBeforeHashIsBlack(digits: string)
    requires |digits| == 6 && IsAscii(digits) && !IsSpace(digits[5])
    ensures ParseHexColor([' ', '#'] + digits) == Black
  {
    var u := ['#'] + digits;
    var t := [' '] + u;
    assert t == [' ', '#'] + digits;
    assert u[6] == digits[5];
    SpaceKeepsHash(u);
    assert forall i | 0 <= i < |u| :: u[i] as int < 0x80 by {
      forall i | 0 <= i < |u| ensures u[i] as int < 0x80 {
        if i > 0 { assert u[i] == digits[i - 1]; }
      }
    }
    WrongLengthIsBlack(t);
  }

  /** A '#' behind white space is not a prefix: only the space is cleaned up. */
  lemma SpaceKeepsHash(u: string)
    requires u != [] && u[0] == '#' && !IsSpace(u[|u| - 1])
    ensures HexBody([' '] + u) == u
  {
    var t := [' '] + u;
    assert TrimPrefix(t, "#") == t by {
      assert t[0] != '#';
    }
    assert TrimLeft(t) == u by {
      LeadingSpaceTrimmed(u);
    }
    assert TrimRight(u) == u;
  }

  /** One space in front of text that starts with no space is all TrimLeft removes. */
  lemma LeadingSpaceTrimmed(u: string)
    requires u != [] && !IsSpace(u[0])
    ensures TrimLeft([' '] + u) == u
  {
    var t := [' '] + u;
    assert t[1..] == u;
  }

  /** Space between the '#' and the digits is trimmed away: the colour is that of the
      digits alone. */
  lemma SpaceAfterHashIsRead(v: string)
    requires v != [] && !IsSpace(v[0]) && !IsSpace(v[|v| - 1]) && v[0] != '#'
    ensures ParseHexColor(['#', ' '] + v) == ParseHexColor(v)
  {
    var t := ['#', ' '] + v;
    var u := [' '] + v;
    assert t[0] == '#' && t[1..] == u;
    assert TrimPrefix(t, "#") == u;
    LeadingSpaceTrimmed(v);
    assert TrimRight(v) == v;
    PlainBody(v);
  }

  lemma Utf8Example()
    ensures Utf8("\U{E9}1234") == [0xC3, 0xA9, 0x31, 0x32, 0x33, 0x34]
  {
    var t := "\U{E9}1234";
    assert EncodeRune(t[0]) == [0xC3, 0xA9];
    Utf8OfAscii(t[1..]);
    assert Utf8(t[1..]) == [0x31, 0x32, 0x33, 0x34];
  }

  /** The length test counts bytes: "é1234" is five characters but six bytes, so it is
      read as pairs, and the pair holding the bytes of 'é' gives 0. */
  lemma MultiByteExample()
    ensures ParseHexColor("\U{E9}1234") == RGBA(0, 0x12, 0x34, 255)
  {
    var t := "\U{E9}1234";
    assert t[0] == '\U{E9}' && t[4] == '4';
    PlainBody(t);
    Utf8Example();
    var b := Utf8(HexBody(t));
    assert b == [0xC3, 0xA9, 0x31, 0x32, 0x33, 0x34];
    MultiBytePairs();
  }

  lemma MultiBytePairs()
    ensures ParseHexPair(0xC3, 0xA9) == 0 && ParseHexPair(0x31, 0x32) == 0x12 && ParseHexPair(0x33, 0x34) == 0x34
  {
    assert !IsHexByte(0xC3);
    assert HexByteValue(0x31) == 1 && HexByteValue(0x32) == 2;
    assert HexByteValue(0x33) == 3 && HexByteValue(0x34) == 4;
  }
}
