/**
 * The memo wire codec of `host/src/envelope.js`: every character becomes
 * its UTF-16 code in hex, padded to two digits and upper-cased; decoding
 * reads two-character groups and turns each into one character.
 */
module HexCodec {
  import opened Json
  import opened JsValue

  /** `c.charCodeAt(0)` for one element of `Array.from(str)`, which iterates
      code points: the code itself in the Basic Multilingual Plane, the high
      surrogate otherwise. */
  function CharCode(c: char): (n: nat)
    ensures n <= 0xFFFF
    ensures c as int <= 0xFFFF ==> n == c as int
  {
    if c as int < 0x10000 then c as int else 0xD800 + (c as int - 0x10000) / 0x400
  }

  /** `n.toString(16)`. */
  function ToHexLower(n: nat): (s: string)
    ensures 1 <= |s|
    ensures n >= 16 ==> 2 <= |s|
    ensures n >= 256 ==> 3 <= |s|
  {
    if n < 16 then [LowerHexDigit(n)] else ToHexLower(n / 16) + [LowerHexDigit(n % 16)]
  }

  /** `.padStart(2, '0')`. */
  function PadStart2(s: string): (r: string)
    ensures |r| == if |s| >= 2 then |s| else 2
  {
    if |s| >= 2 then s else if |s| == 1 then "0" + s else "00"
  }

  function CharHex(c: char): string {
    PadStart2(ToHexLower(CharCode(c)))
  }

  function JoinedHex(s: string): string {
    if s == [] then "" else CharHex(s[0]) + JoinedHex(s[1..])
  }

  function UpperAscii(c: char): char {
    if 'a' <= c <= 'z' then (c as int - 32) as char else c
  }

  /** `.toUpperCase()`; its input here holds only hex digits, where the
      ASCII mapping is the whole story. */
  function ToUpper(s: string): (r: string)
    ensures |r| == |s| && forall i :: 0 <= i < |s| ==> r[i] == UpperAscii(s[i])
  {
    seq(|s|, i requires 0 <= i < |s| => UpperAscii(s[i]))
  }

  /** `stringToHex`. */
  function StringToHex(s: string): string {
    ToUpper(JoinedHex(s))
  }

  // ---------------------------------------------------------------------
  // Decoding

  /** The characters `.` does not match in a regular expression. */
  predicate IsLineTerminator(c: char) {
    c == '\n' || c == '\r' || c as int == 0x2028 || c as int == 0x2029
  }

  /** `hex.match(/.{2}/g) || []`: a match needs two characters that are not
      line terminators; after a failed attempt the search moves on by one. */
  function Groups(s: string): (r: seq<string>)
    ensures forall i :: 0 <= i < |r| ==> |r[i]| == 2
    ensures |r| <= |s| / 2
  {
    if |s| < 2 then []
    else if !IsLineTerminator(s[0]) && !IsLineTerminator(s[1]) then [s[..2]] + Groups(s[2..])
    else Groups(s[1..])
  }

  predicate IsHexDigit(c: char) {
    ('0' <= c <= '9') || ('a' <= c <= 'f') || ('A' <= c <= 'F')
  }

  function HexDigitValue(c: char): (d: nat)
    requires IsHexDigit(c)
    ensures d < 16
  {
    if '0' <= c <= '9' then c as int - '0' as int
    else if 'a' <= c <= 'f' then c as int - 'a' as int + 10
    else c as int - 'A' as int + 10
  }

  /** The longest prefix of hex digits. */
  function HexPrefix(s: string): (r: string)
    ensures |r| <= |s| && r == s[..|r|]
    ensures forall i :: 0 <= i < |r| ==> IsHexDigit(r[i])
  {
    if s != [] && IsHexDigit(s[0]) then [s[0]] + HexPrefix(s[1..]) else []
  }

  function HexValue(ds: string): (v: nat)
    requires forall i :: 0 <= i < |ds| ==> IsHexDigit(ds[i])
    ensures |ds| == 0 ==> v == 0
    ensures |ds| == 1 ==> v < 16
    ensures |ds| == 2 ==> v < 256
  {
    if ds == [] then 0 else 16 * HexValue(ds[..|ds| - 1]) + HexDigitValue(ds[|ds| - 1])
  }

  /** `parseInt(p, 16)` for a two-character group: leading white space, an
      optional sign and an optional `0x` are skipped, then the longest run of
      hex digits is read; no digit at all is NaN. */
  function ParseHexPair(p: string): (r: Num)
    requires |p| == 2
    ensures r.Int? ==> -255 <= r.i <= 255
  {
    var t := TrimStart(p);
    var negative := t != [] && t[0] == '-';
    var u := if t != [] && (t[0] == '-' || t[0] == '+') then t[1..] else t;
    var w := if |u| >= 2 && u[0] == '0' && (u[1] == 'x' || u[1] == 'X') then u[2..] else u;
    var ds := HexPrefix(w);
    if ds == [] then NaN
    else if negative then Int(0 - HexValue(ds) as int)
    else Int(HexValue(ds))
  }

  /** `String.fromCharCode(n)`: NaN is 0, anything else is taken modulo 2^16. */
  function FromCharCode(n: Num): (c: char)
    requires n.Int? ==> -255 <= n.i <= 255
  {
    if n.NaN? then 0 as char else (n.i % 0x10000) as char
  }

  /** `hexToString`. */
  function HexToString(hex: string): (r: string)
    ensures |r| <= |hex| / 2
  {
    var gs := Groups(hex);
    seq(|gs|, i requires 0 <= i < |gs| => FromCharCode(ParseHexPair(gs[i])))
  }

  // ---------------------------------------------------------------------
  // Properties

  lemma CharHexLatin1(c: char)
    requires c as int <= 255
    ensures CharHex(c) == [LowerHexDigit(c as int / 16), LowerHexDigit(c as int % 16)]
  {
    var n := c as int;
    if n >= 16 {
      assert ToHexLower(n) == ToHexLower(n / 16) + [LowerHexDigit(n % 16)];
      assert ToHexLower(n / 16) == [LowerHexDigit(n / 16)];
    }
  }

  /** A character beyond Latin-1 takes three or four hex digits, so the
      fixed two-digit grouping of the decoder loses its alignment. */
  lemma WideCharTakesMoreDigits(c: char)
    requires c as int > 255
    ensures 3 <= |CharHex(c)| <= 4
  {
    var n := CharCode(c);
    assert n >= 256;
    var n1, n2, n3 := n / 16, n / 16 / 16, n / 16 / 16 / 16;
    assert n3 < 16;
    assert |ToHexLower(n3)| == 1;
    assert |ToHexLower(n2)| <= 2;
    assert |ToHexLower(n1)| <= 3;
    assert |ToHexLower(n)| == |ToHexLower(n1)| + 1;
  }

  lemma {:induction false} JoinedHexLatin1(s: string)
    requires Latin1(s)
    ensures |JoinedHex(s)| == 2 * |s|
    ensures forall i :: 0 <= i < |s| ==>
      JoinedHex(s)[2 * i] == LowerHexDigit(s[i] as int / 16) &&
      JoinedHex(s)[2 * i + 1] == LowerHexDigit(s[i] as int % 16)
  {
    if s != [] {
      JoinedHexLatin1(s[1..]);
      CharHexLatin1(s[0]);
    }
  }

  /** Encoding a Latin-1 string gives exactly two upper-case hex digits per
      character. */
  lemma StringToHexShape(s: string)
    requires Latin1(s)
    ensures |StringToHex(s)| == 2 * |s|
    ensures forall i :: 0 <= i < |s| ==>
      StringToHex(s)[2 * i] == UpperAscii(LowerHexDigit(s[i] as int / 16)) &&
      StringToHex(s)[2 * i + 1] == UpperAscii(LowerHexDigit(s[i] as int % 16))
  {
    JoinedHexLatin1(s);
  }

  function UpperHexDigit(d: nat): char
    requires d < 16
  {
    UpperAscii(LowerHexDigit(d))
  }

  lemma UpperHexDigitShape(d: nat)
    requires d < 16
    ensures IsHexDigit(UpperHexDigit(d)) && HexDigitValue(UpperHexDigit(d)) == d
    ensures !IsLineTerminator(UpperHexDigit(d)) && !IsSpace(UpperHexDigit(d))
    ensures UpperHexDigit(d) != '-' && UpperHexDigit(d) != '+'
    ensures UpperHexDigit(d) != 'x' && UpperHexDigit(d) != 'X'
  {
  }

  /** Two upper-case hex digits parse to the byte they spell. */
  lemma ParseUpperPair(a: nat, b: nat)
    requires a < 16 && b < 16
    ensures ParseHexPair([UpperHexDigit(a), UpperHexDigit(b)]) == Int(16 * a + b)
  {
    UpperHexDigitShape(a);
    UpperHexDigitShape(b);
    var p := [UpperHexDigit(a), UpperHexDigit(b)];
    assert TrimStart(p) == p;
    assert HexPrefix(p) == p by {
      assert HexPrefix(p[1..]) == p[1..];
    }
    assert HexValue(p) == 16 * a + b by {
      assert p[..1] == [UpperHexDigit(a)];
      assert HexValue(p[..1]) == a;
    }
  }

  /** Over text without line terminators the groups are the consecutive
      pairs. */
  lemma {:induction false} GroupsOfPairs(s: string)
    requires forall i :: 0 <= i < |s| ==> !IsLineTerminator(s[i])
    ensures |Groups(s)| == |s| / 2
    ensures forall k :: 0 <= k < |s| / 2 ==> Groups(s)[k] == s[2 * k..2 * k + 2]
  {
    if |s| >= 2 {
      GroupsOfPairs(s[2..]);
      forall k | 1 <= k < |s| / 2 ensures Groups(s)[k] == s[2 * k..2 * k + 2] {
        assert Groups(s)[k] == Groups(s[2..])[k - 1];
        assert s[2..][2 * (k - 1)..2 * (k - 1) + 2] == s[2 * k..2 * k + 2];
      }
    }
  }

  lemma EncodedHasNoLineTerminator(s: string)
    requires Latin1(s)
    ensures |StringToHex(s)| == 2 * |s|
    ensures forall i :: 0 <= i < |StringToHex(s)| ==> !IsLineTerminator(StringToHex(s)[i])
  {
    var h := StringToHex(s);
    StringToHexShape(s);
    forall i | 0 <= i < |h| ensures !IsLineTerminator(h[i]) {
      var k := i / 2;
      assert i == 2 * k || i == 2 * k + 1;
      UpperHexDigitShape(s[k] as int / 16);
      UpperHexDigitShape(s[k] as int % 16);
    }
  }

  lemma EncodedGroup(s: string, k: int)
    requires Latin1(s) && 0 <= k < |s|
    ensures |StringToHex(s)| == 2 * |s|
    ensures StringToHex(s)[2 * k..2 * k + 2]
            == [UpperHexDigit(s[k] as int / 16), UpperHexDigit(s[k] as int % 16)]
  {
    StringToHexShape(s);
  }

  lemma DecodeGroup(g: string, c: char)
    requires c as int <= 255
    requires g == [UpperHexDigit(c as int / 16), UpperHexDigit(c as int % 16)]
    ensures FromCharCode(ParseHexPair(g)) == c
  {
    var n := c as int;
    ParseUpperPair(n / 16, n % 16);
    assert 16 * (n / 16) + n % 16 == n;
    assert n % 0x10000 == n;
  }

  /** `hexToString(stringToHex(s)) == s` for every Latin-1 string. */
  lemma HexRoundTrip(s: string)
    requires Latin1(s)
    ensures HexToString(StringToHex(s)) == s
  {
    var h := StringToHex(s);
    EncodedHasNoLineTerminator(s);
    GroupsOfPairs(h);
    var gs := Groups(h);
    var r := HexToString(h);
    assert |r| == |s|;
    forall k | 0 <= k < |s| ensures r[k] == s[k] {
      EncodedGroup(s, k);
      assert gs[k] == h[2 * k..2 * k + 2];
      DecodeGroup(gs[k], s[k]);
    }
  }

  /** The decoder reads consecutive two-digit groups and drops a trailing
      odd digit; the empty input decodes to the empty string. */
  lemma DecodeDropsOddDigit(hex: string)
    requires forall i :: 0 <= i < |hex| ==> IsHexDigit(hex[i])
    requires |hex| % 2 == 1
    ensures HexToString(hex) == HexToString(hex[..|hex| - 1])
    ensures |HexToString(hex)| == |hex| / 2
  {
    var t := hex[..|hex| - 1];
    GroupsOfPairs(hex);
    GroupsOfPairs(t);
    assert Groups(hex) == Groups(t) by {
      forall k | 0 <= k < |hex| / 2 ensures Groups(hex)[k] == Groups(t)[k] {
        assert hex[2 * k..2 * k + 2] == t[2 * k..2 * k + 2];
      }
    }
  }
}
