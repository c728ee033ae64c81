/**
 * UTF-8 as defined by section 4 of RFC 3629 ("Syntax of UTF-8 Byte Sequences"):
 *
 *   UTF8-octets = *( UTF8-char )
 *   UTF8-char   = UTF8-1 / UTF8-2 / UTF8-3 / UTF8-4
 *
 * This is exactly what Python's strict `bytes.decode('utf-8')` accepts: no
 * overlong forms, no surrogates, nothing above U+10FFFF.
 */
module Utf8 {
  import opened Wrappers

  /** An octet as Python's `bytes` holds it. */
  newtype byte = x: int | 0 <= x < 0x100

  /** UTF8-tail = %x80-BF */
  predicate IsTail(b: byte) { 0x80 <= b <= 0xBF }

  /** UTF8-1 = %x00-7F */
  predicate IsUtf8One(c: seq<byte>) { |c| == 1 && c[0] <= 0x7F }

  /** UTF8-2 = %xC2-DF UTF8-tail */
  predicate IsUtf8Two(c: seq<byte>) { |c| == 2 && 0xC2 <= c[0] <= 0xDF && IsTail(c[1]) }

  /** UTF8-3 = %xE0 %xA0-BF UTF8-tail / %xE1-EC 2( UTF8-tail ) /
               %xED %x80-9F UTF8-tail / %xEE-EF 2( UTF8-tail ) */
  predicate IsUtf8Three(c: seq<byte>) {
    && |c| == 3
    && (|| (c[0] == 0xE0 && 0xA0 <= c[1] <= 0xBF)
        || (0xE1 <= c[0] <= 0xEC && IsTail(c[1]))
        || (c[0] == 0xED && 0x80 <= c[1] <= 0x9F)
        || (0xEE <= c[0] <= 0xEF && IsTail(c[1])))
    && IsTail(c[2])
  }

  /** UTF8-4 = %xF0 %x90-BF 2( UTF8-tail ) / %xF1-F3 3( UTF8-tail ) /
               %xF4 %x80-8F 2( UTF8-tail ) */
  predicate IsUtf8Four(c: seq<byte>) {
    && |c| == 4
    && (|| (c[0] == 0xF0 && 0x90 <= c[1] <= 0xBF)
        || (0xF1 <= c[0] <= 0xF3 && IsTail(c[1]))
        || (c[0] == 0xF4 && 0x80 <= c[1] <= 0x8F))
    && IsTail(c[2]) && IsTail(c[3])
  }

  /** UTF8-char: one complete, well-formed character. */
  predicate IsUtf8Char(c: seq<byte>) {
    IsUtf8One(c) || IsUtf8Two(c) || IsUtf8Three(c) || IsUtf8Four(c)
  }

  /** The number of octets a character starting with `lead` occupies, or 0 when
      no UTF8-char starts with `lead` (a tail octet, C0, C1 or F5-FF). */
  function SequenceLength(lead: byte): (n: nat)
    ensures n <= 4
  {
    if lead <= 0x7F then 1
    else if 0xC2 <= lead <= 0xDF then 2
    else if 0xE0 <= lead <= 0xEF then 3
    else if 0xF0 <= lead <= 0xF4 then 4
    else 0
  }

  /** UTF-8 is prefix-free: the first octet of a character fixes its length, so
      a greedy left-to-right parse is the only parse. */
  lemma LeadFixesLength(c: seq<byte>)
    requires IsUtf8Char(c)
    ensures SequenceLength(c[0]) == |c|
  {
  }

  /** UTF8-octets: the whole of `s` is a sequence of well-formed characters. */
  predicate WellFormed(s: seq<byte>)
    decreases |s|
  {
    if s == [] then true
    else
      var n := SequenceLength(s[0]);
      0 < n <= |s| && IsUtf8Char(s[..n]) && WellFormed(s[n..])
  }

  /** The code point a well-formed character stands for. */
  function CodePoint(c: seq<byte>): (cp: int)
    requires IsUtf8Char(c)
    ensures 0 <= cp < 0xD800 || 0xE000 <= cp < 0x11_0000
    ensures |c| == 1 <==> cp < 0x80
    ensures |c| == 2 <==> 0x80 <= cp < 0x800
    ensures |c| == 3 <==> 0x800 <= cp < 0x10000
    ensures |c| == 4 <==> 0x10000 <= cp
  {
    if |c| == 1 then c[0] as int
    else if |c| == 2 then (c[0] as int - 0xC0) * 0x40 + (c[1] as int - 0x80)
    else if |c| == 3 then
      (c[0] as int - 0xE0) * 0x1000 + (c[1] as int - 0x80) * 0x40 + (c[2] as int - 0x80)
    else
      (c[0] as int - 0xF0) * 0x40000 + (c[1] as int - 0x80) * 0x1000
      + (c[2] as int - 0x80) * 0x40 + (c[3] as int - 0x80)
  }

  /** The Unicode scalar value a well-formed character stands for. */
  function DecodeChar(c: seq<byte>): (ch: char)
    requires IsUtf8Char(c)
  {
    CodePoint(c) as char
  }

  /** A code point split into six-bit groups: x == 0x40 * (x / 0x40) + x % 0x40. */
  lemma SixBits(x: int)
    requires 0 <= x
    ensures x == 0x40 * (x / 0x40) + x % 0x40 && 0 <= x % 0x40 < 0x40
  {
  }

  /** The UTF-8 octets of a Unicode scalar value; the shortest form, as RFC 3629 demands. */
  function EncodeCodePoint(cp: int): (c: seq<byte>)
    requires 0 <= cp < 0xD800 || 0xE000 <= cp < 0x11_0000
    ensures IsUtf8Char(c) && CodePoint(c) == cp
  {
    if cp < 0x80 then [cp as byte]
    else if cp < 0x800 then
      var hi, lo := cp / 0x40, cp % 0x40;
      SixBits(cp);
      [(0xC0 + hi) as byte, (0x80 + lo) as byte]
    else if cp < 0x10000 then
      var hi, mid, lo := cp / 0x1000, cp / 0x40 % 0x40, cp % 0x40;
      SixBits(cp); SixBits(cp / 0x40);
      assert cp / 0x40 / 0x40 == hi;
      [(0xE0 + hi) as byte, (0x80 + mid) as byte, (0x80 + lo) as byte]
    else
      var top, hi, mid, lo := cp / 0x40000, cp / 0x1000 % 0x40, cp / 0x40 % 0x40, cp % 0x40;
      SixBits(cp); SixBits(cp / 0x40); SixBits(cp / 0x1000);
      assert cp / 0x40 / 0x40 == cp / 0x1000;
      assert cp / 0x1000 / 0x40 == top;
      [(0xF0 + top) as byte, (0x80 + hi) as byte, (0x80 + mid) as byte, (0x80 + lo) as byte]
  }

  /** The UTF-8 encoding of one character. */
  function EncodeChar(ch: char): (c: seq<byte>)
    ensures IsUtf8Char(c) && DecodeChar(c) == ch
  {
    EncodeCodePoint(ch as int)
  }

  /** The length and the code point together fix the octets. */
  lemma CodePointInjective(c: seq<byte>, d: seq<byte>)
    requires IsUtf8Char(c) && IsUtf8Char(d) && CodePoint(c) == CodePoint(d)
    ensures c == d
  {
    if |c| == 2 {
      assert c[0] == d[0];
    } else if |c| == 3 {
      assert c[0] == d[0];
      assert c[1] == d[1];
    } else if |c| == 4 {
      assert c[0] == d[0];
      assert c[1] == d[1];
      assert c[2] == d[2];
    }
  }

  /** A well-formed character is the encoding of the character it decodes to. */
  lemma EncodeDecodeChar(c: seq<byte>)
    requires IsUtf8Char(c)
    ensures EncodeChar(DecodeChar(c)) == c
  {
    CodePointInjective(EncodeChar(DecodeChar(c)), c);
  }

  /** The UTF-8 encoding of a string, character by character. */
  function Encode(t: string): (s: seq<byte>)
  {
    if t == [] then [] else EncodeChar(t[0]) + Encode(t[1..])
  }

  /** Strict decoding: the text `s` encodes, or None when `s` is not well-formed
      (Python raises UnicodeDecodeError in that case). */
  function Decode(s: seq<byte>): (r: Option<string>)
    ensures r.Some? <==> WellFormed(s)
    decreases |s|
  {
    if s == [] then Some([])
    else
      var n := SequenceLength(s[0]);
      if n == 0 || n > |s| || !IsUtf8Char(s[..n]) then None
      else match Decode(s[n..])
        case None => None
        case Some(rest) => Some([DecodeChar(s[..n])] + rest)
  }

  /** Every string decodes back from its encoding. */
  lemma {:induction false} DecodeEncode(t: string)
    ensures Decode(Encode(t)) == Some(t)
  {
    if t != [] {
      var c := EncodeChar(t[0]);
      var s := Encode(t);
      assert s == c + Encode(t[1..]);
      LeadFixesLength(c);
      assert s[0] == c[0];
      assert s[..|c|] == c;
      assert s[|c|..] == Encode(t[1..]);
      DecodeEncode(t[1..]);
      assert Decode(s) == Some([DecodeChar(c)] + t[1..]);
      assert [t[0]] + t[1..] == t;
    }
  }

  /** Whatever decodes is the encoding of its decoding: decoding loses nothing,
      so well-formed input is appended byte for byte. */
  lemma {:induction false} EncodeOfDecode(s: seq<byte>)
    requires Decode(s).Some?
    ensures Encode(Decode(s).value) == s
    decreases |s|
  {
    if s != [] {
      var n := SequenceLength(s[0]);
      EncodeOfDecode(s[n..]);
      EncodeDecodeChar(s[..n]);
      assert s == s[..n] + s[n..];
    }
  }

  /** Octets 00-7F are single-octet characters: a chunk made only of them
      decodes, one character per octet, to the same code values. */
  lemma {:induction false} AsciiDecodesVerbatim(s: seq<byte>)
    requires forall i :: 0 <= i < |s| ==> s[i] <= 0x7F
    ensures Decode(s).Some?
    ensures |Decode(s).value| == |s|
    ensures forall i :: 0 <= i < |s| ==> Decode(s).value[i] as int == s[i] as int
    decreases |s|
  {
    if s != [] {
      assert SequenceLength(s[0]) == 1 && IsUtf8One(s[..1]);
      AsciiDecodesVerbatim(s[1..]);
      var rest := Decode(s[1..]).value;
      assert Decode(s).value == [s[0] as int as char] + rest;
    }
  }
}
