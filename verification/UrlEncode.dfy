/** Percent-encoding of names in S3 listings: '/' and '*' stay, '~' is escaped, a space becomes '+'. */
module UrlEncode {
  import opened Common

  const SPACE: byte := 0x20
  const PERCENT: byte := 0x25
  const PLUS: byte := 0x2B

  predicate ShouldEscape(c: byte) {
    if 0x41 <= c <= 0x5A || 0x61 <= c <= 0x7A || 0x30 <= c <= 0x39 then false
    else c !in [0x2D, 0x5F, 0x2E, 0x2F, 0x2A]
  }

  /** The upper-case hexadecimal digit of a value below sixteen. */
  function HexDigit(d: byte): byte
    requires d < 16
  {
    if d < 10 then 0x30 + d else 0x37 + d
  }

  /** The value of a hexadecimal digit of either case. */
  function HexValue(c: byte): Option<byte> {
    if 0x30 <= c <= 0x39 then Some(c - 0x30)
    else if 0x41 <= c <= 0x46 then Some(c - 0x37)
    else if 0x61 <= c <= 0x66 then Some(c - 0x57)
    else None
  }

  function EncodeByte(c: byte): seq<byte> {
    if c == SPACE then [PLUS]
    else if ShouldEscape(c) then [PERCENT, HexDigit(c >> 4), HexDigit(c & 15)]
    else [c]
  }

  function Encode(s: seq<byte>): seq<byte> {
    if s == [] then [] else EncodeByte(s[0]) + Encode(s[1..])
  }

  /** The number of bytes that take three places. */
  function Escapes(s: seq<byte>): nat {
    if s == [] then 0 else (if ShouldEscape(s[0]) && s[0] != SPACE then 1 else 0) + Escapes(s[1..])
  }

  /** Form decoding: '+' is a space, '%' and two hexadecimal digits are a byte; a cut or misspelt
      escape is an error. */
  function Decode(t: seq<byte>): Option<seq<byte>> {
    if t == [] then Some([])
    else if t[0] == PERCENT then
      if |t| < 3 || HexValue(t[1]).None? || HexValue(t[2]).None? then None
      else Before((HexValue(t[1]).value << 4) | HexValue(t[2]).value, Decode(t[3..]))
    else Before(if t[0] == PLUS then SPACE else t[0], Decode(t[1..]))
  }

  function Before(c: byte, rest: Option<seq<byte>>): Option<seq<byte>> {
    match rest
    case None => None
    case Some(s) => Some([c] + s)
  }

  /** The escapes the encoder writes: upper-case digits, and only of a byte that needs one. */
  predicate IsEscape(a: byte, b: byte) {
    && (0x30 <= a <= 0x39 || 0x41 <= a <= 0x46)
    && (0x30 <= b <= 0x39 || 0x41 <= b <= 0x46)
    && var c := (HexValue(a).value << 4) | HexValue(b).value;
       ShouldEscape(c) && c != SPACE
  }

  /** A text of unescaped characters, '+' and escapes. */
  predicate Canonical(t: seq<byte>) {
    if t == [] then true
    else if t[0] == PERCENT then |t| >= 3 && IsEscape(t[1], t[2]) && Canonical(t[3..])
    else (t[0] == PLUS || !ShouldEscape(t[0])) && Canonical(t[1..])
  }

  lemma HexRoundTrip(c: byte)
    ensures HexValue(HexDigit(c >> 4)) == Some(c >> 4) && HexValue(HexDigit(c & 15)) == Some(c & 15)
    ensures ((c >> 4) << 4) | (c & 15) == c
    ensures ShouldEscape(c) && c != SPACE ==> IsEscape(HexDigit(c >> 4), HexDigit(c & 15))
  {
    assert ((c >> 4) << 4) | (c & 15) == c;
  }

  lemma HexDigits(a: byte, b: byte)
    requires IsEscape(a, b)
    ensures var c := (HexValue(a).value << 4) | HexValue(b).value;
            HexDigit(c >> 4) == a && HexDigit(c & 15) == b
  {
    var x, y := HexValue(a).value, HexValue(b).value;
    assert HexDigit(x) == a && HexDigit(y) == b;
    assert ((x << 4) | y) >> 4 == x && ((x << 4) | y) & 15 == y;
  }

  /** The buffer size computed from the counts is the length of the text. */
  lemma {:induction false} EncodedLength(s: seq<byte>)
    ensures |Encode(s)| == |s| + 2 * Escapes(s)
  {
    if s == [] {
    } else {
      EncodedLength(s[1..]);
    }
  }

  lemma {:induction false} EncodeSnoc(s: seq<byte>, c: byte)
    ensures Encode(s + [c]) == Encode(s) + EncodeByte(c)
    ensures Escapes(s + [c]) == Escapes(s) + if ShouldEscape(c) && c != SPACE then 1 else 0
  {
    hide EncodeByte, ShouldEscape;
    if s == [] {
      assert s + [c] == [c];
      assert Encode([]) == [] && EncodeByte(c) + [] == EncodeByte(c);
    } else {
      assert (s + [c])[1..] == s[1..] + [c];
      EncodeSnoc(s[1..], c);
    }
  }

  /** Splitting the first byte off an encoded text. */
  lemma DecodeFirst(c: byte, rest: seq<byte>)
    ensures Decode(EncodeByte(c) + rest) == Before(c, Decode(rest))
    ensures Canonical(EncodeByte(c) + rest) == Canonical(rest)
  {
    HexRoundTrip(c);
    var t := EncodeByte(c) + rest;
    assert t[|EncodeByte(c)|..] == rest;
  }

  lemma {:induction false} EncodeDecodes(s: seq<byte>)
    ensures Decode(Encode(s)) == Some(s) && Canonical(Encode(s))
  {
    if s == [] {
    } else {
      hide Decode, Canonical, EncodeByte;
      EncodeDecodes(s[1..]);
      DecodeFirst(s[0], Encode(s[1..]));
      assert [s[0]] + s[1..] == s;
    }
  }

  /** A text of unescaped characters, '+' and escapes starts with an encoded byte. */
  lemma CanonicalFirst(t: seq<byte>) returns (c: byte, rest: seq<byte>)
    requires Canonical(t) && t != []
    ensures t == EncodeByte(c) + rest && Canonical(rest)
  {
    hide IsEscape, ShouldEscape, EncodeByte, HexValue;
    if t[0] == PERCENT {
      c := EscapedByte(t[1], t[2]);
      rest := t[3..];
      hide Canonical;
    } else {
      c := PlainByte(t[0]);
      rest := t[1..];
      hide Canonical;
    }
  }

  lemma EscapedByte(a: byte, b: byte) returns (c: byte)
    requires IsEscape(a, b)
    ensures EncodeByte(c) == [PERCENT, a, b]
  {
    HexDigits(a, b);
    c := (HexValue(a).value << 4) | HexValue(b).value;
  }

  lemma PlainByte(x: byte) returns (c: byte)
    requires x == PLUS || !ShouldEscape(x)
    ensures EncodeByte(c) == [x]
  {
    c := if x == PLUS then SPACE else x;
  }

  lemma {:induction false} DecodeEncodes(t: seq<byte>)
    requires Canonical(t)
    ensures Decode(t).Some? && Encode(Decode(t).value) == t
    decreases |t|
  {
    if t == [] {
    } else {
      var c, rest := CanonicalFirst(t);
      assert |EncodeByte(c)| > 0;
      hide Decode, Canonical, EncodeByte;
      DecodeEncodes(rest);
      DecodeFirst(c, rest);
      EncodeCons(c, Decode(rest).value);
    }
  }

  lemma EncodeCons(c: byte, s: seq<byte>)
    ensures Encode([c] + s) == EncodeByte(c) + Encode(s)
  {
    hide EncodeByte;
    assert ([c] + s)[1..] == s;
  }

  /** The encoded texts are exactly the texts of unescaped characters, '+' and escapes, and form
      decoding is the inverse of encoding on them. */
  lemma EncodeIsExact(s: seq<byte>, t: seq<byte>)
    ensures Encode(s) == t <==> Canonical(t) && Decode(t) == Some(s)
  {
    EncodeDecodes(s);
    if Canonical(t) { DecodeEncodes(t); }
  }

  lemma EncodeIsInjective(a: seq<byte>, b: seq<byte>)
    requires Encode(a) == Encode(b)
    ensures a == b
  {
    EncodeDecodes(a);
    EncodeDecodes(b);
  }

  // ---------------------------------------------------------------- the characters of a text

  function CharOf(c: byte): char {
    c as int as char
  }

  /** The characters that stand for themselves. */
  predicate Plain(x: char) {
    'A' <= x <= 'Z' || 'a' <= x <= 'z' || '0' <= x <= '9' || x in "-_./*"
  }

  lemma PlainStays(c: byte)
    ensures Plain(CharOf(c)) <==> !ShouldEscape(c)
  {
  }

  /** A plain character stands for itself, '+' for a space, and '%' begins any other byte; so a text holds plain
      characters, '+' and '%' only. */
  lemma ByteText(c: byte)
    ensures Plain(CharOf(c)) ==> EncodeByte(c) == [c]
    ensures CharOf(c) == ' ' ==> |EncodeByte(c)| == 1 && CharOf(EncodeByte(c)[0]) == '+'
    ensures !Plain(CharOf(c)) && CharOf(c) != ' ' ==> |EncodeByte(c)| == 3 && CharOf(EncodeByte(c)[0]) == '%'
    ensures forall i :: 0 <= i < |EncodeByte(c)| ==> Plain(CharOf(EncodeByte(c)[i])) || CharOf(EncodeByte(c)[i]) in "+%"
  {
    PlainStays(c);
    PlainStays(HexDigit(c >> 4));
    PlainStays(HexDigit(c & 15));
    assert !ShouldEscape(HexDigit(c >> 4)) && !ShouldEscape(HexDigit(c & 15));
    hide ShouldEscape, Plain, HexDigit;
  }

  lemma {:induction false} TextCharacters(s: seq<byte>)
    ensures forall i :: 0 <= i < |Encode(s)| ==> Plain(CharOf(Encode(s)[i])) || CharOf(Encode(s)[i]) in "+%"
  {
    hide EncodeByte, Plain, CharOf;
    if s == [] {
    } else {
      ByteText(s[0]);
      TextCharacters(s[1..]);
    }
  }

  /** Without a byte that takes three places the text is the input with '+' for each space. */
  lemma {:induction false} EncodeInPlace(s: seq<byte>)
    requires Escapes(s) == 0
    ensures |Encode(s)| == |s|
    ensures forall i :: 0 <= i < |s| ==> Encode(s)[i] == if s[i] == SPACE then PLUS else s[i]
  {
    if s == [] {
    } else {
      EncodeInPlace(s[1..]);
      assert |EncodeByte(s[0])| == 1;
    }
  }

  lemma SnocAt(s: seq<byte>, i: nat)
    requires i < |s|
    ensures Encode(s[..i + 1]) == Encode(s[..i]) + EncodeByte(s[i])
    ensures Escapes(s[..i + 1]) == Escapes(s[..i]) + if ShouldEscape(s[i]) && s[i] != SPACE then 1 else 0
  {
    assert s[..i + 1] == s[..i] + [s[i]];
    EncodeSnoc(s[..i], s[i]);
  }

  lemma {:induction false} EscapesUpTo(s: seq<byte>, i: nat)
    requires i <= |s|
    ensures |Encode(s[..i])| <= |Encode(s)|
    decreases |s| - i
  {
    if i < |s| {
      SnocAt(s, i);
      EscapesUpTo(s, i + 1);
    } else {
      assert s[..i] == s;
    }
  }

  method S3UrlEncode(s: seq<byte>) returns (text: seq<byte>)
    ensures text == Encode(s)
  {
    hide Encode, Escapes, ShouldEscape;
    var spaceCount, hexCount := CountEscapes(s);
    if spaceCount == 0 && hexCount == 0 {
      EncodeInPlace(s);
      return s;
    }
    EncodedLength(s);
    var required := |s| + 2 * hexCount;
    var t := new byte[required];
    if hexCount == 0 {
      EncodeInPlace(s);
      ReplaceSpaces(s, t);
      return t[..];
    }
    FillEscaped(s, t);
    return t[..];
  }

  /** The first loop: the spaces, and the bytes that take three places. */
  method CountEscapes(s: seq<byte>) returns (spaceCount: nat, hexCount: nat)
    ensures spaceCount == 0 <==> SPACE !in s
    ensures hexCount == Escapes(s)
  {
    hide Encode, Escapes, EncodeByte;
    spaceCount, hexCount := 0, 0;
    EscapesNothing(s);
    for i := 0 to |s|
      invariant spaceCount == 0 <==> SPACE !in s[..i]
      invariant hexCount == Escapes(s[..i])
    {
      SnocAt(s, i);
      assert s[..i + 1] == s[..i] + [s[i]];
      var c := s[i];
      if ShouldEscape(c) {
        if c == SPACE {
          spaceCount := spaceCount + 1;
        } else {
          hexCount := hexCount + 1;
        }
      }
    }
    assert s[..|s|] == s;
  }

  lemma EscapesNothing(s: seq<byte>)
    ensures Escapes(s[..0]) == 0 && Encode(s[..0]) == []
  {
    assert s[..0] == [];
  }

  /** The shortcut for a text of the same length. */
  method ReplaceSpaces(s: seq<byte>, t: array<byte>)
    requires t.Length == |s|
    modifies t
    ensures forall i :: 0 <= i < |s| ==> t[i] == if s[i] == SPACE then PLUS else s[i]
  {
    forall i | 0 <= i < |s| { t[i] := s[i]; }
    for i := 0 to |s|
      invariant forall k :: 0 <= k < i ==> t[k] == if s[k] == SPACE then PLUS else s[k]
      invariant forall k :: i <= k < |s| ==> t[k] == s[k]
    {
      if s[i] == SPACE {
        t[i] := PLUS;
      }
    }
  }

  /** The general loop, which fills the buffer exactly. */
  method FillEscaped(s: seq<byte>, t: array<byte>)
    requires t.Length == |Encode(s)|
    modifies t
    ensures t[..] == Encode(s)
  {
    hide Encode, Escapes, ShouldEscape, HexDigit;
    EscapesNothing(s);
    var j := 0;
    for i := 0 to |s|
      invariant j == |Encode(s[..i])| <= t.Length
      invariant t[..j] == Encode(s[..i])
    {
      SnocAt(s, i);
      EscapesUpTo(s, i + 1);
      ghost var done := t[..j];
      var c := s[i];
      if c == SPACE {
        t[j] := PLUS;
        j := j + 1;
      } else if ShouldEscape(c) {
        t[j] := PERCENT;
        t[j + 1] := HexDigit(c >> 4);
        t[j + 2] := HexDigit(c & 15);
        j := j + 3;
      } else {
        t[j] := s[i];
        j := j + 1;
      }
      assert t[..j] == done + EncodeByte(c);
    }
    assert s[..|s|] == s;
    assert t[..j] == t[..];
  }
}
