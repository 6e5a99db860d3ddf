/** How Go reads a string as text: UTF-8 (RFC 3629), an octet that begins no valid encoding
    standing for itself. */
module Utf8 {
  import opened Prelude

  /** What one step of decoding delivers: a code point, or an octet that is not valid UTF-8. */
  datatype Sym = Rune(c: char) | Bad(b: Byte)
  type Text = seq<Sym>

  function Runes(s: string): Text { seq(|s|, i requires 0 <= i < |s| => Rune(s[i])) }

  function Octet(n: int): Byte
    requires 0 <= n < 256
  {
    n as char
  }

  predicate Scalar(v: int) { 0 <= v < 0xD800 || 0xE000 <= v < 0x11_0000 }

  /* ---- Encoding ---- */

  function EncodeRune(c: char): (b: Bytes)
    ensures 1 <= |b| <= 4
  {
    var v := c as int;
    if v < 0x80 then [Octet(v)]
    else if v < 0x800 then [Octet(0xC0 + v / 64), Octet(0x80 + v % 64)]
    else if v < 0x1_0000 then [Octet(0xE0 + v / 4096), Octet(0x80 + v / 64 % 64), Octet(0x80 + v % 64)]
    else [Octet(0xF0 + v / 262144), Octet(0x80 + v / 4096 % 64), Octet(0x80 + v / 64 % 64), Octet(0x80 + v % 64)]
  }

  function EncodeSym(x: Sym): (b: Bytes)
    ensures b != []
  {
    match x
    case Rune(c) => EncodeRune(c)
    case Bad(b) => [b]
  }

  function Encode(t: Text): Bytes { if t == [] then [] else EncodeSym(t[0]) + Encode(t[1..]) }

  /* ---- Decoding ---- */

  predicate Continues(b: Byte) { 0x80 <= b as int < 0xC0 }

  /** The low six bits of a continuation octet. */
  function Low(b: Byte): int { b as int - 0x80 }

  /** The code point whose encoding b begins with, if there is one: no overlong forms, no
      surrogates, nothing beyond U+10FFFF. */
  function RuneAt(b: Bytes): Option<char>
    requires b != []
  {
    var lead := b[0] as int;
    if lead < 0x80 then Some(lead as char)
    else if 0xC2 <= lead < 0xE0 && |b| >= 2 && Continues(b[1]) then Some((64 * (lead - 0xC0) + Low(b[1])) as char)
    else if 0xE0 <= lead < 0xF0 && |b| >= 3 && Continues(b[1]) && Continues(b[2]) then
      var v := 4096 * (lead - 0xE0) + 64 * Low(b[1]) + Low(b[2]);
      if 0x800 <= v && Scalar(v) then Some(v as char) else None
    else if 0xF0 <= lead < 0xF5 && |b| >= 4 && Continues(b[1]) && Continues(b[2]) && Continues(b[3]) then
      var v := 262144 * (lead - 0xF0) + 4096 * Low(b[1]) + 64 * Low(b[2]) + Low(b[3]);
      if 0x1_0000 <= v && Scalar(v) then Some(v as char) else None
    else None
  }

  /** The digits of a number in base 64. */
  lemma Digits(v: int, a: int, b: int, c: int, d: int)
    requires v == 262144 * a + 4096 * b + 64 * c + d && 0 <= b < 64 && 0 <= c < 64 && 0 <= d < 64
    ensures v / 262144 == a && v / 4096 % 64 == b && v / 64 % 64 == c && v % 64 == d
    ensures v / 4096 == 64 * a + b && v / 64 == 4096 * a + 64 * b + c
  {
    assert v / 64 == 4096 * a + 64 * b + c;
    assert v / 4096 == 64 * a + b;
  }

  lemma RuneAtIsPrefix(b: Bytes)
    requires b != [] && RuneAt(b).Some?
    ensures EncodeRune(RuneAt(b).value) <= b
  {
    var lead := b[0] as int;
    if lead < 0x80 {
    } else if lead < 0xE0 {
      Digits(RuneAt(b).value as int, 0, 0, lead - 0xC0, Low(b[1]));
    } else if lead < 0xF0 {
      Digits(RuneAt(b).value as int, 0, lead - 0xE0, Low(b[1]), Low(b[2]));
    } else {
      Digits(RuneAt(b).value as int, lead - 0xF0, Low(b[1]), Low(b[2]), Low(b[3]));
    }
  }

  lemma RuneAtEncoding(c: char, rest: Bytes)
    ensures RuneAt(EncodeRune(c) + rest) == Some(c)
  {
    var v, b := c as int, EncodeRune(c) + rest;
    assert forall k :: 0 <= k < |EncodeRune(c)| ==> b[k] == EncodeRune(c)[k];
    if v < 0x80 {
    } else if v < 0x800 {
      assert Low(b[1]) == v % 64 && b[0] as int - 0xC0 == v / 64;
    } else if v < 0x1_0000 {
      assert Low(b[1]) == v / 64 % 64 && Low(b[2]) == v % 64 && b[0] as int - 0xE0 == v / 4096;
      assert v / 4096 == v / 64 / 64;
    } else {
      assert Low(b[1]) == v / 4096 % 64 && Low(b[2]) == v / 64 % 64 && Low(b[3]) == v % 64;
      assert v / 4096 == v / 64 / 64 && v / 262144 == v / 4096 / 64;
    }
  }

  lemma RuneAtPrefixed(b: Bytes, c: char)
    requires EncodeRune(c) <= b
    ensures b != [] && RuneAt(b) == Some(c)
  {
    hide EncodeRune, RuneAt;
    RuneAtEncoding(c, b[|EncodeRune(c)|..]);
    assert b == EncodeRune(c) + b[|EncodeRune(c)|..];
  }

  function Decode(b: Bytes): Text
    decreases |b|
  {
    if b == [] then []
    else match RuneAt(b)
      case Some(c) =>
        RuneAtIsPrefix(b);
        [Rune(c)] + Decode(b[|EncodeRune(c)|..])
      case None => [Bad(b[0])] + Decode(b[1..])
  }

  /** No octet is lost or changed by decoding. */
  lemma {:induction false} EncodeDecode(b: Bytes)
    ensures Encode(Decode(b)) == b
    decreases |b|
  {
    hide RuneAt, EncodeRune;
    if b != [] {
      var x := Decode(b)[0];
      if RuneAt(b).Some? {
        RuneAtIsPrefix(b);
      }
      var n := |EncodeSym(x)|;
      EncodeDecode(b[n..]);
      assert Decode(b)[1..] == Decode(b[n..]);
      assert b == b[..n] + b[n..];
    }
  }

  /* ---- Texts that can be the result of decoding ---- */

  function Bads(b: Bytes): Text { seq(|b|, i requires 0 <= i < |b| => Bad(b[i])) }

  /** Nowhere do invalid octets stand side by side that together would be valid. */
  ghost predicate Canonical(t: Text) {
    forall i, j, c: char :: 0 <= i <= j <= |t| ==> t[i..j] != Bads(EncodeRune(c))
  }

  lemma EncodingShape(c: char)
    ensures !Continues(EncodeRune(c)[0])
    ensures forall k :: 1 <= k < |EncodeRune(c)| ==> Continues(EncodeRune(c)[k])
  {
  }

  lemma BadsCons(b: Bytes)
    requires b != []
    ensures Bads(b) == [Bad(b[0])] + Bads(b[1..])
  {
  }

  lemma EncodeBadHead(t: Text)
    requires t != [] && t[0].Bad?
    ensures Encode(t) == [t[0].b] + Encode(t[1..])
  {
  }

  predicate AllContinue(b: Bytes) { forall k :: 0 <= k < |b| ==> Continues(b[k]) }

  lemma EncodeHead(t: Text)
    requires t != [] && Encode(t) != [] && Continues(Encode(t)[0])
    ensures t[0].Bad?
  {
    hide EncodeRune, Continues;
    if t[0].Rune? {
      EncodingShape(t[0].c);
    }
  }

  /** Continuation octets at the start of an encoded text are invalid octets of the text. */
  lemma {:induction false} ContinuationsAreBad(t: Text, e: Bytes)
    requires e <= Encode(t) && AllContinue(e)
    ensures Bads(e) <= t
  {
    hide EncodeRune, Continues, Encode, Bads;
    if e == [] {
      NoBads();
    } else {
      NotEmptyText(t);
      assert Encode(t)[0] == e[0];
      EncodeHead(t);
      EncodeBadHead(t);
      assert e[1..] <= Encode(t[1..]);
      ContinuationsAreBad(t[1..], e[1..]);
      BadsCons(e);
      assert t == [t[0]] + t[1..];
    }
  }

  lemma NoBads()
    ensures Bads([]) == []
  {
  }

  lemma NotEmptyText(t: Text)
    ensures Encode(t) != [] ==> t != []
  {
  }

  /** An encoding that begins with an invalid octet is spelled out in invalid octets. */
  lemma SpelledOut(t: Text, c: char)
    requires t != [] && t[0].Bad? && EncodeRune(c) <= Encode(t)
    ensures |Bads(EncodeRune(c))| <= |t| && t[0..|Bads(EncodeRune(c))|] == Bads(EncodeRune(c))
  {
    hide RuneAt, EncodeRune, Continues, Encode, Bads;
    var e := EncodeRune(c);
    EncodingShape(c);
    EncodeBadHead(t);
    assert e[1..] <= Encode(t[1..]) && e[0] == t[0].b;
    ContinuationsAreBad(t[1..], e[1..]);
    BadsCons(e);
    assert t == [t[0]] + t[1..];
    assert t[0..|Bads(e)|] == t[..|Bads(e)|];
  }

  lemma BadHead(t: Text)
    requires t != [] && t[0].Bad? && Canonical(t)
    ensures Encode(t) != [] && RuneAt(Encode(t)).None?
  {
    hide RuneAt, EncodeRune, Continues;
    if RuneAt(Encode(t)).Some? {
      RuneAtIsPrefix(Encode(t));
      SpelledOut(t, RuneAt(Encode(t)).value);
    }
  }

  lemma CanonicalTail(t: Text)
    requires Canonical(t) && t != []
    ensures Canonical(t[1..])
  {
    hide EncodeRune;
    forall i, j, c: char | 0 <= i <= j <= |t| - 1
      ensures t[1..][i..j] != Bads(EncodeRune(c))
    {
      assert t[1..][i..j] == t[i + 1..j + 1];
    }
  }

  lemma {:induction false} DecodeEncode(t: Text)
    requires Canonical(t)
    ensures Decode(Encode(t)) == t
  {
    hide RuneAt, EncodeRune, Canonical;
    if t != [] {
      CanonicalTail(t);
      DecodeEncode(t[1..]);
      var b := Encode(t);
      if t[0].Bad? {
        BadHead(t);
        assert b[1..] == Encode(t[1..]);
      } else {
        RuneAtEncoding(t[0].c, Encode(t[1..]));
        assert b[|EncodeRune(t[0].c)|..] == Encode(t[1..]);
      }
    }
  }

  lemma {:induction false} EncodeConcat(a: Text, b: Text)
    ensures Encode(a + b) == Encode(a) + Encode(b)
  {
    if a == [] {
      assert a + b == b;
    } else {
      assert (a + b)[1..] == a[1..] + b;
      EncodeConcat(a[1..], b);
    }
  }

  lemma {:induction false} EncodeBads(b: Bytes)
    ensures Encode(Bads(b)) == b
  {
    if b != [] {
      assert Bads(b)[1..] == Bads(b[1..]);
      EncodeBads(b[1..]);
    }
  }

  /** What decoding delivers is canonical. */
  lemma {:induction false} DecodedIsCanonical(b: Bytes)
    ensures Canonical(Decode(b))
    decreases |b|
  {
    hide RuneAt, EncodeRune;
    var t := Decode(b);
    if b != [] {
      var n := |EncodeSym(t[0])|;
      if RuneAt(b).Some? {
        RuneAtIsPrefix(b);
      }
      assert t[1..] == Decode(b[n..]);
      DecodedIsCanonical(b[n..]);
    }
    forall i, j, c: char | 0 <= i <= j <= |t|
      ensures t[i..j] != Bads(EncodeRune(c))
    {
      if i > 0 {
        assert t[i..j] == t[1..][i - 1..j - 1];
      } else if t[i..j] == Bads(EncodeRune(c)) {
        SpelledIsPrefix(b, j, c);
        RuneAtPrefixed(b, c);
      }
    }
  }

  lemma SpelledIsPrefix(b: Bytes, j: nat, c: char)
    requires j <= |Decode(b)| && Decode(b)[0..j] == Bads(EncodeRune(c))
    ensures EncodeRune(c) <= b
  {
    hide RuneAt, EncodeRune, Decode;
    var t := Decode(b);
    EncodeDecode(b);
    assert t == t[0..j] + t[j..];
    EncodeConcat(t[0..j], t[j..]);
    EncodeBads(EncodeRune(c));
  }

  /** ASCII text is its own encoding. */
  lemma {:induction false} DecodeAscii(b: Bytes)
    requires forall i :: 0 <= i < |b| ==> b[i] as int < 0x80
    ensures Decode(b) == Runes(b)
  {
    if b != [] {
      DecodeAscii(b[1..]);
      assert RuneAt(b) == Some(b[0]);
    }
  }

  /** The examples of section 7 of RFC 3629, and its limits: no overlong form, no surrogate, nothing
      beyond U+10FFFF. */
  lemma Examples()
    ensures EncodeRune('\U{2262}') == [Octet(0xE2), Octet(0x89), Octet(0xA2)]
    ensures EncodeRune('\U{391}') == [Octet(0xCE), Octet(0x91)]
    ensures EncodeRune('\U{D55C}') == [Octet(0xED), Octet(0x95), Octet(0x9C)]
    ensures EncodeRune('\U{233B4}') == [Octet(0xF0), Octet(0xA3), Octet(0x8E), Octet(0xB4)]
    ensures RuneAt([Octet(0xC0), Octet(0x80)]) == None && RuneAt([Octet(0xE0), Octet(0x9F), Octet(0xBF)]) == None
    ensures RuneAt([Octet(0xED), Octet(0xA0), Octet(0x80)]) == None
    ensures RuneAt([Octet(0xF4), Octet(0x90), Octet(0x80), Octet(0x80)]) == None && RuneAt([Octet(0x80)]) == None
  {
  }
}
