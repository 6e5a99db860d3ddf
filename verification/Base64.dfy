/** The standard padded base64 of section 4 of RFC 4648, as the frames carry it. The decoder
    follows Go's StdEncoding: line breaks are skipped and the unused low bits of a padded
    group are not checked. */
module Base64 {
  import opened Prelude

  function Digit(n: nat): (c: Byte)
    requires n < 64
    ensures c != '=' && c != '\r' && c != '\n' && Value(c) == Some(n)
  {
    if n < 26 then 'A' + n as char
    else if n < 52 then 'a' + (n - 26) as char
    else if n < 62 then '0' + (n - 52) as char
    else if n == 62 then '+' else '/'
  }

  function Value(c: Byte): (v: Option<nat>)
    ensures v.Some? ==> v.value < 64
  {
    if 'A' <= c <= 'Z' then Some(c as int - 'A' as int)
    else if 'a' <= c <= 'z' then Some(c as int - 'a' as int + 26)
    else if '0' <= c <= '9' then Some(c as int - '0' as int + 52)
    else if c == '+' then Some(62)
    else if c == '/' then Some(63)
    else None
  }

  function Encode(b: Bytes): Bytes {
    if b == [] then []
    else if |b| == 1 then
      [Digit(b[0] as int / 4), Digit(b[0] as int % 4 * 16), '=', '=']
    else if |b| == 2 then
      [Digit(b[0] as int / 4), Digit(b[0] as int % 4 * 16 + b[1] as int / 16), Digit(b[1] as int % 16 * 4), '=']
    else
      [Digit(b[0] as int / 4), Digit(b[0] as int % 4 * 16 + b[1] as int / 16),
       Digit(b[1] as int % 16 * 4 + b[2] as int / 64), Digit(b[2] as int % 64)]
      + Encode(b[3..])
  }

  function StripBreaks(s: Bytes): Bytes {
    if s == [] then []
    else (if s[0] == '\r' || s[0] == '\n' then [] else [s[0]]) + StripBreaks(s[1..])
  }

  function Octet(n: nat): Byte
    requires n < 256
  {
    n as char
  }

  /** Decodes whole groups of four; None is the source's CorruptInputError. */
  function DecodeGroups(s: Bytes): Option<Bytes> {
    if s == [] then Some([])
    else if |s| < 4 then None
    else match (Value(s[0]), Value(s[1]), Value(s[2]), Value(s[3]))
      case (Some(a), Some(b), Some(c), Some(d)) =>
        (match DecodeGroups(s[4..])
         case None => None
         case Some(rest) =>
           Some([Octet(a * 4 + b / 16), Octet(b % 16 * 16 + c / 4), Octet(c % 4 * 64 + d)] + rest))
      case (Some(a), Some(b), Some(c), None) =>
        if s[3] == '=' && |s| == 4 then Some([Octet(a * 4 + b / 16), Octet(b % 16 * 16 + c / 4)]) else None
      case (Some(a), Some(b), None, None) =>
        if s[2] == '=' && s[3] == '=' && |s| == 4 then Some([Octet(a * 4 + b / 16)]) else None
      case _ => None
  }

  function Decode(s: Bytes): Option<Bytes> { DecodeGroups(StripBreaks(s)) }

  lemma {:induction false} NoBreaks(s: Bytes)
    requires '\r' !in s && '\n' !in s
    ensures StripBreaks(s) == s
  {
    if s != [] {
      NoBreaks(s[1..]);
    }
  }

  lemma {:induction false} EncodeHasNoBreaks(b: Bytes)
    ensures '\r' !in Encode(b) && '\n' !in Encode(b)
  {
    if |b| > 2 {
      EncodeHasNoBreaks(b[3..]);
    }
  }

  /** Splitting three octets into sextets loses nothing (z is absent from a short group). */
  lemma Regroup(x: nat, y: nat, z: nat)
    requires x < 256 && y < 256 && z < 256
    ensures var b, c := x % 4 * 16 + y / 16, y % 16 * 4 + z / 64;
            b < 64 && c < 64 && x / 4 * 4 + b / 16 == x && b % 16 * 16 + c / 4 == y && c % 4 * 64 + z % 64 == z
    ensures x / 4 * 4 + x % 4 * 16 / 16 == x
    ensures (x % 4 * 16 + y / 16) % 16 * 16 + y % 16 * 4 / 4 == y
  {
    var b, c := x % 4 * 16 + y / 16, y % 16 * 4 + z / 64;
    assert b / 16 == x % 4 && b % 16 == y / 16;
    assert c / 4 == y % 16 && c % 4 == z / 64;
  }

  lemma {:induction false} GroupsRoundTrip(b: Bytes)
    ensures DecodeGroups(Encode(b)) == Some(b)
  {
    if |b| == 1 {
      OneOctet(b[0]);
      assert b == [b[0]];
    } else if |b| == 2 {
      TwoOctets(b[0], b[1]);
      assert b == [b[0], b[1]];
    } else if |b| > 2 {
      GroupsRoundTrip(b[3..]);
      ThreeOctets(b[0], b[1], b[2], Encode(b[3..]));
      assert b == [b[0], b[1], b[2]] + b[3..];
    }
  }

  lemma OneOctet(x: Byte)
    ensures DecodeGroups(Encode([x])) == Some([x])
  {
    var p, q := Digit(x as int / 4), Digit(x as int % 4 * 16);
    assert Encode([x]) == [p, q, '=', '='];
    Regroup(x as int, 0, 0);
    assert Octet(x as int / 4 * 4 + x as int % 4 * 16 / 16) == x;
  }

  lemma TwoOctets(x: Byte, y: Byte)
    ensures DecodeGroups(Encode([x, y])) == Some([x, y])
  {
    var b, c := x as int % 4 * 16 + y as int / 16, y as int % 16 * 4;
    var s := [Digit(x as int / 4), Digit(b), Digit(c), '='];
    assert Encode([x, y]) == s;
    Regroup(x as int, y as int, 0);
    assert Octet(x as int / 4 * 4 + b / 16) == x && Octet(b % 16 * 16 + c / 4) == y;
    assert DecodeGroups(s) == Some([Octet(x as int / 4 * 4 + b / 16), Octet(b % 16 * 16 + c / 4)]);
  }

  lemma ThreeOctets(x: Byte, y: Byte, z: Byte, rest: Bytes)
    requires DecodeGroups(rest).Some?
    ensures var b, c := x as int % 4 * 16 + y as int / 16, y as int % 16 * 4 + z as int / 64;
            DecodeGroups([Digit(x as int / 4), Digit(b), Digit(c), Digit(z as int % 64)] + rest)
            == Some([x, y, z] + DecodeGroups(rest).value)
  {
    var b, c := x as int % 4 * 16 + y as int / 16, y as int % 16 * 4 + z as int / 64;
    var s := [Digit(x as int / 4), Digit(b), Digit(c), Digit(z as int % 64)] + rest;
    assert s[4..] == rest;
    Regroup(x as int, y as int, z as int);
    assert Octet(x as int / 4 * 4 + b / 16) == x && Octet(b % 16 * 16 + c / 4) == y;
    assert Octet(c % 4 * 64 + z as int % 64) == z;
  }

  lemma RoundTrip(b: Bytes)
    ensures Decode(Encode(b)) == Some(b)
  {
    EncodeHasNoBreaks(b);
    NoBreaks(Encode(b));
    GroupsRoundTrip(b);
  }

  /* ---- The coding itself ---- */

  /** Table 1 of RFC 4648, by code: A-Z, a-z, 0-9, plus and slash. */
  lemma Alphabet(n: nat)
    requires n < 64
    ensures Value(Digit(n)) == Some(n)
    ensures Digit(n) as int == if n < 26 then 65 + n else if n < 52 then 71 + n else if n < 62 then n - 4
                               else if n == 62 then 43 else 47
  {
  }

  lemma ThreeEncoded(x: Byte, y: Byte, z: Byte, rest: Bytes)
    ensures Encode([x, y, z] + rest)
            == [Digit(x as int / 4), Digit(x as int % 4 * 16 + y as int / 16),
                Digit(y as int % 16 * 4 + z as int / 64), Digit(z as int % 64)] + Encode(rest)
  {
    hide Digit;
    var b := [x, y, z] + rest;
    assert b[3..] == rest && b[0] == x && b[1] == y && b[2] == z;
  }

  /** Section 4 of RFC 4648: three octets are a number of 24 bits, written as four digits of six
      bits each. */
  lemma EncodesGroup(x: Byte, y: Byte, z: Byte, rest: Bytes)
    ensures var n := 65536 * x as int + 256 * y as int + z as int;
            Encode([x, y, z] + rest)
            == [Digit(n / 262144), Digit(n / 4096 % 64), Digit(n / 64 % 64), Digit(n % 64)] + Encode(rest)
  {
    hide Digit, Encode;
    Sextets(x as int, y as int, z as int);
    ThreeEncoded(x, y, z, rest);
  }

  /** One or two octets at the end are filled up with zero bits and padded. */
  lemma EncodesRest(x: Byte, y: Byte)
    ensures var n := 65536 * x as int + 256 * y as int;
            Encode([x, y]) == [Digit(n / 262144), Digit(n / 4096 % 64), Digit(n / 64 % 64), '=']
    ensures var n := 65536 * x as int; Encode([x]) == [Digit(n / 262144), Digit(n / 4096 % 64), '=', '=']
  {
    hide Digit;
    Sextets(x as int, y as int, 0);
    Sextets(x as int, 0, 0);
  }

  lemma Sextets(x: nat, y: nat, z: nat)
    requires x < 256 && y < 256 && z < 256
    ensures var n := 65536 * x + 256 * y + z;
            && n / 262144 == x / 4 && n / 4096 % 64 == x % 4 * 16 + y / 16
            && n / 64 % 64 == y % 16 * 4 + z / 64 && n % 64 == z % 64
  {
    var n := 65536 * x + 256 * y + z;
    assert n / 64 == 1024 * x + 4 * y + z / 64;
    assert n / 4096 == 16 * x + y / 16;
  }
}
