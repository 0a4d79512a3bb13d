/**
 * Base64 encoding of RFC 4648: the standard alphabet of its section 4
 * (browser `btoa`) and the URL- and filename-safe alphabet of its section 5
 * (Python's `base64.urlsafe_b64encode`), both with '=' padding, plus the
 * decoder used to state the round trip.
 */
module Base64 {
  import opened Wrappers

  type Byte = b: int | 0 <= b < 256

  datatype Alphabet = Standard | UrlSafe

  /** The character for a 6-bit value. */
  function SextetChar(v: int, a: Alphabet): char
    requires 0 <= v < 64
  {
    if v < 26 then ('A' as int + v) as char
    else if v < 52 then ('a' as int + (v - 26)) as char
    else if v < 62 then ('0' as int + (v - 52)) as char
    else if v == 62 then (if a == Standard then '+' else '-')
    else (if a == Standard then '/' else '_')
  }

  /** The 6-bit value of a character of the alphabet, or -1. */
  function CharSextet(c: char, a: Alphabet): (v: int)
    ensures -1 <= v < 64
  {
    if 'A' <= c <= 'Z' then c as int - 'A' as int
    else if 'a' <= c <= 'z' then c as int - 'a' as int + 26
    else if '0' <= c <= '9' then c as int - '0' as int + 52
    else if c == (if a == Standard then '+' else '-') then 62
    else if c == (if a == Standard then '/' else '_') then 63
    else -1
  }

  predicate InAlphabet(c: char, a: Alphabet) {
    CharSextet(c, a) >= 0
  }

  lemma SextetRoundTrip(v: int, a: Alphabet)
    requires 0 <= v < 64
    ensures CharSextet(SextetChar(v, a), a) == v
    ensures SextetChar(v, a) != '='
  {
  }

  /** Three bytes as four characters. */
  function Group3(x: Byte, y: Byte, z: Byte, a: Alphabet): (g: string)
    ensures |g| == 4
  {
    [ SextetChar(x / 4, a), SextetChar((x % 4) * 16 + y / 16, a),
      SextetChar((y % 16) * 4 + z / 64, a), SextetChar(z % 64, a) ]
  }

  /** A final pair of bytes as three characters. */
  function Group2(x: Byte, y: Byte, a: Alphabet): (g: string)
    ensures |g| == 3
  {
    [ SextetChar(x / 4, a), SextetChar((x % 4) * 16 + y / 16, a), SextetChar((y % 16) * 4, a) ]
  }

  /** A final single byte as two characters. */
  function Group1(x: Byte, a: Alphabet): (g: string)
    ensures |g| == 2
  {
    [ SextetChar(x / 4, a), SextetChar((x % 4) * 16, a) ]
  }

  /** Encoding of the bytes without any '=' padding. */
  function EncodeUnpadded(b: seq<Byte>, a: Alphabet): string {
    if |b| >= 3 then Group3(b[0], b[1], b[2], a) + EncodeUnpadded(b[3..], a)
    else if |b| == 2 then Group2(b[0], b[1], a)
    else if |b| == 1 then Group1(b[0], a)
    else []
  }

  /** The padding that completes the last group to four characters. */
  function Padding(n: nat): string {
    if n % 3 == 1 then "==" else if n % 3 == 2 then "=" else ""
  }

  /** RFC 4648 encoding with padding. */
  function Encode(b: seq<Byte>, a: Alphabet): string {
    EncodeUnpadded(b, a) + Padding(|b|)
  }

  /** Python's `s.rstrip('=')`. */
  function StripPadding(s: string): (r: string)
    ensures |r| <= |s| && r == s[..|r|]
    ensures r == [] || r[|r| - 1] != '='
  {
    if s != [] && s[|s| - 1] == '=' then StripPadding(s[..|s| - 1]) else s
  }

  /** Re-adds the '=' characters that make the length a multiple of four. */
  function Repad(s: string): string {
    if |s| % 4 == 2 then s + "==" else if |s| % 4 == 3 then s + "=" else s
  }

  /** Decodes one group of four characters (with padding at the end of the input only). */
  function DecodeGroup(g: string, last: bool, a: Alphabet): Option<seq<Byte>>
    requires |g| == 4
  {
    var v0, v1 := CharSextet(g[0], a), CharSextet(g[1], a);
    var v2, v3 := CharSextet(g[2], a), CharSextet(g[3], a);
    if v0 < 0 || v1 < 0 then None
    else if last && g[2] == '=' && g[3] == '=' then
      Some([v0 * 4 + v1 / 16])
    else if v2 < 0 then None
    else if last && g[3] == '=' then
      Some([v0 * 4 + v1 / 16, (v1 % 16) * 16 + v2 / 4])
    else if v3 < 0 then None
    else Some([v0 * 4 + v1 / 16, (v1 % 16) * 16 + v2 / 4, (v2 % 4) * 64 + v3])
  }

  /** RFC 4648 decoding of padded input; `None` for malformed input. */
  function Decode(s: string, a: Alphabet): Option<seq<Byte>>
    decreases |s|
  {
    if s == [] then Some([])
    else if |s| < 4 then None
    else
      match DecodeGroup(s[..4], |s| == 4, a)
      case None => None
      case Some(g) =>
        match Decode(s[4..], a)
        case None => None
        case Some(rest) => Some(g + rest)
  }

  lemma {:induction false} EncodeUnpaddedLength(b: seq<Byte>, a: Alphabet)
    ensures |EncodeUnpadded(b, a)| == 4 * (|b| / 3) + (if |b| % 3 == 0 then 0 else |b| % 3 + 1)
  {
    if |b| >= 3 {
      EncodeUnpaddedLength(b[3..], a);
    }
  }

  lemma {:induction false} EncodeUnpaddedInAlphabet(b: seq<Byte>, a: Alphabet)
    ensures forall i :: 0 <= i < |EncodeUnpadded(b, a)| ==> InAlphabet(EncodeUnpadded(b, a)[i], a)
  {
    if |b| >= 3 {
      EncodeUnpaddedInAlphabet(b[3..], a);
    }
  }

  lemma {:induction false} StripPaddingAppend(u: string, p: string)
    requires u == [] || u[|u| - 1] != '='
    requires forall i :: 0 <= i < |p| ==> p[i] == '='
    ensures StripPadding(u + p) == u
  {
    if p != [] {
      assert (u + p)[..|u + p| - 1] == u + p[..|p| - 1];
      StripPaddingAppend(u, p[..|p| - 1]);
    } else {
      assert u + p == u;
    }
  }

  /** Python's `rstrip('=')` removes exactly the padding. */
  lemma StripEncode(b: seq<Byte>, a: Alphabet)
    ensures StripPadding(Encode(b, a)) == EncodeUnpadded(b, a)
  {
    var u := EncodeUnpadded(b, a);
    EncodeUnpaddedInAlphabet(b, a);
    assert u != [] ==> InAlphabet(u[|u| - 1], a);
    StripPaddingAppend(u, Padding(|b|));
  }

  /** Re-padding the unpadded encoding restores the padded one. */
  lemma RepadUnpadded(b: seq<Byte>, a: Alphabet)
    ensures Repad(EncodeUnpadded(b, a)) == Encode(b, a)
  {
    var u := EncodeUnpadded(b, a);
    EncodeUnpaddedLength(b, a);
    var e := if |b| % 3 == 0 then 0 else |b| % 3 + 1;
    GroupRemainder(|b| / 3, e);
    assert |u| % 4 == e;
    if e == 0 {
      assert u + "" == u;
    }
  }

  lemma GroupRemainder(q: nat, e: nat)
    requires e < 4
    ensures (4 * q + e) % 4 == e
  {
  }

  lemma DecodeGroupOfThree(x: Byte, y: Byte, z: Byte, last: bool, a: Alphabet)
    ensures DecodeGroup(Group3(x, y, z, a), last, a) == Some([x, y, z])
  {
    SextetRoundTrip(x / 4, a);
    SextetRoundTrip((x % 4) * 16 + y / 16, a);
    SextetRoundTrip((y % 16) * 4 + z / 64, a);
    SextetRoundTrip(z % 64, a);
    var v1, v2 := (x % 4) * 16 + y / 16, (y % 16) * 4 + z / 64;
    assert v1 / 16 == x % 4 && v1 % 16 == y / 16;
    assert v2 / 4 == y % 16 && v2 % 4 == z / 64;
  }

  lemma DecodeGroupOfTwo(x: Byte, y: Byte, a: Alphabet)
    ensures DecodeGroup(Group2(x, y, a) + "=", true, a) == Some([x, y])
  {
    SextetRoundTrip(x / 4, a);
    SextetRoundTrip((x % 4) * 16 + y / 16, a);
    SextetRoundTrip((y % 16) * 4, a);
    var v1, v2 := (x % 4) * 16 + y / 16, (y % 16) * 4;
    assert v1 / 16 == x % 4 && v1 % 16 == y / 16;
    assert v2 / 4 == y % 16;
  }

  lemma DecodeGroupOfOne(x: Byte, a: Alphabet)
    ensures DecodeGroup(Group1(x, a) + "==", true, a) == Some([x])
  {
    SextetRoundTrip(x / 4, a);
    SextetRoundTrip((x % 4) * 16, a);
    assert ((x % 4) * 16) / 16 == x % 4;
  }

  lemma EncodeShort(b: seq<Byte>, a: Alphabet)
    requires 1 <= |b| <= 2
    ensures Decode(Encode(b, a), a) == Some(b)
  {
    var e := Encode(b, a);
    if |b| == 2 {
      DecodeGroupOfTwo(b[0], b[1], a);
      assert b == [b[0], b[1]];
    } else {
      DecodeGroupOfOne(b[0], a);
      assert b == [b[0]];
    }
    assert e[..4] == e && e[4..] == [];
    assert Decode(e, a) == Some(b + []);
    assert b + [] == b;
  }

  lemma EncodeFirstGroup(b: seq<Byte>, a: Alphabet)
    requires |b| >= 3
    ensures |Encode(b, a)| >= 4
    ensures Encode(b, a)[4..] == Encode(b[3..], a)
    ensures DecodeGroup(Encode(b, a)[..4], |Encode(b, a)| == 4, a) == Some(b[..3])
  {
    var g := Group3(b[0], b[1], b[2], a);
    var e := Encode(b, a);
    assert EncodeUnpadded(b, a) == g + EncodeUnpadded(b[3..], a);
    assert |b[3..]| == |b| - 3;
    assert Padding(|b|) == Padding(|b[3..]|);
    assert e == g + Encode(b[3..], a);
    assert e[..4] == g;
    DecodeGroupOfThree(b[0], b[1], b[2], |e| == 4, a);
    assert b[..3] == [b[0], b[1], b[2]];
  }

  /** Round trip: decoding the padded encoding gives back the bytes. */
  lemma {:induction false} DecodeEncode(b: seq<Byte>, a: Alphabet)
    ensures Decode(Encode(b, a), a) == Some(b)
  {
    if |b| >= 3 {
      DecodeEncode(b[3..], a);
      EncodeFirstGroup(b, a);
      assert b == b[..3] + b[3..];
    } else if |b| >= 1 {
      EncodeShort(b, a);
    } else {
      assert Encode(b, a) == [];
    }
  }
}
