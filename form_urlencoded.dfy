/**
 * The application/x-www-form-urlencoded serializer and parser of the WHATWG
 * URL Standard (section 5, "application/x-www-form-urlencoded"), as
 * `URLSearchParams.prototype.toString()` and `new URLSearchParams(s)` use
 * them.
 *
 * Serializing a string encodes it as UTF-8 and writes each byte as itself
 * when it is an ASCII letter or digit or one of `*-._`, as '+' when it is a
 * space, and as '%' followed by two upper-case hex digits otherwise. Name
 * and value are joined by '=' and the pairs by '&'.
 */
module FormUrlencoded {
  import opened Base64

  /** Bytes that the serializer writes as themselves. */
  predicate Unreserved(b: Byte) {
    ('a' as int <= b <= 'z' as int) || ('A' as int <= b <= 'Z' as int) || ('0' as int <= b <= '9' as int)
    || b == '*' as int || b == '-' as int || b == '.' as int || b == '_' as int
  }

  function HexDigit(v: int): (c: char)
    requires 0 <= v < 16
  {
    if v < 10 then ('0' as int + v) as char else ('A' as int + v - 10) as char
  }

  /** The value of an ASCII hex digit of either case. */
  function HexValue(c: char): (r: int)
    ensures -1 <= r < 16
  {
    if '0' <= c <= '9' then c as int - '0' as int
    else if 'A' <= c <= 'F' then c as int - 'A' as int + 10
    else if 'a' <= c <= 'f' then c as int - 'a' as int + 10
    else -1
  }

  lemma HexRoundTrip(v: int)
    requires 0 <= v < 16
    ensures HexValue(HexDigit(v)) == v
  {
  }

  /** The UTF-8 encoding of one Unicode scalar value (RFC 3629, section 3). */
  function Utf8(c: char): (bs: seq<Byte>)
    ensures 1 <= |bs| <= 4
    ensures |bs| == 1 <==> c as int < 0x80
    ensures |bs| == 1 ==> bs[0] == c as int
  {
    var cp := c as int;
    if cp < 0x80 then [cp]
    else if cp < 0x800 then [0xC0 + cp / 64, 0x80 + cp % 64]
    else if cp < 0x10000 then [0xE0 + cp / 4096, 0x80 + (cp / 64) % 64, 0x80 + cp % 64]
    else [0xF0 + cp / 262144, 0x80 + (cp / 4096) % 64, 0x80 + (cp / 64) % 64, 0x80 + cp % 64]
  }

  function Utf8String(s: string): seq<Byte> {
    if s == [] then [] else Utf8(s[0]) + Utf8String(s[1..])
  }

  /** The serializer's output for one byte. */
  function EncodeByte(b: Byte): (s: string)
    ensures |s| == 1 || |s| == 3
    ensures '&' !in s && '=' !in s
  {
    if Unreserved(b) then [b as char]
    else if b == 0x20 then "+"
    else ['%', HexDigit(b / 16), HexDigit(b % 16)]
  }

  function EncodeBytes(bs: seq<Byte>): (s: string)
    ensures '&' !in s && '=' !in s
  {
    if bs == [] then "" else EncodeByte(bs[0]) + EncodeBytes(bs[1..])
  }

  /** The serialization of one name or value. */
  function Encode(s: string): (r: string)
    ensures '&' !in r && '=' !in r
  {
    EncodeBytes(Utf8String(s))
  }

  /**
   * The parser's reading of one name or value: '+' is a space, '%' followed
   * by two hex digits is that byte, and any other character (a '%' that
   * starts no escape included) stands for its own UTF-8 bytes.
   */
  function Decode(s: string): seq<Byte> {
    if s == [] then []
    else if s[0] == '+' then [0x20] + Decode(s[1..])
    else if s[0] == '%' && |s| >= 3 && HexValue(s[1]) >= 0 && HexValue(s[2]) >= 0 then
      [HexValue(s[1]) * 16 + HexValue(s[2])] + Decode(s[3..])
    else Utf8(s[0]) + Decode(s[1..])
  }

  lemma DecodeEncodeByte(b: Byte, rest: string)
    ensures Decode(EncodeByte(b) + rest) == [b] + Decode(rest)
  {
    var e := EncodeByte(b);
    if Unreserved(b) {
      assert (e + rest)[1..] == rest;
    } else if b == 0x20 {
      assert (e + rest)[1..] == rest;
    } else {
      HexRoundTrip(b / 16);
      HexRoundTrip(b % 16);
      assert (e + rest)[3..] == rest;
    }
  }

  /** Parsing a serialized byte string gives the bytes back. */
  lemma {:induction false} DecodeEncodeBytes(bs: seq<Byte>)
    ensures Decode(EncodeBytes(bs)) == bs
  {
    if bs != [] {
      DecodeEncodeByte(bs[0], EncodeBytes(bs[1..]));
      DecodeEncodeBytes(bs[1..]);
    }
  }

  /** Parsing a serialized string gives back its UTF-8 bytes. */
  lemma DecodeEncode(s: string)
    ensures Decode(Encode(s)) == Utf8String(s)
  {
    DecodeEncodeBytes(Utf8String(s));
  }

  /** `name=value` for one pair. */
  function EncodePair(p: (string, string)): (s: string)
    ensures |s| >= 1 && '&' !in s
  {
    Encode(p.0) + "=" + Encode(p.1)
  }

  /** `URLSearchParams.prototype.toString()`: the pairs in order, joined by '&'. */
  function Serialize(ps: seq<(string, string)>): (s: string)
    ensures s == "" <==> ps == []
  {
    if ps == [] then ""
    else if |ps| == 1 then EncodePair(ps[0])
    else EncodePair(ps[0]) + "&" + Serialize(ps[1..])
  }

  /** The index of the first `c` in `s`, or `|s|` when there is none. */
  function IndexOf(s: string, c: char): (i: nat)
    ensures i <= |s| && c !in s[..i]
    ensures i < |s| ==> s[i] == c
  {
    if s == [] then 0 else if s[0] == c then 0 else 1 + IndexOf(s[1..], c)
  }

  lemma {:induction false} IndexOfJoin(a: string, c: char, b: string)
    requires c !in a
    ensures IndexOf(a + [c] + b, c) == |a|
  {
    if a != [] {
      assert (a + [c] + b)[1..] == a[1..] + [c] + b;
      IndexOfJoin(a[1..], c, b);
    }
  }

  /** One `name=value` sequence split at its first '='; without '=' the value is empty. */
  function ParsePair(part: string): (seq<Byte>, seq<Byte>) {
    var j := IndexOf(part, '=');
    (Decode(part[..j]), Decode(if j < |part| then part[j + 1..] else ""))
  }

  /** `new URLSearchParams(s)` for a string without a leading '?': empty sequences between '&'s are skipped. */
  function Parse(s: string): (r: seq<(seq<Byte>, seq<Byte>)>)
    ensures |r| <= |s|
    ensures s == "" ==> r == []
    ensures s != "" && '&' !in s ==> r == [ParsePair(s)]
    decreases |s|
  {
    if s == [] then []
    else
      var i := IndexOf(s, '&');
      assert '&' !in s ==> s[..i] == s;
      (if i == 0 then [] else [ParsePair(s[..i])]) + Parse(if i < |s| then s[i + 1..] else "")
  }

  /** What the parser returns for a pair: the UTF-8 bytes of its name and value. */
  function PairBytes(p: (string, string)): (seq<Byte>, seq<Byte>) {
    (Utf8String(p.0), Utf8String(p.1))
  }

  lemma ParseEncodePair(p: (string, string))
    ensures ParsePair(EncodePair(p)) == PairBytes(p)
  {
    var s := EncodePair(p);
    IndexOfJoin(Encode(p.0), '=', Encode(p.1));
    assert s[..|Encode(p.0)|] == Encode(p.0);
    assert s[|Encode(p.0)| + 1..] == Encode(p.1);
    DecodeEncode(p.0);
    DecodeEncode(p.1);
  }

  /** Parsing a serialization gives back every pair, in order, as UTF-8 bytes. */
  lemma {:induction false} ParseSerialize(ps: seq<(string, string)>)
    ensures |Parse(Serialize(ps))| == |ps|
    ensures forall i :: 0 <= i < |ps| ==> Parse(Serialize(ps))[i] == PairBytes(ps[i])
  {
    if ps == [] {
    } else if |ps| == 1 {
      ParseEncodePair(ps[0]);
    } else {
      ParseFirstPair(ps);
      ParseSerialize(ps[1..]);
      PairwiseCons(ps, Parse(Serialize(ps)), Parse(Serialize(ps[1..])));
    }
  }

  /** A list whose head is the first pair's bytes and whose tail holds the rest's bytes holds every pair's bytes. */
  lemma PairwiseCons(ps: seq<(string, string)>, all: seq<(seq<Byte>, seq<Byte>)>, rest: seq<(seq<Byte>, seq<Byte>)>)
    requires |ps| >= 1 && all == [PairBytes(ps[0])] + rest
    requires |rest| == |ps| - 1 && forall i :: 0 <= i < |rest| ==> rest[i] == PairBytes(ps[1..][i])
    ensures |all| == |ps| && forall i :: 0 <= i < |ps| ==> all[i] == PairBytes(ps[i])
  {
    forall i | 1 <= i < |ps| ensures all[i] == PairBytes(ps[i]) {
      assert all[i] == rest[i - 1];
      assert ps[1..][i - 1] == ps[i];
    }
  }

  /** With two pairs or more, the parser reads the first pair up to the first '&' and goes on after it. */
  lemma ParseFirstPair(ps: seq<(string, string)>)
    requires |ps| >= 2
    ensures Parse(Serialize(ps)) == [PairBytes(ps[0])] + Parse(Serialize(ps[1..]))
  {
    var a := EncodePair(ps[0]);
    var s := a + "&" + Serialize(ps[1..]);
    IndexOfJoin(a, '&', Serialize(ps[1..]));
    SplitAtSeparator(a, '&', Serialize(ps[1..]));
    ParseEncodePair(ps[0]);
  }

  lemma SplitAtSeparator(a: string, c: char, b: string)
    ensures (a + [c] + b)[..|a|] == a && (a + [c] + b)[|a| + 1..] == b
  {
  }
}
