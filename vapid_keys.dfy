/**
 * The VAPID key script: the P-256 public point's coordinates x and y and the
 * private scalar are each written as 32 big-endian bytes and encoded with the
 * URL-safe base64 alphabet (section 5 of RFC 4648) with the trailing '='
 * removed. The public key is the 64 bytes x || y, without the 0x04 marker
 * that section 3.2 of RFC 8292 expects in front of an uncompressed point.
 */
module VapidKeys {
  import opened Wrappers
  import opened Base64

  /** Python's `OverflowError` from `int.to_bytes` when the value does not fit. */
  datatype KeyError = Overflow

  datatype VapidKeyPair = VapidKeyPair(publicKey: string, privateKey: string)

  const KeyWidth: nat := 32

  function Pow256(n: nat): (p: nat)
    ensures p >= 1
  {
    if n == 0 then 1 else 256 * Pow256(n - 1)
  }

  /** Big-endian layout of `v` in exactly `len` bytes (the value must fit). */
  function BigEndian(v: nat, len: nat): (r: seq<Byte>)
    ensures |r| == len
  {
    if len == 0 then [] else BigEndian(v / 256, len - 1) + [v % 256]
  }

  /** The value of big-endian bytes. */
  function FromBigEndian(b: seq<Byte>): nat {
    if b == [] then 0 else FromBigEndian(b[..|b| - 1]) * 256 + b[|b| - 1]
  }

  /** Python's `v.to_bytes(len, 'big')` for a non-negative `v`. */
  function ToBytes(v: nat, len: nat): (r: Result<seq<Byte>, KeyError>)
    ensures r.Ok? <==> v < Pow256(len)
    ensures r.Ok? ==> |r.value| == len
  {
    if v < Pow256(len) then Ok(BigEndian(v, len)) else Err(Overflow)
  }

  lemma {:induction false} FromBigEndianOfBigEndian(v: nat, len: nat)
    requires v < Pow256(len)
    ensures FromBigEndian(BigEndian(v, len)) == v
    decreases len
  {
    if len > 0 {
      var r := BigEndian(v, len);
      assert r[..|r| - 1] == BigEndian(v / 256, len - 1);
      DropLowByte(v, Pow256(len - 1));
      FromBigEndianOfBigEndian(v / 256, len - 1);
      assert FromBigEndian(r) == (v / 256) * 256 + v % 256;
    }
  }

  lemma DropLowByte(v: nat, p: nat)
    requires v < 256 * p
    ensures v / 256 < p && (v / 256) * 256 + v % 256 == v
  {
  }

  /** `base64.urlsafe_b64encode(b).decode().rstrip('=')`. */
  function UrlSafeNoPadding(b: seq<Byte>): string {
    StripPadding(Encode(b, UrlSafe))
  }

  /**
   * The script's result for key numbers x, y and the private value d. It
   * fails exactly when one of the three numbers needs more than 32 bytes;
   * otherwise the keys have 86 and 43 characters of the URL-safe alphabet,
   * with no '+', '/' or '='.
   */
  function GenerateVapidKeys(x: nat, y: nat, d: nat): (r: Result<VapidKeyPair, KeyError>)
    ensures r.Err? <==> x >= Pow256(KeyWidth) || y >= Pow256(KeyWidth) || d >= Pow256(KeyWidth)
    ensures r.Ok? ==> |r.value.publicKey| == 86 && UrlSafeText(r.value.publicKey)
    ensures r.Ok? ==> |r.value.privateKey| == 43 && UrlSafeText(r.value.privateKey)
  {
    match ToBytes(x, KeyWidth)
    case Err(e) => Err(e)
    case Ok(xBytes) =>
      match ToBytes(y, KeyWidth)
      case Err(e) => Err(e)
      case Ok(yBytes) =>
        var publicKey := UrlSafeNoPadding(xBytes + yBytes);
        match ToBytes(d, KeyWidth)
        case Err(e) => Err(e)
        case Ok(dBytes) =>
          EncodedKeyText(xBytes + yBytes, 86);
          EncodedKeyText(dBytes, 43);
          Ok(VapidKeyPair(publicKey, UrlSafeNoPadding(dBytes)))
  }

  /** Characters the encoded keys may contain: the URL-safe alphabet only. */
  predicate UrlSafeText(s: string) {
    forall i :: 0 <= i < |s| ==> InAlphabet(s[i], UrlSafe) && s[i] != '+' && s[i] != '/' && s[i] != '='
  }

  lemma UrlSafeNoPaddingShape(b: seq<Byte>)
    ensures UrlSafeNoPadding(b) == EncodeUnpadded(b, UrlSafe)
    ensures UrlSafeText(UrlSafeNoPadding(b))
    ensures |UrlSafeNoPadding(b)| == 4 * (|b| / 3) + (if |b| % 3 == 0 then 0 else |b| % 3 + 1)
  {
    StripEncode(b, UrlSafe);
    EncodeUnpaddedInAlphabet(b, UrlSafe);
    EncodeUnpaddedLength(b, UrlSafe);
    var u := EncodeUnpadded(b, UrlSafe);
    forall i | 0 <= i < |u| ensures u[i] != '+' && u[i] != '/' && u[i] != '=' {
      UrlSafeChar(u[i]);
    }
  }

  /** The URL-safe alphabet has no '+', '/' or '='. */
  lemma UrlSafeChar(c: char)
    requires InAlphabet(c, UrlSafe)
    ensures c != '+' && c != '/' && c != '='
  {
  }

  /** 64 bytes encode to 86 characters and 32 bytes to 43, all URL-safe. */
  lemma EncodedKeyText(b: seq<Byte>, n: nat)
    requires (|b| == 64 && n == 86) || (|b| == 32 && n == 43)
    ensures |UrlSafeNoPadding(b)| == n && UrlSafeText(UrlSafeNoPadding(b))
  {
    UrlSafeNoPaddingShape(b);
  }

  /** The public key is the unpadded URL-safe encoding of x and y, side by side. */
  lemma PublicKeyOf(x: nat, y: nat, d: nat)
    requires GenerateVapidKeys(x, y, d).Ok?
    ensures GenerateVapidKeys(x, y, d).value.publicKey == EncodeUnpadded(BigEndian(x, KeyWidth) + BigEndian(y, KeyWidth), UrlSafe)
  {
    UrlSafeNoPaddingShape(BigEndian(x, KeyWidth) + BigEndian(y, KeyWidth));
  }

  /**
   * Round trip of the public key: re-padding and decoding gives 64 bytes
   * (no 0x04 prefix) whose halves are x and y in big-endian order.
   */
  lemma PublicKeyRoundTrip(x: nat, y: nat, d: nat)
    requires GenerateVapidKeys(x, y, d).Ok?
    ensures var raw := Decode(Repad(GenerateVapidKeys(x, y, d).value.publicKey), UrlSafe);
            raw.Some? && |raw.value| == 64
            && FromBigEndian(raw.value[..32]) == x && FromBigEndian(raw.value[32..]) == y
  {
    var b := BigEndian(x, KeyWidth) + BigEndian(y, KeyWidth);
    PublicKeyOf(x, y, d);
    RepadUnpadded(b, UrlSafe);
    DecodeEncode(b, UrlSafe);
    assert Decode(Repad(GenerateVapidKeys(x, y, d).value.publicKey), UrlSafe) == Some(b);
    assert b[..32] == BigEndian(x, KeyWidth) && b[32..] == BigEndian(y, KeyWidth);
    FromBigEndianOfBigEndian(x, KeyWidth);
    FromBigEndianOfBigEndian(y, KeyWidth);
  }

  /** Round trip of the private key: 32 bytes holding the private value. */
  lemma PrivateKeyRoundTrip(x: nat, y: nat, d: nat)
    requires GenerateVapidKeys(x, y, d).Ok?
    ensures var raw := Decode(Repad(GenerateVapidKeys(x, y, d).value.privateKey), UrlSafe);
            raw.Some? && |raw.value| == 32 && FromBigEndian(raw.value) == d
  {
    var b := BigEndian(d, KeyWidth);
    StripEncode(b, UrlSafe);
    RepadUnpadded(b, UrlSafe);
    DecodeEncode(b, UrlSafe);
    FromBigEndianOfBigEndian(d, KeyWidth);
  }
}
