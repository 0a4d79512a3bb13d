/**
 * The settings page's "Subscribe to Push Notifications" button. When the
 * browser supports service workers and the Push API, the page subscribes
 * with the configured application server key, sends the subscription's
 * endpoint and keys to the server, and only then marks itself subscribed;
 * any failure on the way leaves the flag as it was.
 *
 * The browser side is a parameter: whether the platform supports push,
 * what `pushManager.subscribe` resolves to for a given server key, and
 * whether the registration POST succeeds.
 */
module Settings {
  import opened Wrappers
  import opened Base64
  import VapidKeys

  /** What `pushManager.subscribe` resolves to: the endpoint and the raw key bytes, when present. */
  datatype PushSubscription = PushSubscription(endpoint: string, p256dh: Option<seq<Byte>>, auth: Option<seq<Byte>>)

  /** The body of the registration request. */
  datatype SubscriptionPayload = SubscriptionPayload(endpoint: string, p256dh: string, auth: string)

  datatype Platform = Platform(
    supported: bool,
    subscribe: Option<seq<Byte>> -> Option<PushSubscription>,
    postSucceeds: bool)

  datatype Outcome =
    | Unsupported
    | Failed(posted: Option<SubscriptionPayload>)
    | Succeeded(payload: SubscriptionPayload)

  /** The alert shown at the end of an attempt: the success text exactly when the attempt succeeded. */
  function Message(o: Outcome): (s: string)
    ensures s == "Successfully subscribed to push notifications!" <==> o.Succeeded?
    ensures s == "Push notifications are not supported in your browser" <==> o.Unsupported?
    ensures s == "Failed to subscribe to push notifications" <==> o.Failed?
  {
    match o
    case Unsupported => "Push notifications are not supported in your browser"
    case Failed(_) => "Failed to subscribe to push notifications"
    case Succeeded(_) => "Successfully subscribed to push notifications!"
  }

  // ---------------------------------------------------------------------
  // The server key as the page builds it

  /** The characters `.` does not match in a regular expression. */
  predicate LineTerminator(c: char) {
    c == '\n' || c == '\r' || c as int == 0x2028 || c as int == 0x2029
  }

  /** `s.match(/.{1,2}/g) ?? []`: consecutive runs of one or two characters, skipping line terminators. */
  function Chunks(s: string): (cs: seq<string>)
    ensures forall i :: 0 <= i < |cs| ==> 1 <= |cs[i]| <= 2
  {
    if s == [] then []
    else if LineTerminator(s[0]) then Chunks(s[1..])
    else if |s| >= 2 && !LineTerminator(s[1]) then [s[..2]] + Chunks(s[2..])
    else [s[..1]] + Chunks(s[1..])
  }

  function Concat(cs: seq<string>): string {
    if cs == [] then [] else cs[0] + Concat(cs[1..])
  }

  /** `cs.join(',')`. */
  function Join(cs: seq<string>): string {
    if cs == [] then [] else if |cs| == 1 then cs[0] else cs[0] + "," + Join(cs[1..])
  }

  predicate NoLineTerminator(s: string) {
    forall i :: 0 <= i < |s| ==> !LineTerminator(s[i])
  }

  /**
   * Without line terminators, the chunks put back together are the key,
   * and every chunk but the last has two characters. This is a split of the
   * text, not a decoding of it.
   */
  lemma {:induction false} ChunksSplitKey(s: string)
    requires NoLineTerminator(s)
    ensures Concat(Chunks(s)) == s
    ensures forall i :: 0 <= i < |Chunks(s)| - 1 ==> |Chunks(s)[i]| == 2
  {
    if s != [] {
      if |s| >= 2 {
        ChunksSplitKey(s[2..]);
        assert s == s[..2] + s[2..];
      } else {
        assert s[1..] == [];
      }
    }
  }

  /** The JSON text the page hands to `JSON.parse`, or `None` when no key is configured (or it is ""). */
  function KeyText(config: Option<string>): (t: Option<string>)
    ensures t.Some? <==> config.Some? && config.value != ""
  {
    if config.Some? && config.value != "" then Some("[" + Join(Chunks(config.value)) + "]") else None
  }

  predicate IsDigit(c: char) {
    '0' <= c <= '9'
  }

  /**
   * The number a chunk denotes as an element of a JSON array (section 6 of
   * RFC 8259), or `None` when it is not a JSON value. Exact for chunks of
   * the URL-safe base64 alphabet, which holds no structural character,
   * quote or white space: the only values of one or two such characters
   * are a digit, two digits not starting with 0, and '-' before a digit.
   */
  function ChunkNumber(c: string): (r: Option<int>)
    requires 1 <= |c| <= 2
    ensures r.Some? ==> IsDigit(c[|c| - 1])
  {
    if |c| == 1 then (if IsDigit(c[0]) then Some(c[0] as int - '0' as int) else None)
    else if IsDigit(c[0]) && c[0] != '0' && IsDigit(c[1]) then Some((c[0] as int - '0' as int) * 10 + (c[1] as int - '0' as int))
    else if c[0] == '-' && IsDigit(c[1]) then Some('0' as int - c[1] as int)
    else None
  }

  /** `JSON.parse("[" + chunks.join(",") + "]")` for URL-safe chunks: `None` means it throws. */
  function ParseChunkArray(cs: seq<string>): (r: Option<seq<int>>)
    requires forall i :: 0 <= i < |cs| ==> 1 <= |cs[i]| <= 2
    ensures r.Some? ==> |r.value| == |cs|
    ensures r.Some? <==> forall i :: 0 <= i < |cs| ==> ChunkNumber(cs[i]).Some?
  {
    if cs == [] then Some([])
    else
      match ChunkNumber(cs[0])
      case None => None
      case Some(n) =>
        match ParseChunkArray(cs[1..])
        case None => None
        case Some(ns) => Some([n] + ns)
  }

  /** `new Uint8Array(numbers)`: each number reduced modulo 256. */
  function ToUint8(ns: seq<int>): (bs: seq<Byte>)
    ensures |bs| == |ns|
  {
    if ns == [] then [] else [ns[0] % 256] + ToUint8(ns[1..])
  }

  /**
   * The application server key as written: undefined without a configured
   * key, otherwise the chunked text parsed as a JSON array (`Err` when
   * `JSON.parse` throws). Stated for URL-safe base64 keys, the format the
   * key script prints.
   */
  function ServerKeyAsWritten(config: Option<string>): (r: Result<Option<seq<Byte>>, string>)
    requires config.Some? ==> VapidKeys.UrlSafeText(config.value)
    ensures r.Ok? && r.value.None? <==> config.None? || config.value == ""
  {
    if config.None? || config.value == "" then Ok(None)
    else
      match ParseChunkArray(Chunks(config.value))
      case None => Err("SyntaxError")
      case Some(ns) => Ok(Some(ToUint8(ns)))
  }

  /** A URL-safe key whose first character is not a digit or '-' makes `JSON.parse` throw. */
  lemma AsWrittenRejectsLetterKeys(key: string)
    requires VapidKeys.UrlSafeText(key) && key != ""
    requires !IsDigit(key[0]) && key[0] != '-'
    ensures ServerKeyAsWritten(Some(key)).Err?
  {
    var cs := Chunks(key);
    assert !LineTerminator(key[0]);
    assert cs[0][0] == key[0];
    assert ChunkNumber(cs[0]).None?;
  }

  /** The key the script prints for x = 0 starts with 'A', so the page as written can never use it. */
  lemma AsWrittenRejectsGeneratedKey(y: nat, d: nat)
    requires y < VapidKeys.Pow256(32) && d < VapidKeys.Pow256(32)
    ensures VapidKeys.GenerateVapidKeys(0, y, d).Ok?
    ensures VapidKeys.UrlSafeText(VapidKeys.GenerateVapidKeys(0, y, d).value.publicKey)
    ensures ServerKeyAsWritten(Some(VapidKeys.GenerateVapidKeys(0, y, d).value.publicKey)).Err?
  {
    assert VapidKeys.GenerateVapidKeys(0, y, d).Ok?;
    GeneratedKeyStartsWithA(y, d);
    AsWrittenRejectsLetterKeys(VapidKeys.GenerateVapidKeys(0, y, d).value.publicKey);
  }

  lemma GeneratedKeyStartsWithA(y: nat, d: nat)
    requires VapidKeys.GenerateVapidKeys(0, y, d).Ok?
    ensures var key := VapidKeys.GenerateVapidKeys(0, y, d).value.publicKey;
            VapidKeys.UrlSafeText(key) && |key| == 86 && key[0] == 'A'
  {
    var b := VapidKeys.BigEndian(0, VapidKeys.KeyWidth) + VapidKeys.BigEndian(y, VapidKeys.KeyWidth);
    VapidKeys.PublicKeyOf(0, y, d);
    ZeroLeadingByte(y, VapidKeys.KeyWidth);
    ZeroLeadEncodesA(b);
  }

  lemma ZeroLeadingByte(y: nat, len: nat)
    requires len >= 1
    ensures (VapidKeys.BigEndian(0, len) + VapidKeys.BigEndian(y, len))[0] == 0
  {
    ZeroBigEndian(len);
  }

  lemma ZeroLeadEncodesA(b: seq<Byte>)
    requires |b| >= 3 && b[0] == 0
    ensures EncodeUnpadded(b, UrlSafe)[0] == 'A'
  {
    FirstCharOfEncoding(b);
  }

  lemma {:induction false} ZeroBigEndian(len: nat)
    ensures forall i :: 0 <= i < len ==> VapidKeys.BigEndian(0, len)[i] == 0
  {
    if len > 0 {
      ZeroBigEndian(len - 1);
    }
  }

  /** The first character of an unpadded encoding comes from the top six bits of the first byte. */
  lemma FirstCharOfEncoding(b: seq<Byte>)
    requires |b| >= 3
    ensures EncodeUnpadded(b, UrlSafe)[0] == SextetChar(b[0] / 4, UrlSafe)
  {
    EncodeFirstGroup(b, UrlSafe);
    StripEncode(b, UrlSafe);
    assert Encode(b, UrlSafe)[..4] == Group3(b[0], b[1], b[2], UrlSafe);
    StripPaddingPrefix(Encode(b, UrlSafe));
  }

  /** Removing trailing '=' keeps the first character of an encoding that starts with a data character. */
  lemma StripPaddingPrefix(s: string)
    requires |s| >= 4 && s[0] != '='
    ensures |StripPadding(s)| >= 1 && StripPadding(s)[0] == s[0]
  {
    var r := StripPadding(s);
    if r == [] {
      StripPaddingOnlyEquals(s);
    }
  }

  /** A string that strips to nothing is all '='. */
  lemma {:induction false} StripPaddingOnlyEquals(s: string)
    requires StripPadding(s) == []
    ensures forall i :: 0 <= i < |s| ==> s[i] == '='
  {
    if s != [] {
      StripPaddingOnlyEquals(s[..|s| - 1]);
    }
  }

  /**
   * The application server key as evidently intended: the configured key
   * decoded from URL-safe base64 (re-padded), with the 0x04 marker of an
   * uncompressed P-256 point (section 3.2 of RFC 8292) put in front, since
   * the key script leaves it out.
   */
  function ServerKey(config: Option<string>): (r: Result<Option<seq<Byte>>, string>)
    ensures r.Ok? && r.value.None? <==> config.None? || config.value == ""
    ensures r.Ok? && r.value.Some? ==> |r.value.value| >= 1 && r.value.value[0] == 4
  {
    if config.None? || config.value == "" then Ok(None)
    else
      match Decode(Repad(config.value), UrlSafe)
      case None => Err("InvalidCharacterError")
      case Some(raw) => Ok(Some([4] + raw))
  }

  /** Every key the script prints is accepted and becomes the 65-byte point 0x04 || x || y. */
  lemma ServerKeyOfGeneratedKey(x: nat, y: nat, d: nat)
    requires VapidKeys.GenerateVapidKeys(x, y, d).Ok?
    ensures var k := ServerKey(Some(VapidKeys.GenerateVapidKeys(x, y, d).value.publicKey));
            k.Ok? && k.value.Some? && |k.value.value| == 65 && k.value.value[0] == 4
            && VapidKeys.FromBigEndian(k.value.value[1..33]) == x
            && VapidKeys.FromBigEndian(k.value.value[33..]) == y
  {
    VapidKeys.PublicKeyRoundTrip(x, y, d);
    var raw := Decode(Repad(VapidKeys.GenerateVapidKeys(x, y, d).value.publicKey), UrlSafe).value;
    var k := [4] + raw;
    assert k[1..33] == raw[..32] && k[33..] == raw[32..];
  }

  // ---------------------------------------------------------------------
  // The registration request

  /** `btoa(String.fromCharCode(...bytes))`, with an absent key read as no bytes. */
  function KeyField(key: Option<seq<Byte>>): (s: string)
    ensures key.None? ==> s == ""
  {
    Encode(key.GetOr([]), Standard)
  }

  /** The server can decode each key field back to the bytes the browser gave. */
  lemma KeyFieldRoundTrip(key: seq<Byte>)
    ensures Decode(KeyField(Some(key)), Standard) == Some(key)
  {
    DecodeEncode(key, Standard);
  }

  /** The registration body: the endpoint verbatim and both keys in standard base64. */
  function PayloadOf(sub: PushSubscription): (p: SubscriptionPayload)
    ensures p.endpoint == sub.endpoint
    ensures p.p256dh == KeyField(sub.p256dh) && p.auth == KeyField(sub.auth)
  {
    SubscriptionPayload(sub.endpoint, KeyField(sub.p256dh), KeyField(sub.auth))
  }

  /**
   * One press of the button once the server key has been computed: the
   * support check, the subscription, the payload and the registration
   * request. A key that threw, a subscription that did not resolve and a
   * failed POST all end in the catch block.
   */
  function AttemptWith(p: Platform, key: Result<Option<seq<Byte>>, string>): (o: Outcome)
    ensures o.Unsupported? <==> !p.supported
    ensures p.supported && key.Err? ==> o == Failed(None)
    ensures p.supported && key.Ok? && p.subscribe(key.value).None? ==> o == Failed(None)
    ensures o.Succeeded? <==> p.supported && key.Ok? && p.subscribe(key.value).Some? && p.postSucceeds
    ensures o.Succeeded? ==> o.payload == PayloadOf(p.subscribe(key.value).value)
    ensures o.Failed? && o.posted.Some? ==>
              !p.postSucceeds && key.Ok? && p.subscribe(key.value).Some?
              && o.posted.value == PayloadOf(p.subscribe(key.value).value)
  {
    if !p.supported then Unsupported
    else
      match key
      case Err(_) => Failed(None)
      case Ok(k) =>
        match p.subscribe(k)
        case None => Failed(None)
        case Some(sub) =>
          var payload := PayloadOf(sub);
          if p.postSucceeds then Succeeded(payload) else Failed(Some(payload))
  }

  /** One press of the button as the page is written: the key goes through the chunked `JSON.parse`. */
  function Attempt(p: Platform, config: Option<string>): (o: Outcome)
    requires config.Some? ==> VapidKeys.UrlSafeText(config.value)
    ensures o.Unsupported? <==> !p.supported
    ensures o.Succeeded? <==> p.supported && ServerKeyAsWritten(config).Ok?
                              && p.subscribe(ServerKeyAsWritten(config).value).Some? && p.postSucceeds
    ensures p.supported && ServerKeyAsWritten(config).Err? ==> o == Failed(None)
  {
    AttemptWith(p, ServerKeyAsWritten(config))
  }

  /** One press of the button with the evidently intended key decoding. */
  function AttemptIntended(p: Platform, config: Option<string>): (o: Outcome)
    ensures o.Unsupported? <==> !p.supported
    ensures o.Succeeded? <==> p.supported && ServerKey(config).Ok?
                              && p.subscribe(ServerKey(config).value).Some? && p.postSucceeds
    ensures p.supported && ServerKey(config).Err? ==> o == Failed(None)
  {
    AttemptWith(p, ServerKey(config))
  }

  /** Nothing is sent to the server unless push is supported, the key parsed and the subscription resolved. */
  lemma NothingPostedWithoutSubscription(p: Platform, config: Option<string>)
    requires config.Some? ==> VapidKeys.UrlSafeText(config.value)
    ensures var o := Attempt(p, config);
            (o.Succeeded? || (o.Failed? && o.posted.Some?))
            ==> p.supported && ServerKeyAsWritten(config).Ok?
                && p.subscribe(ServerKeyAsWritten(config).value).Some?
  {
  }

  /**
   * On a supporting browser, a URL-safe key starting with a letter or '_'
   * ends in the catch block before anything is subscribed or posted.
   */
  lemma LetterKeyFails(p: Platform, key: string)
    requires VapidKeys.UrlSafeText(key) && key != ""
    requires !IsDigit(key[0]) && key[0] != '-'
    requires p.supported
    ensures Attempt(p, Some(key)) == Failed(None)
    ensures Message(Attempt(p, Some(key))) == "Failed to subscribe to push notifications"
  {
    AsWrittenRejectsLetterKeys(key);
  }

  /** With the key the script prints for x = 0, the page as written never subscribes. */
  lemma GeneratedKeyNeverSubscribes(p: Platform, y: nat, d: nat)
    requires y < VapidKeys.Pow256(32) && d < VapidKeys.Pow256(32)
    ensures VapidKeys.GenerateVapidKeys(0, y, d).Ok?
    ensures VapidKeys.UrlSafeText(VapidKeys.GenerateVapidKeys(0, y, d).value.publicKey)
    ensures var o := Attempt(p, Some(VapidKeys.GenerateVapidKeys(0, y, d).value.publicKey));
            o == if p.supported then Failed(None) else Unsupported
  {
    AsWrittenRejectsGeneratedKey(y, d);
  }

  /**
   * With the intended decoding, every key the script prints reaches
   * `pushManager.subscribe` as the 65-byte point, and the attempt succeeds
   * exactly when that subscription resolves and the POST succeeds.
   */
  lemma IntendedUsesGeneratedKey(p: Platform, x: nat, y: nat, d: nat)
    requires VapidKeys.GenerateVapidKeys(x, y, d).Ok?
    requires p.supported
    ensures var k := ServerKey(Some(VapidKeys.GenerateVapidKeys(x, y, d).value.publicKey));
            && k.Ok? && k.value.Some? && |k.value.value| == 65
            && (AttemptIntended(p, Some(VapidKeys.GenerateVapidKeys(x, y, d).value.publicKey)).Succeeded?
                <==> p.subscribe(k.value).Some? && p.postSucceeds)
  {
    ServerKeyOfGeneratedKey(x, y, d);
  }

  class SettingsPage {
    var isSubscribed: bool

    constructor ()
      ensures !isSubscribed
    {
      isSubscribed := false;
    }

    /** The button is disabled once subscribed. */
    function ButtonDisabled(): bool
      reads this
    {
      isSubscribed
    }

    function ButtonText(): string
      reads this
    {
      if isSubscribed then "Subscribed" else "Subscribe to Push Notifications"
    }

    /**
     * `handleSubscribe`: the flag becomes true only when the whole attempt
     * succeeded, so a key the page cannot parse leaves it as it was.
     */
    method HandleSubscribe(p: Platform, config: Option<string>) returns (o: Outcome, alert: string)
      requires config.Some? ==> VapidKeys.UrlSafeText(config.value)
      modifies this
      ensures o == Attempt(p, config) && alert == Message(o)
      ensures isSubscribed == (old(isSubscribed) || o.Succeeded?)
      ensures ServerKeyAsWritten(config).Err? ==> isSubscribed == old(isSubscribed)
    {
      o := Attempt(p, config);
      if o.Succeeded? {
        isSubscribed := true;
      }
      alert := Message(o);
    }
  }
}
