/**
 The credential record: a length-prefixed binary record inside unpadded base64, with a hard
 size ceiling.  Text is a sequence of characters and reaches the record as UTF-8.
 */
module CredentialCodec {
  import opened Wrappers
  import opened Utf8
  import opened Text
  import Base64

  const U32_MODULUS: nat := 0x1_0000_0000

  const CREDENTIAL_RECORD_VERSION: byte := 1
  const CREDENTIAL_RECORD_MAGIC: seq<byte> := [0x4C, 0x55, 0x4E, 0x43, 0x4C, 0x49, 0x00]
  const CREDENTIAL_TEXT_PREFIX: string := "LUNATIC-CLI-CREDENTIAL-V1:"
  const MAX_COOKIE_COUNT: nat := 64
  const MAX_PROTECTED_SECRET_BYTES: nat := 2400

  datatype StoreError = Unavailable | Missing | Expired | Invalid | TooLarge | Failed
  type StoreResult<+T> = Result<T, StoreError>

  datatype Cookie = Cookie(value: string, expires: Option<u64>)

  datatype Credential = Credential(
    version: byte, providerUrl: string, cliAppId: string, loginId: string, cookies: seq<Cookie>)

  function Ascii(s: string): seq<byte>
    requires forall i :: 0 <= i < |s| ==> s[i] as int < 0x80
  {
    seq(|s|, i requires 0 <= i < |s| => s[i] as int)
  }

  const PREFIX: seq<byte> := Ascii(CREDENTIAL_TEXT_PREFIX)

  /** A cookie value has a non-empty name before its first `=`. */
  predicate Named(value: string) {
    var parts := SplitOnce(value, '=');
    parts.Some? && parts.value.0 != []
  }

  /**
   `ControlCredential::validate`.  `canonicalUrl` stands for URL parsing: it holds of the
   texts that parse as a URL whose serialization is the text itself.
   */
  predicate Valid(c: Credential, canonicalUrl: string -> bool) {
    && c.version == CREDENTIAL_RECORD_VERSION
    && c.providerUrl != [] && canonicalUrl(c.providerUrl)
    && c.cliAppId != [] && c.loginId != []
    && 1 <= |c.cookies| <= MAX_COOKIE_COUNT
    && forall k :: k in c.cookies ==> Named(k.value)
  }

  /** The first equals sign of the text is at `i`. */
  predicate FirstEqualsAt(value: string, i: nat) {
    i < |value| && value[i] == '=' && forall k :: 0 <= k < i ==> value[k] != '='
  }

  lemma SplitsAtFirstEquals(value: string, i: nat)
    ensures var parts := SplitOnce(value, '=');
      FirstEqualsAt(value, i) <==> parts.Some? && i == |parts.value.0|
  {
    var parts := SplitOnce(value, '=');
    if parts.Some? {
      var name := parts.value.0;
      assert forall k :: 0 <= k < |name| ==> value[k] == name[k] && name[k] in name;
      assert value[|name|] == '=';
    }
  }

  lemma NamedMeans(value: string)
    ensures Named(value) <==> exists i: nat :: 0 < i && FirstEqualsAt(value, i)
  {
    var parts := SplitOnce(value, '=');
    if parts.Some? {
      SplitsAtFirstEquals(value, |parts.value.0|);
    }
    forall i: nat | FirstEqualsAt(value, i) ensures parts.Some? && i == |parts.value.0| {
      SplitsAtFirstEquals(value, i);
    }
  }

  /** What makes a credential acceptable to every operation. */
  lemma ValidMeans(c: Credential, canonicalUrl: string -> bool)
    ensures Valid(c, canonicalUrl) <==>
      && c.version == 1 && |c.providerUrl| > 0 && canonicalUrl(c.providerUrl) && |c.cliAppId| > 0 && |c.loginId| > 0
      && 1 <= |c.cookies| <= 64
      && forall k :: k in c.cookies ==> exists i: nat :: 0 < i && FirstEqualsAt(k.value, i)
  {
    forall k | k in c.cookies ensures Named(k.value) <==> exists i: nat :: 0 < i && FirstEqualsAt(k.value, i) {
      NamedMeans(k.value);
    }
  }

  // ---------------------------------------------------------------- integers and byte strings

  function Pow256(k: nat): nat { if k == 0 then 1 else 256 * Pow256(k - 1) }

  /** `n` as `k` bytes, most significant first. */
  function Be(n: nat, k: nat): (b: seq<byte>)
    ensures |b| == k
  {
    if k == 0 then [] else Be(n / 256, k - 1) + [n % 256]
  }

  function FromBe(b: seq<byte>): (n: nat)
    ensures n < Pow256(|b|)
  {
    if b == [] then 0 else FromBe(b[..|b| - 1]) * 256 + b[|b| - 1]
  }

  lemma {:induction false} BeRoundTrip(n: nat, k: nat)
    requires n < Pow256(k)
    ensures FromBe(Be(n, k)) == n
  {
    if k > 0 {
      BeRoundTrip(n / 256, k - 1);
      assert Be(n, k)[..k - 1] == Be(n / 256, k - 1);
    }
  }

  lemma Cancel(m: nat, a: int, b: int)
    requires m * a < m * b
    ensures a < b
  {
  }

  lemma Quotient(n: nat, m: nat, q: nat, r: nat)
    requires n == m * q + r && r < m
    ensures n / m == q
  {
    var d := n / m;
    assert m * d <= n < m * d + m && m * d + m == m * (d + 1) && m * q + m == m * (q + 1);
    Cancel(m, d, q + 1);
    Cancel(m, q, d + 1);
  }

  lemma DivideTwice(n: nat, m: nat)
    requires m > 0
    ensures n / 256 / m == n / (256 * m)
  {
    var q := n / 256;
    assert q == m * (q / m) + q % m;
    Quotient(n, 256 * m, q / m, 256 * (q % m) + n % 256);
  }

  /** The most significant byte comes first: byte `i` is the digit of weight 256 to the `k - 1 - i`. */
  lemma {:induction false} BeDigit(n: nat, k: nat, i: nat)
    requires i < k
    ensures Pow256(k - 1 - i) > 0 && Be(n, k)[i] == n / Pow256(k - 1 - i) % 256
  {
    if i < k - 1 {
      BeDigit(n / 256, k - 1, i);
      DivideTwice(n, Pow256(k - 2 - i));
    }
  }

  lemma {:induction false} BeCanonical(b: seq<byte>)
    ensures Be(FromBe(b), |b|) == b
  {
    if b != [] {
      BeCanonical(b[..|b| - 1]);
      assert b == b[..|b| - 1] + [b[|b| - 1]];
    }
  }

  lemma WordSizes()
    ensures Pow256(4) == U32_MODULUS && Pow256(8) == U64_MODULUS
  {
    assert Pow256(4) == 256 * (256 * (256 * (256 * Pow256(0))));
    assert Pow256(8) == 256 * (256 * (256 * (256 * Pow256(4))));
  }

  /** A parser takes a value off the front of the bytes. */
  datatype Parsed<+T> = Parsed(item: T, rest: seq<byte>)

  function TakeExact(b: seq<byte>, n: nat): (r: Option<Parsed<seq<byte>>>) {
    if |b| < n then None else Some(Parsed(b[..n], b[n..]))
  }

  function TakeU8(b: seq<byte>): (r: Option<Parsed<byte>>) {
    if b == [] then None else Some(Parsed(b[0], b[1..]))
  }

  function TakeU32(b: seq<byte>): (r: Option<Parsed<nat>>)
    ensures r.Some? ==> r.value.item < U32_MODULUS
  {
    if |b| < 4 then None
    else
      WordSizes();
      Some(Parsed(FromBe(b[..4]), b[4..]))
  }

  function TakeU64(b: seq<byte>): (r: Option<Parsed<u64>>) {
    if |b| < 8 then None
    else
      WordSizes();
      Some(Parsed(FromBe(b[..8]), b[8..]))
  }

  function TakeBytes(b: seq<byte>): (r: Option<Parsed<seq<byte>>>) {
    var length := TakeU32(b);
    if length.None? then None else TakeExact(length.value.rest, length.value.item)
  }

  function TakeText(b: seq<byte>): (r: Option<Parsed<string>>) {
    var bytes := TakeBytes(b);
    if bytes.None? then None
    else
      var text := Decode(bytes.value.item);
      if text.None? then None else Some(Parsed(text.value, bytes.value.rest))
  }

  function PutBytes(b: seq<byte>): seq<byte>
    requires |b| < U32_MODULUS
  {
    Be(|b|, 4) + b
  }

  predicate TextFits(s: string) { |Encode(s)| < U32_MODULUS }

  function PutText(s: string): seq<byte>
    requires TextFits(s)
  {
    PutBytes(Encode(s))
  }

  // Each parser undoes its printer in front of any rest, and accepts nothing else.

  lemma U32Inverse(n: nat, rest: seq<byte>)
    requires n < U32_MODULUS
    ensures TakeU32(Be(n, 4) + rest) == Some(Parsed(n, rest))
  {
    WordSizes();
    BeRoundTrip(n, 4);
    assert (Be(n, 4) + rest)[..4] == Be(n, 4);
    assert (Be(n, 4) + rest)[4..] == rest;
  }

  lemma U32Accepts(b: seq<byte>)
    requires TakeU32(b).Some?
    ensures b == Be(TakeU32(b).value.item, 4) + TakeU32(b).value.rest
  {
    BeCanonical(b[..4]);
    assert b == b[..4] + b[4..];
  }

  lemma U64Inverse(n: u64, rest: seq<byte>)
    ensures TakeU64(Be(n, 8) + rest) == Some(Parsed(n, rest))
  {
    WordSizes();
    BeRoundTrip(n, 8);
    assert (Be(n, 8) + rest)[..8] == Be(n, 8);
    assert (Be(n, 8) + rest)[8..] == rest;
  }

  lemma U64Accepts(b: seq<byte>)
    requires TakeU64(b).Some?
    ensures b == Be(TakeU64(b).value.item, 8) + TakeU64(b).value.rest
  {
    BeCanonical(b[..8]);
    assert b == b[..8] + b[8..];
  }

  lemma TextInverse(s: string, rest: seq<byte>)
    requires TextFits(s)
    ensures TakeText(PutText(s) + rest) == Some(Parsed(s, rest))
  {
    var b := Encode(s);
    U32Inverse(|b|, b + rest);
    assert PutText(s) + rest == Be(|b|, 4) + (b + rest);
    assert (b + rest)[..|b|] == b && (b + rest)[|b|..] == rest;
    Utf8.RoundTrip(s);
  }

  lemma Assoc(a: seq<byte>, b: seq<byte>, c: seq<byte>)
    ensures (a + b) + c == a + (b + c)
  {
  }

  lemma BytesAccept(b: seq<byte>)
    requires TakeBytes(b).Some?
    ensures var r := TakeBytes(b).value; |r.item| < U32_MODULUS && b == PutBytes(r.item) + r.rest
  {
    U32Accepts(b);
    var length, r := TakeU32(b).value, TakeBytes(b).value;
    assert length.rest == r.item + r.rest;
    Assoc(Be(length.item, 4), r.item, r.rest);
  }

  lemma TextAccepts(b: seq<byte>)
    requires TakeText(b).Some?
    ensures TextFits(TakeText(b).value.item) && b == PutText(TakeText(b).value.item) + TakeText(b).value.rest
  {
    BytesAccept(b);
    Utf8.Canonical(TakeBytes(b).value.item);
  }

  // ---------------------------------------------------------------- cookies

  function PutCookie(k: Cookie): seq<byte>
    requires TextFits(k.value)
  {
    PutText(k.value) + (if k.expires.Some? then [1] + Be(k.expires.value, 8) else [0])
  }

  function TakeCookie(b: seq<byte>): (r: Option<Parsed<Cookie>>) {
    var value := TakeText(b);
    if value.None? then None
    else
      var tag := TakeU8(value.value.rest);
      if tag.None? then None
      else if tag.value.item == 0 then Some(Parsed(Cookie(value.value.item, None), tag.value.rest))
      else if tag.value.item == 1 then
        var expiry := TakeU64(tag.value.rest);
        if expiry.None? then None
        else Some(Parsed(Cookie(value.value.item, Some(expiry.value.item)), expiry.value.rest))
      else None
  }

  /** After its length and its text a cookie has a tag, 1 exactly if an expiry follows, and then eight bytes of it. */
  lemma CookieLayout(k: Cookie, i: nat)
    requires TextFits(k.value) && i < 8
    ensures var n, b := |Encode(k.value)|, PutCookie(k);
      && |b| == (if k.expires.Some? then n + 13 else n + 5)
      && b[4..n + 4] == Encode(k.value) && b[n + 4] == (if k.expires.Some? then 1 else 0)
      && Pow256(7 - i) > 0 && (k.expires.Some? ==> b[n + 5 + i] == k.expires.value / Pow256(7 - i) % 256)
      && (i < 4 ==> Pow256(3 - i) > 0 && b[i] == n / Pow256(3 - i) % 256)
  {
    BeDigit(if k.expires.Some? then k.expires.value else 0, 8, i);
    if i < 4 {
      BeDigit(|Encode(k.value)|, 4, i);
    }
  }

  predicate CookiesFit(ks: seq<Cookie>) { forall k :: k in ks ==> TextFits(k.value) }

  function PutCookies(ks: seq<Cookie>): seq<byte>
    requires CookiesFit(ks)
  {
    if ks == [] then [] else PutCookies(ks[..|ks| - 1]) + PutCookie(ks[|ks| - 1])
  }

  function TakeCookies(b: seq<byte>, n: nat): (r: Option<Parsed<seq<Cookie>>>)
    ensures r.Some? ==> |r.value.item| == n
  {
    if n == 0 then Some(Parsed([], b))
    else
      var front := TakeCookies(b, n - 1);
      if front.None? then None
      else
        var last := TakeCookie(front.value.rest);
        if last.None? then None else Some(Parsed(front.value.item + [last.value.item], last.value.rest))
  }

  lemma CookieInverse(k: Cookie, rest: seq<byte>)
    requires TextFits(k.value)
    ensures TakeCookie(PutCookie(k) + rest) == Some(Parsed(k, rest))
  {
    var tail := if k.expires.Some? then [1] + Be(k.expires.value, 8) else [0];
    TextInverse(k.value, tail + rest);
    assert PutCookie(k) + rest == PutText(k.value) + (tail + rest);
    if k.expires.Some? {
      U64Inverse(k.expires.value, rest);
      assert (tail + rest)[1..] == Be(k.expires.value, 8) + rest;
    } else {
      assert (tail + rest)[1..] == rest;
    }
  }

  lemma CookieAccepts(b: seq<byte>)
    requires TakeCookie(b).Some?
    ensures var r := TakeCookie(b).value; TextFits(r.item.value) && b == PutCookie(r.item) + r.rest
  {
    TextAccepts(b);
    var r := TakeCookie(b).value;
    var tail := TakeText(b).value.rest;
    if r.item.expires.Some? {
      U64Accepts(tail[1..]);
      TagAccepts(tail, Be(r.item.expires.value, 8), r.rest);
      Assoc(PutText(r.item.value), [tail[0]] + Be(r.item.expires.value, 8), r.rest);
    } else {
      TagAccepts(tail, [], r.rest);
      Assoc(PutText(r.item.value), [tail[0]], r.rest);
    }
  }

  lemma TagAccepts(tail: seq<byte>, field: seq<byte>, rest: seq<byte>)
    requires tail != [] && tail[1..] == field + rest
    ensures tail == [tail[0]] + field + rest
  {
  }

  lemma PutCookiesSnoc(front: seq<Cookie>, last: Cookie)
    requires CookiesFit(front) && TextFits(last.value)
    ensures CookiesFit(front + [last]) && PutCookies(front + [last]) == PutCookies(front) + PutCookie(last)
  {
    var ks := front + [last];
    assert ks[..|ks| - 1] == front && ks[|ks| - 1] == last;
  }

  lemma {:induction false} CookiesInverse(ks: seq<Cookie>, rest: seq<byte>)
    requires CookiesFit(ks)
    ensures TakeCookies(PutCookies(ks) + rest, |ks|) == Some(Parsed(ks, rest))
  {
    if ks == [] {
      assert PutCookies(ks) + rest == rest;
    } else {
      var front, last := ks[..|ks| - 1], ks[|ks| - 1];
      assert ks == front + [last];
      PutCookiesSnoc(front, last);
      CookiesInverse(front, PutCookie(last) + rest);
      CookieInverse(last, rest);
      Assoc(PutCookies(front), PutCookie(last), rest);
    }
  }

  lemma {:induction false} CookiesAccept(b: seq<byte>, n: nat)
    requires TakeCookies(b, n).Some?
    ensures var r := TakeCookies(b, n).value; CookiesFit(r.item) && b == PutCookies(r.item) + r.rest
  {
    if n > 0 {
      CookiesAccept(b, n - 1);
      var front := TakeCookies(b, n - 1).value;
      CookieAccepts(front.rest);
      var last := TakeCookie(front.rest).value;
      PutCookiesSnoc(front.item, last.item);
      Assoc(PutCookies(front.item), PutCookie(last.item), last.rest);
    }
  }

  // ---------------------------------------------------------------- the record

  /** Every length fits its 32-bit prefix. */
  predicate Fits(c: Credential) {
    && TextFits(c.providerUrl) && TextFits(c.cliAppId) && TextFits(c.loginId)
    && |c.cookies| < U32_MODULUS && CookiesFit(c.cookies)
  }

  function Body(c: Credential): seq<byte>
    requires Fits(c)
  {
    PutText(c.providerUrl) + (PutText(c.cliAppId) + (PutText(c.loginId) + (Be(|c.cookies|, 4) + PutCookies(c.cookies))))
  }

  function Record(c: Credential): seq<byte>
    requires Fits(c)
  {
    CREDENTIAL_RECORD_MAGIC + ([c.version] + Body(c))
  }

  function TakeBody(version: byte, b: seq<byte>): (r: Option<Credential>) {
    var url := TakeText(b);
    if url.None? then None else
    var app := TakeText(url.value.rest);
    if app.None? then None else
    var login := TakeText(app.value.rest);
    if login.None? then None else
    var count := TakeU32(login.value.rest);
    if count.None? || count.value.item == 0 || count.value.item > MAX_COOKIE_COUNT then None else
    var cookies := TakeCookies(count.value.rest, count.value.item);
    if cookies.None? || cookies.value.rest != [] then None else
    Some(Credential(version, url.value.item, app.value.item, login.value.item, cookies.value.item))
  }

  function TakeRecord(b: seq<byte>): (r: Option<Credential>) {
    if !(CREDENTIAL_RECORD_MAGIC <= b) then None
    else
      var version := TakeU8(b[|CREDENTIAL_RECORD_MAGIC|..]);
      if version.None? then None else TakeBody(version.value.item, version.value.rest)
  }

  lemma BodyInverse(c: Credential)
    requires Fits(c) && 1 <= |c.cookies| <= MAX_COOKIE_COUNT
    ensures TakeBody(c.version, Body(c)) == Some(c)
  {
    var cookies := PutCookies(c.cookies);
    var counted := Be(|c.cookies|, 4) + cookies;
    var login := PutText(c.loginId) + counted;
    var app := PutText(c.cliAppId) + login;
    TextInverse(c.providerUrl, app);
    TextInverse(c.cliAppId, login);
    TextInverse(c.loginId, counted);
    U32Inverse(|c.cookies|, cookies);
    CookiesInverse(c.cookies, []);
    assert cookies + [] == cookies;
  }

  lemma BodyAccepts(version: byte, b: seq<byte>)
    requires TakeBody(version, b).Some?
    ensures var c := TakeBody(version, b).value;
      Fits(c) && c.version == version && 1 <= |c.cookies| <= MAX_COOKIE_COUNT && b == Body(c)
  {
    TextAccepts(b);
    var url := TakeText(b).value;
    TextAccepts(url.rest);
    var app := TakeText(url.rest).value;
    TextAccepts(app.rest);
    var login := TakeText(app.rest).value;
    U32Accepts(login.rest);
    var count := TakeU32(login.rest).value;
    CookiesAccept(count.rest, count.item);
    var cookies := TakeCookies(count.rest, count.item).value;
    assert count.rest == PutCookies(cookies.item) + [] == PutCookies(cookies.item);
  }

  lemma RecordInverse(c: Credential)
    requires Fits(c) && 1 <= |c.cookies| <= MAX_COOKIE_COUNT
    ensures TakeRecord(Record(c)) == Some(c)
  {
    var b := Record(c);
    var tail := b[|CREDENTIAL_RECORD_MAGIC|..];
    assert tail == [c.version] + Body(c);
    assert tail[1..] == Body(c);
    BodyInverse(c);
  }

  lemma RecordAccepts(b: seq<byte>)
    requires TakeRecord(b).Some?
    ensures var c := TakeRecord(b).value; Fits(c) && 1 <= |c.cookies| <= MAX_COOKIE_COUNT && b == Record(c)
  {
    var tail := b[|CREDENTIAL_RECORD_MAGIC|..];
    var c := TakeRecord(b).value;
    BodyAccepts(tail[0], tail[1..]);
    SplitAfter(tail, [c.version]);
    SplitAfter(b, CREDENTIAL_RECORD_MAGIC);
  }

  lemma SplitAfter(b: seq<byte>, front: seq<byte>)
    requires front <= b
    ensures b == front + b[|front|..]
  {
  }

  // ---------------------------------------------------------------- the envelope

  /** `ControlCredential::encode`. */
  function EncodeCredential(c: Credential, canonicalUrl: string -> bool): (r: StoreResult<seq<byte>>) {
    if !Valid(c, canonicalUrl) then Err(Invalid)
    else if !Fits(c) then Err(TooLarge)
    else
      var encoded := PREFIX + Base64.Encode(Record(c));
      if |encoded| > MAX_PROTECTED_SECRET_BYTES then Err(TooLarge) else Ok(encoded)
  }

  /** `ControlCredential::decode`. */
  function DecodeCredential(b: seq<byte>, canonicalUrl: string -> bool): (r: StoreResult<Credential>) {
    if |b| > MAX_PROTECTED_SECRET_BYTES || !(PREFIX <= b) then Err(Invalid)
    else
      var record := Base64.Decode(b[|PREFIX|..]);
      if record.None? then Err(Invalid)
      else
        var c := TakeRecord(record.value);
        if c.None? || !Valid(c.value, canonicalUrl) then Err(Invalid) else Ok(c.value)
  }

  /** Every credential that encodes decodes back to itself. */
  lemma RoundTrip(c: Credential, canonicalUrl: string -> bool)
    requires EncodeCredential(c, canonicalUrl).Ok?
    ensures DecodeCredential(EncodeCredential(c, canonicalUrl).value, canonicalUrl) == Ok(c)
  {
    var b := EncodeCredential(c, canonicalUrl).value;
    assert b[|PREFIX|..] == Base64.Encode(Record(c));
    Base64.RoundTrip(Record(c));
    RecordInverse(c);
  }

  /** Every accepted byte string is the encoding of the credential it decodes to. */
  lemma Canonical(b: seq<byte>, canonicalUrl: string -> bool)
    requires DecodeCredential(b, canonicalUrl).Ok?
    ensures EncodeCredential(DecodeCredential(b, canonicalUrl).value, canonicalUrl) == Ok(b)
  {
    var text := b[|PREFIX|..];
    Base64.Canonical(text);
    RecordAccepts(Base64.Decode(text).value);
    assert b == PREFIX + text;
  }

  /** What is stored is a fixed text and the base64 of the record, at most 2400 bytes in all. */
  lemma Envelope(c: Credential, canonicalUrl: string -> bool)
    requires EncodeCredential(c, canonicalUrl).Ok?
    ensures Fits(c) && c.version == 1
    ensures var b := EncodeCredential(c, canonicalUrl).value;
      26 <= |b| <= 2400 && PREFIX == b[..26] && Base64.Decode(b[26..]) == Some(Record(c))
  {
    PrefixIs();
    EnvelopeOf(EncodeCredential(c, canonicalUrl).value, Record(c));
  }

  lemma EnvelopeOf(b: seq<byte>, record: seq<byte>)
    requires b == PREFIX + Base64.Encode(record) && |PREFIX| == 26
    ensures 26 <= |b| && PREFIX == b[..26] && Base64.Decode(b[26..]) == Some(record)
  {
    assert b[26..] == Base64.Encode(record);
    Base64.RoundTrip(record);
  }

  lemma PrefixIs()
    ensures PREFIX == Ascii("LUNATIC-CLI-CREDENTIAL-V1:") && |PREFIX| == 26
  {
  }

  /** The record begins with its magic and version 1. */
  lemma RecordBegins(c: Credential)
    requires Fits(c) && c.version == CREDENTIAL_RECORD_VERSION
    ensures [0x4C, 0x55, 0x4E, 0x43, 0x4C, 0x49, 0x00, 0x01] <= Record(c)
  {
    assert Record(c) == CREDENTIAL_RECORD_MAGIC + [c.version] + Body(c);
  }

  /** Equal encodings mean equal credentials, which is what `verify_credential` relies on. */
  lemma EncodingsIdentify(c: Credential, d: Credential, canonicalUrl: string -> bool)
    requires EncodeCredential(c, canonicalUrl).Ok?
    requires EncodeCredential(d, canonicalUrl) == EncodeCredential(c, canonicalUrl)
    ensures c == d
  {
    RoundTrip(c, canonicalUrl);
    RoundTrip(d, canonicalUrl);
  }

  /** A valid credential is refused exactly when its record exceeds the ceiling. */
  lemma SizeCeiling(c: Credential, canonicalUrl: string -> bool)
    requires Valid(c, canonicalUrl)
    ensures EncodeCredential(c, canonicalUrl).Ok? <==> Fits(c) && |Record(c)| <= 1780
    ensures !EncodeCredential(c, canonicalUrl).Ok? ==> EncodeCredential(c, canonicalUrl) == Err(TooLarge)
  {
    assert |PREFIX| == 26;
    if Fits(c) {
      var n := |Record(c)|;
      assert n <= 1780 <==> (4 * n + 2) / 3 <= 2374;
    }
  }
}
