/** Encoding into a growing buffer and decoding from a shrinking slice, as the code does it. */
module CredentialRecord {
  import opened Wrappers
  import opened Utf8
  import opened CredentialCodec
  import Base64

  /** The byte vector that `push_u32` and `push_bytes` append to. */
  class Buffer {
    var data: seq<byte>

    constructor ()
      ensures data == []
    {
      data := [];
    }

    method PushU32(value: nat) returns (ok: bool)
      modifies this
      ensures ok <==> value < U32_MODULUS
      ensures data == if ok then old(data) + Be(value, 4) else old(data)
    {
      ok := value < U32_MODULUS;
      if ok {
        data := data + Be(value, 4);
      }
    }

    method PushBytes(value: seq<byte>) returns (ok: bool)
      modifies this
      ensures ok <==> |value| < U32_MODULUS
      ensures data == if ok then old(data) + PutBytes(value) else old(data)
    {
      ok := PushU32(|value|);
      if ok {
        Assoc(old(data), Be(|value|, 4), value);
        data := data + value;
      }
    }

    method PushCookie(cookie: Cookie) returns (ok: bool)
      modifies this
      ensures ok <==> TextFits(cookie.value)
      ensures ok ==> data == old(data) + PutCookie(cookie)
    {
      ok := PushBytes(Utf8.Encode(cookie.value));
      if ok {
        match cookie.expires {
          case Some(at) => data := data + [1]; data := data + Be(at, 8);
          case None => data := data + [0];
        }
      }
    }
  }

  /** Everything up to and including the cookie count. */
  method EncodeHead(buffer: Buffer, c: Credential) returns (ok: bool)
    requires buffer.data == []
    modifies buffer
    ensures ok <==> TextFits(c.providerUrl) && TextFits(c.cliAppId) && TextFits(c.loginId) && |c.cookies| < U32_MODULUS
    ensures ok ==> buffer.data == CREDENTIAL_RECORD_MAGIC + [c.version] + PutText(c.providerUrl) + PutText(c.cliAppId)
                                  + PutText(c.loginId) + Be(|c.cookies|, 4)
  {
    buffer.data := CREDENTIAL_RECORD_MAGIC;
    buffer.data := buffer.data + [c.version];
    ok := buffer.PushBytes(Utf8.Encode(c.providerUrl));
    if !ok { return; }
    ok := buffer.PushBytes(Utf8.Encode(c.cliAppId));
    if !ok { return; }
    ok := buffer.PushBytes(Utf8.Encode(c.loginId));
    if !ok { return; }
    ok := buffer.PushU32(|c.cookies|);
  }

  method EncodeCookies(buffer: Buffer, cookies: seq<Cookie>) returns (ok: bool)
    modifies buffer
    ensures ok <==> CookiesFit(cookies)
    ensures ok ==> buffer.data == old(buffer.data) + PutCookies(cookies)
  {
    ghost var head := buffer.data;
    for i := 0 to |cookies|
      invariant CookiesFit(cookies[..i])
      invariant buffer.data == head + PutCookies(cookies[..i])
    {
      ok := buffer.PushCookie(cookies[i]);
      if !ok { return; }
      PutCookiesSnoc(cookies[..i], cookies[i]);
      assert cookies[..i + 1] == cookies[..i] + [cookies[i]];
      Assoc(head, PutCookies(cookies[..i]), PutCookie(cookies[i]));
    }
    assert cookies[..|cookies|] == cookies;
    return true;
  }

  /** Builds the record in a buffer; the buffer's content is the specification's record. */
  method EncodeRecord(c: Credential) returns (record: Option<seq<byte>>)
    ensures record.Some? <==> Fits(c)
    ensures record.Some? ==> record.value == Record(c)
  {
    var buffer := new Buffer();
    var ok := EncodeHead(buffer, c);
    if !ok { return None; }
    ok := EncodeCookies(buffer, c.cookies);
    if !ok { return None; }
    Flatten(CREDENTIAL_RECORD_MAGIC, [c.version], PutText(c.providerUrl), PutText(c.cliAppId), PutText(c.loginId),
            Be(|c.cookies|, 4), PutCookies(c.cookies));
    return Some(buffer.data);
  }

  lemma Flatten(m: seq<byte>, v: seq<byte>, u: seq<byte>, a: seq<byte>, l: seq<byte>, n: seq<byte>, k: seq<byte>)
    ensures m + v + u + a + l + n + k == m + (v + (u + (a + (l + (n + k)))))
  {
    Assoc(m + v + u + a + l, n, k);
    Assoc(m + v + u + a, l, n + k);
    Assoc(m + v + u, a, l + (n + k));
    Assoc(m + v, u, a + (l + (n + k)));
    Assoc(m, v, u + (a + (l + (n + k))));
  }

  method Encode(c: Credential, canonicalUrl: string -> bool) returns (r: StoreResult<seq<byte>>)
    ensures r == EncodeCredential(c, canonicalUrl)
  {
    if !Valid(c, canonicalUrl) {
      return Err(Invalid);
    }
    var record := EncodeRecord(c);
    if record.None? {
      return Err(TooLarge);
    }
    var encoded := PREFIX;
    encoded := encoded + Base64.Encode(record.value);
    if |encoded| > MAX_PROTECTED_SECRET_BYTES {
      return Err(TooLarge);
    }
    return Ok(encoded);
  }

  /** The slice that the `take_*` helpers advance. */
  class Reader {
    var remaining: seq<byte>

    constructor (bytes: seq<byte>)
      ensures remaining == bytes
    {
      remaining := bytes;
    }

    method TakeU8() returns (r: Option<byte>)
      modifies this
      ensures Took(CredentialCodec.TakeU8(old(remaining)), r, remaining)
    {
      if remaining == [] { return None; }
      r := Some(remaining[0]);
      remaining := remaining[1..];
    }

    method TakeExact(n: nat) returns (r: Option<seq<byte>>)
      modifies this
      ensures Took(CredentialCodec.TakeExact(old(remaining), n), r, remaining)
    {
      if |remaining| < n { return None; }
      r := Some(remaining[..n]);
      remaining := remaining[n..];
    }

    method TakeU32() returns (r: Option<nat>)
      modifies this
      ensures Took(CredentialCodec.TakeU32(old(remaining)), r, remaining)
    {
      var bytes := TakeExact(4);
      if bytes.None? { return None; }
      r := Some(FromBe(bytes.value));
    }

    method TakeU64() returns (r: Option<u64>)
      modifies this
      ensures Took(CredentialCodec.TakeU64(old(remaining)), r, remaining)
    {
      var bytes := TakeExact(8);
      if bytes.None? { return None; }
      WordSizes();
      r := Some(FromBe(bytes.value));
    }

    method TakeText() returns (r: Option<string>)
      modifies this
      ensures Took(CredentialCodec.TakeText(old(remaining)), r, remaining)
    {
      var length := TakeU32();
      if length.None? { return None; }
      var bytes := TakeExact(length.value);
      if bytes.None? { return None; }
      r := Utf8.Decode(bytes.value);
    }

    method TakeCookie() returns (r: Option<Cookie>)
      modifies this
      ensures Took(CredentialCodec.TakeCookie(old(remaining)), r, remaining)
    {
      var value := TakeText();
      if value.None? { return None; }
      var tag := TakeU8();
      if tag.None? || tag.value > 1 { return None; }
      if tag.value == 0 { return Some(Cookie(value.value, None)); }
      var expires := TakeU64();
      if expires.None? { return None; }
      return Some(Cookie(value.value, expires));
    }
  }

  /** A reader step agrees with its parser; after a failure the slice is not used again. */
  ghost predicate Took<T>(spec: Option<Parsed<T>>, r: Option<T>, remaining: seq<byte>) {
    if spec.None? then r.None? else r == Some(spec.value.item) && remaining == spec.value.rest
  }

  lemma {:induction false} CookiesStayFailed(b: seq<byte>, i: nat, n: nat)
    requires i <= n && TakeCookies(b, i).None?
    ensures TakeCookies(b, n).None?
    decreases n
  {
    if i < n {
      CookiesStayFailed(b, i, n - 1);
    }
  }

  method DecodeCookies(reader: Reader, count: nat) returns (r: Option<seq<Cookie>>)
    modifies reader
    ensures Took(TakeCookies(old(reader.remaining), count), r, reader.remaining)
  {
    ghost var start := reader.remaining;
    var cookies: seq<Cookie> := [];
    for i := 0 to count
      invariant TakeCookies(start, i) == Some(Parsed(cookies, reader.remaining))
    {
      var cookie := reader.TakeCookie();
      if cookie.None? {
        CookiesStayFailed(start, i + 1, count);
        return None;
      }
      cookies := cookies + [cookie.value];
    }
    return Some(cookies);
  }

  method Decode(encoded: seq<byte>, canonicalUrl: string -> bool) returns (r: StoreResult<Credential>)
    ensures r == DecodeCredential(encoded, canonicalUrl)
  {
    if |encoded| > MAX_PROTECTED_SECRET_BYTES || !(PREFIX <= encoded) {
      return Err(Invalid);
    }
    var record := Base64.Decode(encoded[|PREFIX|..]);
    if record.None? || !(CREDENTIAL_RECORD_MAGIC <= record.value) {
      return Err(Invalid);
    }
    var reader := new Reader(record.value[|CREDENTIAL_RECORD_MAGIC|..]);
    var version := reader.TakeU8();
    if version.None? { return Err(Invalid); }
    var providerUrl := reader.TakeText();
    if providerUrl.None? { return Err(Invalid); }
    var cliAppId := reader.TakeText();
    if cliAppId.None? { return Err(Invalid); }
    var loginId := reader.TakeText();
    if loginId.None? { return Err(Invalid); }
    var count := reader.TakeU32();
    if count.None? || count.value == 0 || count.value > MAX_COOKIE_COUNT { return Err(Invalid); }
    var cookies := DecodeCookies(reader, count.value);
    if cookies.None? || reader.remaining != [] { return Err(Invalid); }
    var credential := Credential(version.value, providerUrl.value, cliAppId.value, loginId.value, cookies.value);
    if !Valid(credential, canonicalUrl) { return Err(Invalid); }
    return Ok(credential);
  }
}
