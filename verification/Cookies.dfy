/**
 Set-Cookie headers: which are accepted, when the cookie they give expires (step 3 of section
 5.3 and section 5.2.2 of RFC 6265, capped locally), and when a stored credential may be used.
 */
module Cookies {
  import opened Wrappers
  import opened Utf8
  import opened Text
  import opened CredentialCodec

  const MAX_CREDENTIAL_LIFETIME_SECONDS: nat := 30 * 24 * 60 * 60

  /** Seconds since the Unix epoch of an HTTP date, possibly negative; `None` if unparsable. */
  type HttpDate = string -> Option<int>

  /** What one segment after the first contributes; `None` where its value does not parse. */
  datatype Attribute = MaxAge(expiry: Option<u64>) | Expires(expiry: Option<u64>) | Other

  function SaturatingAdd(a: u64, b: nat): u64 { if a + b > U64_MAX then U64_MAX else a + b }

  function LocalLimit(now: u64): u64 { SaturatingAdd(now, MAX_CREDENTIAL_LIFETIME_SECONDS) }

  function MaxAgeExpiry(raw: string, now: u64): Option<u64> {
    var seconds := ParseI64(Trim(raw));
    if seconds.None? then None
    else if seconds.value <= 0 then Some(now)
    else Some(Min(SaturatingAdd(now, seconds.value), LocalLimit(now)))
  }

  function ExpiresExpiry(raw: string, now: u64, date: HttpDate): Option<u64> {
    var at := date(Trim(raw));
    if at.None? then None
    else if at.value < 0 then Some(0)
    else Some(Min(at.value, LocalLimit(now)))
  }

  function Classify(segment: string, now: u64, date: HttpDate): (a: Attribute)
    ensures Capped(a, LocalLimit(now))
  {
    var parts := SplitOnce(Trim(segment), '=');
    if parts.None? then Other
    else if EqIgnoreAsciiCase(parts.value.0, "max-age") then MaxAge(MaxAgeExpiry(parts.value.1, now))
    else if EqIgnoreAsciiCase(parts.value.0, "expires") then Expires(ExpiresExpiry(parts.value.1, now, date))
    else Other
  }

  // ---------------------------------------------------------------- the declarative rule

  predicate HasMaxAge(attrs: seq<Attribute>) { exists k :: 0 <= k < |attrs| && attrs[k].MaxAge? }
  predicate HasExpires(attrs: seq<Attribute>) { exists k :: 0 <= k < |attrs| && attrs[k].Expires? }

  predicate LastMaxAge(attrs: seq<Attribute>, k: int) {
    0 <= k < |attrs| && attrs[k].MaxAge? && forall j :: k < j < |attrs| ==> !attrs[j].MaxAge?
  }

  predicate LastExpires(attrs: seq<Attribute>, k: int) {
    0 <= k < |attrs| && attrs[k].Expires? && forall j :: k < j < |attrs| ==> !attrs[j].Expires?
  }

  /** Last Max-Age if there is one, else last Expires, else the local limit. */
  ghost predicate ExpiryRule(attrs: seq<Attribute>, limit: u64, expiry: u64) {
    && (forall k :: LastMaxAge(attrs, k) ==> attrs[k].expiry == Some(expiry))
    && (!HasMaxAge(attrs) ==> forall k :: LastExpires(attrs, k) ==> attrs[k].expiry == Some(expiry))
    && (!HasMaxAge(attrs) && !HasExpires(attrs) ==> expiry == limit)
  }

  /** Every Max-Age parses, and so does every Expires that no Max-Age precedes. */
  predicate Acceptable(attrs: seq<Attribute>) {
    forall k :: 0 <= k < |attrs| ==> AttributeOk(attrs, k)
  }

  predicate AttributeOk(attrs: seq<Attribute>, k: nat)
    requires k < |attrs|
  {
    && (attrs[k].MaxAge? ==> attrs[k].expiry.Some?)
    && (attrs[k].Expires? && !HasMaxAge(attrs[..k]) ==> attrs[k].expiry.Some?)
  }

  // ---------------------------------------------------------------- the header

  function Attributes(header: string, now: u64, date: HttpDate): (attrs: seq<Attribute>)
    ensures |attrs| == |Split(header, ';')| - 1
    ensures forall j :: 0 <= j < |attrs| ==> Capped(attrs[j], LocalLimit(now))
  {
    var segments := Split(header, ';');
    seq(|segments| - 1, i requires 0 <= i < |segments| - 1 => Classify(segments[i + 1], now, date))
  }

  /** The trimmed first segment, if it has a name that is not all white space. */
  function CookieValue(header: string): Option<string> {
    var value := Trim(Split(header, ';')[0]);
    var parts := SplitOnce(value, '=');
    if parts.Some? && Trim(parts.value.0) != [] then Some(value) else None
  }

  predicate Accepts(header: string, now: u64, date: HttpDate) {
    && '\r' !in header && '\n' !in header
    && CookieValue(header).Some?
    && Acceptable(Attributes(header, now, date))
  }

  /** The header gives this cookie when received at `now`. */
  ghost predicate Gives(header: string, now: u64, date: HttpDate, k: Cookie) {
    && Accepts(header, now, date)
    && CookieValue(header) == Some(k.value)
    && k.expires.Some?
    && ExpiryRule(Attributes(header, now, date), LocalLimit(now), k.expires.value)
  }

  /** The cookie is the first segment without the white space around it, if what precedes its first `=` is not all white space. */
  lemma CookieValueMeans(left: string, value: string, right: string, rest: string)
    requires AllWhitespace(left) && Tight(value) && AllWhitespace(right) && ';' !in left + value + right
    ensures var named := exists i: nat :: FirstEqualsAt(value, i) && !AllWhitespace(value[..i]);
      && CookieValue(left + value + right) == (if named then Some(value) else None)
      && CookieValue(left + value + right + ";" + rest) == (if named then Some(value) else None)
  {
    SplitConcat(left + value + right, rest, ';');
    TrimOf(left, value, right);
    NameMeans(value);
  }

  lemma NameMeans(value: string)
    ensures var parts := SplitOnce(value, '=');
      (parts.Some? && Trim(parts.value.0) != []) <==> exists i: nat :: FirstEqualsAt(value, i) && !AllWhitespace(value[..i])
  {
    var parts := SplitOnce(value, '=');
    if parts.Some? {
      assert value[..|parts.value.0|] == parts.value.0;
      SplitsAtFirstEquals(value, |parts.value.0|);
      TrimmedAway(parts.value.0);
    }
    forall i: nat | FirstEqualsAt(value, i) ensures parts.Some? && i == |parts.value.0| {
      SplitsAtFirstEquals(value, i);
    }
  }

  /** A segment without `=` says nothing; one with it is named, in any letter case, by what precedes the first. */
  lemma ClassifyMeans(segment: string, name: string, value: string, now: u64, date: HttpDate)
    requires '=' !in name && Trim(segment) == name + ['='] + value
    ensures Classify(segment, now, date) ==
      if EqIgnoreAsciiCase(name, "max-age") then MaxAge(MaxAgeExpiry(value, now))
      else if EqIgnoreAsciiCase(name, "expires") then Expires(ExpiresExpiry(value, now, date))
      else Other
  {
    SplitOnceAt(name, '=', value);
  }

  /** The earliest of a time, thirty days from now, and the last representable second. */
  predicate Earliest(t: int, at: int, now: u64) {
    var month, last := now + 2_592_000, 0xFFFF_FFFF_FFFF_FFFF;
    t <= at && t <= month && t <= last && (t == at || t == month || t == last)
  }

  /** What a Max-Age number means: now if it is not positive, else that many seconds from now, within the local limit. */
  lemma MaxAgeMeans(raw: string, sign: string, z: nat, n: nat, now: u64)
    requires IsSign(sign) && Trim(raw) == sign + (Zeros(z) + Decimal(n))
    ensures var expiry := MaxAgeExpiry(raw, now);
      if !(I64_MIN <= Signed(sign, n) <= I64_MAX) then expiry == None
      else if Signed(sign, n) <= 0 then expiry == Some(now)
      else expiry.Some? && Earliest(expiry.value, now + n, now)
  {
    NumeralsParse(sign, z, n);
  }

  /** And no other value parses. */
  lemma MaxAgeNeedsNumeral(raw: string, now: u64) returns (sign: string, z: nat, n: nat)
    requires MaxAgeExpiry(raw, now).Some?
    ensures IsSign(sign) && Trim(raw) == sign + (Zeros(z) + Decimal(n)) && I64_MIN <= Signed(sign, n) <= I64_MAX
  {
    sign, z, n := OnlyNumeralsParse(Trim(raw));
  }

  /** What an Expires date means: that second, but not before the epoch and within the local limit; only dates are accepted. */
  lemma ExpiresMeans(left: string, text: string, right: string, now: u64, date: HttpDate)
    requires AllWhitespace(left) && Tight(text) && AllWhitespace(right)
    ensures var expiry := ExpiresExpiry(left + text + right, now, date);
      match date(text)
      case None => expiry == None
      case Some(n) =>
        expiry.Some? && if n < 0 then expiry.value == 0 else Earliest(expiry.value, n, now)
  {
    TrimOf(left, text, right);
  }

  /** An attribute is recognized in any letter case and after white space. */
  lemma AttributeRecognized(left: string, name: string, value: string, now: u64, date: HttpDate)
    requires AllWhitespace(left) && (Spells(name, "max-age", "MAX-AGE") || Spells(name, "expires", "EXPIRES"))
    ensures Classify(left + name + ['='] + value, now, date) ==
      if Spells(name, "max-age", "MAX-AGE") then MaxAge(MaxAgeExpiry(value, now)) else Expires(ExpiresExpiry(value, now, date))
  {
    var kept, right := TrailingSpace(value);
    var segment, tight := left + name + ['='] + value, name + ['='] + kept;
    assert segment == left + tight + right;
    assert tight[|name|] == '=' && tight[0] == name[0];
    assert kept != [] ==> tight[|tight| - 1] == kept[|kept| - 1];
    TrimOf(left, tight, right);
    AttributeNames(name);
    ClassifyMeans(segment, name, kept, now, date);
    SameTrimmed(kept, right);
  }

  lemma SameTrimmed(kept: string, right: string)
    requires AllWhitespace(right) && (kept == [] || !IsWhitespace(kept[|kept| - 1]))
    ensures Trim(kept + right) == Trim(kept)
  {
    var left, rest := LeadingSpace(kept);
    assert rest != [] ==> rest[|rest| - 1] == kept[|kept| - 1];
    TrimOf(left, rest, right);
    TrimOf(left, rest, []);
    assert left + rest + right == kept + right && left + rest + [] == kept;
  }

  /** Every header is a first segment and attribute segments, joined by semicolons, and is read segment by segment. */
  lemma HeaderSegments(header: string, now: u64, date: HttpDate) returns (first: string, segments: seq<string>)
    ensures header == Join([first] + segments, ";") && forall p :: p in [first] + segments ==> ';' !in p
    ensures Attributes(header, now, date) == seq(|segments|, i requires 0 <= i < |segments| => Classify(segments[i], now, date))
  {
    SplitJoin(header, ';');
    var pieces := Split(header, ';');
    first, segments := pieces[0], pieces[1..];
    assert pieces == [first] + segments;
  }

  /** And joining any such segments gives a header that is read as exactly those. */
  lemma SegmentsMakeHeader(first: string, segments: seq<string>, now: u64, date: HttpDate)
    requires forall p :: p in [first] + segments ==> ';' !in p
    ensures Attributes(Join([first] + segments, ";"), now, date)
         == seq(|segments|, i requires 0 <= i < |segments| => Classify(segments[i], now, date))
  {
    JoinSplit([first] + segments, ';');
  }

  /** How the rule moves when one more attribute is read. */
  lemma RuleSnoc(attrs: seq<Attribute>, a: Attribute, limit: u64, expiry: u64, next: u64)
    requires ExpiryRule(attrs, limit, expiry)
    requires a.MaxAge? ==> a.expiry == Some(next)
    requires a.Expires? && !HasMaxAge(attrs) ==> a.expiry == Some(next)
    requires a.Other? || (a.Expires? && HasMaxAge(attrs)) ==> next == expiry
    ensures ExpiryRule(attrs + [a], limit, next)
  {
    var more := attrs + [a];
    assert more[|attrs|] == a;
    assert forall k :: 0 <= k < |attrs| ==> more[k] == attrs[k];
    forall k | LastMaxAge(more, k) ensures more[k].expiry == Some(next) {
      if k < |attrs| {
        assert LastMaxAge(attrs, k);
      }
    }
    if !HasMaxAge(more) {
      forall k | LastExpires(more, k) ensures more[k].expiry == Some(next) {
        if k < |attrs| {
          assert LastExpires(attrs, k);
        }
      }
    }
  }

  lemma HasMaxAgeSnoc(attrs: seq<Attribute>, a: Attribute)
    ensures HasMaxAge(attrs + [a]) <==> HasMaxAge(attrs) || a.MaxAge?
  {
    var more := attrs + [a];
    assert more[|attrs|] == a;
    assert forall k :: 0 <= k < |attrs| ==> more[k] == attrs[k];
  }

  /** The attribute loop: its answer is the rule's, and it refuses exactly the rest. */
  method FoldAttributes(attrs: seq<Attribute>, limit: u64) returns (expiry: Option<u64>)
    ensures expiry.Some? <==> Acceptable(attrs)
    ensures expiry.Some? ==> ExpiryRule(attrs, limit, expiry.value)
  {
    var expiresAt := limit;
    var maxAgeSeen := false;
    ghost var seen: seq<Attribute> := [];
    for i := 0 to |attrs|
      invariant seen == attrs[..i] && ExpiryRule(seen, limit, expiresAt)
      invariant forall k :: 0 <= k < i ==> AttributeOk(attrs, k)
      invariant maxAgeSeen == HasMaxAge(seen)
    {
      var a, next := attrs[i], expiresAt;
      if a.MaxAge? || (a.Expires? && !maxAgeSeen) {
        if a.expiry.None? {
          assert !AttributeOk(attrs, i);
          return None;
        }
        next := a.expiry.value;
      }
      RuleSnoc(seen, a, limit, expiresAt, next);
      HasMaxAgeSnoc(seen, a);
      seen, expiresAt, maxAgeSeen := seen + [a], next, maxAgeSeen || a.MaxAge?;
    }
    assert attrs[..|attrs|] == attrs;
    return Some(expiresAt);
  }

  /** `StoredCookie::parse`. */
  method Parse(header: string, now: u64, date: HttpDate) returns (r: StoreResult<Cookie>)
    ensures r.Ok? <==> Accepts(header, now, date)
    ensures r.Err? ==> r.error == Invalid
    ensures r.Ok? ==> Gives(header, now, date, r.value)
  {
    if '\r' in header || '\n' in header {
      return Err(Invalid);
    }
    var value := CookieValue(header);
    if value.None? {
      return Err(Invalid);
    }
    var expiry := FoldAttributes(Attributes(header, now, date), LocalLimit(now));
    if expiry.None? {
      return Err(Invalid);
    }
    return Ok(Cookie(value.value, expiry));
  }

  // ---------------------------------------------------------------- what the rule implies

  /** A header whose only attribute is Expires gives a cookie exactly if it has a name and the date is one, and with that expiry. */
  lemma ExpiresHeader(first: string, left: string, name: string, text: string, right: string, now: u64, date: HttpDate, k: Cookie)
    requires AllWhitespace(left) && Spells(name, "expires", "EXPIRES") && Tight(text) && AllWhitespace(right)
    requires ';' !in first && ';' !in left + name + ['='] + (text + right)
    ensures var header := first + ";" + (left + name + ['='] + (text + right));
      && (Accepts(header, now, date) <==>
            '\r' !in header && '\n' !in header && CookieValue(header).Some? && date(text).Some?)
      && (Gives(header, now, date, k) ==>
            && k.expires.Some? && date(text).Some?
            && if date(text).value < 0 then k.expires.value == 0 else Earliest(k.expires.value, date(text).value, now))
  {
    var header, a := first + ";" + (left + name + ['='] + (text + right)), Expires(ExpiresExpiry(text + right, now, date));
    ExpiresAttribute(first, left, name, text + right, now, date);
    assert [] + text + right == text + right;
    ExpiresMeans([], text, right, now, date);
    OnlyAttribute(a, LocalLimit(now));
  }

  lemma ExpiresAttribute(first: string, left: string, name: string, value: string, now: u64, date: HttpDate)
    requires AllWhitespace(left) && Spells(name, "expires", "EXPIRES")
    requires ';' !in first && ';' !in left + name + ['='] + value
    ensures Attributes(first + ";" + (left + name + ['='] + value), now, date) == [Expires(ExpiresExpiry(value, now, date))]
  {
    var segment := left + name + ['='] + value;
    AttributeRecognized(left, name, value, now, date);
    assert name[0] == 'e' || name[0] == 'E';
    SegmentsMakeHeader(first, [segment], now, date);
    assert ([first] + [segment])[1..] == [segment];
  }

  lemma OnlyAttribute(a: Attribute, limit: u64)
    requires a.Expires?
    ensures Acceptable([a]) <==> a.expiry.Some?
    ensures forall x: u64 :: ExpiryRule([a], limit, x) ==> a.expiry == Some(x)
  {
    assert [a][..0] == [] && [a][0] == a;
    assert AttributeOk([a], 0) <==> a.expiry.Some?;
    assert LastExpires([a], 0);
  }

  /** Without attributes the cookie lasts thirty days, or to the end of time. */
  lemma PlainHeader(header: string, now: u64, date: HttpDate, k: Cookie)
    requires ';' !in header && Gives(header, now, date, k)
    ensures Earliest(k.expires.value, now + 2_592_000, now)
  {
    SplitConcat(header, [], ';');
  }

  lemma {:induction false} LastMaxAgeExists(attrs: seq<Attribute>) returns (k: int)
    requires HasMaxAge(attrs)
    ensures LastMaxAge(attrs, k)
  {
    k := |attrs| - 1;
    while !attrs[k].MaxAge?
      invariant 0 <= k < |attrs| && forall j :: k < j < |attrs| ==> !attrs[j].MaxAge?
      decreases k
    {
      k := k - 1;
    }
  }

  lemma {:induction false} LastExpiresExists(attrs: seq<Attribute>) returns (k: int)
    requires HasExpires(attrs)
    ensures LastExpires(attrs, k)
  {
    k := |attrs| - 1;
    while !attrs[k].Expires?
      invariant 0 <= k < |attrs| && forall j :: k < j < |attrs| ==> !attrs[j].Expires?
      decreases k
    {
      k := k - 1;
    }
  }

  /** The rule leaves no choice. */
  lemma ExpiryDetermined(attrs: seq<Attribute>, limit: u64, x: u64, y: u64)
    requires ExpiryRule(attrs, limit, x) && ExpiryRule(attrs, limit, y)
    ensures x == y
  {
    if HasMaxAge(attrs) {
      var k := LastMaxAgeExists(attrs);
    } else if HasExpires(attrs) {
      var k := LastExpiresExists(attrs);
    }
  }

  /** One header gives one cookie. */
  lemma GivesOne(header: string, now: u64, date: HttpDate, j: Cookie, k: Cookie)
    requires Gives(header, now, date, j) && Gives(header, now, date, k)
    ensures j == k
  {
    ExpiryDetermined(Attributes(header, now, date), LocalLimit(now), j.expires.value, k.expires.value);
  }

  lemma RuleAnswers(attrs: seq<Attribute>, limit: u64) returns (expiry: u64)
    requires Acceptable(attrs)
    ensures ExpiryRule(attrs, limit, expiry)
  {
    expiry := limit;
    if HasMaxAge(attrs) {
      var at := LastMaxAgeExists(attrs);
      assert AttributeOk(attrs, at);
      expiry := attrs[at].expiry.value;
    } else if HasExpires(attrs) {
      var at := LastExpiresExists(attrs);
      assert AttributeOk(attrs, at);
      expiry := attrs[at].expiry.value;
    }
  }

  /** Every accepted header gives one. */
  lemma AcceptedGives(header: string, now: u64, date: HttpDate) returns (k: Cookie)
    requires Accepts(header, now, date)
    ensures Gives(header, now, date, k)
  {
    var expiry := RuleAnswers(Attributes(header, now, date), LocalLimit(now));
    k := Cookie(CookieValue(header).value, Some(expiry));
  }

  lemma AllGive(headers: seq<string>, now: u64, date: HttpDate) returns (cookies: seq<Cookie>)
    requires forall i :: 0 <= i < |headers| ==> Accepts(headers[i], now, date)
    ensures |cookies| == |headers| && forall i :: 0 <= i < |headers| ==> Gives(headers[i], now, date, cookies[i])
  {
    cookies := [];
    for n := 0 to |headers|
      invariant |cookies| == n && forall i :: 0 <= i < n ==> Gives(headers[i], now, date, cookies[i])
    {
      var next := AcceptedGives(headers[n], now, date);
      cookies := cookies + [next];
    }
  }

  lemma ReceivedAreNamed(cookies: seq<Cookie>, headers: seq<string>, now: u64, date: HttpDate)
    requires |cookies| == |headers| && forall i :: 0 <= i < |headers| ==> Gives(headers[i], now, date, cookies[i])
    ensures forall k :: k in cookies ==> Named(k.value)
  {
    forall k | k in cookies ensures Named(k.value) {
      var j :| 0 <= j < |cookies| && cookies[j] == k;
      assert Gives(headers[j], now, date, k);
    }
  }

  lemma RuleBounded(attrs: seq<Attribute>, limit: u64, expiry: u64)
    requires ExpiryRule(attrs, limit, expiry)
    requires forall j :: 0 <= j < |attrs| ==> Capped(attrs[j], limit)
    ensures expiry <= limit
  {
    if HasMaxAge(attrs) {
      var j := LastMaxAgeExists(attrs);
    } else if HasExpires(attrs) {
      var j := LastExpiresExists(attrs);
    }
  }

  predicate Capped(a: Attribute, limit: u64) { a.Other? || a.expiry.None? || a.expiry.value <= limit }

  /** Whatever the header says, the cookie expires within thirty days. */
  lemma ExpiryBounded(header: string, now: u64, date: HttpDate, k: Cookie)
    requires Gives(header, now, date, k)
    ensures k.expires.value <= LocalLimit(now) <= now + MAX_CREDENTIAL_LIFETIME_SECONDS
  {
    RuleBounded(Attributes(header, now, date), LocalLimit(now), k.expires.value);
  }

  /** `ControlCredential::from_set_cookie_headers`. */
  method FromSetCookieHeaders(providerUrl: string, cliAppId: string, loginId: string, headers: seq<string>,
                              now: u64, date: HttpDate, canonicalUrl: string -> bool)
    returns (r: StoreResult<Credential>)
    ensures r.Err? ==> r.error == Invalid
    ensures r.Ok? ==>
      && Valid(r.value, canonicalUrl) && |r.value.cookies| == |headers|
      && r.value.providerUrl == providerUrl && r.value.cliAppId == cliAppId && r.value.loginId == loginId
      && forall i :: 0 <= i < |headers| ==> Gives(headers[i], now, date, r.value.cookies[i])
    ensures r.Ok? <==>
      && cliAppId != [] && loginId != [] && 1 <= |headers| <= MAX_COOKIE_COUNT
      && providerUrl != [] && canonicalUrl(providerUrl)
      && forall i :: 0 <= i < |headers| ==> Accepts(headers[i], now, date)
  {
    if cliAppId == [] || loginId == [] || headers == [] || |headers| > MAX_COOKIE_COUNT {
      return Err(Invalid);
    }
    var cookies: seq<Cookie> := [];
    for i := 0 to |headers|
      invariant |cookies| == i
      invariant forall j :: 0 <= j < i ==> Gives(headers[j], now, date, cookies[j])
    {
      var cookie := Parse(headers[i], now, date);
      if cookie.Err? {
        return Err(cookie.error);
      }
      cookies := cookies + [cookie.value];
    }
    var credential := Credential(CREDENTIAL_RECORD_VERSION, providerUrl, cliAppId, loginId, cookies);
    ReceivedAreNamed(cookies, headers, now, date);
    if !Valid(credential, canonicalUrl) {
      return Err(Invalid);
    }
    return Ok(credential);
  }

  /** `ControlCredential::cookie_header_at`: one expired cookie refuses the whole credential. */
  function CookieHeaderAt(c: Credential, now: nat, canonicalUrl: string -> bool): (r: StoreResult<string>) {
    if !Valid(c, canonicalUrl) then Err(Invalid)
    else if exists k :: k in c.cookies && k.expires.Some? && k.expires.value <= now then Err(Expired)
    else Ok(Join(seq(|c.cookies|, i requires 0 <= i < |c.cookies| => c.cookies[i].value), "; "))
  }

  /** The text sent is every cookie's value in order, and can be taken apart again where no value holds the separator. */
  lemma CookieHeaderSplits(c: Credential, now: nat, canonicalUrl: string -> bool)
    requires CookieHeaderAt(c, now, canonicalUrl).Ok?
    requires forall k :: k in c.cookies ==> !HoldsPair(k.value, ';', ' ')
    ensures SplitPair(CookieHeaderAt(c, now, canonicalUrl).value, ';', ' ')
         == seq(|c.cookies|, i requires 0 <= i < |c.cookies| => c.cookies[i].value)
  {
    var values := seq(|c.cookies|, i requires 0 <= i < |c.cookies| => c.cookies[i].value);
    assert "; " == [';', ' '];
    forall p | p in values ensures !HoldsPair(p, ';', ' ') {
      var i :| 0 <= i < |values| && values[i] == p;
      assert c.cookies[i] in c.cookies;
    }
    JoinSplitPair(values, ';', ' ');
  }

  /** As it always can be if the cookies were received in headers. */
  lemma ReceivedValuesSplit(c: Credential, headers: seq<string>, received: u64, date: HttpDate)
    requires Received(c, headers, received, date)
    ensures forall k :: k in c.cookies ==> !HoldsPair(k.value, ';', ' ')
  {
    forall k | k in c.cookies ensures !HoldsPair(k.value, ';', ' ') {
      var i :| 0 <= i < |c.cookies| && c.cookies[i] == k;
      assert Gives(headers[i], received, date, k);
      var left, right := TrimMeans(Split(headers[i], ';')[0]);
      assert Split(headers[i], ';')[0] in Split(headers[i], ';');
    }
  }

  /** The credential was built from these headers at `received`. */
  ghost predicate Received(c: Credential, headers: seq<string>, received: u64, date: HttpDate) {
    |headers| == |c.cookies| && forall i :: 0 <= i < |headers| ==> Gives(headers[i], received, date, c.cookies[i])
  }

  /** Usable exactly until its first cookie expires, and so never for more than thirty days. */
  lemma UsableOnlyBriefly(c: Credential, headers: seq<string>, received: u64, date: HttpDate, now: nat,
                          canonicalUrl: string -> bool)
    requires Valid(c, canonicalUrl) && Received(c, headers, received, date)
    ensures CookieHeaderAt(c, now, canonicalUrl).Ok? <==>
      forall k :: k in c.cookies ==> k.expires.Some? && now < k.expires.value
    ensures CookieHeaderAt(c, now, canonicalUrl).Ok? ==> now < received + MAX_CREDENTIAL_LIFETIME_SECONDS
  {
    forall k | k in c.cookies ensures k.expires.Some? {
      var i :| 0 <= i < |c.cookies| && c.cookies[i] == k;
      assert Gives(headers[i], received, date, c.cookies[i]);
    }
    assert Gives(headers[0], received, date, c.cookies[0]);
    ExpiryBounded(headers[0], received, date, c.cookies[0]);
    assert c.cookies[0] in c.cookies;
  }
}
