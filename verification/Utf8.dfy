/** UTF-8 as defined by section 3 of RFC 3629: shortest form only, no surrogates. */
module Utf8 {
  import opened Wrappers

  type byte = b: int | 0 <= b < 256

  function EncodeChar(c: char): (bytes: seq<byte>)
    ensures 1 <= |bytes| <= 4
  {
    var n := c as int;
    if n < 0x80 then [n]
    else if n < 0x800 then [0xC0 + n / 0x40, 0x80 + n % 0x40]
    else if n < 0x1_0000 then [0xE0 + n / 0x1000, 0x80 + n / 0x40 % 0x40, 0x80 + n % 0x40]
    else [0xF0 + n / 0x4_0000, 0x80 + n / 0x1000 % 0x40, 0x80 + n / 0x40 % 0x40, 0x80 + n % 0x40]
  }

  function Encode(s: string): (bytes: seq<byte>) {
    if s == [] then [] else EncodeChar(s[0]) + Encode(s[1..])
  }

  predicate Tail(b: byte) { 0x80 <= b < 0xC0 }

  function Join2(a: int, b: int): int { (a - 0xC0) * 0x40 + (b - 0x80) }
  function Join3(a: int, b: int, c: int): int { (a - 0xE0) * 0x1000 + (b - 0x80) * 0x40 + (c - 0x80) }
  function Join4(a: int, b: int, c: int, d: int): int {
    (a - 0xF0) * 0x4_0000 + (b - 0x80) * 0x1000 + (c - 0x80) * 0x40 + (d - 0x80)
  }

  predicate Scalar(n: int) { 0 <= n < 0xD800 || 0xE000 <= n <= 0x10_FFFF }

  /** The first character of `bytes` and how many bytes it takes. */
  function DecodeChar(bytes: seq<byte>): (r: Option<(char, nat)>)
    ensures r.Some? ==> 1 <= r.value.1 <= |bytes|
  {
    if |bytes| >= 1 && bytes[0] < 0x80 then Some((bytes[0] as char, 1))
    else if |bytes| >= 2 && 0xC0 <= bytes[0] < 0xE0 && Tail(bytes[1]) then
      var n := Join2(bytes[0], bytes[1]);
      if 0x80 <= n && Scalar(n) then Some((n as char, 2)) else None
    else if |bytes| >= 3 && 0xE0 <= bytes[0] < 0xF0 && Tail(bytes[1]) && Tail(bytes[2]) then
      var n := Join3(bytes[0], bytes[1], bytes[2]);
      if 0x800 <= n && Scalar(n) then Some((n as char, 3)) else None
    else if |bytes| >= 4 && 0xF0 <= bytes[0] < 0xF8 && Tail(bytes[1]) && Tail(bytes[2]) && Tail(bytes[3]) then
      var n := Join4(bytes[0], bytes[1], bytes[2], bytes[3]);
      if 0x1_0000 <= n && Scalar(n) then Some((n as char, 4)) else None
    else None
  }

  function Decode(bytes: seq<byte>): (r: Option<string>) {
    if bytes == [] then Some([])
    else
      var first := DecodeChar(bytes);
      if first.None? then None
      else
        var rest := Decode(bytes[first.value.1..]);
        if rest.None? then None else Some([first.value.0] + rest.value)
  }

  lemma Split3(n: int)
    requires 0x800 <= n < 0x1_0000
    ensures Join3(0xE0 + n / 0x1000, 0x80 + n / 0x40 % 0x40, 0x80 + n % 0x40) == n
  {
    assert n / 0x40 / 0x40 == n / 0x1000;
  }

  lemma Split4(n: int)
    requires 0x1_0000 <= n < 0x11_0000
    ensures Join4(0xF0 + n / 0x4_0000, 0x80 + n / 0x1000 % 0x40, 0x80 + n / 0x40 % 0x40, 0x80 + n % 0x40) == n
  {
    assert n / 0x40 / 0x40 == n / 0x1000;
    assert n / 0x1000 / 0x40 == n / 0x4_0000;
  }

  lemma Unjoin3(a: int, b: byte, c: byte)
    requires Tail(b) && Tail(c)
    ensures var n := Join3(a, b, c); n / 0x1000 == a - 0xE0 && n / 0x40 % 0x40 == b - 0x80 && n % 0x40 == c - 0x80
  {
    var n := Join3(a, b, c);
    assert n / 0x40 == (a - 0xE0) * 0x40 + (b - 0x80);
  }

  lemma Unjoin4(a: int, b: byte, c: byte, d: byte)
    requires Tail(b) && Tail(c) && Tail(d)
    ensures var n := Join4(a, b, c, d);
      && n / 0x4_0000 == a - 0xF0 && n / 0x1000 % 0x40 == b - 0x80
      && n / 0x40 % 0x40 == c - 0x80 && n % 0x40 == d - 0x80
  {
    var n := Join4(a, b, c, d);
    assert n / 0x40 == (a - 0xF0) * 0x1000 + (b - 0x80) * 0x40 + (c - 0x80);
    assert n / 0x1000 == (a - 0xF0) * 0x40 + (b - 0x80);
  }

  lemma CharRoundTrip(c: char, rest: seq<byte>)
    ensures DecodeChar(EncodeChar(c) + rest) == Some((c, |EncodeChar(c)|))
  {
    var n := c as int;
    if 0x800 <= n < 0x1_0000 {
      Split3(n);
    } else if 0x1_0000 <= n {
      Split4(n);
    }
  }

  lemma CharCanonical(bytes: seq<byte>)
    requires DecodeChar(bytes).Some?
    ensures EncodeChar(DecodeChar(bytes).value.0) == bytes[..DecodeChar(bytes).value.1]
  {
    var (c, k) := DecodeChar(bytes).value;
    if k == 3 {
      Unjoin3(bytes[0], bytes[1], bytes[2]);
    } else if k == 4 {
      Unjoin4(bytes[0], bytes[1], bytes[2], bytes[3]);
    }
  }

  lemma {:induction false} RoundTrip(s: string)
    ensures Decode(Encode(s)) == Some(s)
  {
    if s != [] {
      var bytes, first := Encode(s), EncodeChar(s[0]);
      CharRoundTrip(s[0], Encode(s[1..]));
      assert bytes[|first|..] == Encode(s[1..]);
      RoundTrip(s[1..]);
      assert s == [s[0]] + s[1..];
    }
  }

  lemma EncodeCons(c: char, s: string)
    ensures Encode([c] + s) == EncodeChar(c) + Encode(s)
  {
    assert ([c] + s)[1..] == s;
  }

  lemma {:induction false} EncodeAppends(a: string, b: string)
    ensures Encode(a + b) == Encode(a) + Encode(b)
  {
    if a == [] {
      assert a + b == b;
    } else {
      EncodeAppends(a[1..], b);
      assert (a + b)[1..] == a[1..] + b;
    }
  }

  lemma CanonicalCons(bytes: seq<byte>, s: string)
    requires DecodeChar(bytes).Some? && Encode(s) == bytes[DecodeChar(bytes).value.1..]
    ensures Encode([DecodeChar(bytes).value.0] + s) == bytes
  {
    var (c, k) := DecodeChar(bytes).value;
    EncodeCons(c, s);
    CharCanonical(bytes);
    assert bytes == bytes[..k] + bytes[k..];
  }

  /** Only the shortest encoding of a text decodes to it. */
  lemma {:induction false} Canonical(bytes: seq<byte>)
    requires Decode(bytes).Some?
    ensures Encode(Decode(bytes).value) == bytes
  {
    if bytes != [] {
      var rest := bytes[DecodeChar(bytes).value.1..];
      Canonical(rest);
      CanonicalCons(bytes, Decode(rest).value);
    }
  }
}
