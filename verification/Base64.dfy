/**
 Unpadded standard base64 (sections 3.2 and 4 of RFC 4648), rejecting non-zero trailing
 bits on decoding as section 3.5 allows.
 */
module Base64 {
  import opened Wrappers
  import opened Utf8

  type sextet = v: int | 0 <= v < 64

  /** The alphabet of table 1. */
  function Symbol(v: sextet): byte {
    if v < 26 then 'A' as int + v
    else if v < 52 then 'a' as int + v - 26
    else if v < 62 then '0' as int + v - 52
    else if v == 62 then '+' as int else '/' as int
  }

  function Value(b: byte): Option<sextet> {
    if 'A' as int <= b <= 'Z' as int then Some(b - 'A' as int)
    else if 'a' as int <= b <= 'z' as int then Some(b - 'a' as int + 26)
    else if '0' as int <= b <= '9' as int then Some(b - '0' as int + 52)
    else if b == '+' as int then Some(62)
    else if b == '/' as int then Some(63)
    else None
  }

  /** Table 1 as a text. */
  function Alphabet(): string { "ABCDEFGHIJKLMNOPQRSTUVWXYZ" + "abcdefghijklmnopqrstuvwxyz" + "0123456789" + "+/" }

  lemma SymbolsAreTheAlphabet(v: sextet)
    ensures |Alphabet()| == 64 && Symbol(v) == Alphabet()[v] as int
  {
    var upper, lower, digits := "ABCDEFGHIJKLMNOPQRSTUVWXYZ", "abcdefghijklmnopqrstuvwxyz", "0123456789";
    if v < 26 {
      assert upper[v] as int == 'A' as int + v;
    } else if v < 52 {
      assert lower[v - 26] as int == 'a' as int + (v - 26);
    } else if v < 62 {
      assert digits[v - 52] as int == '0' as int + (v - 52);
    }
  }

  lemma SymbolsAreDistinct(v: sextet, b: byte)
    ensures Value(Symbol(v)) == Some(v)
    ensures Value(b).Some? ==> Symbol(Value(b).value) == b
  {
  }

  // Three bytes as four sextets, and back.
  function First(a: byte): sextet { a / 4 }
  function Second(a: byte, b: byte): sextet { a % 4 * 16 + b / 16 }
  function Third(b: byte, c: byte): sextet { b % 16 * 4 + c / 64 }
  function Fourth(c: byte): sextet { c % 64 }
  function Byte0(p: sextet, q: sextet): byte { p * 4 + q / 16 }
  function Byte1(q: sextet, r: sextet): byte { q % 16 * 16 + r / 4 }
  function Byte2(r: sextet, s: sextet): byte { r % 4 * 64 + s }

  lemma Regroup(a: byte, b: byte, c: byte)
    ensures Byte0(First(a), Second(a, b)) == a
    ensures Byte1(Second(a, b), Third(b, c)) == b
    ensures Byte2(Third(b, c), Fourth(c)) == c
    ensures Second(a, 0) % 16 == 0 && Third(b, 0) % 4 == 0
  {
  }

  lemma Ungroup(p: sextet, q: sextet, r: sextet, s: sextet)
    ensures First(Byte0(p, q)) == p
    ensures Second(Byte0(p, q), Byte1(q, r)) == q && (q % 16 == 0 ==> Second(Byte0(p, q), 0) == q)
    ensures Third(Byte1(q, r), Byte2(r, s)) == r && (r % 4 == 0 ==> Third(Byte1(q, r), 0) == r)
    ensures Fourth(Byte2(r, s)) == s
  {
    var a: int := p * 4 + q / 16;
    assert a / 4 == p && a % 4 == q / 16;
    var b: int := q % 16 * 16 + r / 4;
    assert b / 16 == q % 16 && b % 16 == r / 4;
    var c: int := r % 4 * 64 + s;
    assert c / 64 == r % 4 && c % 64 == s;
  }

  function Encode(b: seq<byte>): (t: seq<byte>)
    ensures |t| == (4 * |b| + 2) / 3
  {
    if |b| == 0 then []
    else if |b| == 1 then [Symbol(First(b[0])), Symbol(Second(b[0], 0))]
    else if |b| == 2 then [Symbol(First(b[0])), Symbol(Second(b[0], b[1])), Symbol(Third(b[1], 0))]
    else
      [Symbol(First(b[0])), Symbol(Second(b[0], b[1])), Symbol(Third(b[1], b[2])), Symbol(Fourth(b[2]))]
      + Encode(b[3..])
  }

  /** One group of two to four symbols; a short group must leave no stray bits. */
  function DecodeGroup(t: seq<byte>): (b: Option<seq<byte>>)
    requires 2 <= |t| <= 4
  {
    var v0, v1 := Value(t[0]), Value(t[1]);
    if v0.None? || v1.None? then None
    else if |t| == 2 then Group2(v0.value, v1.value)
    else
      var v2 := Value(t[2]);
      if v2.None? then None
      else if |t| == 3 then Group3(v0.value, v1.value, v2.value)
      else
        var v3 := Value(t[3]);
        if v3.None? then None else Some(Group4(v0.value, v1.value, v2.value, v3.value))
  }

  function Group2(p: sextet, q: sextet): Option<seq<byte>> {
    if q % 16 == 0 then Some([Byte0(p, q)]) else None
  }

  function Group3(p: sextet, q: sextet, r: sextet): Option<seq<byte>> {
    if r % 4 == 0 then Some([Byte0(p, q), Byte1(q, r)]) else None
  }

  function Group4(p: sextet, q: sextet, r: sextet, s: sextet): seq<byte> {
    [Byte0(p, q), Byte1(q, r), Byte2(r, s)]
  }

  function Decode(t: seq<byte>): (b: Option<seq<byte>>) {
    if |t| == 0 then Some([])
    else if |t| == 1 then None
    else if |t| < 4 then DecodeGroup(t)
    else
      var head, rest := DecodeGroup(t[..4]), Decode(t[4..]);
      if head.None? || rest.None? then None else Some(head.value + rest.value)
  }

  lemma Decode2(p: sextet, q: sextet)
    ensures DecodeGroup([Symbol(p), Symbol(q)]) == Group2(p, q)
  {
    SymbolsAreDistinct(p, 0);
    SymbolsAreDistinct(q, 0);
  }

  lemma Decode3(p: sextet, q: sextet, r: sextet)
    ensures DecodeGroup([Symbol(p), Symbol(q), Symbol(r)]) == Group3(p, q, r)
  {
    SymbolsAreDistinct(p, 0);
    SymbolsAreDistinct(q, 0);
    SymbolsAreDistinct(r, 0);
  }

  lemma Decode4(p: sextet, q: sextet, r: sextet, s: sextet)
    ensures DecodeGroup([Symbol(p), Symbol(q), Symbol(r), Symbol(s)]) == Some(Group4(p, q, r, s))
  {
    SymbolsAreDistinct(p, 0);
    SymbolsAreDistinct(q, 0);
    SymbolsAreDistinct(r, 0);
    SymbolsAreDistinct(s, 0);
  }

  lemma Regroup2(a: byte)
    ensures Group2(First(a), Second(a, 0)) == Some([a])
  {
    Regroup(a, 0, 0);
  }

  lemma Regroup3(a: byte, b: byte)
    ensures Group3(First(a), Second(a, b), Third(b, 0)) == Some([a, b])
  {
    Regroup(a, b, 0);
  }

  lemma Regroup4(a: byte, b: byte, c: byte)
    ensures Group4(First(a), Second(a, b), Third(b, c), Fourth(c)) == [a, b, c]
  {
    Regroup(a, b, c);
  }

  lemma RoundTrip1(a: byte)
    ensures DecodeGroup(Encode([a])) == Some([a])
  {
    Decode2(First(a), Second(a, 0));
    Regroup2(a);
  }

  lemma RoundTrip2(a: byte, b: byte)
    ensures DecodeGroup(Encode([a, b])) == Some([a, b])
  {
    Decode3(First(a), Second(a, b), Third(b, 0));
    Regroup3(a, b);
  }

  lemma Encode3(a: byte, b: byte, c: byte)
    ensures Encode([a, b, c]) == [Symbol(First(a)), Symbol(Second(a, b)), Symbol(Third(b, c)), Symbol(Fourth(c))]
  {
    assert [a, b, c][3..] == [];
  }

  lemma RoundTrip3(a: byte, b: byte, c: byte)
    ensures DecodeGroup(Encode([a, b, c])) == Some([a, b, c])
  {
    Encode3(a, b, c);
    Decode4(First(a), Second(a, b), Third(b, c), Fourth(c));
    Regroup4(a, b, c);
  }

  lemma Canonical2(x: byte, y: byte)
    requires DecodeGroup([x, y]).Some?
    ensures |DecodeGroup([x, y]).value| == 1 && Encode(DecodeGroup([x, y]).value) == [x, y]
  {
    SymbolsAreDistinct(0, x);
    SymbolsAreDistinct(0, y);
    Ungroup(Value(x).value, Value(y).value, 0, 0);
  }

  lemma Canonical3(x: byte, y: byte, z: byte)
    requires DecodeGroup([x, y, z]).Some?
    ensures |DecodeGroup([x, y, z]).value| == 2 && Encode(DecodeGroup([x, y, z]).value) == [x, y, z]
  {
    SymbolsAreDistinct(0, x);
    SymbolsAreDistinct(0, y);
    SymbolsAreDistinct(0, z);
    Ungroup(Value(x).value, Value(y).value, Value(z).value, 0);
  }

  lemma Canonical4(x: byte, y: byte, z: byte, u: byte)
    requires DecodeGroup([x, y, z, u]).Some?
    ensures |DecodeGroup([x, y, z, u]).value| == 3 && Encode(DecodeGroup([x, y, z, u]).value) == [x, y, z, u]
  {
    SymbolsAreDistinct(0, x);
    SymbolsAreDistinct(0, y);
    SymbolsAreDistinct(0, z);
    SymbolsAreDistinct(0, u);
    var p, q, r, s := Value(x).value, Value(y).value, Value(z).value, Value(u).value;
    Ungroup(p, q, r, s);
    Encode3(Byte0(p, q), Byte1(q, r), Byte2(r, s));
  }

  lemma GroupCanonical(t: seq<byte>)
    requires 2 <= |t| <= 4 && DecodeGroup(t).Some?
    ensures |DecodeGroup(t).value| == |t| - 1 && Encode(DecodeGroup(t).value) == t
  {
    if |t| == 2 {
      assert t == [t[0], t[1]];
      Canonical2(t[0], t[1]);
    } else if |t| == 3 {
      assert t == [t[0], t[1], t[2]];
      Canonical3(t[0], t[1], t[2]);
    } else {
      assert t == [t[0], t[1], t[2], t[3]];
      Canonical4(t[0], t[1], t[2], t[3]);
    }
  }

  lemma {:induction false} RoundTrip(b: seq<byte>)
    ensures Decode(Encode(b)) == Some(b)
  {
    if |b| == 1 {
      assert b == [b[0]];
      RoundTrip1(b[0]);
    } else if |b| == 2 {
      assert b == [b[0], b[1]];
      RoundTrip2(b[0], b[1]);
    } else if |b| >= 3 {
      var head := [b[0], b[1], b[2]];
      assert b == head + b[3..];
      RoundTrip3(b[0], b[1], b[2]);
      Encode3(b[0], b[1], b[2]);
      RoundTrip(b[3..]);
      assert Encode(b)[..4] == Encode(head);
      assert Encode(b)[4..] == Encode(b[3..]);
    }
  }

  /** A text is accepted only if it is the encoding of what it decodes to. */
  lemma {:induction false} Canonical(t: seq<byte>)
    requires Decode(t).Some?
    ensures Encode(Decode(t).value) == t
  {
    if 2 <= |t| < 4 {
      GroupCanonical(t);
    } else if |t| >= 4 {
      GroupCanonical(t[..4]);
      Canonical(t[4..]);
      var head, rest := DecodeGroup(t[..4]).value, Decode(t[4..]).value;
      assert (head + rest)[3..] == rest && head[3..] == [];
      assert Encode(head + rest)[..4] == Encode(head);
    }
  }
}
