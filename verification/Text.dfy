/** The string operations that cookie parsing and credential validation use. */
module Text {
  import opened Wrappers
  import opened Utf8

  const I64_MAX: int := 0x7FFF_FFFF_FFFF_FFFF
  const I64_MIN: int := -0x8000_0000_0000_0000

  /** Text before and after the first `sep`, if there is one. */
  function SplitOnce(s: string, sep: char): (r: Option<(string, string)>)
    ensures r.Some? <==> sep in s
    ensures r.Some? ==> s == r.value.0 + [sep] + r.value.1 && sep !in r.value.0
  {
    if s == [] then None
    else if s[0] == sep then Some(([], s[1..]))
    else
      var rest := SplitOnce(s[1..], sep);
      if rest.None? then None else Some(([s[0]] + rest.value.0, rest.value.1))
  }

  /** All pieces between occurrences of `sep`; there is always at least one. */
  function Split(s: string, sep: char): (pieces: seq<string>)
    ensures |pieces| >= 1
    ensures forall p :: p in pieces ==> sep !in p
  {
    if s == [] then [[]]
    else
      var rest := Split(s[1..], sep);
      if s[0] == sep then [[]] + rest else [[s[0]] + rest[0]] + rest[1..]
  }

  function Join(pieces: seq<string>, sep: string): (s: string) {
    if pieces == [] then []
    else if |pieces| == 1 then pieces[0]
    else pieces[0] + sep + Join(pieces[1..], sep)
  }

  /** Splitting loses nothing: joining the pieces again gives the text. */
  lemma {:induction false} SplitJoin(s: string, sep: char)
    ensures Join(Split(s, sep), [sep]) == s
  {
    if s != [] {
      var rest := Split(s[1..], sep);
      SplitJoin(s[1..], sep);
      if s[0] == sep {
        assert ([[]] + rest)[1..] == rest;
      } else {
        var pieces := [[s[0]] + rest[0]] + rest[1..];
        assert pieces[1..] == rest[1..];
      }
    }
  }

  lemma {:induction false} SplitConcat(piece: string, rest: string, sep: char)
    requires sep !in piece
    ensures Split(piece + [sep] + rest, sep) == [piece] + Split(rest, sep)
    ensures Split(piece, sep) == [piece]
  {
    if piece == [] {
      assert ([] + [sep] + rest)[1..] == rest;
    } else {
      SplitConcat(piece[1..], rest, sep);
      var s := piece + [sep] + rest;
      assert s[0] == piece[0] && s[1..] == piece[1..] + [sep] + rest;
      assert [piece[0]] + piece[1..] == piece;
      assert ([piece[1..]] + Split(rest, sep))[1..] == Split(rest, sep);
      assert [piece[1..]][1..] == [];
    }
  }

  /** And joining pieces that do not hold the separator is undone by splitting. */
  lemma {:induction false} JoinSplit(pieces: seq<string>, sep: char)
    requires pieces != [] && forall p :: p in pieces ==> sep !in p
    ensures Split(Join(pieces, [sep]), sep) == pieces
  {
    var rest := pieces[1..];
    assert pieces[0] in pieces && pieces == [pieces[0]] + rest;
    if rest == [] {
      SplitConcat(pieces[0], [], sep);
    } else {
      assert forall p :: p in rest ==> p in pieces;
      JoinSplit(rest, sep);
      SplitConcat(pieces[0], Join(rest, [sep]), sep);
    }
  }

  // ---------------------------------------------------------------- a separator of two characters

  predicate HoldsPair(s: string, a: char, b: char) { exists i :: 0 <= i < |s| - 1 && s[i] == a && s[i + 1] == b }

  /** All pieces between occurrences of `a` followed by `b`. */
  function SplitPair(s: string, a: char, b: char): (pieces: seq<string>)
    ensures |pieces| >= 1
  {
    if |s| < 2 then [s]
    else if s[0] == a && s[1] == b then [[]] + SplitPair(s[2..], a, b)
    else
      var rest := SplitPair(s[1..], a, b);
      [[s[0]] + rest[0]] + rest[1..]
  }

  lemma TailHolds(s: string, a: char, b: char)
    requires s != [] && HoldsPair(s[1..], a, b)
    ensures HoldsPair(s, a, b)
  {
    var i :| 0 <= i < |s[1..]| - 1 && s[1..][i] == a && s[1..][i + 1] == b;
    assert s[i + 1] == a && s[i + 1 + 1] == b;
  }

  lemma {:induction false} SplitPairConcat(piece: string, rest: string, a: char, b: char)
    requires a != b && !HoldsPair(piece, a, b)
    ensures SplitPair(piece + [a, b] + rest, a, b) == [piece] + SplitPair(rest, a, b)
    ensures SplitPair(piece, a, b) == [piece]
  {
    var s := piece + [a, b] + rest;
    if piece == [] {
      assert s[2..] == rest;
    } else {
      var next := piece[1..];
      if HoldsPair(next, a, b) {
        TailHolds(piece, a, b);
      }
      SplitPairConcat(next, rest, a, b);
      assert s[1..] == next + [a, b] + rest;
      assert !(s[0] == a && s[1] == b) by {
        if |piece| >= 2 {
          assert s[0] == piece[0] && s[0 + 1] == piece[0 + 1];
        }
      }
      assert [piece[0]] + next == piece;
      assert ([next] + SplitPair(rest, a, b))[1..] == SplitPair(rest, a, b);
      assert [next][1..] == [];
    }
  }

  /** Joining pieces that do not hold the separator is undone by splitting. */
  lemma {:induction false} JoinSplitPair(pieces: seq<string>, a: char, b: char)
    requires a != b && pieces != [] && forall p :: p in pieces ==> !HoldsPair(p, a, b)
    ensures SplitPair(Join(pieces, [a, b]), a, b) == pieces
  {
    var rest := pieces[1..];
    assert pieces[0] in pieces && pieces == [pieces[0]] + rest;
    if rest == [] {
      SplitPairConcat(pieces[0], [], a, b);
    } else {
      assert forall p :: p in rest ==> p in pieces;
      JoinSplitPair(rest, a, b);
      SplitPairConcat(pieces[0], Join(rest, [a, b]), a, b);
    }
  }

  lemma {:induction false} SplitOnceAt(before: string, sep: char, after: string)
    requires sep !in before
    ensures SplitOnce(before + [sep] + after, sep) == Some((before, after))
  {
    var s := before + [sep] + after;
    if before == [] {
      assert s[1..] == after;
    } else {
      SplitOnceAt(before[1..], sep, after);
      assert s[0] == before[0] && s[1..] == before[1..] + [sep] + after;
      assert [before[0]] + before[1..] == before;
    }
  }

  /** The Unicode White_Space property. */
  predicate IsWhitespace(c: char) {
    var n := c as int;
    || 0x9 <= n <= 0xD || n == 0x20 || n == 0x85 || n == 0xA0 || n == 0x1680 || 0x2000 <= n <= 0x200A
    || n == 0x2028 || n == 0x2029 || n == 0x202F || n == 0x205F || n == 0x3000
  }

  /** The twenty-five characters with that property. */
  lemma WhitespaceIs(c: char)
    ensures IsWhitespace(c) <==> c as int in {
      0x09, 0x0A, 0x0B, 0x0C, 0x0D, 0x20, 0x85, 0xA0, 0x1680, 0x2000, 0x2001, 0x2002, 0x2003, 0x2004, 0x2005, 0x2006, 0x2007,
      0x2008, 0x2009, 0x200A, 0x2028, 0x2029, 0x202F, 0x205F, 0x3000}
  {
  }

  function TrimStart(s: string): (r: string) {
    if s != [] && IsWhitespace(s[0]) then TrimStart(s[1..]) else s
  }

  function TrimEnd(s: string): (r: string) {
    if s != [] && IsWhitespace(s[|s| - 1]) then TrimEnd(s[..|s| - 1]) else s
  }

  function Trim(s: string): string { TrimEnd(TrimStart(s)) }

  predicate AllWhitespace(s: string) { forall i :: 0 <= i < |s| ==> IsWhitespace(s[i]) }

  /** Neither end is white space. */
  predicate Tight(s: string) { s == [] || (!IsWhitespace(s[0]) && !IsWhitespace(s[|s| - 1])) }

  lemma {:induction false} TrimStartOf(left: string, s: string)
    requires AllWhitespace(left) && (s == [] || !IsWhitespace(s[0]))
    ensures TrimStart(left + s) == s
  {
    if left == [] {
      assert left + s == s;
    } else {
      assert (left + s)[1..] == left[1..] + s;
      TrimStartOf(left[1..], s);
    }
  }

  lemma {:induction false} TrimEndOf(s: string, right: string)
    requires AllWhitespace(right) && (s == [] || !IsWhitespace(s[|s| - 1]))
    ensures TrimEnd(s + right) == s
  {
    if right == [] {
      assert s + right == s;
    } else {
      var front := right[..|right| - 1];
      assert (s + right)[..|s + right| - 1] == s + front;
      TrimEndOf(s, front);
    }
  }

  /** Trimming removes the white space at both ends and nothing else. */
  lemma TrimOf(left: string, s: string, right: string)
    requires AllWhitespace(left) && Tight(s) && AllWhitespace(right)
    ensures Trim(left + s + right) == s
  {
    if s == [] {
      assert left + s + right == (left + right) + [];
      TrimStartOf(left + right, []);
    } else {
      assert left + s + right == left + (s + right);
      TrimStartOf(left, s + right);
      TrimEndOf(s, right);
    }
  }

  lemma {:induction false} LeadingSpace(s: string) returns (left: string, rest: string)
    ensures s == left + rest && AllWhitespace(left) && (rest == [] || !IsWhitespace(rest[0]))
  {
    if s == [] || !IsWhitespace(s[0]) {
      left, rest := [], s;
    } else {
      left, rest := LeadingSpace(s[1..]);
      left := [s[0]] + left;
    }
  }

  lemma {:induction false} TrailingSpace(s: string) returns (rest: string, right: string)
    ensures s == rest + right && AllWhitespace(right) && (rest == [] || !IsWhitespace(rest[|rest| - 1]))
  {
    if s == [] || !IsWhitespace(s[|s| - 1]) {
      rest, right := s, [];
    } else {
      rest, right := TrailingSpace(s[..|s| - 1]);
      right := right + [s[|s| - 1]];
    }
  }

  /** So every text is what trimming leaves, with white space before and after it. */
  lemma TrimMeans(s: string) returns (left: string, right: string)
    ensures s == left + Trim(s) + right && AllWhitespace(left) && Tight(Trim(s)) && AllWhitespace(right)
  {
    var rest;
    left, rest := LeadingSpace(s);
    var middle;
    middle, right := TrailingSpace(rest);
    assert s == left + middle + right;
    assert middle != [] ==> middle[0] == rest[0];
    TrimOf(left, middle, right);
  }

  lemma TrimmedAway(s: string)
    ensures Trim(s) == [] <==> AllWhitespace(s)
  {
    var left, right := TrimMeans(s);
    if AllWhitespace(s) {
      assert s == s + [] + [];
      TrimOf(s, [], []);
    }
  }

  function AsciiLower(c: char): char {
    if 'A' <= c <= 'Z' then (c as int + 32) as char else c
  }

  predicate EqIgnoreAsciiCase(a: string, b: string) {
    |a| == |b| && forall i :: 0 <= i < |a| ==> AsciiLower(a[i]) == AsciiLower(b[i])
  }

  /** The text spells a lower-case word in letters of either case; `upper` is the word in capitals. */
  predicate Spells(s: string, lower: string, upper: string)
    requires |lower| == |upper|
  {
    |s| == |lower| && forall i :: 0 <= i < |s| ==> s[i] == lower[i] || s[i] == upper[i]
  }

  lemma AttributeNames(s: string)
    ensures EqIgnoreAsciiCase(s, "max-age") <==> Spells(s, "max-age", "MAX-AGE")
    ensures EqIgnoreAsciiCase(s, "expires") <==> Spells(s, "expires", "EXPIRES")
  {
    SpellsMeans(s, "max-age", "MAX-AGE");
    SpellsMeans(s, "expires", "EXPIRES");
  }

  lemma SpellsMeans(s: string, lower: string, upper: string)
    requires |lower| == |upper|
    requires forall i :: 0 <= i < |lower| ==>
      || ('a' <= lower[i] <= 'z' && upper[i] as int == lower[i] as int - 32)
      || (lower[i] == upper[i] && !('a' <= lower[i] <= 'z') && !('A' <= lower[i] <= 'Z'))
    ensures EqIgnoreAsciiCase(s, lower) <==> Spells(s, lower, upper)
  {
    if |s| == |lower| {
      forall i | 0 <= i < |s| ensures AsciiLower(s[i]) == AsciiLower(lower[i]) <==> s[i] == lower[i] || s[i] == upper[i] {
      }
    }
  }

  predicate IsDigit(c: char) { '0' <= c <= '9' }

  predicate AllDigits(s: string) { forall i :: 0 <= i < |s| ==> IsDigit(s[i]) }

  function Digits(s: string): (n: int)
    requires AllDigits(s)
    ensures 0 <= n
  {
    if s == [] then 0 else Digits(s[..|s| - 1]) * 10 + (s[|s| - 1] as int - '0' as int)
  }

  /** An optional sign and at least one digit, within the range of a signed 64-bit integer. */
  function ParseI64(s: string): (r: Option<int>)
    ensures r.Some? ==> I64_MIN <= r.value <= I64_MAX
  {
    var signed := s != [] && (s[0] == '-' || s[0] == '+');
    var digits := if signed then s[1..] else s;
    if digits == [] || !AllDigits(digits) then None
    else
      var n := if signed && s[0] == '-' then -Digits(digits) else Digits(digits);
      if I64_MIN <= n <= I64_MAX then Some(n) else None
  }

  // ---------------------------------------------------------------- which texts are which numbers

  function Decimal(n: nat): (s: string)
    ensures s != [] && AllDigits(s)
  {
    var digit := ('0' as int + n % 10) as char;
    if n < 10 then [digit] else Decimal(n / 10) + [digit]
  }

  function Zeros(z: nat): (s: string)
    ensures |s| == z && AllDigits(s)
  {
    if z == 0 then [] else Zeros(z - 1) + ['0']
  }

  lemma {:induction false} DigitsOfZeros(z: nat)
    ensures Digits(Zeros(z)) == 0
  {
    if z > 0 {
      assert Zeros(z)[..z - 1] == Zeros(z - 1);
      DigitsOfZeros(z - 1);
    }
  }

  lemma {:induction false} DigitsOfDecimal(z: nat, n: nat)
    ensures AllDigits(Zeros(z) + Decimal(n)) && Digits(Zeros(z) + Decimal(n)) == n
  {
    var digit := ('0' as int + n % 10) as char;
    if n >= 10 {
      DigitsOfDecimal(z, n / 10);
      DigitsSnoc(Zeros(z) + Decimal(n / 10), digit);
      assert Zeros(z) + Decimal(n) == Zeros(z) + Decimal(n / 10) + [digit];
    } else {
      DigitsOfZeros(z);
      DigitsSnoc(Zeros(z), digit);
    }
  }

  lemma DigitsSnoc(front: string, digit: char)
    requires AllDigits(front) && IsDigit(digit)
    ensures AllDigits(front + [digit]) && Digits(front + [digit]) == Digits(front) * 10 + (digit as int - '0' as int)
  {
    assert (front + [digit])[..|front|] == front;
  }

  /** Every run of digits is some zeros and the decimal form of its value. */
  lemma {:induction false} DigitsAreDecimal(s: string) returns (z: nat)
    requires s != [] && AllDigits(s)
    ensures s == Zeros(z) + Decimal(Digits(s))
  {
    var front, last := s[..|s| - 1], s[|s| - 1];
    var d := last as int - '0' as int;
    assert s == front + [last];
    if front == [] {
      z := 0;
      assert Decimal(d) == [last];
    } else {
      z := DigitsAreDecimal(front);
      var m := Digits(front);
      if m == 0 {
        ZeroSnoc(z, last);
        z := z + 1;
      } else {
        DecimalSnoc(m, d);
      }
    }
  }

  lemma ZeroSnoc(z: nat, digit: char)
    requires IsDigit(digit)
    ensures Zeros(z) + Decimal(0) + [digit] == Zeros(z + 1) + Decimal(digit as int - '0' as int)
  {
    assert Decimal(0) == "0" && Decimal(digit as int - '0' as int) == [digit];
  }

  lemma DecimalSnoc(m: nat, d: nat)
    requires m > 0 && d < 10
    ensures Decimal(m * 10 + d) == Decimal(m) + [('0' as int + d) as char]
  {
    assert (m * 10 + d) / 10 == m && (m * 10 + d) % 10 == d;
  }

  predicate IsSign(sign: string) { sign == "" || sign == "+" || sign == "-" }

  function Signed(sign: string, n: nat): int { if sign == "-" then -(n as int) else n }

  lemma ParseDigits(sign: string, digits: string)
    requires IsSign(sign) && digits != [] && AllDigits(digits)
    ensures var n := Signed(sign, Digits(digits));
      ParseI64(sign + digits) == if I64_MIN <= n <= I64_MAX then Some(n) else None
  {
    var s := sign + digits;
    if sign == "" {
      assert s == digits && IsDigit(s[0]);
    } else {
      assert s[0] == sign[0] && s[1..] == digits;
    }
  }

  /** A sign, zeros and a decimal number parse to that number exactly if it is in range. */
  lemma NumeralsParse(sign: string, z: nat, n: nat)
    requires IsSign(sign)
    ensures ParseI64(sign + (Zeros(z) + Decimal(n))) ==
      if I64_MIN <= Signed(sign, n) <= I64_MAX then Some(Signed(sign, n)) else None
  {
    DigitsOfDecimal(z, n);
    ParseDigits(sign, Zeros(z) + Decimal(n));
  }

  /** And nothing else parses. */
  lemma OnlyNumeralsParse(s: string) returns (sign: string, z: nat, n: nat)
    requires ParseI64(s).Some?
    ensures IsSign(sign) && s == sign + (Zeros(z) + Decimal(n)) && ParseI64(s).value == Signed(sign, n)
  {
    var signed := s[0] == '-' || s[0] == '+';
    sign := if signed then s[..1] else "";
    var digits := if signed then s[1..] else s;
    z := DigitsAreDecimal(digits);
    n := Digits(digits);
    assert s == sign + digits;
  }
}
