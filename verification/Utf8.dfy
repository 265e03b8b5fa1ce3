/** Byte strings and the rune decoding that Go's string functions apply to them:
    section 4 of RFC 3629, with U+FFFD of width 1 for every malformed or truncated
    sequence. Trimming works on runes from both ends, as Go's `strings.TrimSpace`. */
module Utf8 {
  import opened ByteStrings

  datatype Decoded = Decoded(rune: nat, width: nat)

  const RUNE_ERROR: nat := 0xFFFD

  predicate IsContinuation(b: Byte) {
    0x80 <= b <= 0xBF
  }

  /** The range the second byte of a sequence must lie in, by its lead byte. */
  function SecondLow(lead: Byte): Byte {
    if lead == 0xE0 then 0xA0 else if lead == 0xF0 then 0x90 else 0x80
  }

  function SecondHigh(lead: Byte): Byte {
    if lead == 0xED then 0x9F else if lead == 0xF4 then 0x8F else 0xBF
  }

  /** The six payload bits of a continuation byte. */
  function Low(b: Byte): int {
    b - 0x80
  }

  predicate TailAt(s: Bytes, i: nat, n: nat)
    requires i < |s|
  {
    && 1 <= n && i + n < |s|
    && SecondLow(s[i]) <= s[i + 1] <= SecondHigh(s[i])
    && (n >= 2 ==> IsContinuation(s[i + 2]))
    && (n >= 3 ==> IsContinuation(s[i + 3]))
  }

  /** Decodes the rune that starts at `i`. */
  function DecodeRune(s: Bytes, i: nat): (d: Decoded)
    requires i < |s|
    ensures 1 <= d.width && i + d.width <= |s|
    ensures forall k :: i < k < i + d.width ==> IsContinuation(s[k])
  {
    var b: int := s[i];
    if b < 0x80 then
      Decoded(b, 1)
    else if 0xC2 <= b <= 0xDF && TailAt(s, i, 1) then
      Decoded((b - 0xC0) * 0x40 + Low(s[i + 1]), 2)
    else if 0xE0 <= b <= 0xEF && TailAt(s, i, 2) then
      Decoded((b - 0xE0) * 0x1000 + Low(s[i + 1]) * 0x40 + Low(s[i + 2]), 3)
    else if 0xF0 <= b <= 0xF4 && TailAt(s, i, 3) then
      Decoded((b - 0xF0) * 0x40000 + Low(s[i + 1]) * 0x1000 + Low(s[i + 2]) * 0x40 + Low(s[i + 3]), 4)
    else
      Decoded(RUNE_ERROR, 1)
  }

  predicate IsScalar(r: nat) {
    r <= 0x10FFFF && !(0xD800 <= r <= 0xDFFF)
  }

  /** The encoding table of section 3 of RFC 3629, the reference for `DecodeRune`. */
  function EncodeRune(r: nat): (s: Bytes)
    requires IsScalar(r)
  {
    if r < 0x80 then [r]
    else if r < 0x800 then [0xC0 + r / 0x40, 0x80 + r % 0x40]
    else if r < 0x10000 then [0xE0 + r / 0x1000, 0x80 + r / 0x40 % 0x40, 0x80 + r % 0x40]
    else [0xF0 + r / 0x40000, 0x80 + r / 0x1000 % 0x40, 0x80 + r / 0x40 % 0x40, 0x80 + r % 0x40]
  }

  /** Decoding undoes encoding whatever follows. */
  lemma DecodeEncoded(r: nat, s: Bytes, i: nat)
    requires IsScalar(r) && i + |EncodeRune(r)| <= |s|
    requires s[i..i + |EncodeRune(r)|] == EncodeRune(r)
    ensures DecodeRune(s, i) == Decoded(r, |EncodeRune(r)|)
  {
    var e := EncodeRune(r);
    assert s[i] == e[0];
    assert |e| > 1 ==> s[i + 1] == e[1];
    assert |e| > 2 ==> s[i + 2] == e[2];
    assert |e| > 3 ==> s[i + 3] == e[3];
    assert r / 0x40 == r / 0x1000 * 0x40 + r / 0x40 % 0x40;
    assert r / 0x1000 == r / 0x40000 * 0x40 + r / 0x1000 % 0x40;
  }

  /** Everything that is not reported as malformed is the encoding of its rune. */
  lemma EncodeDecoded(s: Bytes, i: nat)
    requires i < |s|
    ensures var d := DecodeRune(s, i);
            d == Decoded(RUNE_ERROR, 1) || (IsScalar(d.rune) && EncodeRune(d.rune) == s[i..i + d.width])
  {
    var d := DecodeRune(s, i);
    if d.width == 2 {
      Digits(s[i] as int - 0xC0, Low(s[i + 1]));
    } else if d.width == 3 {
      EncodeDecoded3(s[i] as int - 0xE0, Low(s[i + 1]), Low(s[i + 2]));
    } else if d.width == 4 {
      EncodeDecoded4(s[i] as int - 0xF0, Low(s[i + 1]), Low(s[i + 2]), Low(s[i + 3]));
    }
  }

  lemma EncodeDecoded3(a: int, b: int, c: int)
    requires 0 <= b < 0x40 && 0 <= c < 0x40
    ensures var r := a * 0x1000 + b * 0x40 + c;
            r / 0x1000 == a && r / 0x40 % 0x40 == b && r % 0x40 == c
  {
    Digits(a * 0x40 + b, c);
    Digits(a, b);
  }

  lemma EncodeDecoded4(a: int, b: int, c: int, d: int)
    requires 0 <= b < 0x40 && 0 <= c < 0x40 && 0 <= d < 0x40
    ensures var r := a * 0x40000 + b * 0x1000 + c * 0x40 + d;
            r / 0x40000 == a && r / 0x1000 % 0x40 == b && r / 0x40 % 0x40 == c && r % 0x40 == d
  {
    EncodeDecoded3(a * 0x40 + b, c, d);
    Digits(a, b);
  }

  lemma Digits(high: int, low: int)
    requires 0 <= low < 0x40
    ensures (high * 0x40 + low) / 0x40 == high && (high * 0x40 + low) % 0x40 == low
  {
  }

  /** Where the last rune may start: the nearest non-continuation byte no more
      than four bytes before the end, else the position just before that window. */
  function LastRuneStart(s: Bytes, start: nat, limit: nat): (r: nat)
    requires limit <= start + 1 && start < |s|
    ensures r <= start
  {
    if start < limit then start
    else if !IsContinuation(s[start]) then start
    else if start == 0 then 0
    else LastRuneStart(s, start - 1, limit)
  }

  /** Decodes the rune that ends the non-empty string `s`. */
  function DecodeLastRune(s: Bytes): (d: Decoded)
    requires |s| > 0
    ensures 1 <= d.width <= |s|
  {
    var last := |s| - 1;
    if s[last] < 0x80 || last == 0 then
      if s[last] < 0x80 then Decoded(s[last], 1) else Decoded(RUNE_ERROR, 1)
    else
      var start := LastRuneStart(s, last - 1, if |s| < 4 then 0 else |s| - 4);
      var d := DecodeRune(s, start);
      if start + d.width != |s| then Decoded(RUNE_ERROR, 1) else d
  }

  predicate IsSpace(rune: nat) {
    || 0x09 <= rune <= 0x0D || rune == 0x20 || rune == 0x85 || rune == 0xA0
    || rune == 0x1680 || 0x2000 <= rune <= 0x200A || rune == 0x2028 || rune == 0x2029
    || rune == 0x202F || rune == 0x205F || rune == 0x3000
  }

  /** The 25 code points with the Unicode property White_Space. */
  const WHITE_SPACE: seq<nat> := [
    0x0009, 0x000A, 0x000B, 0x000C, 0x000D, 0x0020, 0x0085, 0x00A0, 0x1680,
    0x2000, 0x2001, 0x2002, 0x2003, 0x2004, 0x2005, 0x2006, 0x2007, 0x2008, 0x2009, 0x200A,
    0x2028, 0x2029, 0x202F, 0x205F, 0x3000]

  lemma SpacesAreWhiteSpace(rune: nat)
    ensures IsSpace(rune) <==> rune in WHITE_SPACE
  {
    if 0x09 <= rune <= 0x0D {
      assert WHITE_SPACE[rune - 0x09] == rune;
    } else if 0x2000 <= rune <= 0x200A {
      assert WHITE_SPACE[9 + (rune - 0x2000)] == rune;
    } else if IsSpace(rune) {
      assert rune in [WHITE_SPACE[5], WHITE_SPACE[6], WHITE_SPACE[7], WHITE_SPACE[8], WHITE_SPACE[20],
                      WHITE_SPACE[21], WHITE_SPACE[22], WHITE_SPACE[23], WHITE_SPACE[24]];
    }
  }

  function TrimLeft(s: Bytes): (r: Bytes)
    ensures |r| <= |s| && r == s[|s| - |r|..]
  {
    if s == [] then []
    else
      var d := DecodeRune(s, 0);
      if IsSpace(d.rune) then TrimLeft(s[d.width..]) else s
  }

  function TrimRight(s: Bytes): (r: Bytes)
    ensures r <= s
  {
    if s == [] then []
    else
      var d := DecodeLastRune(s);
      if IsSpace(d.rune) then TrimRight(s[..|s| - d.width]) else s
  }

  function TrimSpace(s: Bytes): (r: Bytes)
    ensures |r| <= |s|
  {
    TrimRight(TrimLeft(s))
  }

  lemma SpaceFirst(s: Bytes)
    ensures DecodeRune([0x20] + s, 0) == Decoded(0x20, 1) && ([0x20] + s)[1..] == s
  {
  }

  /** Trimming removes nothing but a space put in front of a trimmed string. */
  lemma TrimLeadingSpace(s: Bytes)
    requires TrimSpace(s) == s
    ensures TrimSpace([0x20] + s) == s
  {
    hide DecodeRune, DecodeLastRune, TrimRight;
    SpaceFirst(s);
    assert |TrimLeft(s)| == |s|;
  }

  /** A trimmed string neither starts nor ends with a white-space rune, so trimming it again
      changes nothing. */
  lemma TrimmedEnds(s: Bytes)
    ensures var r := TrimSpace(s);
            && (r != [] ==> !IsSpace(DecodeRune(r, 0).rune) && !IsSpace(DecodeLastRune(r).rune))
            && TrimSpace(r) == r
  {
    hide DecodeRune, DecodeLastRune, IsSpace;
    TrimLeftStops(s);
    TrimRightStops(TrimLeft(s));
    var left, r := TrimLeft(s), TrimSpace(s);
    if r != [] {
      CutDecode(left, |r|);
      assert left[..|r|] == r;
      ErrorIsNoSpace();
    }
  }

  lemma ErrorIsNoSpace()
    ensures !IsSpace(RUNE_ERROR)
  {
  }

  /** Cutting a string off leaves its first rune alone or makes it malformed. */
  lemma CutDecode(s: Bytes, n: nat)
    requires 0 < n <= |s|
    ensures DecodeRune(s[..n], 0) == DecodeRune(s, 0) || DecodeRune(s[..n], 0) == Decoded(RUNE_ERROR, 1)
  {
  }

  /** The runes of the string are white space throughout. */
  ghost predicate AllSpace(s: Bytes)
    decreases |s|
  {
    s == [] || (IsSpace(DecodeRune(s, 0).rune) && AllSpace(s[DecodeRune(s, 0).width..]))
  }

  /** Nothing but white space is removed, and only at the ends. */
  lemma TrimRemovesOnlySpace(s: Bytes) returns (before: Bytes, after: Bytes)
    ensures s == before + TrimSpace(s) + after
    ensures AllSpace(before) && AllSpace(after)
  {
    before := LeftIsSpace(s);
    after := RightIsSpace(TrimLeft(s));
  }

  lemma {:induction false} LeftIsSpace(s: Bytes) returns (before: Bytes)
    ensures s == before + TrimLeft(s) && AllSpace(before)
    decreases |s|
  {
    hide DecodeRune, IsSpace, AllSpace;
    SpaceNil();
    before := [];
    if s != [] {
      var d := DecodeRune(s, 0);
      if IsSpace(d.rune) {
        var first, more := s[..d.width], s[d.width..];
        var rest := LeftIsSpace(more);
        before := first + rest;
        OneSpace(s, d.width);
        SpaceJoins(first, rest);
        assert TrimLeft(s) == TrimLeft(more) && s == first + more;
        assert first + (rest + TrimLeft(more)) == (first + rest) + TrimLeft(more);
      }
    }
  }

  lemma {:induction false} RightIsSpace(s: Bytes) returns (after: Bytes)
    ensures s == TrimRight(s) + after && AllSpace(after)
    decreases |s|
  {
    hide DecodeRune, DecodeLastRune, IsSpace;
    after := [];
    if s != [] {
      var d := DecodeLastRune(s);
      if IsSpace(d.rune) {
        var cut := |s| - d.width;
        var rest := RightIsSpace(s[..cut]);
        after := rest + s[cut..];
        LastIsRune(s);
        assert s[cut..][..d.width] == s[cut..];
        OneSpace(s[cut..], d.width);
        SpaceJoins(rest, s[cut..]);
      }
    }
  }

  lemma SpaceNil()
    ensures AllSpace([])
  {
  }

  /** A white-space rune at the front stays one when the rest is cut off. */
  lemma OneSpace(s: Bytes, n: nat)
    requires s != [] && IsSpace(DecodeRune(s, 0).rune) && n == DecodeRune(s, 0).width
    ensures AllSpace(s[..n])
  {
    assert DecodeRune(s[..n], 0) == DecodeRune(s, 0);
    assert s[..n][n..] == [];
  }

  /** A last rune other than the error is the rune that starts there. */
  lemma LastIsRune(s: Bytes)
    requires s != []
    ensures var d := DecodeLastRune(s);
            IsSpace(d.rune) ==> DecodeRune(s[|s| - d.width..], 0) == d
  {
  }

  lemma {:induction false} SpaceJoins(a: Bytes, b: Bytes)
    requires AllSpace(a) && AllSpace(b)
    ensures AllSpace(a + b)
    decreases |a|
  {
    hide IsSpace;
    if a == [] {
      assert a + b == b;
    } else {
      var n := DecodeRune(a, 0).width;
      ErrorIsNoSpace();
      CutDecode(a + b, |a|);
      assert (a + b)[..|a|] == a;
      assert (a + b)[n..] == a[n..] + b;
      SpaceJoins(a[n..], b);
    }
  }

  /** Decoding from the end also undoes encoding, whatever stands in front. */
  lemma DecodeLastEncoded(a: Bytes, r: nat)
    requires IsScalar(r)
    ensures DecodeLastRune(a + EncodeRune(r)) == Decoded(r, |EncodeRune(r)|)
  {
    hide DecodeRune;
    var s, e := a + EncodeRune(r), EncodeRune(r);
    assert forall k :: 0 <= k < |e| ==> s[|a| + k] == e[k];
    assert s[|a|..|a| + |e|] == e;
    DecodeEncoded(r, s, |a|);
    if |e| > 1 {
      var limit := if |s| < 4 then 0 else |s| - 4;
      LeadFound(s, |s| - 2, limit, |a|);
    }
  }

  /** Looking back over continuation bytes stops at the lead byte. */
  lemma {:induction false} LeadFound(s: Bytes, start: nat, limit: nat, lead: nat)
    requires limit <= lead <= start < |s|
    requires !IsContinuation(s[lead]) && forall k :: lead < k <= start ==> IsContinuation(s[k])
    ensures LastRuneStart(s, start, limit) == lead
    decreases start
  {
    if lead < start {
      LeadFound(s, start - 1, limit, lead);
    }
  }

  lemma {:induction false} TrimLeftStops(s: Bytes)
    ensures TrimLeft(s) != [] ==> !IsSpace(DecodeRune(TrimLeft(s), 0).rune)
    decreases |s|
  {
    if s != [] {
      var d := DecodeRune(s, 0);
      if IsSpace(d.rune) {
        TrimLeftStops(s[d.width..]);
      }
    }
  }

  lemma {:induction false} TrimRightStops(s: Bytes)
    ensures TrimRight(s) != [] ==> !IsSpace(DecodeLastRune(TrimRight(s)).rune)
    decreases |s|
  {
    if s != [] {
      var d := DecodeLastRune(s);
      if IsSpace(d.rune) {
        TrimRightStops(s[..|s| - d.width]);
      }
    }
  }
}
