/** internal/bot/parser.go: streaming bytes become sentences and a trailing action.

    `Scan` follows the rescanning loop of the code. The reference is context free:
    a cut is a position whose preceding bytes spell a delimiter (`EndsDelimiter`),
    and `Sentences` are the trimmed, non-empty pieces between cuts. */
module SentenceParsing {
  import opened ByteStrings
  import opened Utf8

  datatype Action = Chat | EndCall

  const PIPE: Byte := 0x7C
  const SPACE: Byte := 0x20
  const ELLIPSIS: Bytes := [0xE2, 0x80, 0xA6]

  predicate IsSentenceDelim(rune: nat) {
    rune == 0x2E || rune == 0x3F || rune == 0x21 || rune == 0x0A || rune == 0x2026
  }

  // ---------------------------------------------------------------- reference

  /** The first `j` bytes end with the bytes of a sentence delimiter. */
  predicate EndsDelimiter(s: Bytes, j: nat)
    requires j <= |s|
  {
    && j >= 1
    && (s[j - 1] == 0x2E || s[j - 1] == 0x3F || s[j - 1] == 0x21 || s[j - 1] == 0x0A
        || (j >= 3 && EllipsisAt(s, j - 3)))
  }

  predicate EllipsisAt(s: Bytes, i: nat) {
    i + 3 <= |s| && s[i] == 0xE2 && s[i + 1] == 0x80 && s[i + 2] == 0xA6
  }

  /** The last cut among the first `n` bytes, 0 when there is none. */
  function LastCut(s: Bytes, n: nat): (c: nat)
    requires n <= |s|
    ensures c <= n
    ensures c > 0 ==> EndsDelimiter(s, c)
    ensures forall j :: c < j <= n ==> !EndsDelimiter(s, j)
  {
    if n == 0 then 0 else if EndsDelimiter(s, n) then n else LastCut(s, n - 1)
  }

  function Emit(segment: Bytes): seq<Bytes> {
    var t := TrimSpace(segment);
    if t == [] then [] else [t]
  }

  /** The untrimmed pieces between consecutive cuts of the first `n` bytes. */
  function RawSegments(s: Bytes, n: nat): seq<Bytes>
    requires n <= |s|
  {
    if n == 0 then []
    else if EndsDelimiter(s, n) then RawSegments(s, n - 1) + [s[LastCut(s, n - 1)..n]]
    else RawSegments(s, n - 1)
  }

  function EmitAll(segments: seq<Bytes>): seq<Bytes> {
    if segments == [] then []
    else EmitAll(segments[..|segments| - 1]) + Emit(segments[|segments| - 1])
  }

  function Sentences(s: Bytes, n: nat): seq<Bytes>
    requires n <= |s|
  {
    EmitAll(RawSegments(s, n))
  }

  /** Sentences end at a full stop, a question or exclamation mark, a line feed or an ellipsis. */
  lemma DelimiterRunes(c: char)
    ensures IsSentenceDelim(c as nat) <==> c in ".?!\n\U{2026}"
  {
  }

  /** The first `j` bytes end with the encoding of the rune. */
  ghost predicate EndsWithRune(s: Bytes, j: nat, r: nat)
    requires j <= |s|
  {
    IsScalar(r) && |EncodeRune(r)| <= j && s[j - |EncodeRune(r)|..j] == EncodeRune(r)
  }

  /** A cut is where the encoding of a delimiter ends. */
  lemma CutsEndDelimiters(s: Bytes, j: nat)
    requires j <= |s|
    ensures EndsDelimiter(s, j) <==> exists r :: IsSentenceDelim(r) && EndsWithRune(s, j, r)
  {
    hide IsSentenceDelim, EndsDelimiter, EndsWithRune;
    if EndsDelimiter(s, j) {
      var r := DelimiterAt(s, j);
    }
    forall r | IsSentenceDelim(r) && EndsWithRune(s, j, r)
      ensures EndsDelimiter(s, j)
    {
      EncodingEnds(s, j, r);
    }
  }

  lemma DelimiterAt(s: Bytes, j: nat) returns (r: nat)
    requires j <= |s| && EndsDelimiter(s, j)
    ensures IsSentenceDelim(r) && EndsWithRune(s, j, r)
  {
    if j >= 3 && EllipsisAt(s, j - 3) {
      r := 0x2026;
      assert s[j - 3..j] == ELLIPSIS == EncodeRune(r);
    } else {
      r := s[j - 1];
      assert s[j - 1..j] == [r as int] == EncodeRune(r);
    }
  }

  lemma EncodingEnds(s: Bytes, j: nat, r: nat)
    requires j <= |s| && IsSentenceDelim(r) && EndsWithRune(s, j, r)
    ensures EndsDelimiter(s, j)
  {
    if r == 0x2026 {
      var e := s[j - 3..j];
      assert e == ELLIPSIS;
      assert e[0] == s[j - 3] && e[1] == s[j - 2] && e[2] == s[j - 1];
    } else {
      assert s[j - 1] == s[j - 1..j][0];
    }
  }

  // ------------------------------------------------------------- the code's form

  datatype ParserState = ParserState(full: Bytes, flushedTo: nat)

  const FRESH := ParserState([], 0)

  ghost predicate Settled(st: ParserState) {
    st.flushedTo == LastCut(st.full, |st.full|)
  }

  datatype Scanned = Scanned(sentences: seq<Bytes>, flushedTo: nat)

  /** The scanning loop of `Feed`, from position `i` with the last flush at `flushed`. */
  function Scan(s: Bytes, flushed: nat, i: nat): Scanned
    requires flushed <= i <= |s|
    decreases |s| - i
  {
    if i == |s| then Scanned([], flushed)
    else
      var d := DecodeRune(s, i);
      var j := i + d.width;
      if IsSentenceDelim(d.rune) then
        var rest := Scan(s, j, j);
        rest.(sentences := Emit(s[flushed..j]) + rest.sentences)
      else
        Scan(s, flushed, j)
  }

  function Fed(st: ParserState, chunk: Bytes): (r: (ParserState, seq<Bytes>))
    requires st.flushedTo <= |st.full|
  {
    if chunk == [] then (st, [])
    else
      var s := st.full + chunk;
      var r := Scan(s, st.flushedTo, st.flushedTo);
      (ParserState(s, r.flushedTo), r.sentences)
  }

  /** Feeds the chunks one after another; what all calls returned, concatenated. */
  ghost function FedAll(chunks: seq<Bytes>): (r: (ParserState, seq<Bytes>))
    ensures Settled(r.0)
  {
    if chunks == [] then (FRESH, [])
    else
      var before := FedAll(chunks[..|chunks| - 1]);
      var last := Fed(before.0, chunks[|chunks| - 1]);
      FedMatches(before.0, chunks[|chunks| - 1]);
      (last.0, before.1 + last.1)
  }

  class SentenceParser {
    var full: Bytes
    var flushedTo: nat

    ghost predicate Valid()
      reads this
    {
      Settled(State())
    }

    function State(): ParserState
      reads this
    {
      ParserState(full, flushedTo)
    }

    constructor ()
      ensures Valid() && State() == FRESH
    {
      full, flushedTo := [], 0;
    }

    method Feed(chunk: Bytes) returns (out: seq<Bytes>)
      requires Valid()
      modifies this
      ensures Valid() && full == old(full) + chunk
      ensures (State(), out) == Fed(old(State()), chunk)
      ensures Sentences(full, |full|) == old(Sentences(full, |full|)) + out
    {
      hide Utf8.DecodeRune, Utf8.TrimSpace, RawSegments, EmitAll, EndsDelimiter, IsSentenceDelim;
      FedMatches(State(), chunk);
      out := [];
      if chunk == [] {
        return;
      }
      full := full + chunk;
      var i := flushedTo;
      ghost var goal := Scan(full, flushedTo, i);
      while i < |full|
        invariant flushedTo <= i <= |full| && full == old(full) + chunk
        invariant goal.flushedTo == Scan(full, flushedTo, i).flushedTo
        invariant goal.sentences == out + Scan(full, flushedTo, i).sentences
      {
        var d := DecodeRune(full, i);
        i := i + d.width;
        if IsSentenceDelim(d.rune) {
          var segment := TrimSpace(full[flushedTo..i]);
          if segment != [] {
            out := out + [segment];
          }
          flushedTo := i;
        }
      }
      assert Scan(full, flushedTo, i) == Scanned([], flushedTo);
      assert goal == Scanned(out, flushedTo);
    }

    method Finalize() returns (leftover: Bytes, action: Action)
      requires Valid()
      ensures (leftover, action) == Finalized(State())
    {
      hide Utf8.TrimSpace, HasUpperPrefix, EndsDelimiter;
      var contentEnd := |full|;
      action := Chat;
      var i := LastIndex(full, PIPE);
      if i >= 0 {
        contentEnd := i;
        var raw := TrimSpace(full[i + 1..]);
        if HasUpperPrefix(raw, END_CALL_TOKEN) {
          action := EndCall;
        } else if HasUpperPrefix(raw, CHAT_TOKEN) {
          action := Chat;
        } else {
          action := Chat;
        }
      }
      leftover := [];
      if flushedTo < contentEnd {
        var segment := TrimSpace(full[flushedTo..contentEnd]);
        if segment != [] {
          leftover := segment;
        }
      }
    }
  }

  // ------------------------------------------------- scanning meets the reference

  /** Position `i` is not inside an ellipsis, so a scan may start there. */
  ghost predicate InStep(s: Bytes, i: nat) {
    (i >= 1 ==> !EllipsisAt(s, i - 1)) && (i >= 2 ==> !EllipsisAt(s, i - 2))
  }

  lemma RuneFacts(s: Bytes, i: nat)
    requires i < |s|
    ensures var d := DecodeRune(s, i);
            && (s[i] < 0x80 || d.rune < 0x80 ==> d == Decoded(s[i], 1))
            && (d.rune == 0x2026 <==> EllipsisAt(s, i))
            && (d.rune == 0x2026 ==> d.width == 3)
  {
    if EllipsisAt(s, i) {
      assert TailAt(s, i, 2);
    }
  }

  /** One decoded rune: it is a delimiter exactly when a cut ends there, and
      it never hides a cut. */
  lemma RuneStep(s: Bytes, i: nat)
    requires i < |s| && InStep(s, i)
    ensures var d := DecodeRune(s, i);
            && (IsSentenceDelim(d.rune) <==> EndsDelimiter(s, i + d.width))
            && (forall j :: i < j < i + d.width ==> !EndsDelimiter(s, j))
            && InStep(s, i + d.width)
  {
    hide Utf8.DecodeRune;
    RuneFacts(s, i);
    var d := DecodeRune(s, i);
    assert forall k :: i < k < i + d.width ==> IsContinuation(s[k]);
    forall j | i < j <= i + d.width
      ensures EndsDelimiter(s, j) ==> j == i + d.width
    {
      if j >= 3 && EllipsisAt(s, j - 3) {
        assert !IsContinuation(s[j - 3]);
      }
    }
  }

  lemma NothingBetween(s: Bytes, a: nat, b: nat)
    requires a <= b <= |s|
    requires forall j :: a < j <= b ==> !EndsDelimiter(s, j)
    ensures LastCut(s, b) == LastCut(s, a) && RawSegments(s, b) == RawSegments(s, a)
  {
    if a < b {
      NothingBetween(s, a, b - 1);
    }
  }

  lemma EmitAllOne(segments: seq<Bytes>, last: Bytes)
    ensures EmitAll(segments + [last]) == EmitAll(segments) + Emit(last)
  {
    assert (segments + [last])[..|segments|] == segments;
  }

  /** Between `i` and `j` there is at most a cut at `j` itself. */
  lemma OnePiece(s: Bytes, i: nat, j: nat)
    requires i < j <= |s|
    requires forall k :: i < k < j ==> !EndsDelimiter(s, k)
    ensures !EndsDelimiter(s, j) ==> LastCut(s, j) == LastCut(s, i) && Sentences(s, j) == Sentences(s, i)
    ensures EndsDelimiter(s, j) ==>
              LastCut(s, j) == j && Sentences(s, j) == Sentences(s, i) + Emit(s[LastCut(s, i)..j])
  {
    hide EndsDelimiter, EmitAll, Emit;
    NothingBetween(s, i, j - 1);
    if EndsDelimiter(s, j) {
      EmitAllOne(RawSegments(s, i), s[LastCut(s, i)..j]);
    }
  }

  /** From any in-step position, the loop finds exactly the remaining reference
      sentences and ends at the reference's last cut. */
  lemma {:induction false} ScanMatches(s: Bytes, i: nat)
    requires i <= |s| && InStep(s, i)
    ensures Scan(s, LastCut(s, i), i).flushedTo == LastCut(s, |s|)
    ensures Sentences(s, |s|) == Sentences(s, i) + Scan(s, LastCut(s, i), i).sentences
    decreases |s| - i
  {
    hide Utf8.TrimSpace, Utf8.DecodeRune, EndsDelimiter, IsSentenceDelim, Sentences, LastCut;
    if i < |s| {
      var d := DecodeRune(s, i);
      RuneStep(s, i);
      OnePiece(s, i, i + d.width);
      ScanMatches(s, i + d.width);
    }
  }

  lemma SameDelimiters(s: Bytes, t: Bytes, n: nat)
    requires n <= |s| && n <= |t| && s[..n] == t[..n]
    ensures forall j :: 0 <= j <= n ==> EndsDelimiter(s, j) == EndsDelimiter(t, j)
  {
    assert forall k :: 0 <= k < n ==> s[k] == s[..n][k] == t[..n][k] == t[k];
  }

  lemma {:induction false} SamePrefix(s: Bytes, t: Bytes, n: nat)
    requires n <= |s| && n <= |t| && s[..n] == t[..n]
    ensures forall j :: 0 <= j <= n ==> EndsDelimiter(s, j) == EndsDelimiter(t, j)
    ensures LastCut(s, n) == LastCut(t, n) && RawSegments(s, n) == RawSegments(t, n)
  {
    SameDelimiters(s, t, n);
    hide EndsDelimiter;
    if n > 0 {
      assert s[..n - 1] == s[..n][..n - 1] == t[..n][..n - 1] == t[..n - 1];
      SamePrefix(s, t, n - 1);
      assert s[LastCut(s, n - 1)..n] == s[..n][LastCut(s, n - 1)..n] == t[LastCut(t, n - 1)..n];
    }
  }

  /** `Feed` keeps the parser settled and returns exactly the new sentences. */
  lemma FedMatches(st: ParserState, chunk: Bytes)
    requires Settled(st)
    ensures var (next, out) := Fed(st, chunk);
            && next.full == st.full + chunk && Settled(next)
            && Sentences(next.full, |next.full|) == Sentences(st.full, |st.full|) + out
  {
    var s := st.full + chunk;
    if chunk == [] {
      assert s == st.full;
    } else {
      var n := |st.full|;
      assert s[..n] == st.full == st.full[..n];
      SamePrefix(st.full, s, n);
      NothingBetween(s, st.flushedTo, n);
      ScanMatches(s, st.flushedTo);
    }
  }

  /** Chunking invariance: for every byte string and every way of cutting it into
      chunks, also inside a rune, all calls together return the reference sentences
      of the whole, and leave the state that one call on the whole leaves. */
  lemma {:induction false} ChunkingInvariance(chunks: seq<Bytes>)
    ensures var whole := Flatten(chunks);
            && FedAll(chunks) == (ParserState(whole, LastCut(whole, |whole|)), Sentences(whole, |whole|))
            && FedAll(chunks) == FedAll([whole])
            && Finalized(FedAll(chunks).0) == Finalized(FedAll([whole]).0)
  {
    hide FedAll, Finalized, Sentences, LastCut, EndsDelimiter;
    FedAllIsReference(chunks);
    var whole := Flatten(chunks);
    FlattenOne([], whole);
    assert [] + [whole] == [whole] && [] + whole == whole;
    FedAllIsReference([whole]);
  }

  lemma FlattenOne(chunks: seq<Bytes>, last: Bytes)
    ensures Flatten(chunks + [last]) == Flatten(chunks) + last
  {
    assert (chunks + [last])[..|chunks|] == chunks;
  }

  lemma {:induction false} FedAllIsReference(chunks: seq<Bytes>)
    ensures var whole := Flatten(chunks);
            FedAll(chunks) == (ParserState(whole, LastCut(whole, |whole|)), Sentences(whole, |whole|))
    decreases |chunks|
  {
    if chunks != [] {
      var init := chunks[..|chunks| - 1];
      FedAllIsReference(init);
      FedMatches(FedAll(init).0, chunks[|chunks| - 1]);
    }
  }

  // -------------------------------------------------------------------- finalize

  const CHAT_TOKEN: Bytes := [0x43, 0x48, 0x41, 0x54]
  const END_CALL_TOKEN: Bytes := [0x45, 0x4E, 0x44, 0x43, 0x41, 0x4C, 0x4C]

  function LastIndex(s: Bytes, b: Byte): (i: int)
    ensures -1 <= i < |s|
    ensures i >= 0 ==> s[i] == b
    ensures forall k :: i < k < |s| ==> s[k] != b
  {
    if s == [] then -1
    else if s[|s| - 1] == b then |s| - 1
    else LastIndex(s[..|s| - 1], b)
  }

  /** Upper-casing changes a byte of an ASCII token only if it is a lower-case
      letter; no other rune maps to a letter of CHAT or ENDCALL. */
  function Upper(b: Byte): Byte {
    if 0x61 <= b <= 0x7A then b - 0x20 else b
  }

  predicate HasUpperPrefix(s: Bytes, token: Bytes) {
    |token| <= |s| && forall k :: 0 <= k < |token| ==> Upper(s[k]) == token[k]
  }

  /** Where the text to speak ends: at the last pipe, if there is one. */
  function ContentEnd(s: Bytes): (n: nat)
    ensures n <= |s|
  {
    var i := LastIndex(s, PIPE);
    if i >= 0 then i else |s|
  }

  function Finalized(st: ParserState): (r: (Bytes, Action)) {
    var end := ContentEnd(st.full);
    var action :=
      if end < |st.full| && HasUpperPrefix(TrimSpace(st.full[end + 1..]), END_CALL_TOKEN) then EndCall else Chat;
    (if st.flushedTo < end then TrimSpace(st.full[st.flushedTo..end]) else [], action)
  }

  /** The last pipe of a reply, if it has one. */
  ghost predicate LastPipe(s: Bytes, p: int) {
    0 <= p < |s| && s[p] == 0x7C && forall k :: p < k < |s| ==> s[k] != 0x7C
  }

  /** ENDCALL in any letter case. */
  predicate StartsEndCall(raw: Bytes) {
    && |raw| >= 7
    && raw[0] in [0x45, 0x65] && raw[1] in [0x4E, 0x6E] && raw[2] in [0x44, 0x64] && raw[3] in [0x43, 0x63]
    && raw[4] in [0x41, 0x61] && raw[5] in [0x4C, 0x6C] && raw[6] in [0x4C, 0x6C]
  }

  /** The action of every reply: ENDCALL exactly if there is a pipe and the trimmed text after
      the last one starts with that word; CHAT without a pipe and for any other token. */
  lemma FinalAction(s: Bytes, flushedTo: nat)
    ensures var a := Finalized(ParserState(s, flushedTo)).1;
            && (0x7C !in s ==> a == Chat)
            && (forall p :: LastPipe(s, p) ==> (a == EndCall <==> StartsEndCall(TrimSpace(s[p + 1..]))))
  {
    hide Utf8.TrimSpace;
    forall p | LastPipe(s, p)
      ensures Finalized(ParserState(s, flushedTo)).1 == EndCall <==> StartsEndCall(TrimSpace(s[p + 1..]))
    {
      assert LastIndex(s, PIPE) == p;
      PrefixIsEndCall(TrimSpace(s[p + 1..]));
    }
  }

  lemma PrefixIsEndCall(raw: Bytes)
    ensures HasUpperPrefix(raw, END_CALL_TOKEN) <==> StartsEndCall(raw)
  {
    if HasUpperPrefix(raw, END_CALL_TOKEN) {
      assert Upper(raw[0]) == 0x45 && Upper(raw[1]) == 0x4E && Upper(raw[2]) == 0x44 && Upper(raw[3]) == 0x43;
      assert Upper(raw[4]) == 0x41 && Upper(raw[5]) == 0x4C && Upper(raw[6]) == 0x4C;
    }
  }

  // ------------------------------------------------------------ partition and leak

  lemma {:induction false} SegmentsPartition(s: Bytes, n: nat)
    requires n <= |s|
    ensures Flatten(RawSegments(s, n)) == s[..LastCut(s, n)]
  {
    hide EndsDelimiter;
    if n > 0 {
      SegmentsPartition(s, n - 1);
      if EndsDelimiter(s, n) {
        var cut := LastCut(s, n - 1);
        FlattenOne(RawSegments(s, n - 1), s[cut..n]);
        assert s[..n] == s[..cut] + s[cut..n];
      }
    }
  }

  ghost predicate DelimiterAfter(s: Bytes, p: nat) {
    exists j :: p < j <= |s| && EndsDelimiter(s, j)
  }

  /** The text spoken for a whole reply, before trimming: the flushed segments,
      then the region the leftover is trimmed from. */
  function SpokenRaw(s: Bytes): Bytes {
    Flatten(RawSegments(s, |s|)) + LeftoverRegion(s)
  }

  function LeftoverRegion(s: Bytes): Bytes {
    if LastCut(s, |s|) < ContentEnd(s) then s[LastCut(s, |s|)..ContentEnd(s)] else []
  }

  /** The spoken text is the text before the last pipe exactly when no delimiter
      follows that pipe; otherwise flushed segments reach into the action suffix. */
  lemma SpokenTextIsContentIff(s: Bytes)
    ensures SpokenRaw(s) == s[..ContentEnd(s)] <==> !DelimiterAfter(s, ContentEnd(s))
    ensures DelimiterAfter(s, ContentEnd(s)) ==> SpokenRaw(s) == s[..LastCut(s, |s|)] && LastCut(s, |s|) > ContentEnd(s)
    ensures Finalized(ParserState(s, LastCut(s, |s|))).0 == TrimSpace(LeftoverRegion(s))
  {
    hide *;
    TrimEmpty();
    DelimiterAfterIff(s, ContentEnd(s));
    SegmentsPartition(s, |s|);
    FinalizedLeftover(s);
    SpokenIs(s);
  }

  lemma DelimiterAfterIff(s: Bytes, p: nat)
    requires p <= |s|
    ensures DelimiterAfter(s, p) <==> LastCut(s, |s|) > p
  {
    hide EndsDelimiter;
  }

  lemma FinalizedLeftover(s: Bytes)
    ensures Finalized(ParserState(s, LastCut(s, |s|))).0 == TrimSpace(LeftoverRegion(s))
  {
    TrimEmpty();
    hide Utf8.TrimSpace, HasUpperPrefix, LastCut, LastIndex;
  }

  lemma LeftoverIs(s: Bytes)
    ensures LeftoverRegion(s) == if LastCut(s, |s|) < ContentEnd(s) then s[LastCut(s, |s|)..ContentEnd(s)] else []
  {
  }

  lemma SpokenIs(s: Bytes)
    ensures LastCut(s, |s|) <= ContentEnd(s) ==> SpokenRaw(s) == s[..ContentEnd(s)]
    ensures LastCut(s, |s|) > ContentEnd(s) ==>
              SpokenRaw(s) == s[..LastCut(s, |s|)] && SpokenRaw(s) != s[..ContentEnd(s)]
  {
    hide LastCut, ContentEnd, RawSegments, Flatten, LeftoverRegion, EndsDelimiter, LastIndex;
    SegmentsPartition(s, |s|);
    LeftoverIs(s);
    var end, flushed := ContentEnd(s), LastCut(s, |s|);
    if flushed < end {
      assert s[..flushed] + s[flushed..end] == s[..end];
    } else {
      assert s[..flushed] + [] == s[..flushed];
      assert |s[..flushed]| == flushed && |s[..end]| == end;
    }
  }

  lemma TrimEmpty()
    ensures TrimSpace([]) == []
  {
  }

  /** "a|CHAT." is flushed whole: the action suffix is spoken. */
  lemma SuffixSpokenWitness()
    ensures var s: Bytes := [0x61, PIPE] + CHAT_TOKEN + [0x2E];
            && DelimiterAfter(s, ContentEnd(s))
            && SpokenRaw(s) == s
  {
    var s: Bytes := [0x61, PIPE, 0x43, 0x48, 0x41, 0x54, 0x2E];
    assert s == [0x61, PIPE] + CHAT_TOKEN + [0x2E];
    assert EndsDelimiter(s, 7);
    assert s[ContentEnd(s)..] != [] by {
      assert s[1] == PIPE;
    }
    SegmentsPartition(s, 7);
    assert s[..7] == s;
  }

  // --------------------------------------------------------- print/parse round trip

  /** A trimmed sentence whose only delimiter is its last rune; pipes are allowed. */
  ghost predicate PlainSentence(s: Bytes) {
    && s != [] && TrimSpace(s) == s
    && EndsDelimiter(s, |s|)
    && forall j :: 0 <= j < |s| ==> !EndsDelimiter(s, j)
  }

  function Token(a: Action): Bytes {
    match a
    case Chat => CHAT_TOKEN
    case EndCall => END_CALL_TOKEN
  }

  /** Sentences joined by single spaces. */
  function Join(sentences: seq<Bytes>): Bytes {
    if sentences == [] then []
    else if |sentences| == 1 then sentences[0]
    else Join(sentences[..|sentences| - 1]) + [SPACE] + sentences[|sentences| - 1]
  }

  function Print(sentences: seq<Bytes>, action: Action): Bytes {
    Join(sentences) + [PIPE] + Token(action)
  }

  /** Cuts inside `b` do not depend on what stands in front of it, as long as the
      byte before `b` cannot start or continue an ellipsis. */
  lemma CutsAreLocal(a: Bytes, b: Bytes, j: nat)
    requires |a| < j <= |a| + |b|
    requires a == [] || a[|a| - 1] < 0x80
    ensures EndsDelimiter(a + b, j) == EndsDelimiter(b, j - |a|)
  {
    var s := a + b;
    assert forall x :: 0 <= x < |b| ==> s[|a| + x] == b[x];
    if |a| > 0 {
      assert s[|a| - 1] == a[|a| - 1];
    }
  }

  /** One more printed sentence is one more parsed sentence. */
  lemma AppendParses(init: Bytes, last: Bytes)
    requires PlainSentence(last) && LastCut(init, |init|) == |init|
    ensures var s := (if init == [] then [] else init + [SPACE]) + last;
            Sentences(s, |s|) == Sentences(init, |init|) + [last] && LastCut(s, |s|) == |s|
  {
    hide Utf8.TrimSpace, EmitAll, RawSegments, EndsDelimiter;
    var a := if init == [] then [] else init + [SPACE];
    var s := a + last;
    var m := |init|;
    assert s[..m] == init == init[..m];
    SamePrefix(init, s, m);
    assert Sentences(s, m) == Sentences(init, m);
    forall j | m < j <= |s|
      ensures EndsDelimiter(s, j) <==> j == |s|
    {
      if j > |a| {
        CutsAreLocal(a, last, j);
      } else {
        SpaceIsNoCut(init, last);
      }
    }
    OnePiece(s, m, |s|);
    if init == [] {
      assert s[m..|s|] == last;
    } else {
      TrimLeadingSpace(last);
      assert s[m..|s|] == [SPACE] + last;
    }
    assert Emit(s[m..|s|]) == [last];
  }

  lemma SpaceIsNoCut(init: Bytes, last: Bytes)
    ensures !EndsDelimiter(init + [SPACE] + last, |init| + 1)
  {
    assert (init + [SPACE] + last)[|init|] == SPACE;
  }

  lemma {:induction false} JoinParses(sentences: seq<Bytes>)
    requires forall k :: 0 <= k < |sentences| ==> PlainSentence(sentences[k])
    ensures var s := Join(sentences);
            && Sentences(s, |s|) == sentences && LastCut(s, |s|) == |s|
            && (s == [] <==> sentences == [])
    decreases |sentences|
  {
    hide Utf8.TrimSpace, EmitAll, RawSegments, EndsDelimiter, LastCut;
    if sentences == [] {
      NoSentences();
    } else {
      var n := |sentences| - 1;
      var init, last := sentences[..n], sentences[n];
      JoinParses(init);
      AppendParses(Join(init), last);
      assert sentences == init + [last];
      assert Join(sentences) == (if Join(init) == [] then [] else Join(init) + [SPACE]) + last;
    }
  }

  lemma NoSentences()
    ensures Sentences([], 0) == [] && LastCut([], 0) == 0
  {
  }

  /** Text without delimiter or pipe after the last pipe leaves the cuts alone. */
  lemma SuffixIsQuiet(text: Bytes, token: Bytes)
    requires LastCut(text, |text|) == |text|
    requires forall k :: 0 <= k < |token| ==> 0x41 <= token[k] <= 0x5A
    ensures var s := text + [PIPE] + token;
            && Sentences(s, |s|) == Sentences(text, |text|) && LastCut(s, |s|) == |text|
            && LastIndex(s, PIPE) == |text| && s[|text| + 1..] == token && s[..|text|] == text
  {
    hide Utf8.TrimSpace, EmitAll;
    var s := text + [PIPE] + token;
    var m := |text|;
    assert s[..m] == text == text[..m];
    SamePrefix(text, s, m);
    assert s[m] == PIPE;
    assert forall k :: 0 <= k < |token| ==> s[m + 1 + k] == token[k];
    forall j | m < j <= |s|
      ensures !EndsDelimiter(s, j)
    {
      assert s[j - 1] == PIPE || s[j - 1] == token[j - 1 - (m + 1)];
    }
    NothingBetween(s, m, |s|);
  }

  /** A settled text, a pipe and a token leave nothing over but the action. */
  lemma PrintedFinal(text: Bytes, action: Action)
    requires LastCut(text, |text|) == |text|
    ensures var s := text + [PIPE] + Token(action);
            && Sentences(s, |s|) == Sentences(text, |text|)
            && Finalized(ParserState(s, LastCut(s, |s|))) == ([], action)
  {
    hide Utf8.TrimSpace, HasUpperPrefix, LastCut, LastIndex, Sentences;
    SuffixIsQuiet(text, Token(action));
    TokensAreTrimmed();
  }

  /** Print/parse round trip under any chunking. */
  lemma RoundTrip(sentences: seq<Bytes>, action: Action, chunks: seq<Bytes>)
    requires forall k :: 0 <= k < |sentences| ==> PlainSentence(sentences[k])
    requires Flatten(chunks) == Print(sentences, action)
    ensures FedAll(chunks).1 == sentences
    ensures Finalized(FedAll(chunks).0) == ([], action)
  {
    hide PlainSentence, Sentences, LastCut, Finalized, FedAll, Join, Flatten;
    ChunkingInvariance(chunks);
    JoinParses(sentences);
    PrintedFinal(Join(sentences), action);
  }

  lemma AsciiTrimmed(s: Bytes)
    requires s != [] && s[0] < 0x80 && s[|s| - 1] < 0x80 && !IsSpace(s[0]) && !IsSpace(s[|s| - 1])
    ensures TrimSpace(s) == s
  {
    assert DecodeRune(s, 0).rune == s[0];
    assert DecodeLastRune(s).rune == s[|s| - 1];
  }

  lemma TokensAreTrimmed()
    ensures forall a :: TrimSpace(Token(a)) == Token(a) && (HasUpperPrefix(Token(a), END_CALL_TOKEN) <==> a == EndCall)
  {
    hide Utf8.TrimSpace;
    AsciiTrimmed(CHAT_TOKEN);
    AsciiTrimmed(END_CALL_TOKEN);
    assert !HasUpperPrefix(CHAT_TOKEN, END_CALL_TOKEN);
  }

  lemma LastRuneStaysInTail(a: Bytes, b: Bytes)
    requires a != [] && a[|a| - 1] < 0x80 && b != []
    ensures DecodeLastRune(a + b).width <= |b|
  {
    var s := a + b;
    assert s[|a| - 1] == a[|a| - 1];
  }

  lemma {:induction false} TrimRightKeeps(a: Bytes, b: Bytes)
    requires a != [] && a[|a| - 1] < 0x80 && !IsSpace(a[|a| - 1])
    ensures a <= TrimRight(a + b)
    decreases |b|
  {
    var s := a + b;
    if b == [] {
      assert s == a;
      assert DecodeLastRune(a) == Decoded(a[|a| - 1], 1);
    } else {
      LastRuneStaysInTail(a, b);
      var d := DecodeLastRune(s);
      if IsSpace(d.rune) {
        assert s[..|s| - d.width] == a + b[..|b| - d.width];
        TrimRightKeeps(a, b[..|b| - d.width]);
      }
    }
  }

  /** The token in any mix of upper and lower case. */
  predicate Spells(written: Bytes, action: Action) {
    |written| == |Token(action)| && forall k :: 0 <= k < |written| ==> Upper(written[k]) == Token(action)[k]
  }

  lemma TrimKeepsToken(written: Bytes, action: Action, junk: Bytes)
    requires Spells(written, action)
    ensures written <= TrimSpace(written + junk)
  {
    hide Utf8.DecodeLastRune, Utf8.TrimRight;
    var tail := written + junk;
    assert 0x41 <= Upper(written[0]) <= 0x5A && 0x41 <= Upper(written[|written| - 1]) <= 0x5A;
    TrimRightKeeps(written, junk);
    assert tail[0] == written[0];
    assert DecodeRune(tail, 0).rune == tail[0];
  }

  lemma TokenDecides(raw: Bytes, written: Bytes, action: Action)
    requires Spells(written, action) && written <= raw
    ensures HasUpperPrefix(raw, END_CALL_TOKEN) <==> action == EndCall
  {
    assert raw[0] == written[0];
    if action == EndCall {
      assert forall k :: 0 <= k < 7 ==> raw[k] == written[k];
    } else {
      assert Upper(raw[0]) != END_CALL_TOKEN[0];
    }
  }

  /** The action is recognised in any letter case and whatever a proxy appends after it,
      pipes excepted. */
  lemma ActionSurvivesTrailer(text: Bytes, written: Bytes, action: Action, junk: Bytes, flushedTo: nat)
    requires Spells(written, action) && PIPE !in junk
    ensures Finalized(ParserState(text + [PIPE] + (written + junk), flushedTo)).1 == action
  {
    hide Utf8.TrimSpace, HasUpperPrefix, LastIndex;
    var tail := written + junk;
    assert forall k :: 0 <= k < |written| ==> 0x41 <= Upper(written[k]) <= 0x5A && written[k] != PIPE;
    LastPipeAt(text, tail);
    TrimKeepsToken(written, action, junk);
    TokenDecides(TrimSpace(tail), written, action);
  }

  lemma LastPipeAt(text: Bytes, tail: Bytes)
    requires PIPE !in tail
    ensures var s := text + [PIPE] + tail;
            LastIndex(s, PIPE) == |text| && s[|text| + 1..] == tail
  {
    var s := text + [PIPE] + tail;
    assert s[|text|] == PIPE;
    assert forall k :: |text| < k < |s| ==> s[k] == tail[k - |text| - 1];
  }
}
