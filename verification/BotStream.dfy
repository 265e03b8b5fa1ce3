/** internal/bot/http_stream.go `read` and the sentence pump of
    internal/pipeline/turn.go `Speak`: body reads become sentences on a bounded
    channel, and the pump turns them into TTS messages with an end-of-stream flag.

    Reader and pump run concurrently; the model is a step system whose runs are all
    interleavings, with the request context cancelled and TTS sends failing at any time. */
module BotStream {
  import opened ByteStrings
  import opened Utf8
  import opened SentenceParsing

  datatype TtsMessage = TtsMessage(text: Bytes, eos: bool)

  /** How a body read ends: with more to come, at the end of the body, or in error. */
  datatype ReadEnd = More | Eof | Broken

  datatype Read = Read(data: Bytes, end: ReadEnd)

  datatype ReaderPc =
    | Reading
    | Sending(outbox: seq<Bytes>, end: ReadEnd)
    | SendingLeftover(leftover: Bytes)
    | Returned(ok: bool)

  datatype PumpPc = Ranging | SendFailed | Ended

  /** The pump's local variables; `prev` is empty or holds the sentence kept back. */
  datatype Pump = Pump(pc: PumpPc, received: seq<Bytes>, prev: seq<Bytes>, botText: Bytes, sent: seq<TtsMessage>)

  datatype Stream = Stream(
    body: seq<Read>,
    parser: ParserState,
    reader: ReaderPc,
    action: Action,
    channel: seq<Bytes>,
    ctxDone: bool,
    pump: Pump)

  const CHANNEL_CAPACITY := 8

  function Start(body: seq<Read>): Stream {
    Stream(body, FRESH, Reading, Chat, [], false, Pump(Ranging, [], [], [], []))
  }

  datatype Event =
    | ReadBody
    | Push
    | AbortPush
    | EndRead
    | PushLeftover
    | AbortLeftover
    | Pull(sendOk: bool)
    | PumpEnd(sendOk: bool)
    | CancelContext

  predicate Enabled(s: Stream, e: Event) {
    match e
    case ReadBody => s.reader.Reading? && s.body != [] && s.parser.flushedTo <= |s.parser.full|
    case Push => s.reader.Sending? && s.reader.outbox != [] && |s.channel| < CHANNEL_CAPACITY
    case AbortPush => s.reader.Sending? && s.reader.outbox != [] && s.ctxDone
    case EndRead => s.reader.Sending? && s.reader.outbox == []
    case PushLeftover => s.reader.SendingLeftover? && |s.channel| < CHANNEL_CAPACITY
    case AbortLeftover => s.reader.SendingLeftover? && s.ctxDone
    case Pull(_) => s.pump.pc.Ranging? && s.channel != []
    case PumpEnd(_) => s.pump.pc.Ranging? && s.channel == [] && s.reader.Returned?
    case CancelContext => true
  }

  function Step(s: Stream, e: Event): Stream
    requires Enabled(s, e)
  {
    match e
    case ReadBody =>
      var read := s.body[0];
      var (parser, out) := Fed(s.parser, read.data);
      s.(body := s.body[1..], parser := parser, reader := Sending(out, read.end))
    case Push =>
      s.(channel := s.channel + [s.reader.outbox[0]], reader := Sending(s.reader.outbox[1..], s.reader.end))
    case AbortPush => s.(reader := Returned(false))
    case EndRead =>
      (match s.reader.end
       case More => s.(reader := Reading)
       case Broken => s.(reader := Returned(false))
       case Eof =>
         var (leftover, action) := Finalized(s.parser);
         if leftover == [] then s.(action := action, reader := Returned(true))
         else s.(reader := SendingLeftover(leftover)))
    case PushLeftover =>
      s.(channel := s.channel + [s.reader.leftover], action := Finalized(s.parser).1, reader := Returned(true))
    case AbortLeftover => s.(reader := Returned(false))
    case Pull(sendOk) => s.(channel := s.channel[1..], pump := Received(s.pump, s.channel[0], sendOk))
    case PumpEnd(sendOk) => s.(pump := Closed(s.pump, sendOk))
    case CancelContext => s.(ctxDone := true)
  }

  /** One iteration of the pump's range loop. */
  function Received(p: Pump, x: Bytes, sendOk: bool): Pump {
    var text := (if p.botText == [] then [] else p.botText + [SPACE]) + x;
    var q := p.(received := p.received + [x], botText := text);
    if p.prev == [] then q.(prev := [x])
    else if sendOk then q.(prev := [x], sent := p.sent + [TtsMessage(p.prev[0], false)])
    else q.(pc := SendFailed)
  }

  /** What the pump does once the channel is closed. */
  function Closed(p: Pump, sendOk: bool): Pump {
    var last := if p.prev != [] then TtsMessage(p.prev[0], true) else TtsMessage([], true);
    if sendOk then p.(sent := p.sent + [last], pc := Ended) else p.(pc := SendFailed)
  }

  predicate Legal(s: Stream, run: seq<Event>)
    decreases |run|
  {
    run == [] || (Enabled(s, run[0]) && Legal(Step(s, run[0]), run[1..]))
  }

  function After(s: Stream, run: seq<Event>): Stream
    requires Legal(s, run)
    decreases |run|
  {
    if run == [] then s else After(Step(s, run[0]), run[1..])
  }

  // ---------------------------------------------------------------- reference

  /** The bytes of a body, up to and including its first read that ends it. */
  function BodyText(body: seq<Read>): Bytes {
    if body == [] then []
    else if body[0].end.More? then body[0].data + BodyText(body[1..])
    else body[0].data
  }

  /** Everything the parser makes of a whole reply, the leftover last. */
  function Transcript(text: Bytes): seq<Bytes> {
    var leftover := Finalized(ParserState(text, LastCut(text, |text|))).0;
    Sentences(text, |text|) + if leftover == [] then [] else [leftover]
  }

  /** What TTS must receive: every sentence once and in order, end-of-stream on the
      last message only, and a lone empty message for an empty reply. */
  function Messages(sentences: seq<Bytes>): seq<TtsMessage> {
    if sentences == [] then [TtsMessage([], true)]
    else seq(|sentences|, i requires 0 <= i < |sentences| => TtsMessage(sentences[i], i == |sentences| - 1))
  }

  /** The messages sent before the reply is known to have ended. */
  function Unfinished(sentences: seq<Bytes>): seq<TtsMessage> {
    seq(|sentences|, i requires 0 <= i < |sentences| => TtsMessage(sentences[i], false))
  }

  // ---------------------------------------------------------------- invariant

  /** Sentences the reader has handed over to the channel. */
  function HandedOver(s: Stream): seq<Bytes> {
    s.pump.received + s.channel
  }

  ghost predicate NonEmpty(xs: seq<Bytes>) {
    forall k :: 0 <= k < |xs| ==> xs[k] != []
  }

  ghost predicate ReaderInv(s: Stream, text: Bytes) {
    var full := s.parser.full;
    && Settled(s.parser)
    && match s.reader
       case Reading => HandedOver(s) == Sentences(full, |full|) && full + BodyText(s.body) == text
       case Sending(outbox, end) =>
         && HandedOver(s) + outbox == Sentences(full, |full|)
         && text == full + if end.More? then BodyText(s.body) else []
       case SendingLeftover(leftover) =>
         && full == text && leftover != [] && leftover == Finalized(s.parser).0
         && HandedOver(s) == Sentences(text, |text|)
       case Returned(ok) =>
         && (ok ==> full == text && HandedOver(s) == Transcript(text) && s.action == Finalized(s.parser).1)
         && HandedOver(s) <= Transcript(text)
  }

  ghost predicate PumpInv(p: Pump) {
    && NonEmpty(p.received)
    && p.botText == Join(p.received)
    && match p.pc
       case Ranging =>
         if p.received == [] then p.prev == [] && p.sent == []
         else
           var n := |p.received| - 1;
           p.prev == [p.received[n]] && p.sent == Unfinished(p.received[..n])
       case SendFailed => p.sent <= Unfinished(p.received)
       case Ended => p.sent == Messages(p.received)
  }

  ghost predicate Inv(s: Stream, text: Bytes) {
    && ReaderInv(s, text)
    && PumpInv(s.pump)
    && NonEmpty(s.channel)
    && (s.pump.pc.Ended? ==> s.reader.Returned? && s.channel == [])
    && |s.channel| <= 8
  }

  lemma {:induction false} SentencesNonEmpty(segments: seq<Bytes>)
    ensures NonEmpty(EmitAll(segments))
  {
    if segments != [] {
      SentencesNonEmpty(segments[..|segments| - 1]);
    }
  }

  lemma {:induction false} JoinSnoc(xs: seq<Bytes>, x: Bytes)
    requires NonEmpty(xs)
    ensures Join(xs + [x]) == (if Join(xs) == [] then [] else Join(xs) + [SPACE]) + x
    ensures Join(xs) == [] <==> xs == []
  {
    assert (xs + [x])[..|xs|] == xs;
    if xs != [] {
      var n := |xs| - 1;
      assert xs == xs[..n] + [xs[n]];
      JoinSnoc(xs[..n], xs[n]);
      assert |Join(xs)| >= |xs[n]|;
    }
  }

  /** Sentences of a longer text extend those of a shorter one. */
  lemma SentencesExtend(text: Bytes, more: Bytes)
    ensures Sentences(text, |text|) <= Transcript(text + more)
  {
    if more == [] {
      assert text + more == text;
    }
    var st := ParserState(text, LastCut(text, |text|));
    FedMatches(st, more);
  }

  lemma TranscriptNonEmpty(text: Bytes)
    ensures NonEmpty(Sentences(text, |text|)) && NonEmpty(Transcript(text))
    ensures Sentences(text, |text|) <= Transcript(text)
  {
    hide Finalized, RawSegments, EmitAll, LastCut;
    SentencesNonEmpty(RawSegments(text, |text|));
  }

  lemma ReadBodyStep(s: Stream, text: Bytes)
    requires Inv(s, text) && Enabled(s, ReadBody)
    ensures Inv(Step(s, ReadBody), text)
  {
    hide Finalized, LastCut, Sentences, Join, Fed, PumpInv;
    var read := s.body[0];
    FedMatches(s.parser, read.data);
    var full, rest := s.parser.full, if read.end.More? then BodyText(s.body[1..]) else [];
    assert (full + read.data) + rest == full + (read.data + rest);
    assert read.data + [] == read.data;
  }

  lemma EndReadStep(s: Stream, text: Bytes)
    requires Inv(s, text) && Enabled(s, EndRead)
    ensures Inv(Step(s, EndRead), text)
  {
    hide Finalized, LastCut, Sentences, Join, PumpInv;
    assert HandedOver(s) + [] == HandedOver(s);
    assert s.parser.full + [] == s.parser.full;
    TranscriptNonEmpty(text);
    assert Sentences(text, |text|) + [] == Sentences(text, |text|);
  }

  lemma PushStep(s: Stream, text: Bytes)
    requires Inv(s, text) && Enabled(s, Push)
    ensures Inv(Step(s, Push), text)
  {
    hide LastCut, Sentences, PumpInv;
    var outbox := s.reader.outbox;
    assert HandedOver(s) + outbox == HandedOver(Step(s, Push)) + outbox[1..];
    TranscriptNonEmpty(s.parser.full);
    assert Sentences(s.parser.full, |s.parser.full|)[|HandedOver(s)|] == outbox[0];
  }

  lemma PushLeftoverStep(s: Stream, text: Bytes)
    requires Inv(s, text) && Enabled(s, PushLeftover)
    ensures Inv(Step(s, PushLeftover), text)
  {
    hide LastCut, Sentences, PumpInv, Finalized;
    assert HandedOver(Step(s, PushLeftover)) == HandedOver(s) + [s.reader.leftover];
  }

  lemma AbortStep(s: Stream, e: Event, text: Bytes)
    requires Inv(s, text) && Enabled(s, e)
    requires e.AbortPush? || e.AbortLeftover? || e.CancelContext?
    ensures Inv(Step(s, e), text)
  {
    hide LastCut, Sentences, PumpInv, Finalized;
    if e.AbortPush? {
      SentencesExtend(s.parser.full, if s.reader.end.More? then BodyText(s.body) else []);
      assert HandedOver(s) <= HandedOver(s) + s.reader.outbox;
    } else if e.AbortLeftover? {
      TranscriptNonEmpty(text);
    }
  }

  lemma UnfinishedSnoc(xs: seq<Bytes>)
    requires xs != []
    ensures var n := |xs| - 1;
            && Unfinished(xs) == Unfinished(xs[..n]) + [TtsMessage(xs[n], false)]
            && Messages(xs) == Unfinished(xs[..n]) + [TtsMessage(xs[n], true)]
  {
  }

  lemma EmptyReply()
    ensures Messages([]) == [TtsMessage([], true)] && Unfinished([]) == []
  {
  }

  lemma NonEmptySnoc(xs: seq<Bytes>, x: Bytes)
    requires NonEmpty(xs) && x != []
    ensures NonEmpty(xs + [x])
  {
  }

  lemma ReceivedKeepsInv(p: Pump, x: Bytes, sendOk: bool)
    requires PumpInv(p) && p.pc.Ranging? && x != []
    ensures PumpInv(Received(p, x, sendOk))
  {
    hide Join, Unfinished, Messages, NonEmpty;
    NonEmptySnoc(p.received, x);
    JoinSnoc(p.received, x);
    var q := Received(p, x, sendOk);
    assert q.received[..|p.received|] == p.received;
    if p.received == [] {
      EmptyReply();
    } else {
      UnfinishedSnoc(p.received);
      UnfinishedSnoc(q.received);
      assert Unfinished(p.received) <= Unfinished(q.received);
    }
  }

  lemma ClosedKeepsInv(p: Pump, sendOk: bool)
    requires PumpInv(p) && p.pc.Ranging?
    ensures PumpInv(Closed(p, sendOk))
  {
    hide Join, Unfinished, Messages;
    EmptyReply();
    if p.received != [] {
      UnfinishedSnoc(p.received);
    }
  }

  /** The reader's invariant sees the pump only through what was handed over. */
  lemma ReaderInvFrame(s: Stream, t: Stream, text: Bytes)
    requires ReaderInv(s, text) && HandedOver(s) == HandedOver(t)
    requires s.parser == t.parser && s.reader == t.reader && s.body == t.body && s.action == t.action
    ensures ReaderInv(t, text)
  {
    hide Finalized, LastCut, Sentences, Transcript, HandedOver;
  }

  lemma PullStep(s: Stream, sendOk: bool, text: Bytes)
    requires Inv(s, text) && Enabled(s, Pull(sendOk))
    ensures Inv(Step(s, Pull(sendOk)), text)
  {
    hide ReaderInv, PumpInv;
    var t := Step(s, Pull(sendOk));
    assert s.channel == [s.channel[0]] + s.channel[1..];
    assert HandedOver(t) == HandedOver(s);
    ReceivedKeepsInv(s.pump, s.channel[0], sendOk);
    ReaderInvFrame(s, t, text);
  }

  lemma PumpEndStep(s: Stream, sendOk: bool, text: Bytes)
    requires Inv(s, text) && Enabled(s, PumpEnd(sendOk))
    ensures Inv(Step(s, PumpEnd(sendOk)), text)
  {
    hide ReaderInv, PumpInv;
    ClosedKeepsInv(s.pump, sendOk);
    ReaderInvFrame(s, Step(s, PumpEnd(sendOk)), text);
  }

  lemma StepKeepsInv(s: Stream, e: Event, text: Bytes)
    requires Inv(s, text) && Enabled(s, e)
    ensures Inv(Step(s, e), text)
  {
    hide *;
    match e {
      case ReadBody => ReadBodyStep(s, text);
      case EndRead => EndReadStep(s, text);
      case Push => PushStep(s, text);
      case PushLeftover => PushLeftoverStep(s, text);
      case Pull(sendOk) => PullStep(s, sendOk, text);
      case PumpEnd(sendOk) => PumpEndStep(s, sendOk, text);
      case _ => AbortStep(s, e, text);
    }
  }

  lemma {:induction false} RunKeepsInv(s: Stream, run: seq<Event>, text: Bytes)
    requires Inv(s, text) && Legal(s, run)
    ensures Inv(After(s, run), text)
    decreases |run|
  {
    hide Inv, Step, Enabled;
    if run != [] {
      StepKeepsInv(s, run[0], text);
      RunKeepsInv(Step(s, run[0]), run[1..], text);
    }
  }

  lemma StartInv(body: seq<Read>)
    ensures Inv(Start(body), BodyText(body))
  {
  }

  // ------------------------------------------------------------------- theorems

  /** Once the pump has ended after a clean read, TTS holds exactly the messages of
      the whole reply, the recorded text is their join, and the action is the parser's,
      for every interleaving and however the body was cut into reads. */
  lemma Delivery(body: seq<Read>, run: seq<Event>)
    requires Legal(Start(body), run)
    requires var s := After(Start(body), run); s.pump.pc.Ended? && s.reader == Returned(true)
    ensures var s := After(Start(body), run);
            var text := BodyText(body);
            && s.pump.sent == Messages(Transcript(text))
            && s.pump.botText == Join(Transcript(text))
            && s.action == Finalized(ParserState(text, LastCut(text, |text|))).1
  {
    hide Transcript, Finalized, Sentences, LastCut, BodyText, Join, Messages;
    StartInv(body);
    RunKeepsInv(Start(body), run, BodyText(body));
    var s := After(Start(body), run);
    assert HandedOver(s) == s.pump.received;
  }

  /** At any moment of any run, even with failed sends and cancellation: what TTS has
      received is a prefix of the reply's sentences in order, and end-of-stream has been
      sent only if the pump ended, on its last message. An ended pump has sent one message for
      each sentence, and one empty message if there were none. */
  lemma NeverOutOfOrder(body: seq<Read>, run: seq<Event>)
    requires Legal(Start(body), run)
    ensures var s := After(Start(body), run);
            && (forall k :: 0 <= k < |s.pump.sent| ==>
                  (s.pump.sent[k].eos <==> s.pump.pc.Ended? && k == |s.pump.sent| - 1))
            && s.pump.received <= Transcript(BodyText(body)) && |s.channel| <= 8
            && (s.pump.received != [] ==> forall k :: 0 <= k < |s.pump.sent| ==>
                  k < |s.pump.received| && s.pump.sent[k].text == s.pump.received[k])
            && (s.pump.pc.Ended? && s.pump.received != [] ==> |s.pump.sent| == |s.pump.received|)
            && (s.pump.received == [] ==> s.pump.sent == if s.pump.pc.Ended? then [TtsMessage([], true)] else [])
  {
    hide Transcript, Finalized, Sentences, LastCut, BodyText, Join;
    StartInv(body);
    RunKeepsInv(Start(body), run, BodyText(body));
    var s := After(Start(body), run);
    HandedOverIsPrefix(s, BodyText(body));
  }

  lemma HandedOverIsPrefix(s: Stream, text: Bytes)
    requires ReaderInv(s, text)
    ensures HandedOver(s) <= Transcript(text)
  {
    hide Finalized, LastCut, RawSegments, EmitAll, Join;
    match s.reader {
      case Reading => SentencesExtend(s.parser.full, BodyText(s.body));
      case Sending(_, end) => SentencesExtend(s.parser.full, if end.More? then BodyText(s.body) else []);
      case SendingLeftover(_) =>
      case Returned(_) =>
    }
  }

  /** The transcript of a reply is what its raw segments and its leftover region amount to when
      each is trimmed and the blank ones are dropped. */
  lemma TranscriptIs(text: Bytes)
    ensures Transcript(text) == EmitAll(RawSegments(text, |text|) + [LeftoverRegion(text)])
  {
    hide Utf8.TrimSpace, EmitAll, RawSegments, LeftoverRegion, LastCut, Finalized;
    FinalizedLeftover(text);
    EmitAllOne(RawSegments(text, |text|), LeftoverRegion(text));
  }

  ghost predicate Stuck(s: Stream) {
    forall e: Event :: Enabled(s, e) ==> e.CancelContext?
  }

  /** Exactly when neither reader nor pump can move: both are finished, or the reader
      waits for the body with nothing left to pump, or a failed TTS send made the pump
      leave and the channel has filled up behind it, so that only the end of the request
      context frees the reader. */
  lemma StuckIff(s: Stream, text: Bytes)
    requires Inv(s, text)
    ensures Stuck(s) <==>
              || (s.reader.Returned? && !s.pump.pc.Ranging?)
              || (s.reader.Reading? && s.body == [] && (s.channel == [] || !s.pump.pc.Ranging?))
              || (s.pump.pc.SendFailed? && |s.channel| >= CHANNEL_CAPACITY && !s.ctxDone
                  && (s.reader.SendingLeftover? || (s.reader.Sending? && s.reader.outbox != [])))
  {
    hide ReaderInv, PumpInv, Step;
    assert ReaderInv(s, text) ==> s.parser.flushedTo <= |s.parser.full| by { SettledInRange(s, text); }
    if Stuck(s) {
      assert !Enabled(s, ReadBody) && !Enabled(s, Push) && !Enabled(s, AbortPush) && !Enabled(s, EndRead);
      assert !Enabled(s, PushLeftover) && !Enabled(s, AbortLeftover);
      assert !Enabled(s, Pull(true)) && !Enabled(s, PumpEnd(true));
    }
  }

  lemma SettledInRange(s: Stream, text: Bytes)
    ensures ReaderInv(s, text) ==> s.parser.flushedTo <= |s.parser.full|
  {
  }

  // ------------------------------------------------------- the two loops in sequence

  /** The first read that ends the body. */
  function EndIndex(body: seq<Read>): (k: nat)
    ensures k <= |body|
    ensures forall i :: 0 <= i < k ==> body[i].end.More?
    ensures k < |body| ==> !body[k].end.More?
  {
    if body == [] || !body[0].end.More? then 0 else 1 + EndIndex(body[1..])
  }

  /** The reader goroutine's result fields; `sentences` is what it sent on the channel. */
  class HttpTurnStream {
    var sentences: seq<Bytes>
    var action: Action
    var ok: bool

    constructor ()
      ensures sentences == [] && action == Chat && !ok
    {
      sentences, action, ok := [], Chat, false;
    }

    /** Sends on the channel, unless the context is found done at send `cancelAt`. */
    method Send(out: seq<Bytes>, cancelAt: nat) returns (all: bool)
      requires |sentences| <= cancelAt
      modifies this`sentences
      ensures all <==> |old(sentences) + out| <= cancelAt
      ensures sentences == if all then old(sentences) + out else (old(sentences) + out)[..cancelAt]
    {
      var k := 0;
      while k < |out|
        invariant k <= |out| && |sentences| <= cancelAt
        invariant sentences == old(sentences) + out[..k]
      {
        if |sentences| == cancelAt {
          return false;
        }
        sentences := sentences + [out[k]];
        k := k + 1;
      }
      return true;
    }

    /** The sending loop over what one `Feed` returned. */
    method FeedAndSend(parser: SentenceParser, chunk: Bytes, cancelAt: nat) returns (all: bool)
      requires parser.Valid() && sentences == Sentences(parser.full, |parser.full|) && |sentences| <= cancelAt
      modifies parser, this`sentences
      ensures parser.Valid() && parser.full == old(parser.full) + chunk
      ensures var found := Sentences(parser.full, |parser.full|);
              && (all <==> |found| <= cancelAt)
              && sentences == if all then found else found[..cancelAt]
    {
      hide SentenceParsing.Sentences, SentenceParsing.Fed;
      var out := parser.Feed(chunk);
      all := Send(out, cancelAt);
    }

    /** `read` with the context found done at the send number `cancelAt`. */
    method ReadBody(body: seq<Read>, cancelAt: nat)
      requires EndIndex(body) < |body| && sentences == [] && !ok
      modifies this
      ensures var text := BodyText(body);
              && (ok <==> body[EndIndex(body)].end.Eof? && |Transcript(text)| <= cancelAt)
              && (ok ==> sentences == Transcript(text)
                         && action == Finalized(ParserState(text, LastCut(text, |text|))).1)
              && (!ok ==> sentences <= Transcript(text))
    {
      hide Finalized, LastCut, Sentences, Fed, BodyText, EndIndex, Transcript;
      var parser := new SentenceParser();
      ghost var text := BodyText(body);
      var i := 0;
      BodySplit(body, 0);
      assert Sentences([], 0) == [] by { NoSentences(); }
      while true
        invariant fresh(parser) && parser.Valid()
        invariant i <= EndIndex(body) && !ok && |sentences| <= cancelAt
        invariant sentences == Sentences(parser.full, |parser.full|)
        invariant text == parser.full + BodyText(body[i..])
        decreases |body| - i
      {
        var read := body[i];
        ghost var rest := if read.end.More? then BodyText(body[i + 1..]) else [];
        BodyStep(parser.full, body, i);
        var all := FeedAndSend(parser, read.data, cancelAt);
        SentencesExtend(parser.full, rest);
        if !all {
          return;
        }
        if read.end.Eof? {
          break;
        }
        if read.end.Broken? {
          return;
        }
        i := i + 1;
      }
      SendLast(parser, cancelAt);
    }

    /** The end of `read` after the body: the leftover is sent, then the action is known. */
    method SendLast(parser: SentenceParser, cancelAt: nat)
      requires parser.Valid() && !ok
      requires sentences == Sentences(parser.full, |parser.full|) && |sentences| <= cancelAt
      modifies this
      ensures var transcript := Transcript(parser.full);
              && (ok <==> |transcript| <= cancelAt)
              && sentences == (if ok then transcript else transcript[..cancelAt])
              && (ok ==> action == Finalized(parser.State()).1)
    {
      hide Finalized, LastCut, Sentences;
      var leftover, last := parser.Finalize();
      var rest := if leftover != [] then [leftover] else [];
      var all := Send(rest, cancelAt);
      if !all {
        return;
      }
      action := last;
      ok := true;
    }
  }

  lemma BodyStep(read: Bytes, body: seq<Read>, i: nat)
    requires i <= EndIndex(body) < |body|
    ensures var rest := if body[i].end.More? then BodyText(body[i + 1..]) else [];
            && read + BodyText(body[i..]) == (read + body[i].data) + rest
            && (rest == [] ==> read + BodyText(body[i..]) == read + body[i].data)
  {
    BodySplit(body, i);
    var rest := if body[i].end.More? then BodyText(body[i + 1..]) else [];
    assert read + (body[i].data + rest) == (read + body[i].data) + rest;
  }

  lemma BodySplit(body: seq<Read>, i: nat)
    requires i <= EndIndex(body) < |body|
    ensures BodyText(body[i..]) == body[i].data + if body[i].end.More? then BodyText(body[i + 1..]) else []
    ensures body[0..] == body
  {
    assert body[i..][1..] == body[i + 1..];
    assert body[i].data + [] == body[i].data;
  }

  /** The pump's range loop over all sentences; send number `failAt` fails. */
  method PumpSentences(sentences: seq<Bytes>, failAt: nat) returns (sent: seq<TtsMessage>, botText: Bytes)
    requires NonEmpty(sentences)
    ensures failAt >= |Messages(sentences)| ==> sent == Messages(sentences) && botText == Join(sentences)
    ensures failAt < |Messages(sentences)| ==> sent == Messages(sentences)[..failAt]
    ensures failAt + 1 < |sentences| ==> botText == Join(sentences[..failAt + 2])
  {
    hide Join;
    sent, botText := [], [];
    var prev, havePrev := [], false;
    var i := 0;
    assert Join([]) == [] by { JoinEmpty(); }
    while i < |sentences|
      invariant i <= |sentences| && |sent| <= failAt
      invariant botText == Join(sentences[..i])
      invariant havePrev <==> i > 0
      invariant havePrev ==> prev == sentences[i - 1]
      invariant sent == Unfinished(sentences[..if i == 0 then 0 else i - 1])
    {
      var s := sentences[i];
      assert sentences[..i + 1] == sentences[..i] + [s];
      JoinSnoc(sentences[..i], s);
      if |botText| > 0 {
        botText := botText + [SPACE];
      }
      botText := botText + s;
      if havePrev {
        if |sent| == failAt {
          return;
        }
        sent := sent + [TtsMessage(prev, false)];
      }
      prev, havePrev := s, true;
      i := i + 1;
    }
    assert sentences[..i] == sentences;
    if |sent| < failAt {
      sent := sent + [TtsMessage(if havePrev then prev else [], true)];
    }
  }

  lemma JoinEmpty()
    ensures Join([]) == []
  {
  }
}
