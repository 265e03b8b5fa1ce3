/** How runs of the body reader and the TTS pump end: they always do, a run without failures
    delivers everything, and a failed send can leave the reader stuck. */
module BotStreamProgress {
  import opened ByteStrings
  import opened Utf8
  import opened SentenceParsing
  import opened BotStream

  // ------------------------------------------------------------------- progress

  function ReaderRank(r: ReaderPc): nat {
    match r
    case Sending(_, _) => 3
    case Reading => 2
    case SendingLeftover(_) => 1
    case Returned(_) => 0
  }

  /** Steps left at most: two a read, two a sentence of the reply, and the ends of both loops. */
  function Measure(s: Stream, text: Bytes): int {
    2 * |s.body| + ReaderRank(s.reader) + 2 * (|Transcript(text)| - |HandedOver(s)|) + |s.channel|
    + if s.pump.pc.Ranging? then 1 else 0
  }

  lemma MeasureIsNat(s: Stream, text: Bytes)
    requires Inv(s, text)
    ensures Measure(s, text) >= 0
  {
    HandedOverIsPrefix(s, text);
  }

  /** Every step of reader or pump, failures included, uses up the measure. */
  lemma StepsDecrease(s: Stream, e: Event, text: Bytes)
    requires Inv(s, text) && Enabled(s, e)
    ensures Inv(Step(s, e), text)
    ensures Measure(Step(s, e), text) >= 0
    ensures if e.CancelContext? then Measure(Step(s, e), text) == Measure(s, text)
            else Measure(Step(s, e), text) < Measure(s, text)
  {
    StepKeepsInv(s, e, text);
    MeasureIsNat(Step(s, e), text);
    hide Inv, Measure, Step, Enabled;
    match e {
      case Pull(sendOk) => PullDecreases(s, sendOk, text);
      case PumpEnd(sendOk) => PumpEndDecreases(s, sendOk, text);
      case _ => ReaderDecreases(s, e, text);
    }
  }

  lemma ReaderDecreases(s: Stream, e: Event, text: Bytes)
    requires Enabled(s, e) && !e.Pull? && !e.PumpEnd?
    ensures if e.CancelContext? then Measure(Step(s, e), text) == Measure(s, text)
            else Measure(Step(s, e), text) < Measure(s, text)
  {
    hide Fed, Finalized, Transcript;
  }

  lemma PullDecreases(s: Stream, sendOk: bool, text: Bytes)
    requires Enabled(s, Pull(sendOk))
    ensures Measure(Step(s, Pull(sendOk)), text) < Measure(s, text)
  {
    hide Transcript, Received;
    PullKeepsReceived(s.pump, s.channel[0], sendOk);
  }

  lemma PumpEndDecreases(s: Stream, sendOk: bool, text: Bytes)
    requires Enabled(s, PumpEnd(sendOk))
    ensures Measure(Step(s, PumpEnd(sendOk)), text) < Measure(s, text)
  {
    hide Transcript, Closed;
    ClosedEnds(s.pump, sendOk);
  }

  lemma PullKeepsReceived(p: Pump, x: Bytes, sendOk: bool)
    ensures var q := Received(p, x, sendOk);
            q.received == p.received + [x] && (q.pc == p.pc || q.pc.SendFailed?)
  {
  }

  lemma ClosedEnds(p: Pump, sendOk: bool)
    ensures Closed(p, sendOk).received == p.received && Closed(p, sendOk).pc == if sendOk then Ended else SendFailed
  {
  }

  function OwnSteps(run: seq<Event>): nat {
    if run == [] then 0 else (if run[0].CancelContext? then 0 else 1) + OwnSteps(run[1..])
  }

  lemma {:induction false} StepsBounded(s: Stream, run: seq<Event>, text: Bytes)
    requires Inv(s, text) && Legal(s, run)
    ensures OwnSteps(run) + Measure(After(s, run), text) <= Measure(s, text)
    decreases |run|
  {
    hide Inv, Step, Enabled, Measure;
    if run != [] {
      StepsDecrease(s, run[0], text);
      StepsBounded(Step(s, run[0]), run[1..], text);
    }
  }

  /** So no run goes on for ever: a reply makes at most two steps for each read and each
      sentence, and three for the ends of the loops. */
  lemma RunsEnd(body: seq<Read>, run: seq<Event>)
    requires Legal(Start(body), run)
    ensures OwnSteps(run) <= 2 * |body| + 2 * |Transcript(BodyText(body))| + 3
  {
    hide Inv, Legal, After, Transcript, BodyText;
    StartInv(body);
    RunKeepsInv(Start(body), run, BodyText(body));
    StepsBounded(Start(body), run, BodyText(body));
    MeasureIsNat(After(Start(body), run), BodyText(body));
  }

  // ---------------------------------------------------------------- clean runs

  /** No send fails, no wait is given up and the context lives. */
  predicate Clean(e: Event) {
    match e
    case Pull(sendOk) => sendOk
    case PumpEnd(sendOk) => sendOk
    case AbortPush => false
    case AbortLeftover => false
    case CancelContext => false
    case _ => true
  }

  /** The reads are good until the body ends. */
  predicate EndsWell(body: seq<Read>) {
    EndIndex(body) < |body| && body[EndIndex(body)].end.Eof?
  }

  ghost predicate CleanInv(s: Stream) {
    && !s.ctxDone && !s.pump.pc.SendFailed?
    && match s.reader
       case Reading => EndsWell(s.body)
       case Sending(_, end) => end.Eof? || (end.More? && EndsWell(s.body))
       case SendingLeftover(_) => true
       case Returned(ok) => ok
  }

  lemma {:induction false} CleanRunKeepsInv(s: Stream, run: seq<Event>)
    requires CleanInv(s) && Legal(s, run) && forall k :: 0 <= k < |run| ==> Clean(run[k])
    ensures CleanInv(After(s, run))
    decreases |run|
  {
    hide Fed, Finalized;
    if run != [] {
      assert Clean(run[0]);
      CleanRunKeepsInv(Step(s, run[0]), run[1..]);
    }
  }

  /** If the body can be read to its end and every send succeeds, a run that can go no further
      has delivered the whole reply: TTS holds exactly its messages, the recorded text is their
      join, and the action is known. */
  lemma CleanDelivery(body: seq<Read>, run: seq<Event>)
    requires EndsWell(body)
    requires Legal(Start(body), run) && forall k :: 0 <= k < |run| ==> Clean(run[k])
    requires Stuck(After(Start(body), run))
    ensures var s := After(Start(body), run);
            var text := BodyText(body);
            && s.pump.pc.Ended? && s.reader == Returned(true)
            && s.pump.sent == Messages(Transcript(text))
            && s.pump.botText == Join(Transcript(text))
            && s.action == Finalized(ParserState(text, LastCut(text, |text|))).1
  {
    hide Inv, Legal, After, Stuck, Transcript, Finalized, LastCut, BodyText, Join, Messages;
    StartInv(body);
    RunKeepsInv(Start(body), run, BodyText(body));
    CleanRunKeepsInv(Start(body), run);
    StuckIff(After(Start(body), run), BodyText(body));
    Delivery(body, run);
  }

  /** From the bot to TTS: a reply printed as plain sentences, a pipe and an action, cut into
      reads anywhere, is spoken as exactly those sentences, each once and in order, with
      end-of-stream on the last; the recorded text is their join and the action is that one. */
  lemma PrintedIsSpoken(sentences: seq<Bytes>, action: Action, body: seq<Read>, run: seq<Event>)
    requires forall k :: 0 <= k < |sentences| ==> PlainSentence(sentences[k])
    requires EndsWell(body) && BodyText(body) == Print(sentences, action)
    requires Legal(Start(body), run) && forall k :: 0 <= k < |run| ==> Clean(run[k])
    requires Stuck(After(Start(body), run))
    ensures var s := After(Start(body), run);
            && |s.pump.sent| == (if sentences == [] then 1 else |sentences|)
            && (forall k :: 0 <= k < |sentences| ==>
                  s.pump.sent[k].text == sentences[k] && (s.pump.sent[k].eos <==> k == |sentences| - 1))
            && (sentences == [] ==> s.pump.sent == [TtsMessage([], true)])
            && s.pump.botText == Join(sentences) && s.action == action
  {
    hide Legal, After, Stuck, PlainSentence, BodyText, EndsWell, Clean, Finalized, LastCut, Transcript, Join, Print;
    CleanDelivery(body, run);
    PrintedTranscript(sentences, action);
  }

  lemma PrintedTranscript(sentences: seq<Bytes>, action: Action)
    requires forall k :: 0 <= k < |sentences| ==> PlainSentence(sentences[k])
    ensures var text := Print(sentences, action);
            && Transcript(text) == sentences
            && Finalized(ParserState(text, LastCut(text, |text|))).1 == action
  {
    hide PlainSentence, Finalized, LastCut, Sentences, Join;
    JoinParses(sentences);
    PrintedFinal(Join(sentences), action);
    assert sentences + [] == sentences;
  }

  // ------------------------------------------------------------ the stuck reader

  function Dots(n: nat): Bytes {
    seq(n, _ => 0x2E)
  }

  function DotSentences(n: nat): seq<Bytes> {
    seq(n, _ => [0x2E])
  }

  lemma OneDot(n: nat, i: nat)
    requires i < n
    ensures |Dots(n)| == n && DecodeRune(Dots(n), i) == Decoded(0x2E, 1) && Emit(Dots(n)[i..i + 1]) == [[0x2E]]
  {
    hide TrimSpace;
    AsciiTrimmed([0x2E]);
    assert Dots(n)[i..i + 1] == [0x2E];
  }

  /** Every dot is a sentence. */
  lemma {:induction false} ScanDots(n: nat, i: nat)
    requires i <= n == |Dots(n)|
    ensures Scan(Dots(n), i, i) == Scanned(DotSentences(n - i), n)
    decreases n - i
  {
    hide DecodeRune, Emit, Dots;
    if i < n {
      OneDot(n, i);
      ScanDots(n, i + 1);
      assert DotSentences(n - i) == [[0x2E]] + DotSentences(n - i - 1);
    }
  }

  lemma FedDots(n: nat)
    ensures Fed(FRESH, Dots(n)) == (ParserState(Dots(n), n), DotSentences(n))
  {
    hide Scan;
    ScanDots(n, 0);
    assert FRESH.full + Dots(n) == Dots(n);
  }

  function Cons(s: Stream, e: Event, run: seq<Event>): (r: seq<Event>)
    requires Enabled(s, e)
    ensures Legal(Step(s, e), run) ==> Legal(s, r) && After(s, r) == After(Step(s, e), run)
  {
    var r := [e] + run;
    assert r[1..] == run;
    r
  }

  /** With nobody reading, pushes go on until the channel is full. */
  lemma {:induction false} FillUp(s: Stream) returns (run: seq<Event>)
    requires s.reader.Sending? && |s.channel| <= CHANNEL_CAPACITY
    requires |s.reader.outbox| > CHANNEL_CAPACITY - |s.channel|
    ensures Legal(s, run)
    ensures var t := After(s, run);
            && t.pump == s.pump && t.ctxDone == s.ctxDone && |t.channel| == CHANNEL_CAPACITY
            && t.reader.Sending? && t.reader.outbox != []
    decreases CHANNEL_CAPACITY - |s.channel|
  {
    run := [];
    if |s.channel| < CHANNEL_CAPACITY {
      var rest := FillUp(Step(s, Push));
      run := Cons(s, Push, rest);
    }
  }

  /** The stuck state is reached: eleven sentences in one read, and the send of the first one
      fails. The pump leaves, the channel fills up, and only the end of the context frees the
      reader. */
  lemma StuckReaderWitness() returns (run: seq<Event>)
    ensures Legal(Start([Read(Dots(11), More)]), run)
    ensures var s := After(Start([Read(Dots(11), More)]), run);
            && Stuck(s) && s.pump.pc.SendFailed? && !s.ctxDone
            && s.reader.Sending? && s.reader.outbox != [] && |s.channel| == 8
  {
    hide Legal, After, Stuck, Fed;
    var body := [Read(Dots(11), More)];
    var s0 := Start(body);
    FedDots(11);
    var s1 := Step(s0, ReadBody);
    assert s1.reader == Sending(DotSentences(11), More);
    var s2 := Step(s1, Push);
    var s3 := Step(s2, Pull(true));
    var s4 := Step(s3, Push);
    var s5 := Step(s4, Pull(false));
    assert s5.pump.pc.SendFailed? && s5.channel == [] && |s5.reader.outbox| == 9;
    var rest := FillUp(s5);
    run := Cons(s0, ReadBody, Cons(s1, Push, Cons(s2, Pull(true), Cons(s3, Push, Cons(s4, Pull(false), rest)))));
    StartInv(body);
    RunKeepsInv(s0, run, BodyText(body));
    hide Step, Inv, Enabled;
    StuckIff(After(s0, run), BodyText(body));
  }
}
