/** internal/pipeline/bargein.go and the barge-in points of internal/pipeline/turn.go
    `Speak`: a watcher reads ASR results and trips the trigger; `Speak` meanwhile waits for
    the bot, the audio and the playback, and looks at the trigger in every phase. */
module BargeIn {
  import Utf8
  import SentenceParsing

  type Action = SentenceParsing.Action

  datatype AsrResult = AsrResult(text: string, isFinal: bool)

  // ------------------------------------------------------------ words and texts

  predicate IsSpace(c: char) {
    Utf8.IsSpace(c as int)
  }

  function Trim(s: string): (r: string)
    ensures r != "" ==> !IsSpace(r[0]) && !IsSpace(r[|r| - 1])
    ensures r == "" <==> forall k :: 0 <= k < |s| ==> IsSpace(s[k])
  {
    if s == "" then ""
    else if IsSpace(s[0]) then Trim(s[1..])
    else if IsSpace(s[|s| - 1]) then Trim(s[..|s| - 1])
    else s
  }

  /** White-space separated words: the places where one starts. */
  function CountWords(s: string): (n: nat)
    ensures n > 0 <==> exists k :: 0 <= k < |s| && !IsSpace(s[k])
  {
    if s == "" then 0
    else
      var last := |s| - 1;
      CountWords(s[..last]) + if !IsSpace(s[last]) && (last == 0 || IsSpace(s[last - 1])) then 1 else 0
  }

  /** Trimming cuts white space off both ends and nothing else. */
  lemma {:induction false} TrimKeepsCore(s: string) returns (i: nat)
    ensures i + |Trim(s)| <= |s| && Trim(s) == s[i..i + |Trim(s)|]
    ensures forall k :: 0 <= k < i || i + |Trim(s)| <= k < |s| ==> IsSpace(s[k])
    decreases |s|
  {
    hide IsSpace;
    if s == "" {
      i := 0;
    } else if IsSpace(s[0]) {
      var j := TrimKeepsCore(s[1..]);
      i := j + 1;
      assert forall k :: 1 <= k < |s| ==> s[k] == s[1..][k - 1];
    } else if IsSpace(s[|s| - 1]) {
      i := TrimKeepsCore(s[..|s| - 1]);
      assert forall k :: 0 <= k < |s| - 1 ==> s[k] == s[..|s| - 1][k];
    } else {
      i := 0;
    }
  }

  /** A run without white space is one word. */
  lemma {:induction false} OneWord(w: string)
    requires w != "" && forall k :: 0 <= k < |w| ==> !IsSpace(w[k])
    ensures CountWords(w) == 1
  {
    hide IsSpace;
    if |w| > 1 {
      OneWord(w[..|w| - 1]);
    }
  }

  /** Words add up across a boundary that touches white space. */
  lemma {:induction false} WordsAdd(a: string, b: string)
    requires a == "" || b == "" || IsSpace(a[|a| - 1]) || IsSpace(b[0])
    ensures CountWords(a + b) == CountWords(a) + CountWords(b)
    decreases |b|
  {
    hide IsSpace;
    if b == "" {
      assert a + b == a;
    } else {
      var n := |b| - 1;
      assert (a + b)[..|a| + n] == a + b[..n];
      assert (a + b)[|a| + n] == b[n];
      if n > 0 {
        assert (a + b)[|a| + n - 1] == b[n - 1];
      } else if a != "" {
        assert (a + b)[|a| - 1] == a[|a| - 1];
      }
      WordsAdd(a, b[..n]);
    }
  }

  /** Non-positive thresholds mean three words. */
  function EffectiveMinWords(minWords: int): (n: nat)
    ensures n >= 1 && (minWords >= 1 ==> n == minWords) && (minWords < 1 ==> n == 3)
  {
    if minWords <= 0 then 3 else minWords
  }

  // -------------------------------------------------------------- reference

  predicate Trips(r: AsrResult, minWords: nat) {
    CountWords(Trim(r.text)) >= minWords
  }

  /** The first result with enough words, or the number of results. */
  function TriggerIndex(rs: seq<AsrResult>, minWords: nat): (k: nat)
    ensures k <= |rs|
  {
    if rs == [] then 0
    else
      var n := |rs| - 1;
      var k := TriggerIndex(rs[..n], minWords);
      if k < n || Trips(rs[n], minWords) then k else n + 1
  }

  /** It is the first, and it has enough words. */
  lemma {:induction false} TriggerIsFirst(rs: seq<AsrResult>, minWords: nat)
    ensures var k := TriggerIndex(rs, minWords);
            && (k < |rs| ==> CountWords(Trim(rs[k].text)) >= minWords)
            && forall i :: 0 <= i < k ==> CountWords(Trim(rs[i].text)) < minWords
  {
    hide Trim, CountWords;
    if rs != [] {
      var n := |rs| - 1;
      TriggerIsFirst(rs[..n], minWords);
      assert forall i :: 0 <= i < n ==> rs[..n][i] == rs[i];
    }
  }

  predicate Fired(rs: seq<AsrResult>, minWords: nat) {
    TriggerIndex(rs, minWords) < |rs|
  }

  /** The text that tripped the trigger. */
  function PartialText(rs: seq<AsrResult>, minWords: nat): string {
    var k := TriggerIndex(rs, minWords);
    if k < |rs| then Trim(rs[k].text) else ""
  }

  /** The last non-blank text among the results. */
  function LastText(rs: seq<AsrResult>): (s: string)
    ensures s == "" <==> forall k :: 0 <= k < |rs| ==> Trim(rs[k].text) == ""
  {
    if rs == [] then ""
    else
      var t := Trim(rs[|rs| - 1].text);
      if t != "" then t else LastText(rs[..|rs| - 1])
  }

  /** It is the text of the last result that is not blank. */
  lemma {:induction false} LastTextIs(rs: seq<AsrResult>, k: nat)
    requires k < |rs| && Trim(rs[k].text) != "" && forall i :: k < i < |rs| ==> Trim(rs[i].text) == ""
    ensures LastText(rs) == Trim(rs[k].text)
    decreases |rs|
  {
    hide Trim;
    if k < |rs| - 1 {
      LastTextIs(rs[..|rs| - 1], k);
    }
  }

  /** No final result at or after the trigger yet. */
  ghost predicate StillOpen(rs: seq<AsrResult>, minWords: nat) {
    forall k :: TriggerIndex(rs, minWords) <= k < |rs| ==> !rs[k].isFinal
  }

  /** The last result comes at or after the trigger, and none in between is final. */
  ghost predicate Current(rs: seq<AsrResult>, minWords: nat, text: string, isFinal: bool) {
    var n := |rs| - 1;
    && n >= TriggerIndex(rs, minWords)
    && text == Trim(rs[n].text) && isFinal == rs[n].isFinal
    && forall k :: TriggerIndex(rs, minWords) <= k < n ==> !rs[k].isFinal
  }

  /** The last result is the first final one at or after the trigger. */
  ghost predicate EndsFinal(rs: seq<AsrResult>, minWords: nat) {
    |rs| > 0 && Current(rs, minWords, Trim(rs[|rs| - 1].text), true)
  }

  lemma ReceivedOne(rs: seq<AsrResult>, r: AsrResult, minWords: nat)
    requires StillOpen(rs, minWords)
    ensures var all := rs + [r];
            && LastText(all) == (if Trim(r.text) != "" then Trim(r.text) else LastText(rs))
            && (Fired(all, minWords) <==> Fired(rs, minWords) || Trips(r, minWords))
            && (Fired(all, minWords) ==> Current(all, minWords, Trim(r.text), r.isFinal))
            && (!Fired(all, minWords) ==> StillOpen(all, minWords))
            && PartialText(all, minWords) == if Fired(rs, minWords) then PartialText(rs, minWords)
                                             else if Trips(r, minWords) then Trim(r.text) else ""
  {
    hide Trim, Trips;
    var all := rs + [r];
    assert all[..|rs|] == rs;
    assert forall k :: 0 <= k < |rs| ==> all[k] == rs[k];
  }

  lemma Resolves(rs: seq<AsrResult>, minWords: nat, text: string, isFinal: bool)
    requires Current(rs, minWords, text, isFinal)
    ensures Fired(rs, minWords)
    ensures if isFinal then EndsFinal(rs, minWords) else StillOpen(rs, minWords)
    ensures text != "" ==> LastText(rs) == text
  {
    hide Trim;
  }

  lemma OpenIsNotFinal(rs: seq<AsrResult>, minWords: nat)
    ensures !(StillOpen(rs, minWords) && EndsFinal(rs, minWords))
  {
  }

  // ------------------------------------------------------------ the watcher alone

  class BargeInMonitor {
    const minWords: nat
    var triggered: bool
    var triggerCloses: nat
    var transcript: string
    var finals: seq<string>   // everything sent on the final channel

    constructor (minWords: int)
      ensures this.minWords == EffectiveMinWords(minWords)
      ensures !triggered && triggerCloses == 0 && transcript == "" && finals == []
    {
      this.minWords := EffectiveMinWords(minWords);
      triggered, triggerCloses, transcript, finals := false, 0, "", [];
    }

    /** The watcher loop over the results until a final ends it or the stream closes;
        `used` results have been read. */
    method Watch(rs: seq<AsrResult>) returns (used: nat)
      requires minWords >= 1 && !triggered && triggerCloses == 0 && transcript == "" && finals == []
      modifies this
      ensures used <= |rs|
      ensures triggered <==> Fired(rs[..used], minWords)
      ensures used < |rs| ==> EndsFinal(rs[..used], minWords)
      ensures EndsFinal(rs[..used], minWords) || StillOpen(rs[..used], minWords)
      ensures triggerCloses == if triggered then 1 else 0
      ensures finals == if triggered then [LastText(rs[..used])] else []
      ensures triggered ==> finals[0] != "" && transcript != ""
      ensures transcript == if EndsFinal(rs[..used], minWords) then LastText(rs[..used])
                            else PartialText(rs[..used], minWords)
    {
      hide Trim, CountWords, Fired, StillOpen, Current, EndsFinal, LastText, TriggerIndex, PartialText;
      var lastText := "";
      used := 0;
      NothingYet(minWords);
      assert rs[..0] == [];
      while used < |rs|
        invariant used <= |rs|
        invariant lastText == LastText(rs[..used])
        invariant triggered <==> Fired(rs[..used], minWords)
        invariant StillOpen(rs[..used], minWords)
        invariant triggerCloses == if triggered then 1 else 0
        invariant triggered ==> lastText != "" && transcript != ""
        invariant transcript == PartialText(rs[..used], minWords) && (!triggered ==> transcript == "")
        invariant finals == []
      {
        var res := rs[used];
        ReceivedOne(rs[..used], res, minWords);
        assert rs[..used + 1] == rs[..used] + [res];
        used := used + 1;
        var text := Trim(res.text);
        if text != "" {
          lastText := text;
        }
        if !triggered {
          if text == "" || CountWords(text) < minWords {
            assert !Trips(res, minWords) by { BlankHasNoWords(); }
            continue;
          }
          triggered := true;
          transcript := text;
          triggerCloses := triggerCloses + 1;
        }
        Resolves(rs[..used], minWords, text, res.isFinal);
        if res.isFinal {
          var final := Trim(res.text);
          if final == "" {
            final := lastText;
          }
          transcript := final;
          finals := finals + [final];
          return;
        }
      }
      OpenIsNotFinal(rs[..used], minWords);
      if triggered && lastText != "" {
        finals := finals + [lastText];
      }
    }
  }

  lemma NothingYet(minWords: nat)
    ensures LastText([]) == "" && !Fired([], minWords) && StillOpen([], minWords) && PartialText([], minWords) == ""
  {
  }

  lemma BlankHasNoWords()
    ensures CountWords("") == 0
  {
  }

  // -------------------------------------------------- the watcher racing with Speak

  datatype Watcher =
    | Receiving
    | StoringPartial(text: string, isFinal: bool)
    | ClosingTrigger(text: string, isFinal: bool)
    | Deciding(text: string, isFinal: bool)
    | Emitting(final: string)
    | WatcherExited

  datatype BotError = NoError | ContextCanceled | OtherError

  datatype Speaker =
    | Selecting
    | Checking
    | AwaitingAction
    | AwaitingPump
    | AwaitingAudio
    | AwaitingPlayback
    | AwaitingFinal
    | Returned(ok: bool)

  datatype Turn = Turn(
    minWords: nat,
    watcher: Watcher,
    received: seq<AsrResult>,
    lastText: string,
    triggered: bool,
    transcript: string,
    triggerCloses: nat,
    finalCh: seq<string>,
    emitted: seq<string>,
    speaker: Speaker,
    bargeFired: bool,
    action: Action,
    botError: BotError,
    audio: bool,          // the first TTS frame has come
    pending: string)

  function Start(minWords: int, pending: string): Turn {
    Turn(EffectiveMinWords(minWords), Receiving, [], "", false, "", 0, [], [], Selecting, false,
         SentenceParsing.Chat, NoError, false, pending)
  }

  datatype Event =
    | Receive(res: AsrResult)
    | StorePartial
    | CloseTrigger
    | Decide
    | Emit
    | StreamCloses
    | ActionArrives(action: Action, err: BotError)
    | TriggerSeen
    | CheckTrigger
    | PumpDone
    | FirstAudio
    | AudioDone(sinkOpened: bool)
    | PlaybackOver
    | FinalArrives
    | FinalTimeout
    | CallerContextDone

  predicate TriggerReady(t: Turn) {
    t.triggerCloses > 0
  }

  /** The audio goroutine runs until `Speak` has seen its end. */
  predicate AudioRuns(t: Turn) {
    !t.speaker.AwaitingPlayback? && !t.speaker.AwaitingFinal? && !t.speaker.Returned?
  }

  predicate Enabled(t: Turn, e: Event) {
    match e
    case Receive(_) => t.watcher.Receiving?
    case StorePartial => t.watcher.StoringPartial?
    case CloseTrigger => t.watcher.ClosingTrigger?
    case Decide => t.watcher.Deciding?
    case Emit => t.watcher.Emitting?
    case StreamCloses => t.watcher.Receiving?
    case ActionArrives(_, _) => t.speaker.Selecting? || t.speaker.AwaitingAction?
    case TriggerSeen =>
      TriggerReady(t) && (t.speaker.Selecting? || t.speaker.AwaitingAudio? || t.speaker.AwaitingPlayback?)
    case CheckTrigger => t.speaker.Checking?
    case PumpDone => t.speaker.AwaitingPump?
    case FirstAudio => AudioRuns(t)
    case AudioDone(_) => t.speaker.AwaitingAudio?
    case PlaybackOver => t.speaker.AwaitingPlayback?
    case FinalArrives => t.speaker.AwaitingFinal? && t.finalCh != []
    case FinalTimeout => t.speaker.AwaitingFinal?
    case CallerContextDone => t.speaker.AwaitingAudio? || t.speaker.AwaitingPlayback?
  }

  /** The end of `Speak` after a barge-in: the action survives only as ENDCALL. */
  function Finished(t: Turn, pending: string): Turn {
    t.(pending := pending, speaker := Returned(true),
       action := if t.action.EndCall? then SentenceParsing.EndCall else SentenceParsing.Chat)
  }

  function AfterAudio(t: Turn): Turn {
    if t.bargeFired then t.(speaker := AwaitingFinal) else t.(speaker := Returned(true))
  }

  /** The watcher's send on the final channel, which holds one text and drops others. */
  function Sent(t: Turn, final: string): Turn {
    t.(finalCh := if t.finalCh == [] then [final] else t.finalCh,
       emitted := t.emitted + [final], watcher := WatcherExited)
  }

  function Step(t: Turn, e: Event): Turn
    requires Enabled(t, e)
  {
    match e
    case Receive(res) =>
      var text := Trim(res.text);
      var u := t.(received := t.received + [res], lastText := if text != "" then text else t.lastText);
      if t.triggered then u.(watcher := Deciding(text, res.isFinal))
      else if text == "" || CountWords(text) < t.minWords then u
      else u.(triggered := true, watcher := StoringPartial(text, res.isFinal))
    case StorePartial => t.(transcript := t.watcher.text, watcher := ClosingTrigger(t.watcher.text, t.watcher.isFinal))
    case CloseTrigger =>
      t.(triggerCloses := t.triggerCloses + 1, watcher := Deciding(t.watcher.text, t.watcher.isFinal))
    case Decide =>
      if t.watcher.isFinal then
        var final := if t.watcher.text == "" then t.lastText else t.watcher.text;
        t.(transcript := final, watcher := Emitting(final))
      else t.(watcher := Receiving)
    case Emit => Sent(t, t.watcher.final)
    case StreamCloses =>
      if t.triggered && t.lastText != "" then Sent(t, t.lastText) else t.(watcher := WatcherExited)
    case ActionArrives(action, err) =>
      if t.speaker.Selecting? then t.(action := action, botError := err, speaker := Checking)
      else t.(action := action, botError := if err.ContextCanceled? then NoError else err, speaker := AwaitingPump)
    case TriggerSeen =>
      var u := t.(bargeFired := true);
      if t.speaker.Selecting? then u.(speaker := AwaitingAction)
      else if t.speaker.AwaitingPlayback? then AfterAudio(u)
      else u
    case CheckTrigger => t.(bargeFired := t.bargeFired || TriggerReady(t), speaker := AwaitingPump)
    case PumpDone => if t.botError.NoError? then t.(speaker := AwaitingAudio) else t.(speaker := Returned(false))
    case FirstAudio => t.(audio := true)
    case AudioDone(sinkOpened) =>
      if !t.bargeFired && sinkOpened then t.(speaker := AwaitingPlayback) else AfterAudio(t)
    case PlaybackOver => AfterAudio(t)
    case FinalArrives => Finished(t.(finalCh := []), t.finalCh[0])
    case FinalTimeout => Finished(t, t.transcript)
    case CallerContextDone => t.(speaker := Returned(false))
  }

  predicate Legal(t: Turn, run: seq<Event>)
    decreases |run|
  {
    run == [] || (Enabled(t, run[0]) && Legal(Step(t, run[0]), run[1..]))
  }

  function After(t: Turn, run: seq<Event>): Turn
    requires Legal(t, run)
    decreases |run|
  {
    if run == [] then t else After(Step(t, run[0]), run[1..])
  }

  /** What the watcher has stored: the text that tripped the trigger, or its final once it has
      decided on one. */
  ghost function StoredText(t: Turn): string {
    if !t.triggered || t.watcher.StoringPartial? then ""
    else if t.watcher.Emitting? || (t.watcher.WatcherExited? && EndsFinal(t.received, t.minWords)) then
      LastText(t.received)
    else PartialText(t.received, t.minWords)
  }

  ghost predicate WatcherInv(t: Turn) {
    && t.minWords >= 1
    && t.transcript == StoredText(t)
    && t.lastText == LastText(t.received)
    && (t.triggered <==> Fired(t.received, t.minWords))
    && (t.triggered ==> t.lastText != "")
    && t.triggerCloses == (if t.triggered && !t.watcher.StoringPartial? && !t.watcher.ClosingTrigger? then 1 else 0)
    && (t.transcript != "" <==> t.triggered && !t.watcher.StoringPartial?)
    && (t.finalCh == [] || t.finalCh == t.emitted)
    && match t.watcher
       case Receiving => t.emitted == [] && StillOpen(t.received, t.minWords)
       case WatcherExited =>
         && t.emitted == (if t.triggered then [LastText(t.received)] else [])
         && (EndsFinal(t.received, t.minWords) || StillOpen(t.received, t.minWords))
       case Emitting(final) =>
         t.emitted == [] && t.triggered && final == t.lastText && EndsFinal(t.received, t.minWords)
       case StoringPartial(text, f) =>
         && t.emitted == [] && t.triggered && Current(t.received, t.minWords, text, f)
         && text == PartialText(t.received, t.minWords) != ""
       case ClosingTrigger(text, f) =>
         t.emitted == [] && t.triggered && Current(t.received, t.minWords, text, f) && text != ""
       case Deciding(text, f) => t.emitted == [] && t.triggered && Current(t.received, t.minWords, text, f)
  }

  ghost predicate SpeakerInv(t: Turn, before: string) {
    && (t.bargeFired ==> TriggerReady(t))
    && (t.speaker.AwaitingFinal? ==> t.bargeFired)
    && (t.speaker.Selecting? || t.speaker.Checking? || t.speaker.AwaitingPlayback? ==> !t.bargeFired)
    && (if t.bargeFired && t.speaker == Returned(true) then t.pending != "" else t.pending == before)
  }

  predicate OfWatcher(e: Event) {
    e.Receive? || e.StorePartial? || e.CloseTrigger? || e.Decide? || e.Emit? || e.StreamCloses?
  }

  lemma ReceiveStep(t: Turn, res: AsrResult)
    requires WatcherInv(t) && Enabled(t, Receive(res))
    ensures WatcherInv(Step(t, Receive(res)))
    ensures TriggerReady(t) ==> TriggerReady(Step(t, Receive(res)))
  {
    hide Trim, CountWords, Fired, StillOpen, Current, EndsFinal, LastText, PartialText;
    BlankHasNoWords();
    ReceivedOne(t.received, res, t.minWords);
  }

  lemma DecideStep(t: Turn)
    requires WatcherInv(t) && Enabled(t, Decide)
    ensures WatcherInv(Step(t, Decide)) && (TriggerReady(t) ==> TriggerReady(Step(t, Decide)))
  {
    hide Trim, CountWords, Fired, StillOpen, Current, EndsFinal, LastText, PartialText;
    Resolves(t.received, t.minWords, t.watcher.text, t.watcher.isFinal);
  }

  lemma PlainStep(t: Turn, e: Event)
    requires WatcherInv(t) && Enabled(t, e)
    requires e.StorePartial? || e.CloseTrigger? || e.Emit? || e.StreamCloses?
    ensures WatcherInv(Step(t, e)) && (TriggerReady(t) ==> TriggerReady(Step(t, e)))
  {
    OpenIsNotFinal(t.received, t.minWords);
    hide Trim, CountWords, Fired, StillOpen, Current, EndsFinal, LastText, PartialText;
  }

  /** The watcher's own steps; `Speak` only ever gets to see the trigger open or closed. */
  lemma WatcherStep(t: Turn, e: Event)
    requires WatcherInv(t) && Enabled(t, e) && OfWatcher(e)
    ensures WatcherInv(Step(t, e)) && (TriggerReady(t) ==> TriggerReady(Step(t, e)))
  {
    hide Trim, CountWords, Fired, StillOpen, Current, EndsFinal, LastText, PartialText, WatcherInv, Step, Enabled;
    match e {
      case Receive(res) => ReceiveStep(t, res);
      case Decide => DecideStep(t);
      case _ => PlainStep(t, e);
    }
  }

  /** A step of `Speak` changes nothing of the watcher's but may take the final. */
  lemma SpeakerStepFrame(t: Turn, e: Event)
    requires Enabled(t, e) && !OfWatcher(e)
    ensures var u := Step(t, e);
            && u.(speaker := t.speaker, bargeFired := t.bargeFired, action := t.action, botError := t.botError,
                  audio := t.audio, pending := t.pending, finalCh := t.finalCh) == t
            && (u.finalCh == t.finalCh || u.finalCh == [])
  {
  }

  lemma SpeakerStep(t: Turn, e: Event, before: string)
    requires SpeakerInv(t, before) && Enabled(t, e) && !OfWatcher(e)
    requires TriggerReady(t) ==> t.transcript != ""
    requires forall k :: 0 <= k < |t.finalCh| ==> t.finalCh[k] != ""
    ensures SpeakerInv(Step(t, e), before)
  {
  }

  lemma StepKeepsInv(t: Turn, e: Event, before: string)
    requires WatcherInv(t) && SpeakerInv(t, before) && Enabled(t, e)
    ensures WatcherInv(Step(t, e)) && SpeakerInv(Step(t, e), before)
  {
    hide Trim, CountWords, Fired, StillOpen, Current, EndsFinal, LastText, PartialText, Step, Enabled;
    if OfWatcher(e) {
      WatcherStep(t, e);
      WatcherStepFrame(t, e);
    } else {
      SpeakerStepFrame(t, e);
      SpeakerStep(t, e, before);
    }
  }

  lemma WatcherStepFrame(t: Turn, e: Event)
    requires Enabled(t, e) && OfWatcher(e)
    ensures var u := Step(t, e);
            u.speaker == t.speaker && u.bargeFired == t.bargeFired && u.pending == t.pending
  {
    hide Trim, CountWords;
  }

  lemma {:induction false} RunKeepsInv(t: Turn, run: seq<Event>, before: string)
    requires WatcherInv(t) && SpeakerInv(t, before) && Legal(t, run)
    ensures WatcherInv(After(t, run)) && SpeakerInv(After(t, run), before)
    decreases |run|
  {
    hide WatcherInv, SpeakerInv, Enabled, Step;
    if run != [] {
      StepKeepsInv(t, run[0], before);
      RunKeepsInv(Step(t, run[0]), run[1..], before);
    }
  }

  /** For every result sequence and interleaving: the trigger closes at most once, and only
      once a result has enough words; a watcher that has exited after a trigger has emitted
      exactly one text, the last non-blank one up to the first final at or after the trigger. */
  lemma TriggerAndFinal(minWords: int, pending: string, run: seq<Event>)
    requires Legal(Start(minWords, pending), run)
    ensures var t := After(Start(minWords, pending), run);
            && t.minWords == EffectiveMinWords(minWords)
            && t.triggerCloses <= 1
            && (TriggerReady(t) ==> Fired(t.received, t.minWords))
            && (t.watcher.WatcherExited? || t.watcher.Receiving? ==>
                  (TriggerReady(t) <==> Fired(t.received, t.minWords)))
            && (t.watcher.WatcherExited? && TriggerReady(t) ==>
                  && t.emitted == [LastText(t.received)] && t.emitted[0] != ""
                  && (StillOpen(t.received, t.minWords) || EndsFinal(t.received, t.minWords)))
            && (!TriggerReady(t) ==> t.emitted == [])
  {
    hide Trim, CountWords, Fired, StillOpen, Current, EndsFinal, LastText, PartialText;
    StartInv(minWords, pending);
    RunKeepsInv(Start(minWords, pending), run, pending);
    RunKeepsMinWords(Start(minWords, pending), run);
  }

  lemma StartInv(minWords: int, pending: string)
    ensures WatcherInv(Start(minWords, pending)) && SpeakerInv(Start(minWords, pending), pending)
  {
  }

  lemma StepKeepsMinWords(t: Turn, e: Event)
    requires Enabled(t, e)
    ensures Step(t, e).minWords == t.minWords
  {
    hide Trim, CountWords;
  }

  lemma {:induction false} RunKeepsMinWords(t: Turn, run: seq<Event>)
    requires Legal(t, run)
    ensures After(t, run).minWords == t.minWords
    decreases |run|
  {
    hide Step, Enabled;
    if run != [] {
      StepKeepsMinWords(t, run[0]);
      RunKeepsMinWords(Step(t, run[0]), run[1..]);
    }
  }

  /** A `Speak` that returns normally with barge-in fired leaves a non-empty pending
      transcript, also when the wait for the final times out; one that returns otherwise
      leaves the pending transcript alone. Barge-in never fires without a trigger. */
  lemma LeavesSomeTranscript(minWords: int, pending: string, run: seq<Event>)
    requires Legal(Start(minWords, pending), run)
    ensures var t := After(Start(minWords, pending), run);
            && (t.bargeFired ==> TriggerReady(t))
            && (t.speaker == Returned(true) ==> if t.bargeFired then t.pending != "" else t.pending == pending)
            && (t.speaker == Returned(false) ==> t.pending == pending)
  {
    hide Trim, CountWords, Fired, StillOpen, Current, EndsFinal, LastText, PartialText;
    StartInv(minWords, pending);
    RunKeepsInv(Start(minWords, pending), run, pending);
  }

  /** A trigger (`Seeable`) that closes before `Speak` has looked for it after the bot's answer
      is never missed, and barge-in once fired stays fired: a normal return then leaves a transcript. */
  lemma EarlyTriggerFires(minWords: int, pending: string, before: seq<Event>, run: seq<Event>)
    requires Legal(Start(minWords, pending), before)
    requires var t := After(Start(minWords, pending), before); Legal(t, run) && Seeable(t)
    ensures var u := After(After(Start(minWords, pending), before), run);
            u.speaker == Returned(true) ==> u.bargeFired && u.pending != ""
  {
    var t := After(Start(minWords, pending), before);
    StartInv(minWords, pending);
    RunKeepsInv(Start(minWords, pending), before, pending);
    RunKeepsInv(t, run, pending);
    WillFire(t, run);
  }

  ghost predicate Seeable(t: Turn) {
    TriggerReady(t) && (t.speaker.Selecting? || t.speaker.Checking? || t.bargeFired)
  }

  lemma StaysSeeable(t: Turn, e: Event)
    requires Enabled(t, e) && Seeable(t)
    ensures Seeable(Step(t, e))
  {
    hide Trim, CountWords;
  }

  lemma {:induction false} WillFire(t: Turn, run: seq<Event>)
    requires Legal(t, run) && Seeable(t)
    ensures Seeable(After(t, run))
    decreases |run|
  {
    hide Step, Enabled, Seeable;
    if run != [] {
      StaysSeeable(t, run[0]);
      WillFire(Step(t, run[0]), run[1..]);
    }
  }

  /** The transcript `Speak` leaves is the watcher's final, or on a timeout the partial that
      is current then; both are texts of results at or after the trigger. */
  lemma TimeoutStillHasText(t: Turn, before: string)
    requires WatcherInv(t) && SpeakerInv(t, before) && t.speaker.AwaitingFinal?
    ensures Step(t, FinalTimeout).pending != "" && Step(t, FinalTimeout).speaker == Returned(true)
    ensures t.finalCh != [] ==> Step(t, FinalArrives).pending == t.finalCh[0] != ""
  {
  }
}
