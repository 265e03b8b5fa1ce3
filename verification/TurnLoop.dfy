/** The turn bookkeeping of internal/pipeline/turn.go (`Listen`, `RunTurn`, `RunGreeting`,
    `speakAndRecord`) and the greeting-then-turns loop of internal/pipeline/session_runner.go.
    What ASR, bot and caller do is a script given from outside. */
module TurnLoop {
  import SentenceParsing
  import BargeIn

  type Action = SentenceParsing.Action

  /** How one `Speak` turned out; `captured` is the transcript a barge-in left. */
  datatype SpeakOutcome =
    | SpeakError
    | Spoke(action: Action, barged: bool, captured: string, audio: bool, botText: string)

  /** What the interleavings of `Speak` and the barge-in watcher allow. */
  predicate Possible(o: SpeakOutcome) {
    o.Spoke? && o.barged ==> o.captured != ""
  }

  /** The outcome that a finished barge-in race amounts to. */
  function OutcomeOf(t: BargeIn.Turn, botText: string): SpeakOutcome
    requires t.speaker.Returned?
  {
    if t.speaker.ok then Spoke(t.action, t.bargeFired, if t.bargeFired then t.pending else "", t.audio, botText)
    else SpeakError
  }

  /** Every finished race is a possible outcome, with its own action, transcript and audio. */
  lemma RacesArePossible(minWords: int, run: seq<BargeIn.Event>, botText: string)
    requires BargeIn.Legal(BargeIn.Start(minWords, ""), run)
    requires BargeIn.After(BargeIn.Start(minWords, ""), run).speaker.Returned?
    ensures var t := BargeIn.After(BargeIn.Start(minWords, ""), run);
            var o := OutcomeOf(t, botText);
            && Possible(o)
            && (o.Spoke? <==> t.speaker == BargeIn.Returned(true))
            && (o.Spoke? ==>
                  && o.action == t.action && o.barged == t.bargeFired && o.audio == t.audio && o.botText == botText
                  && (o.barged ==> o.captured == t.pending))
  {
    BargeIn.LeavesSomeTranscript(minWords, "", run);
  }

  datatype Heard = ListenError | Heard(text: string)

  /** One round of the loop: whether the session was found cancelled, what `Listen` would
      return, and how `Speak` would turn out. */
  datatype Round = Round(canceled: bool, heard: Heard, spoke: SpeakOutcome)

  datatype TurnRecord = TurnRecord(
    index: nat,
    userText: string,
    botText: string,
    action: Action,
    bargedIn: bool,
    asrFinalAt: bool,
    firstAudioAt: bool)

  /** A request to the bot, with the flag that forces a short filler. */
  datatype Ask = Ask(message: string, forceShort: bool)

  datatype Call = Call(
    pending: string,
    lastBotText: string,
    lastBargedIn: bool,
    lastAsrFinalAt: bool,
    lastFirstAudioAt: bool,
    history: seq<TurnRecord>,
    asked: seq<Ask>)

  const NEW_CALL := Call("", "", false, false, false, [], [])

  datatype TurnEnd = Continue | EndOfCall | Failed

  // ---------------------------------------------------------- the steps as functions

  function AfterSpeak(c: Call, message: string, o: SpeakOutcome): Call {
    var asked := c.(asked := c.asked + [Ask(message, c.lastBargedIn && !c.lastFirstAudioAt)],
                    lastFirstAudioAt := false);
    match o
    case SpeakError => asked
    case Spoke(action, barged, captured, audio, botText) =>
      asked.(lastFirstAudioAt := audio, pending := if barged then captured else c.pending,
             lastBotText := botText, lastBargedIn := barged)
  }

  function AfterSpeakAndRecord(c: Call, message: string, o: SpeakOutcome): (r: (Call, TurnEnd)) {
    var d := AfterSpeak(if message == "" then c.(lastAsrFinalAt := false) else c, message, o);
    if o.SpeakError? then (d, Failed)
    else
      (d.(history := d.history + [TurnRecord(|d.history|, message, d.lastBotText, o.action, d.lastBargedIn,
                                             d.lastAsrFinalAt, d.lastFirstAudioAt)]),
       if o.action.EndCall? then EndOfCall else Continue)
  }

  function AfterTurn(c: Call, hasSource: bool, heard: Heard, o: SpeakOutcome): (r: (Call, TurnEnd)) {
    if c.pending != "" then AfterSpeakAndRecord(c.(pending := "", lastAsrFinalAt := true), c.pending, o)
    else if !hasSource then AfterSpeakAndRecord(c, "", o)
    else
      match heard
      case ListenError => (c, Failed)
      case Heard(text) =>
        var d := c.(lastAsrFinalAt := true);
        if text == "" then (d, Continue) else AfterSpeakAndRecord(d, text, o)
  }

  /** The loop from a given call on; a script that runs out is a cancelled session. */
  function AfterLoop(c: Call, end: TurnEnd, hasSource: bool, rounds: seq<Round>): (r: (Call, TurnEnd))
    decreases |rounds|
  {
    if !end.Continue? || rounds == [] || rounds[0].canceled then (c, end)
    else
      var (d, next) := AfterTurn(c, hasSource, rounds[0].heard, rounds[0].spoke);
      AfterLoop(d, next, hasSource, rounds[1..])
  }

  function AfterCall(greeting: SpeakOutcome, hasSource: bool, rounds: seq<Round>): (r: (Call, TurnEnd)) {
    var (c, end) := AfterSpeakAndRecord(NEW_CALL, "", greeting);
    AfterLoop(c, end, hasSource, rounds)
  }

  // ------------------------------------------------------------- the code's form

  class Pipeline {
    var pendingTranscript: string
    var lastBotText: string
    var lastBargedIn: bool
    var lastAsrFinalAt: bool
    var lastFirstAudioAt: bool
    var history: seq<TurnRecord>
    var asked: seq<Ask>

    function State(): Call
      reads this
    {
      Call(pendingTranscript, lastBotText, lastBargedIn, lastAsrFinalAt, lastFirstAudioAt, history, asked)
    }

    constructor ()
      ensures State() == NEW_CALL
    {
      pendingTranscript, lastBotText, lastBargedIn := "", "", false;
      lastAsrFinalAt, lastFirstAudioAt, history, asked := false, false, [], [];
    }

    method Speak(message: string, o: SpeakOutcome)
      modifies this
      ensures State() == AfterSpeak(old(State()), message, o)
    {
      var prevTurnSilent := lastBargedIn && !lastFirstAudioAt;
      lastFirstAudioAt := false;
      asked := asked + [Ask(message, prevTurnSilent)];
      if o.SpeakError? {
        return;
      }
      if o.audio {
        lastFirstAudioAt := true;
      }
      if o.barged {
        pendingTranscript := o.captured;
      }
      lastBotText := o.botText;
      lastBargedIn := o.barged;
    }

    method SpeakAndRecord(transcript: string, o: SpeakOutcome) returns (end: TurnEnd)
      modifies this
      ensures (State(), end) == AfterSpeakAndRecord(old(State()), transcript, o)
    {
      if transcript == "" {
        lastAsrFinalAt := false;
      }
      Speak(transcript, o);
      if o.SpeakError? {
        return Failed;
      }
      history := history + [TurnRecord(|history|, transcript, lastBotText, o.action, lastBargedIn,
                                       lastAsrFinalAt, lastFirstAudioAt)];
      if o.action.EndCall? {
        return EndOfCall;
      }
      return Continue;
    }

    method RunGreeting(o: SpeakOutcome) returns (end: TurnEnd)
      modifies this
      ensures (State(), end) == AfterSpeakAndRecord(old(State()), "", o)
    {
      end := SpeakAndRecord("", o);
    }

    method RunTurn(hasSource: bool, heard: Heard, o: SpeakOutcome) returns (end: TurnEnd)
      modifies this
      ensures (State(), end) == AfterTurn(old(State()), hasSource, heard, o)
    {
      var transcript := "";
      if pendingTranscript != "" {
        transcript := pendingTranscript;
        pendingTranscript := "";
        lastAsrFinalAt := true;
      } else if hasSource {
        if heard.ListenError? {
          return Failed;
        }
        lastAsrFinalAt := true;
        transcript := heard.text;
        if transcript == "" {
          return Continue;
        }
      }
      end := SpeakAndRecord(transcript, o);
    }

    /** The greeting and turn loop of the session runner. */
    method RunCall(greeting: SpeakOutcome, rounds: seq<Round>) returns (end: TurnEnd)
      requires State() == NEW_CALL
      modifies this
      ensures (State(), end) == AfterCall(greeting, true, rounds)
    {
      end := RunGreeting(greeting);
      var i := 0;
      assert rounds[0..] == rounds;
      while end == Continue && i < |rounds| && !rounds[i].canceled
        invariant i <= |rounds|
        invariant AfterLoop(State(), end, true, rounds[i..]) == AfterCall(greeting, true, rounds)
        decreases |rounds| - i
      {
        assert rounds[i..][1..] == rounds[i + 1..];
        end := RunTurn(true, rounds[i].heard, rounds[i].spoke);
        i := i + 1;
      }
    }
  }

  // ------------------------------------------------------------------- theorems

  /** Entry `k` of the history against the request to the bot that it answers. */
  ghost predicate EntryOk(c: Call, k: nat)
    requires k < |c.history| <= |c.asked|
  {
    var entry := c.history[k];
    && entry.index == k
    && entry.userText == c.asked[k].message
    && (entry.asrFinalAt <==> entry.userText != "")
    && (entry.action.EndCall? ==> k == |c.history| - 1)
  }

  /** Request `k` to the bot against the history entry before it. */
  ghost predicate AskOk(c: Call, k: nat)
    requires k < |c.asked| <= |c.history| + 1
  {
    && (c.asked[k].message == "" <==> k == 0)
    && (c.asked[k].forceShort <==> k > 0 && c.history[k - 1].bargedIn && !c.history[k - 1].firstAudioAt)
  }

  /** The shape of the history and of the requests to the bot. */
  ghost predicate WellRecorded(c: Call) {
    && |c.history| <= |c.asked| <= |c.history| + 1
    && (forall k :: 0 <= k < |c.history| ==> EntryOk(c, k))
    && (forall k :: 0 <= k < |c.asked| ==> AskOk(c, k))
  }

  function Last(c: Call): TurnRecord
    requires c.history != []
  {
    c.history[|c.history| - 1]
  }

  ghost predicate LoopInv(c: Call, end: TurnEnd) {
    && WellRecorded(c)
    && (end.Failed? || |c.asked| == |c.history| > 0)
    && (end.Continue? ==>
          && Last(c).action.Chat?
          && c.lastBargedIn == Last(c).bargedIn && c.lastFirstAudioAt == Last(c).firstAudioAt)
    && (end.EndOfCall? ==> Last(c).action.EndCall?)
    && (c.pending != "" ==> |c.history| > 0)
  }

  lemma RecordKeepsInv(c: Call, message: string, o: SpeakOutcome)
    requires LoopInv(c, Continue) && message != "" && c.lastAsrFinalAt
    ensures var (d, end) := AfterSpeakAndRecord(c, message, o); LoopInv(d, end)
  {
    var (d, end) := AfterSpeakAndRecord(c, message, o);
    var n := |c.history|;
    forall k | 0 <= k < |d.history|
      ensures EntryOk(d, k)
    {
      if k < n { assert EntryOk(c, k); }
    }
    forall k | 0 <= k < |d.asked|
      ensures AskOk(d, k)
    {
      if k < n { assert AskOk(c, k); }
    }
  }

  lemma TurnKeepsInv(c: Call, heard: Heard, o: SpeakOutcome)
    requires LoopInv(c, Continue)
    ensures var (d, end) := AfterTurn(c, true, heard, o); LoopInv(d, end)
  {
    hide AfterSpeakAndRecord;
    if c.pending != "" {
      SameRecords(c, c.(pending := "", lastAsrFinalAt := true));
      RecordKeepsInv(c.(pending := "", lastAsrFinalAt := true), c.pending, o);
    } else if heard.Heard? {
      SameRecords(c, c.(lastAsrFinalAt := true));
      if heard.text != "" {
        RecordKeepsInv(c.(lastAsrFinalAt := true), heard.text, o);
      }
    }
  }

  lemma SameRecords(c: Call, d: Call)
    requires WellRecorded(c) && c.history == d.history && c.asked == d.asked
    ensures WellRecorded(d)
  {
    forall k | 0 <= k < |d.history|
      ensures EntryOk(d, k)
    {
      assert EntryOk(c, k);
    }
    forall k | 0 <= k < |d.asked|
      ensures AskOk(d, k)
    {
      assert AskOk(c, k);
    }
  }

  lemma {:induction false} LoopKeepsInv(c: Call, end: TurnEnd, rounds: seq<Round>)
    requires LoopInv(c, end)
    ensures var (d, last) := AfterLoop(c, end, true, rounds); LoopInv(d, last)
    decreases |rounds|
  {
    hide LoopInv, AfterTurn;
    if end.Continue? && rounds != [] && !rounds[0].canceled {
      TurnKeepsInv(c, rounds[0].heard, rounds[0].spoke);
      var (d, next) := AfterTurn(c, true, rounds[0].heard, rounds[0].spoke);
      LoopKeepsInv(d, next, rounds[1..]);
    }
  }

  /** In every call with a live source: indices count up from 0; exactly entry 0 has no user
      text, and exactly it has no ASR timestamp; ENDCALL is only ever the last action and ends
      the call; the bot is never asked "" after the greeting; and the short filler is forced
      exactly after a turn that was barged into before any audio. */
  lemma HistoryShape(greeting: SpeakOutcome, rounds: seq<Round>)
    ensures var (c, end) := AfterCall(greeting, true, rounds);
            && WellRecorded(c)
            && (!end.Failed? ==> |c.asked| == |c.history| > 0 && (end.EndOfCall? <==> Last(c).action.EndCall?))
  {
    var (c, end) := AfterSpeakAndRecord(NEW_CALL, "", greeting);
    assert LoopInv(c, end);
    LoopKeepsInv(c, end, rounds);
    hide AfterLoop, WellRecorded, AfterSpeakAndRecord;
    var (d, last) := AfterLoop(c, end, true, rounds);
    assert AfterCall(greeting, true, rounds) == (d, last);
    if !last.Failed? {
      assert Last(d).action.Chat? || Last(d).action.EndCall?;
    }
  }

  /** What one turn with a live source amounts to: nothing if it was silent with nothing pending,
      failure if it could not listen, else one request, and unless that fails one record. */
  ghost predicate RoundAccount(c: Call, r: Round, d: Call, end: TurnEnd) {
    if c.pending == "" && r.heard == Heard("") then
      && d.history == c.history && d.asked == c.asked && d.pending == "" && end == Continue
      && d.lastBargedIn == c.lastBargedIn && d.lastFirstAudioAt == c.lastFirstAudioAt
    else if c.pending == "" && r.heard.ListenError? then
      d.history == c.history && d.asked == c.asked && end == Failed
    else
      var message := if c.pending != "" then c.pending else r.heard.text;
      && d.asked == c.asked + [Ask(message, c.lastBargedIn && !c.lastFirstAudioAt)]
      && match r.spoke
         case SpeakError => d.history == c.history && end == Failed
         case Spoke(action, barged, captured, audio, botText) =>
           && d.history == c.history + [TurnRecord(|c.history|, message, botText, action, barged, true, audio)]
           && d.pending == (if barged then captured else "")
           && d.lastBargedIn == barged && d.lastFirstAudioAt == audio
           && end == if action.EndCall? then EndOfCall else Continue
  }

  lemma TurnAccount(c: Call, r: Round)
    ensures var (d, end) := AfterTurn(c, true, r.heard, r.spoke); RoundAccount(c, r, d, end)
  {
  }

  /** The states a sequence of rounds goes through: every round before the end was run, none of
      them cancelled, and all but the last went on. */
  ghost predicate Rounds(cs: seq<Call>, rounds: seq<Round>, end: TurnEnd) {
    && 1 <= |cs| <= |rounds| + 1
    && (|cs| == 1 ==> end == Continue)
    && forall k :: 0 <= k < |cs| - 1 ==>
         !rounds[k].canceled
         && RoundAccount(cs[k], rounds[k], cs[k + 1], if k == |cs| - 2 then end else Continue)
  }

  /** The loop stops at the first cancelled round, after the turn that failed or said ENDCALL,
      or when there are no more rounds, and at nothing else. */
  lemma {:induction false} LoopAccount(c: Call, rounds: seq<Round>) returns (cs: seq<Call>)
    ensures var (d, end) := AfterLoop(c, Continue, true, rounds);
            && Rounds(cs, rounds, end) && cs[0] == c && cs[|cs| - 1] == d
            && (end == Continue ==> |cs| == |rounds| + 1 || rounds[|cs| - 1].canceled)
    decreases |rounds|
  {
    cs := [c];
    if rounds != [] && !rounds[0].canceled {
      TurnAccount(c, rounds[0]);
      hide AfterTurn, RoundAccount;
      var (d, next) := AfterTurn(c, true, rounds[0].heard, rounds[0].spoke);
      if next == Continue {
        var rest := LoopAccount(d, rounds[1..]);
        assert forall k :: 1 <= k < |rest| ==> rounds[k] == rounds[1..][k - 1];
        cs := [c] + rest;
      } else {
        cs := [c, d];
      }
    }
  }

  /** The whole call. A greeting that fails leaves one request and no record; one that says
      ENDCALL leaves its record; after any other the rounds are run as above. */
  lemma CallAccount(greeting: SpeakOutcome, rounds: seq<Round>) returns (cs: seq<Call>)
    ensures var (d, end) := AfterCall(greeting, true, rounds);
            match greeting
            case SpeakError => end == Failed && d.history == [] && d.asked == [Ask("", false)]
            case Spoke(action, barged, captured, audio, botText) =>
              && |cs| >= 1
              && cs[0].history == [TurnRecord(0, "", botText, action, barged, false, audio)]
              && cs[0].asked == [Ask("", false)]
              && cs[0].pending == (if barged then captured else "")
              && cs[0].lastBargedIn == barged && cs[0].lastFirstAudioAt == audio
              && cs[|cs| - 1] == d
              && if action.EndCall? then end == EndOfCall && |cs| == 1
                 else Rounds(cs, rounds, end)
                      && (end == Continue ==> |cs| == |rounds| + 1 || rounds[|cs| - 1].canceled)
  {
    var (c, end) := AfterSpeakAndRecord(NEW_CALL, "", greeting);
    cs := [c];
    if end == Continue {
      cs := LoopAccount(c, rounds);
    }
  }

  /** In particular: if no round is cancelled, fails or is silent and nobody ends the call, it
      goes on to the last round, with one request and one record each. */
  lemma EveryRoundRuns(greeting: SpeakOutcome, rounds: seq<Round>)
    requires greeting.Spoke? && greeting.action.Chat?
    requires forall k :: 0 <= k < |rounds| ==>
               && !rounds[k].canceled && rounds[k].heard.Heard? && rounds[k].heard.text != ""
               && rounds[k].spoke.Spoke? && rounds[k].spoke.action.Chat?
    ensures var (d, end) := AfterCall(greeting, true, rounds);
            end == Continue && |d.history| == |d.asked| == 1 + |rounds|
  {
    var cs := CallAccount(greeting, rounds);
    hide AfterCall;
    var (d, end) := AfterCall(greeting, true, rounds);
    var n := |cs| - 1;
    for k := 0 to n
      invariant |cs[k].history| == |cs[k].asked| == 1 + k
    {
      assert RoundAccount(cs[k], rounds[k], cs[k + 1], if k == n - 1 then end else Continue);
    }
    if n > 0 {
      assert RoundAccount(cs[n - 1], rounds[n - 1], cs[n], end);
    }
  }

  /** A barge-in carries over: the next turn asks the bot exactly the captured text, whatever
      `Listen` would have heard, and forces the short filler exactly if no audio was played. */
  lemma BargeInCarriesOver(c: Call, message: string, o: SpeakOutcome, hasSource: bool, heard: Heard, next: SpeakOutcome)
    requires Possible(o) && o.Spoke? && o.barged
    ensures var d := AfterSpeakAndRecord(c, message, o).0;
            var (e, end) := AfterTurn(d, hasSource, heard, next);
            && e.asked == d.asked + [Ask(o.captured, !o.audio)]
            && (next.Spoke? ==> |e.history| == |d.history| + 1 && Last(e).userText == o.captured && Last(e).asrFinalAt)
            && (next.Spoke? && !next.barged ==> e.pending == "")
  {
  }

  /** A turn with nothing pending appends exactly the record of its own outcome, and the turn
      after it, with a live source, asks the captured text after a barge-in, else exactly what
      `Listen` heard, with a short filler only after a barge-in before any audio. */
  lemma RecordAndNextRequest(c: Call, message: string, o: SpeakOutcome, heard: Heard, next: SpeakOutcome)
    requires Possible(o) && o.Spoke? && c.pending == "" && (message != "" ==> c.lastAsrFinalAt)
    ensures var (d, end) := AfterSpeakAndRecord(c, message, o);
            var e := AfterTurn(d, true, heard, next).0;
            && d.history == c.history + [TurnRecord(|c.history|, message, o.botText, o.action, o.barged,
                                                    message != "", o.audio)]
            && (end == EndOfCall <==> o.action.EndCall?)
            && e.asked == d.asked + (if o.barged then [Ask(o.captured, !o.audio)]
                                     else if heard.Heard? && heard.text != "" then [Ask(heard.text, false)]
                                     else [])
  {
  }

  /** A turn asks the bot "" exactly when there is neither a source nor a pending transcript. */
  lemma AsksEmptyIff(c: Call, hasSource: bool, heard: Heard, o: SpeakOutcome)
    ensures var d := AfterTurn(c, hasSource, heard, o).0;
            && c.asked <= d.asked && |d.asked| <= |c.asked| + 1
            && (Ask("", c.lastBargedIn && !c.lastFirstAudioAt) in d.asked[|c.asked|..] <==>
                  !hasSource && c.pending == "")
  {
    var d := AfterTurn(c, hasSource, heard, o).0;
    var flag := c.lastBargedIn && !c.lastFirstAudioAt;
    if c.pending != "" {
      assert d.asked == c.asked + [Ask(c.pending, flag)];
    } else if !hasSource {
      assert d.asked == c.asked + [Ask("", flag)];
    } else if heard.Heard? && heard.text != "" {
      assert d.asked == c.asked + [Ask(heard.text, flag)];
    } else {
      assert d.asked == c.asked;
    }
  }
}
