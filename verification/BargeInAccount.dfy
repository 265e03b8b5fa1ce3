/** What a `Speak` racing with the barge-in watcher leaves and returns, told from the events of
    the run alone: the pending transcript, the bot's action, success or failure, whether audio
    came and whether the playback was waited for. */
module BargeInAccount {
  import SentenceParsing
  import opened BargeIn

  /** The bot's answer, event `k`: its action is kept, and a cancelled request is no error if
      `Speak` had seen the trigger before. */
  ghost predicate AnsweredAt(past: seq<Event>, k: int, action: Action, err: BotError) {
    && 0 <= k < |past| && past[k].ActionArrives?
    && action == past[k].action
    && err == if past[k].err == ContextCanceled && TriggerSeen in past[..k] then NoError else past[k].err
  }

  ghost predicate Answered(past: seq<Event>, action: Action, err: BotError) {
    exists k :: AnsweredAt(past, k, action, err)
  }

  ghost predicate Unanswered(past: seq<Event>) {
    forall k :: 0 <= k < |past| ==> !past[k].ActionArrives?
  }

  /** Up to where `Speak` has come: what the events must and must not contain. */
  ghost predicate Reached(past: seq<Event>, t: Turn) {
    match t.speaker
    case Selecting => Unanswered(past) && TriggerSeen !in past
    case AwaitingAction => Unanswered(past) && TriggerSeen in past
    case Checking => Answered(past, t.action, t.botError)
    case AwaitingPump => Answered(past, t.action, t.botError)
    case AwaitingAudio => Answered(past, t.action, t.botError) && t.botError.NoError?
    case AwaitingPlayback => Answered(past, t.action, t.botError) && t.botError.NoError?
    case AwaitingFinal => Answered(past, t.action, t.botError) && t.botError.NoError?
    case Returned(ok) =>
      && Answered(past, t.action, t.botError)
      && (ok <==> t.botError.NoError? && CallerContextDone !in past)
  }

  /** When the audio has ended, and whether the playback has been waited for. */
  ghost predicate PlaybackPast(past: seq<Event>, t: Turn) {
    && (t.audio <==> FirstAudio in past)
    && (TriggerSeen in past ==> t.bargeFired)
    && (t.speaker.AwaitingAudio? || t.speaker.AwaitingPlayback? ==> PumpDone in past)
    && (t.speaker.AwaitingFinal? || t.speaker == Returned(true) ==> PumpDone in past)
    && (CallerContextDone in past ==> t.speaker == Returned(false))
    && match t.speaker
       case AwaitingPlayback => AudioDone(true) in past && AudioDone(false) !in past && PlaybackOver !in past
       case AwaitingFinal => AudioDone(true) in past || AudioDone(false) in past
       case Returned(ok) =>
         && (ok ==> AudioDone(true) in past || AudioDone(false) in past)
         && (ok && !t.bargeFired && AudioDone(true) in past ==> PlaybackOver in past)
       case _ => AudioDone(true) !in past && AudioDone(false) !in past && PlaybackOver !in past
  }

  /** Which text a barge-in has left. */
  ghost predicate TextPast(past: seq<Event>, t: Turn) {
    && (!t.speaker.Returned? ==> FinalArrives !in past && FinalTimeout !in past)
    && (t.speaker == Returned(true) && t.bargeFired ==> FinalArrives in past || FinalTimeout in past)
    && (FinalArrives in past ==>
          && t.speaker == Returned(true) && t.bargeFired
          && t.watcher.WatcherExited? && t.triggered
          && t.pending == LastText(t.received) && t.emitted == [t.pending])
    && (FinalTimeout in past ==>
          && t.speaker == Returned(true) && t.bargeFired && FinalArrives !in past && t.triggered
          && (t.pending == PartialText(t.received, t.minWords)
              || (t.pending == LastText(t.received) && EndsFinal(t.received, t.minWords)
                  && (t.watcher.Emitting? || t.watcher.WatcherExited?))))
  }

  ghost predicate PastInv(past: seq<Event>, t: Turn) {
    Reached(past, t) && PlaybackPast(past, t) && TextPast(past, t)
  }

  lemma AnswerStays(past: seq<Event>, e: Event, action: Action, err: BotError)
    requires Answered(past, action, err)
    ensures Answered(past + [e], action, err)
  {
    var k :| AnsweredAt(past, k, action, err);
    assert (past + [e])[..k] == past[..k] && (past + [e])[k] == past[k];
    assert AnsweredAt(past + [e], k, action, err);
  }

  lemma NewAnswer(past: seq<Event>, e: Event)
    requires e.ActionArrives?
    ensures Answered(past + [e], e.action, if e.err == ContextCanceled && TriggerSeen in past then NoError else e.err)
  {
    assert (past + [e])[..|past|] == past;
    assert AnsweredAt(past + [e], |past|, e.action,
                      if e.err == ContextCanceled && TriggerSeen in past then NoError else e.err);
  }

  lemma StillUnanswered(past: seq<Event>, e: Event)
    requires Unanswered(past) && !e.ActionArrives?
    ensures Unanswered(past + [e])
  {
  }

  /** The watcher changes nothing that `Speak` has reached. */
  lemma WatcherLeavesSpeaker(t: Turn, e: Event)
    requires Enabled(t, e) && OfWatcher(e)
    ensures var u := Step(t, e);
            && u.speaker == t.speaker && u.bargeFired == t.bargeFired && u.audio == t.audio
            && u.action == t.action && u.botError == t.botError
  {
    hide Trim, CountWords;
  }

  lemma WatcherReaches(past: seq<Event>, t: Turn, e: Event)
    requires Enabled(t, e) && OfWatcher(e) && Reached(past, t) && PlaybackPast(past, t)
    ensures Reached(past + [e], Step(t, e)) && PlaybackPast(past + [e], Step(t, e))
  {
    hide Step, Enabled, Answered, Unanswered;
    WatcherLeavesSpeaker(t, e);
    if Answered(past, t.action, t.botError) {
      AnswerStays(past, e, t.action, t.botError);
    }
    if Unanswered(past) {
      StillUnanswered(past, e);
    }
  }

  lemma AnswerReaches(past: seq<Event>, t: Turn, e: Event)
    requires Enabled(t, e) && e.ActionArrives? && Reached(past, t)
    ensures Reached(past + [e], Step(t, e))
  {
    hide Answered, Unanswered;
    NewAnswer(past, e);
  }

  lemma SpeakerReaches(past: seq<Event>, t: Turn, e: Event)
    requires Enabled(t, e) && !OfWatcher(e) && !e.ActionArrives? && Reached(past, t)
    requires CallerContextDone in past ==> t.speaker == Returned(false)
    ensures Reached(past + [e], Step(t, e))
  {
    hide Answered, Unanswered, Sent, Finished;
    if Answered(past, t.action, t.botError) {
      AnswerStays(past, e, t.action, t.botError);
    }
    if Unanswered(past) {
      StillUnanswered(past, e);
    }
    if e.FinalArrives? {
      FinishKeeps(t.(finalCh := []), t.finalCh[0]);
    } else if e.FinalTimeout? {
      FinishKeeps(t, t.transcript);
    }
  }

  lemma FinishKeeps(t: Turn, pending: string)
    ensures var u := Finished(t, pending);
            && u.speaker == Returned(true) && u.action == t.action && u.botError == t.botError
            && u.audio == t.audio && u.bargeFired == t.bargeFired
  {
  }

  lemma SpeakerPlays(past: seq<Event>, t: Turn, e: Event, before: string)
    requires Enabled(t, e) && !OfWatcher(e) && SpeakerInv(t, before) && PlaybackPast(past, t)
    ensures PlaybackPast(past + [e], Step(t, e))
  {
    hide Sent;
  }

  /** A watcher step changes neither the text that tripped the trigger nor, once the watcher
      has decided, the results. */
  lemma WatcherKeepsTexts(t: Turn, e: Event)
    requires WatcherInv(t) && Enabled(t, e) && OfWatcher(e)
    ensures var u := Step(t, e);
            && u.speaker == t.speaker && u.bargeFired == t.bargeFired && u.pending == t.pending
            && u.minWords == t.minWords
            && (t.triggered ==>
                  u.triggered && PartialText(u.received, u.minWords) == PartialText(t.received, t.minWords))
            && (t.watcher.Emitting? || t.watcher.WatcherExited? ==>
                  u.received == t.received && u.watcher.WatcherExited?)
            && !t.watcher.WatcherExited?
  {
    hide Trim, CountWords, Fired, StillOpen, Current, EndsFinal, LastText, PartialText;
    if e.Receive? {
      ReceivedOne(t.received, e.res, t.minWords);
    }
  }

  lemma WatcherStepTexts(past: seq<Event>, t: Turn, e: Event)
    requires WatcherInv(t) && Enabled(t, e) && OfWatcher(e) && TextPast(past, t)
    ensures TextPast(past + [e], Step(t, e))
  {
    WatcherKeepsTexts(t, e);
    hide Step, Enabled, WatcherInv, Fired, StillOpen, Current, EndsFinal, LastText, PartialText;
  }

  lemma SpeakerStepTexts(past: seq<Event>, t: Turn, e: Event, before: string)
    requires WatcherInv(t) && SpeakerInv(t, before) && Enabled(t, e) && !OfWatcher(e) && TextPast(past, t)
    ensures TextPast(past + [e], Step(t, e))
  {
    hide Trim, CountWords, Fired, StillOpen, Current, EndsFinal, LastText, PartialText;
  }

  lemma ContextPast(past: seq<Event>, t: Turn)
    requires PlaybackPast(past, t)
    ensures CallerContextDone in past ==> t.speaker == Returned(false)
  {
  }

  lemma StepKeepsPast(past: seq<Event>, t: Turn, e: Event, before: string)
    requires WatcherInv(t) && SpeakerInv(t, before) && Enabled(t, e) && PastInv(past, t)
    ensures PastInv(past + [e], Step(t, e))
  {
    hide WatcherInv, SpeakerInv, Step, Enabled, Reached, PlaybackPast, TextPast;
    if OfWatcher(e) {
      WatcherReaches(past, t, e);
      WatcherStepTexts(past, t, e);
    } else {
      if e.ActionArrives? {
        AnswerReaches(past, t, e);
      } else {
        ContextPast(past, t);
        SpeakerReaches(past, t, e);
      }
      SpeakerPlays(past, t, e, before);
      SpeakerStepTexts(past, t, e, before);
    }
  }

  lemma {:induction false} RunKeepsPast(past: seq<Event>, t: Turn, run: seq<Event>, before: string)
    requires WatcherInv(t) && SpeakerInv(t, before) && Legal(t, run) && PastInv(past, t)
    ensures PastInv(past + run, After(t, run))
    decreases |run|
  {
    hide WatcherInv, SpeakerInv, Step, Enabled, PastInv;
    if run == [] {
      assert past + run == past;
    } else {
      StepKeepsInv(t, run[0], before);
      StepKeepsPast(past, t, run[0], before);
      RunKeepsPast(past + [run[0]], Step(t, run[0]), run[1..], before);
      assert past + [run[0]] + run[1..] == past + run;
    }
  }

  lemma WholeRun(minWords: int, pending: string, run: seq<Event>)
    requires Legal(Start(minWords, pending), run)
    ensures PastInv(run, After(Start(minWords, pending), run))
  {
    hide Legal, After, WatcherInv, SpeakerInv;
    StartInv(minWords, pending);
    RunKeepsPast([], Start(minWords, pending), run, pending);
    assert [] + run == run;
  }

  // ------------------------------------------------------------------- theorems

  /** A `Speak` that returns normally with barge-in fired leaves the watcher's final, the last
      text heard, if it got one, and on a timeout the text that tripped the trigger, or the
      watcher's final if that was decided by then. Any other return leaves the pending
      transcript alone, and barge-in never fires without a trigger. */
  lemma SpeakLeavesTranscript(minWords: int, pending: string, run: seq<Event>)
    requires Legal(Start(minWords, pending), run)
    ensures var t := After(Start(minWords, pending), run);
            && (t.bargeFired ==> TriggerReady(t))
            && (t.speaker == Returned(true) && t.bargeFired ==> t.pending != "")
            && (t.speaker.Returned? && !(t.speaker.ok && t.bargeFired) ==> t.pending == pending)
            && (t.speaker == Returned(true) && t.bargeFired ==> (FinalArrives in run <==> FinalTimeout !in run))
            && (FinalArrives in run ==> t.pending == LastText(t.received) && t.emitted == [t.pending])
            && (FinalTimeout in run ==>
                  t.pending == PartialText(t.received, t.minWords)
                  || (t.pending == LastText(t.received) && EndsFinal(t.received, t.minWords)))
  {
    LeavesSomeTranscript(minWords, pending, run);
    WholeRun(minWords, pending, run);
    hide Legal, After, LastText, PartialText, EndsFinal, Reached, PlaybackPast;
  }

  /** At the moment of the timeout it is exactly what the watcher has stored by then. */
  lemma TimeoutText(t: Turn)
    requires WatcherInv(t) && Enabled(t, FinalTimeout) && TriggerReady(t)
    ensures Step(t, FinalTimeout).pending ==
              if t.watcher.Emitting? || (t.watcher.WatcherExited? && EndsFinal(t.received, t.minWords))
              then LastText(t.received) else PartialText(t.received, t.minWords)
  {
    hide Trim, CountWords, Fired, StillOpen, Current, EndsFinal, LastText, PartialText;
  }

  /** What `Speak` returns: the action of the bot's answer, ENDCALL also after a barge-in, and
      success exactly if neither the answer failed nor the caller's context ended. A cancelled
      request counts as no failure exactly if the trigger had been seen before. */
  lemma SpeakReturns(minWords: int, pending: string, run: seq<Event>)
    requires Legal(Start(minWords, pending), run)
    requires After(Start(minWords, pending), run).speaker.Returned?
    ensures var t := After(Start(minWords, pending), run);
            && Answered(run, t.action, t.botError)
            && (t.speaker.ok <==> t.botError == NoError && CallerContextDone !in run)
  {
    WholeRun(minWords, pending, run);
  }

  /** A trigger that `Speak` has seen always ends in barge-in; audio is noted exactly if a frame
      came; and a normal return has waited for the sentence pump and for the audio, and without
      barge-in also for the playback of an opened sink. */
  lemma SpeakWaits(minWords: int, pending: string, run: seq<Event>)
    requires Legal(Start(minWords, pending), run)
    ensures var t := After(Start(minWords, pending), run);
            && (TriggerSeen in run ==> t.bargeFired)
            && (t.audio <==> FirstAudio in run)
            && (t.speaker == Returned(true) ==>
                  PumpDone in run && (AudioDone(true) in run || AudioDone(false) in run))
            && (t.speaker == Returned(true) && !t.bargeFired ==>
                  AudioDone(false) in run || (AudioDone(true) in run && PlaybackOver in run))
  {
    WholeRun(minWords, pending, run);
  }
}
