# Verified model of the call orchestrator's protocols

The repository drives phone calls: a campaign dials leads with bounded concurrency, each call runs
a greeting and then turns (listen, ask the bot, speak, with a filler while the bot thinks and
barge-in while it speaks), and audio goes through small codecs and buffers. The plumbing around
these is left out; the stateful cores are modelled here and their promises proved.

| file | models |
|---|---|
| `ByteStrings.dfy` | bytes and their concatenation, shared by the rest |
| `Utf8.dfy` | Go's rune decoding (section 4 of RFC 3629) and `strings.TrimSpace` |
| `SentenceParser.dfy` | the streaming sentence parser: rescanning loop, leftover, action suffix |
| `BotStream.dfy`, `BotStreamProgress.dfy` | body reader, bounded sentence channel and TTS pump as concurrent processes, and how their runs end |
| `Leads.dfy`, `CampaignPool.dfy`, `CampaignSafety.dfy`, `CampaignUpdates.dfy` | leads, the worker pool as a step system, its invariants, and which outside updates reach a lead |
| `Filler.dfy` | the filler controller: decider and any number of `Cancel` calls |
| `BargeIn.dfy`, `BargeInAccount.dfy` | the barge-in watcher, alone and racing with `Speak`, and what such a `Speak` leaves and returns |
| `TurnLoop.dfy`, `Listening.dfy` | turns, history and the session loop; the `Listen` event loop |
| `Playback.dfy` | utterance paths and the registry of playback handles |
| `Outbound.dfy` | the pending-call protocol: originate, ANSWER, HANGUP, session end |
| `RingBuf.dfy`, `Vad.dfy`, `Wav.dfy` | ring buffer, energy detector, WAV recorder, readers and framing |
| `Migrate.dfy`, `MigrateRaces.dfy` | the migration runner, alone and as racing, crashing processes |

Where goroutines share state, every atomic section is one event, and a theorem about `After(Start(..), run)`
with `Legal(.., run)` is about every interleaving of every length. Timeouts, I/O results, closing
streams and cancelled contexts are events or parameters that may take any value at any time. Where
the source updates an object in place, a class does the same, and its methods are proved against
the functions that the theorems are about.

## What the proofs found

Each of these is a place where the expected property does not hold as such. The exact condition is
proved for all inputs or runs, and where the failure needs an interleaving, a run that shows it.

- The parser promises to keep the action suffix out of the speech. It does exactly if no sentence
  delimiter follows the last `|`; `a|CHAT.` is spoken whole (`SpokenTextIsContentIff`,
  `SuffixSpokenWitness`).
- `Cancel` of the filler is documented as idempotent, but a second call can return while the first
  has not stopped the filler yet; after the decider has exited and some `Cancel` has returned, the
  filler is stopped exactly if no other `Cancel` still holds a stop function it has not called
  (`StoppedExactlyIf`, `SecondCancelReturnsEarly`).
- A hangup between ANSWER and the start of the session removes the pending entry, yet the session
  still starts, and Completed is reported twice; this window is the only way for either
  (`CallAccount`, `LateSessionWitness`).
- A status update that arrives before the worker has recorded the uuid from originate is lost. Over
  whole runs with distinct uuids, an update changes the lead of its uuid exactly if it comes after
  that record, and changes nothing before (`UpdateLandsIff`); a call that ends earlier stays
  "dialing" until another update comes (`LostUpdateWitness`).
- The bot is asked "" by a turn exactly when there is neither an audio source nor a pending
  transcript (`AsksEmptyIff`); with a live source only the greeting asks "".
- After a failed TTS send the body reader can wait on the full sentence channel until the request
  context ends; `StuckIff` gives all states without progress, `StuckReaderWitness` reaches this one.
  Without failed reads, sends or cancellation everything is delivered (`CleanDelivery`).
- A recording reads back exactly if it is shorter than 2^32 bytes; its RIFF size field, which no
  reader looks at, is right only below 2^32 - 36 (`RoundTripIff`).
- Migration runners started together can run the same body. The primary key of the version table
  then fails a process that met no failure of its own: exactly if, on some file, another process
  committed between its check and its INSERT (`UndisturbedFailsIff`, `RaceFailsOne`). The schema is
  never corrupted by it (`AppliedInOrderOnce`, `CommitsOnWhatItSaw`).

## Model

| member | source | states |
|---|---|---|
| Utf8.DecodeRune | internal/bot/parser.go:40 | decoding always advances, stays inside the string and only swallows continuation bytes, also for malformed input |
| Utf8.DecodeEncoded | internal/bot/parser.go:40 | every Unicode scalar value is decoded back from its RFC 3629 encoding, whatever follows |
| Utf8.EncodeDecoded | internal/bot/parser.go:40 | every decoded rune other than the width-1 error is the one whose encoding stands there |
| Utf8.DecodeLastEncoded | internal/bot/parser.go:44 | decoding from the end finds the last rune, whatever stands in front |
| Utf8.TrimmedEnds | internal/bot/parser.go:44 | a trimmed segment neither starts nor ends with a white-space rune, and trimming is idempotent |
| Utf8.TrimRemovesOnlySpace | internal/bot/parser.go:44 | what trimming removes is white space rune by rune, at the ends only |
| Utf8.SpacesAreWhiteSpace | internal/bot/parser.go:44 | white space is exactly the 25 code points that Unicode calls so |
| SentenceParsing.SentenceParser.Feed | internal/bot/parser.go:34-53 | the call appends the chunk and returns exactly the reference sentences that the longer text has more than the old one |
| SentenceParsing.SentenceParser.Finalize | internal/bot/parser.go:59-90 | leftover and action are those of the function that `FinalAction`, `SpokenTextIsContentIff` and `RoundTrip` fix for every reply |
| SentenceParsing.LastCut | internal/bot/parser.go:10-16 | the last position where the bytes of a delimiter end |
| SentenceParsing.DelimiterRunes | internal/bot/parser.go:10-16 | sentences end at . ? ! a line feed or an ellipsis, and at nothing else |
| SentenceParsing.CutsEndDelimiters | internal/bot/parser.go:10-16 | a byte-level cut is exactly where the encoding of a delimiter ends |
| SentenceParsing.RuneStep | internal/bot/parser.go:39-42 | a decoded rune is a delimiter exactly if a byte-level cut ends there, and no multi-byte or malformed sequence hides a cut |
| SentenceParsing.ScanMatches | internal/bot/parser.go:38-51 | the scanning loop, started at any rune boundary, finds exactly the remaining reference sentences and the last cut |
| SentenceParsing.FedMatches | internal/bot/parser.go:34-53 | one `Feed` from any settled state keeps it settled and returns exactly the new sentences |
| SentenceParsing.FedAllIsReference | internal/bot/parser.go:34-53 | all `Feed` calls together return the context-free reference sentences of the whole text |
| SentenceParsing.ChunkingInvariance | internal/bot/parser.go:34-90 | every split of every byte string into chunks, also inside a rune, gives the sentences, state, leftover and action of one call on the whole |
| SentenceParsing.SegmentsPartition | internal/bot/parser.go:38-51 | the raw segments concatenate to the text before the last cut: nothing is lost or repeated |
| SentenceParsing.SpokenTextIsContentIff | internal/bot/parser.go:55-90 | flushed segments and leftover region are exactly the text before the last pipe if and only if no delimiter follows that pipe; otherwise the speech reaches to the last cut |
| SentenceParsing.SuffixSpokenWitness | internal/bot/parser.go:55-90 | a concrete reply whose action suffix is spoken |
| SentenceParsing.JoinParses | internal/bot/parser.go:34-53 | plain sentences joined by spaces parse back to themselves |
| SentenceParsing.RoundTrip | internal/bot/parser.go:34-90 | print/parse round trip under any chunking: exactly those sentences, no leftover, that action |
| SentenceParsing.FinalAction | internal/bot/parser.go:61-77 | the action of every reply: ENDCALL exactly if the trimmed text after the last pipe starts with that word in any letter case, CHAT without a pipe and for every other token |
| SentenceParsing.ActionSurvivesTrailer | internal/bot/parser.go:61-77 | the action is recognised in any letter case and whatever pipe-free bytes follow its token |
| BotStream.HttpTurnStream.Send | internal/bot/http_stream.go:160-185 | the channel receives all sentences, or exactly those before the context was found done |
| BotStream.HttpTurnStream.FeedAndSend | internal/bot/http_stream.go:160-172 | after each read the channel holds the reference sentences so far, or a cut prefix with an error |
| BotStream.HttpTurnStream.ReadBody | internal/bot/http_stream.go:148-195 | success exactly if the body ended cleanly and the context lived long enough, then all sentences, the leftover last, and the action; otherwise a prefix |
| BotStream.HttpTurnStream.SendLast | internal/bot/http_stream.go:182-195 | the leftover is sent last, then the action is the parser's; success exactly if the context lasts that long |
| BotStream.PumpSentences | internal/pipeline/turn.go:618-663 | the pump sends each sentence once and in order with end-of-stream on the last only, a lone empty one for an empty reply, and stops at a failed send |
| BotStream.StepKeepsInv | internal/bot/http_stream.go:148-195 | every step of reader, pump or context keeps the joint invariant |
| BotStream.RunKeepsInv | internal/bot/http_stream.go:148-195 | so does every run |
| BotStream.Delivery | internal/pipeline/turn.go:618-663 | in every interleaving, once reader and pump have ended well, TTS holds exactly the messages of the whole reply, the recorded text is their join by single spaces, the action is the parser's |
| BotStream.NeverOutOfOrder | internal/pipeline/turn.go:618-663 | at any moment, also after failures, TTS has an in-order prefix, end-of-stream only as the last message of an ended pump, which has then sent one message for each sentence; the channel never holds more than 8 |
| BotStream.TranscriptIs | internal/bot/parser.go:55-90 | what is spoken is the raw segments and the leftover region, each trimmed, the blank ones dropped |
| BotStream.StuckIff | internal/bot/http_stream.go:164-185 | exactly which states allow no progress, among them the reader blocked behind a pump that left |
| BotStreamProgress.CleanDelivery | internal/bot/http_stream.go:148-195 | if the body reads to its end and no send fails or is cancelled, a run that can go no further has delivered the whole reply |
| BotStreamProgress.PrintedIsSpoken | internal/pipeline/turn.go:618-663 | from the bot to TTS: a reply of plain sentences and an action, cut into reads anywhere, is spoken as exactly those sentences with end-of-stream on the last, recorded as their join, with that action |
| BotStreamProgress.StepsDecrease | internal/bot/http_stream.go:148-195 | every step of reader or pump, failures included, lowers the measure |
| BotStreamProgress.RunsEnd | internal/bot/http_stream.go:148-195 | so every run ends, after at most two steps for each read and sentence and three more |
| BotStreamProgress.StuckReaderWitness | internal/bot/http_stream.go:164-185 | a run that fails one send and leaves the reader waiting on a full channel for good |
| Leads.Campaign.SetLeadStatus | internal/campaign/lead.go:191-208 | the first lead with the uuid gets the status, a non-empty message and on a terminal status its end time, and keeps all else; every other lead is unchanged |
| Leads.Campaign.FindByUuid | internal/campaign/lead.go:178-187 | the first lead with the uuid |
| Leads.Campaign.CountStats | internal/campaign/lead.go:151-175 | each counter is the tally of its own status, and the seven add up to the total |
| Leads.Campaign.RequestCancel | internal/campaign/manager.go:146-163 | only the first request sets flag and status |
| Leads.Campaign.BeginDial | internal/campaign/manager.go:215-222 | the worker's section before originate, all other leads unchanged |
| Leads.Campaign.RecordDial | internal/campaign/manager.go:224-240 | the section after originate: failed, ended and without uuid, or the uuid recorded |
| Leads.Campaign.SkipLead | internal/campaign/manager.go:182-209 | a pending lead becomes canceled and ended, any other stays |
| Leads.Campaign.Finish | internal/campaign/manager.go:252-257 | done unless canceled |
| Leads.FirstMatch | internal/campaign/lead.go:191-208 | the lookup returns the first match, else no lead |
| Leads.StatsAddUp | internal/campaign/lead.go:151-175 | the seven counters sum to the total for every list of leads |
| Leads.TallyCounts | internal/campaign/lead.go:151-175 | a tally is the number of leads with that status |
| Leads.UpdateByField | internal/campaign/lead.go:191-208 | the same field by field about the list of leads |
| Leads.EffectsByField | internal/campaign/manager.go:187-240 | field by field, what dialing, recording a result and skipping do to a lead |
| Leads.UpdateReachesOwner | internal/campaign/lead.go:191-208 | with distinct uuids an update changes the owner of the uuid and no other lead |
| Leads.EarlyUpdateIsLost | internal/campaign/lead.go:191-208 | an update for an unrecorded uuid changes nothing |
| Leads.EmptyUuidHitsUndialedLead | internal/campaign/lead.go:191-208 | in every list the empty uuid hits the first lead without a recorded call, and none exactly if all have one |
| CampaignPool.EffectiveCcu | internal/campaign/manager.go:112-114 | a positive bound is kept, any other means one worker |
| CampaignSafety.StepKeepsInv | internal/campaign/manager.go:175-267 | every step of dispatcher, worker or outside keeps the invariant on slots, wait group, statuses and each lead's fate |
| CampaignSafety.RunKeepsInv | internal/campaign/manager.go:175-267 | so does every run |
| CampaignSafety.ReachableInv | internal/campaign/manager.go:175-267 | hence it holds in every reachable state |
| CampaignSafety.BoundedAndOnce | internal/campaign/manager.go:175-267 | in every reachable state: leads in originate <= slots held <= bound, each lead dialed at most once, every terminal lead has its end time |
| CampaignSafety.ClosedMeansDecided | internal/campaign/manager.go:175-267 | when the run closes no lead is pending; each was dialed once or is canceled without uuid; all dialed once if nothing was cancelled; final status as the flag says |
| CampaignSafety.NeverStuck | internal/campaign/manager.go:175-267 | an unfinished run always has an enabled step of its own |
| CampaignSafety.StepsDecrease | internal/campaign/manager.go:175-267 | each such step lowers the measure, outside events leave it |
| CampaignSafety.BoundedSteps | internal/campaign/manager.go:175-267 | the steps of a run are bounded by the measure it starts with |
| CampaignSafety.StartMeasure | internal/campaign/manager.go:175-267 | which is 12 n + 3 for n leads |
| CampaignSafety.CancelStopsDialing | internal/campaign/manager.go:146-210 | from any reachable state: after the flag at most one more slot is taken, leads behind the dispatcher's current one end canceled and undialed, the status stays canceled |
| CampaignSafety.ContextStopsDialing | internal/campaign/manager.go:182-210 | the end of the context alone stops the dialing too: all leads behind the one waiting for a slot end canceled and undialed |
| CampaignSafety.CanceledStays | internal/campaign/manager.go:252-257 | "canceled" is never overwritten |
| CampaignSafety.FrozenStays | internal/campaign/manager.go:182-240 | a skipped lead or one whose originate failed keeps an empty uuid and is never changed again, by any update |
| CampaignSafety.LostUpdateWitness | internal/campaign/manager.go:80-83 | a run in which the end of a call arrives before originate returns and is lost |
| CampaignUpdates.RunKeepsPast | internal/campaign/manager.go:212-240 | along every run a lead carries a uuid exactly if originate returned it for that lead and the worker recorded it since |
| CampaignUpdates.OneOwner | internal/campaign/manager.go:224-240 | with distinct uuids from originate no two leads ever record the same one |
| CampaignUpdates.UpdateLandsIff | internal/campaign/lead.go:191-208 | at any point of any run an update gives status, message and end time to the lead that has recorded its uuid by then and to no other, and changes nothing at all if none has |
| Filler.RunKeepsInv | internal/pipeline/filler_ctrl.go:84-161 | plays are accounted for as stopped, stored, in the decider's hands, or owed by the first `Cancel` |
| Filler.StoppedExactlyIf | internal/pipeline/filler_ctrl.go:84-161 | at most one stop, never without a play, in every interleaving; and exactly when the filler has been stopped |
| Filler.SecondCancelReturnsEarly | internal/pipeline/filler_ctrl.go:142-161 | a run in which a `Cancel` has returned and the filler still plays |
| Filler.SettlesStopped | internal/pipeline/filler_ctrl.go:84-161 | once a `Cancel` has begun, every run makes at most four more steps of decider and that `Cancel`, and when they have nothing left to do no filler is left playing |
| Filler.SettlesAlone | internal/pipeline/filler_ctrl.go:84-161 | they get there in at most three steps without the bot or another `Play` |
| Filler.FillerController.Store | internal/pipeline/filler_ctrl.go:122-134 | the decider's mutex section does the step of the system |
| Filler.FillerController.Cancel | internal/pipeline/filler_ctrl.go:142-161 | an undisturbed `Cancel` is one step if it comes late, else three |
| BargeIn.Trim | internal/pipeline/bargein.go:143-160 | no white space at either end, empty exactly for blank text |
| BargeIn.TrimKeepsCore | internal/pipeline/bargein.go:143-160 | trimming removes white space at the ends and nothing else |
| BargeIn.CountWords | internal/pipeline/bargein.go:244-246 | positive exactly for text that is not blank |
| BargeIn.OneWord | internal/pipeline/bargein.go:244-246 | a run without white space is one word |
| BargeIn.WordsAdd | internal/pipeline/bargein.go:244-246 | words add up across white space, which with the previous row fixes the count for every text |
| BargeIn.EffectiveMinWords | internal/pipeline/bargein.go:67-69 | a positive threshold is kept, any other means three words |
| BargeIn.TriggerIsFirst | internal/pipeline/bargein.go:143-175 | the trigger index is the first result with enough words |
| BargeIn.LastTextIs | internal/pipeline/bargein.go:143-191 | the last text is that of the last result that is not blank |
| BargeIn.BargeInMonitor.Watch | internal/pipeline/bargein.go:143-191 | for every result sequence: triggered exactly if some result has enough words, closed once, stops exactly at the first final from there on, exactly one non-empty final, the last non-blank text, and which text is stored |
| BargeIn.StepKeepsInv | internal/pipeline/bargein.go:103-194 | every interleaved step of watcher and `Speak` keeps the joint invariant |
| BargeIn.TriggerAndFinal | internal/pipeline/bargein.go:103-194 | in every interleaving: at most one close, only after a result with enough words; a watcher that exits after a trigger has emitted exactly one non-empty text |
| BargeInAccount.SpeakLeavesTranscript | internal/pipeline/turn.go:689-851 | a `Speak` that returns normally with barge-in fired leaves the watcher's final, which is the last text heard, if it got it, and on a timeout the text that tripped the trigger or the final decided by then; otherwise the pending transcript is untouched |
| BargeInAccount.TimeoutText | internal/pipeline/bargein.go:208-230 | at a timeout, exactly the text the watcher has stored |
| BargeInAccount.SpeakReturns | internal/pipeline/turn.go:713-851 | the action is that of the bot's answer, ENDCALL also after a barge-in; success exactly if neither the answer failed nor the caller's context ended, where a cancelled request is no failure exactly if the trigger had been seen |
| BargeInAccount.SpeakWaits | internal/pipeline/turn.go:734-818 | a seen trigger always fires; audio is noted exactly if a frame came; a normal return has waited for pump and audio, and without barge-in for the playback |
| BargeIn.EarlyTriggerFires | internal/pipeline/turn.go:713-733 | a trigger that closes before `Speak` has looked for it after the bot's answer is never missed: a normal return has barge-in fired and a transcript |
| BargeIn.TimeoutStillHasText | internal/pipeline/bargein.go:208-230 | also when the wait for the final times out |
| TurnLoop.RacesArePossible | internal/pipeline/turn.go:420-870 | every finished race of `Speak`, watcher and audio is an outcome the turn theorems admit, with that race's action, transcript and audio |
| TurnLoop.Pipeline.Speak | internal/pipeline/turn.go:420-870 | the request it makes and the fields it leaves for a given outcome of streams, audio and barge-in |
| TurnLoop.Pipeline.SpeakAndRecord | internal/pipeline/turn.go:933-979 | the appended record and the end of the call on ENDCALL |
| TurnLoop.Pipeline.RunGreeting | internal/pipeline/turn.go:924-927 | the greeting is a turn with empty text |
| TurnLoop.Pipeline.RunTurn | internal/pipeline/turn.go:888-917 | a pending transcript goes before `Listen`; silence ends the turn without asking the bot |
| TurnLoop.Pipeline.RunCall | internal/pipeline/session_runner.go:549-605 | greeting, then turns until end, failure or cancellation, as the specification loop |
| TurnLoop.TurnKeepsInv | internal/pipeline/turn.go:888-979 | one turn keeps the shape of history and requests |
| TurnLoop.LoopKeepsInv | internal/pipeline/session_runner.go:549-605 | so does the loop, from any state of the call |
| TurnLoop.LoopAccount | internal/pipeline/session_runner.go:567-604 | the loop runs every round up to the first cancelled one, failure or ENDCALL and stops at nothing else; each round adds its own request and record, or nothing exactly if it was silent with nothing pending |
| TurnLoop.CallAccount | internal/pipeline/session_runner.go:549-605 | the same for a whole call, starting from the record of its greeting |
| TurnLoop.EveryRoundRuns | internal/pipeline/session_runner.go:549-605 | if no round is cancelled, fails, is silent or ends the call, there is one request and one record for the greeting and for each round |
| TurnLoop.HistoryShape | internal/pipeline/session_runner.go:549-605 | for every call with a live source: indices 0..n-1, only entry 0 without user text and without ASR time, ENDCALL only last and final, never "" asked after the greeting, short filler forced exactly after a silent barge-in |
| TurnLoop.BargeInCarriesOver | internal/pipeline/turn.go:833-917 | the next turn asks exactly the captured text, without `Listen` |
| TurnLoop.RecordAndNextRequest | internal/pipeline/turn.go:888-979 | the appended record is that of this turn's own outcome, and the next request is the captured text after a barge-in, else what was heard, with the short filler flag exactly after a silent barge-in |
| TurnLoop.AsksEmptyIff | internal/pipeline/turn.go:888-917 | a turn asks "" exactly if there is no source and nothing pending |
| Listening.Listen | internal/pipeline/turn.go:263-407 | the result is the outcome that the following rows fix; an error if the stream cannot be opened |
| Listening.Drain | internal/pipeline/turn.go:363-383 | draining takes results up to the first final, close or deadline |
| Listening.LastResultIs | internal/pipeline/turn.go:333-346 | the text heard is that of the last result that has one |
| Listening.EndsAtOnce | internal/pipeline/turn.go:330-355 | a final result or the end of the stream ends listening: nothing after it counts |
| Listening.FailsAtOnce | internal/pipeline/turn.go:303-328 | listening fails exactly if reading is stopped by the end of the context or a failed send |
| Listening.DrainIsHeard | internal/pipeline/turn.go:363-383 | after silence or the end of the caller's audio, results still count up to the final one, the end of the stream, the deadline or the end of the context |
| Listening.TimesOut | internal/pipeline/turn.go:303-383 | if only the time limits end the listening, everything heard counts |
| Playback.DecimalValue | internal/pipeline/session_runner.go:102-115 | decimal notation of the utterance number can be read back |
| Playback.PathInjective | internal/pipeline/session_runner.go:102-115 | a path determines uuid and utterance number |
| Playback.PathExample | internal/pipeline/session_runner.go:102-106 | the path of one utterance, letter by letter |
| Playback.FillerNeverClashes | internal/filler/filler.go:119-128 | no utterance path is a filler path |
| Playback.FillerNames | internal/filler/filler.go:125-128 | fillers are the names ending in .wav or .mp3 in any letter case, and no others |
| Playback.RunKeepsInv | internal/pipeline/session_runner.go:71-201 | every run of opens, failures, stops and fillers keeps the account of each handle |
| Playback.DoneExactlyOnOwnStop | internal/pipeline/session_runner.go:71-141 | each done channel closes at most once, and has closed exactly if an event with its own path came while it was registered |
| Playback.PlaybackOpener.Open | internal/pipeline/session_runner.go:102-141 | a fresh number and path each time; the registry makes exactly the steps of the protocol, the new handle is registered, and a failed opener leaves no entry of its own |
| Playback.SessionRunner.Register | internal/pipeline/session_runner.go:109-119 | the opening step of the protocol on the registry in place |
| Playback.SessionRunner.Drop | internal/pipeline/session_runner.go:123-133 | the step of a failed opener |
| Playback.PlaybackHandle.SignalDone | internal/pipeline/session_runner.go:230-234 | one close, however often it is called |
| Playback.SessionRunner.OnPlaybackStop | internal/pipeline/session_runner.go:71-90 | the stop step of the protocol: exactly the named entry is removed and its handle closed, all other handles unchanged |
| Playback.SessionRunner.Stopped | internal/pipeline/session_runner.go:78-90 | the stop step for a path that the event names |
| Playback.SessionRunner.PlayFiller | internal/pipeline/session_runner.go:150-181 | a filler handle is registered under the file's path and dropped if playback fails; no utterance handle is touched |
| Playback.SessionRunner.StopFiller | internal/pipeline/session_runner.go:183-201 | the filler's entry goes, every utterance entry stays |
| Outbound.OutboundHandler.Originate | internal/pipeline/outbound.go:137-197 | without bot, registry or providers nothing is touched; else stored on success, removed and reported failed otherwise |
| Outbound.OutboundHandler.OnAnswer | internal/pipeline/outbound.go:199-258 | marks a pending call answered; tells the campaign and starts a session exactly if none runs |
| Outbound.OutboundHandler.OnHangup | internal/pipeline/outbound.go:260-295 | cancels a running session and touches nothing else, else removes the entry and reports Completed or the class of the cause, else nothing |
| Outbound.CausesByName | internal/pipeline/outbound.go:299-311 | three causes mean no answer, every other a failure |
| Outbound.OutboundHandler.OnEnd | internal/pipeline/outbound.go:239-244 | reports Completed and removes the entry |
| Outbound.StepKeepsInv | internal/pipeline/outbound.go:137-295 | every event keeps the account of every call, and entries exist only for placed calls |
| Outbound.CallAccount | internal/pipeline/outbound.go:137-295 | for every call in every reachable state, which answers and ends were reported, when a session starts after the hangup, that a session is cancelled exactly if the hangup came while it ran, and that at quiescence the uuid is gone |
| Outbound.RemovedStaysRemoved | internal/pipeline/outbound.go:199-295 | a removed entry never comes back, and no later ANSWER starts a session |
| Outbound.LateSessionWitness | internal/pipeline/outbound.go:199-295 | a run with a session after the hangup and two Completed reports |
| RingBuffer.RingBuf.Write | internal/audio/ringbuf.go:26-39 | in-place writes of any length, also wrapping and longer than the ring, keep it holding the last bytes written; terminates for positive capacity |
| RingBuffer.RingBuf.Snapshot | internal/audio/ringbuf.go:43-59 | the last min(capacity, total) bytes in order |
| RingBuffer.RingBuf.Reset | internal/audio/ringbuf.go:62-70 | nothing is held and every byte is cleared |
| RingBuffer.LastOfAppend | internal/audio/ringbuf.go:26-39 | forgetting early or late makes no difference |
| RingBuffer.LastOfIsSuffix | internal/audio/ringbuf.go:43-59 | what a ring holds is a suffix |
| RingBuffer.OverwriteAtHead | internal/audio/ringbuf.go:26-39 | overwriting at the head drops exactly the oldest bytes |
| RingBuffer.HeldIsSuffix | internal/audio/ringbuf.go:26-70 | the contents after any operations are a suffix of everything written since the last reset |
| RingBuffer.RunAll | internal/audio/ringbuf.go:21-70 | the snapshot after any sequence of writes and resets is that suffix |
| Vad.PcmSumOfSquares | internal/vad/timeout.go:141-153 | the loop sums the squares of all signed samples |
| Vad.SampleOfBytes | internal/vad/timeout.go:141-153 | every 16-bit number is read back from its two bytes, low byte first, at any position |
| Vad.IsLoudIsRms | internal/vad/timeout.go:141-153 | the test on sums decides the comparison with the root mean square |
| Vad.ConstantFrameLoud | internal/vad/timeout.go:141-153 | a frame of one value is loud exactly if its amplitude reaches the threshold |
| Vad.FrameDuration | internal/vad/timeout.go:131-137 | the exact duration of the samples rounded down to nanoseconds, nothing without a rate |
| Vad.EffectiveFields | internal/vad/timeout.go:57-65 | only a zero rate and a zero multiplier are replaced, by 8000 and 1; all else stays |
| Vad.EnergyDetector.Push | internal/vad/timeout.go:70-99 | a frame is judged by its energy and the threshold in force; the event is the one the history determines |
| Vad.EnergyDetector.Advance | internal/vad/timeout.go:76-114 | the hysteresis fields track the history's unbroken runs |
| Vad.EnergyDetector.SetBotSpeaking | internal/vad/timeout.go:116-120 | only the threshold changes |
| Vad.EnergyDetector.Reset | internal/vad/timeout.go:122-128 | the history is forgotten, the bot flag kept |
| Vad.SpeakingStep | internal/vad/timeout.go:70-114 | one more frame changes speech exactly by a long enough run |
| Vad.EventsAlternate | internal/vad/timeout.go:70-114 | events alternate, starting with SpeechStart, for every configuration and history |
| Vad.EventsAtThresholds | internal/vad/timeout.go:70-114 | with positive minimum durations each event comes exactly when the unbroken run first reaches its minimum |
| Vad.Detect | internal/vad/timeout.go:57-114 | a new detector on any frames reports exactly the events of the history of frames that last at all, judged at the threshold the bot flag selects |
| Vad.HigherThreshold | internal/vad/timeout.go:70-80 | a multiplier of at least one makes frames only quieter |
| Vad.NeverEarlier | internal/vad/timeout.go:70-114 | the stricter of two detectors never starts speech first, from any common history outside speech |
| Vad.BotSpeakingNeverEarlier | internal/vad/timeout.go:70-120 | so the bot-speaking detector is never earlier on the same bytes |
| Vad.DurationShortfall | internal/vad/timeout.go:131-137 | k summed durations fall short of the exact one by less than k ns, by nothing if the rate divides a second |
| Wav.LittleEndian | internal/api/web_voice.go:829-841 | n-byte fields hold and give back the number modulo 256^n |
| Wav.ByteOrder | internal/api/web_voice.go:829-841 | the least significant byte of a field comes first |
| Wav.ByteValues | cmd/offline-cli/main.go:193-212 | so is a field read |
| Wav.WavRecorder.Write | internal/api/web_voice.go:810-814 | the accepted bytes are appended and the 32-bit counter wraps; a closed recorder takes nothing |
| Wav.WavRecorder.Close | internal/api/web_voice.go:816-845 | the header is written over the reserved bytes as far as it can be, the samples are kept, the file is closed in any case; a second close changes nothing |
| Wav.HeaderConsistent | internal/api/web_voice.go:823-842 | the header fields no reader checks agree with the ones they do: byte rate, block size, both lengths |
| Wav.ParseWav | cmd/offline-cli/main.go:177-239 | the moving-position loop is the chunk walk of the specification, errors included |
| Wav.LoadWav | cmd/loadtest/main.go:296-344 | the other reader is the same walk with coarser errors |
| Wav.RefusalKinds | cmd/loadtest/main.go:296-344 | which refusals of the one reader each refusal of the other stands for |
| Wav.BothReaders | cmd/loadtest/main.go:296-344 | both readers accept the same files with the same samples, for every input |
| Wav.WalkChunk | cmd/offline-cli/main.go:188-238 | a complete chunk of any length is consumed whole, without a pad byte |
| Wav.UnknownChunkIgnored | cmd/offline-cli/main.go:232-236 | an unknown chunk inserted at any chunk boundary changes nothing |
| Wav.AnyFormat | cmd/offline-cli/main.go:196-231 | for a format chunk of any tag, channels, rates, bits and extension: exactly 8000 Hz mono 16-bit PCM is accepted, with the data as it stands, and each other refused for its reason |
| Wav.Truncated | cmd/offline-cli/main.go:188-238 | a chunk that claims more bytes than the file has is refused by its kind |
| Wav.ReadBack | internal/api/web_voice.go:816-845 | what either reader returns for any closed recording at any rate |
| Wav.RoundTripIff | internal/api/web_voice.go:792-845 | at 8000 Hz a recording reads back exactly if it is below 2^32 bytes, and its RIFF size is right exactly below 2^32 - 36 |
| Wav.CutFrames | cmd/loadtest/main.go:256-277 | the frames concatenate to the samples, all full but the last, which is never empty |
| Wav.PlayFiller | internal/api/web_voice.go:560-586 | 640-byte frames of the file without its 44 header bytes, in order, all of them unless cancelled |
| Wav.PlayRecording | internal/api/web_voice.go:569-587 | a played recording is exactly what was recorded |
| Migrations.VersionsDiffer | internal/store/migrate.go:45-46 | different files have different versions |
| Migrations.VersionOfFile | internal/store/migrate.go:46 | the version of a file is its name without the extension |
| Migrations.StepKeepsInv | internal/store/migrate.go:45-80 | every step, failure, crash or lost commit of any process keeps the invariant |
| Migrations.RunKeepsInv | internal/store/migrate.go:45-80 | so does every run, and nothing recorded is ever lost |
| Migrations.AppliedInOrderOnce | internal/store/migrate.go:45-80 | after any run of any processes the recorded versions are a prefix of the files, each once, the schema is exactly their bodies in order, and success means all files of that process are in |
| Migrations.CommitsOnWhatItSaw | internal/store/migrate.go:62-77 | a transaction about to commit ran its body on the schema that is still current |
| Migrations.RaceFailsOne | internal/store/migrate.go:66-74 | a run in which two processes apply one body, and the primary key fails the second: the failing side of the next two rows |
| MigrationRaces.InsertFailsIff | internal/store/migrate.go:45-74 | from an unrecorded check to the INSERT of the same file: the INSERT fails exactly if something was recorded in between |
| MigrationRaces.UndisturbedFailsIff | internal/store/migrate.go:45-80 | in every run of any processes, one that no call failed ends in failure exactly if on some file another committed between its check and its INSERT |
| Migrations.NeverStuck | internal/store/migrate.go:45-80 | some process can always move |
| Migrations.StepsDecrease | internal/store/migrate.go:45-80 | every step brings its process nearer the end and moves no other |
| Migrations.FileIsSteps | internal/store/migrate.go:45-79 | one round of the loop is a run of the interleaved system |
| Migrations.Database.ApplyMigrations | internal/store/migrate.go:24-81 | the whole loop is such a run; it keeps the prefix, completes it if nothing fails, and changes nothing if all its files are recorded |
| Migrations.Restart | internal/store/migrate.go:24-81 | a run without failures completes the fold from whatever a crash left, and is a no-op when complete |

## Left out

- HTTP, SQL, ESL, FIFO, gRPC and WebSocket plumbing, authentication, metrics, tracing and configuration: thin code over libraries; their outcomes are events or parameters.
- Wall-clock values: a timestamp is only set or nil, and a timeout may fire at any time.
- Filler choice, intent resolution and directory scanning: `Play` succeeds or fails; only the extension filter is modelled.
- The web voice turn recursion and its barge monitor: the same shape as the phone pipeline with weaker guarantees.
- CSV reading: a lead starts as the reader creates it, and no lead object is listed twice in a campaign.
- Campaign updates: the uuid is not empty and the status not Pending, as both event handlers see to; `EmptyUuidHitsUndialedLead` says what an empty uuid would do.
- Outbound: at most one ANSWER and one HANGUP per uuid, each handler body one step, and a uuid is not placed twice.
- Playback: one opener per uuid, uuids without path separators, and a directory already cleaned; handles of filler files are shared between calls and not accounted for.
- TurnLoop.Pipeline.Speak: how streams, audio and barge-in turn out is a parameter, proved possible by `RacesArePossible` and free otherwise; a failing `Speak` may already have noted its first audio, but the loop ends there and nothing reads it.
- TurnLoop.RacesArePossible: the bot text of an outcome is arbitrary, since `Speak` takes it from the pump of `BotStream`, whose races are modelled apart.
- BargeIn.CountWords: transcripts are sequences of characters, not bytes.
- SentenceParsing.SentenceParser.Finalize: upper-casing is modelled for ASCII letters; no other rune maps to a letter of CHAT or ENDCALL.
- RingBuffer.RingBuf.Write: on a ring without capacity the source's loop does not end, so that case is a precondition.
- Vad.EnergyDetector.Push: float rounding and the square root are replaced by exact arithmetic, and durations do not overflow 64 bits.
- Wav.WavRecorder.Close: sample rates are not negative, and creating the file with its reserved header succeeds.
- Wav.ParseWav: a chunk size that exceeds memory is not modelled; the walk reads it as any other.
- Migrations: listing and sorting of the embedded files; the order is any fixed one without duplicate names. A body that itself commits or rolls back is outside the model.
