/** internal/pipeline/turn.go `Listen`: the event loop that streams caller frames to ASR and
    collects the transcript, then drains what ASR still owes. The script says which case each
    select takes; when it runs out, the silent timeout or the drain timeout fires. */
module Listening {
  import opened TurnLoop
  import BargeIn

  datatype SendResult = SendOk | SendEof | SendFailed

  datatype ListenEvent =
    | ContextDone
    | SilentTimeout
    | Frame(sent: SendResult)
    | SourceEnded
    | Result(text: string, isFinal: bool)
    | RecvClosed
    | DrainTimeout

  predicate StopsReading(e: ListenEvent) {
    || e.ContextDone? || e.SilentTimeout? || e.SourceEnded? || e.RecvClosed?
    || (e.Frame? && !e.sent.SendOk?) || (e.Result? && e.isFinal)
  }

  predicate FailsReading(e: ListenEvent) {
    e.ContextDone? || e == Frame(SendFailed)
  }

  predicate StopsDraining(e: ListenEvent) {
    e.ContextDone? || e.RecvClosed? || e.DrainTimeout? || (e.Result? && e.isFinal)
  }

  /** The first index from `i` on whose event stops the loop, or the end of the script. */
  function FirstStop(es: seq<ListenEvent>, i: nat, draining: bool): (k: nat)
    requires i <= |es|
    ensures i <= k <= |es|
    ensures k < |es| ==> if draining then StopsDraining(es[k]) else StopsReading(es[k])
    ensures forall j :: i <= j < k ==> if draining then !StopsDraining(es[j]) else !StopsReading(es[j])
    decreases |es| - i
  {
    if i == |es| || (if draining then StopsDraining(es[i]) else StopsReading(es[i])) then i
    else FirstStop(es, i + 1, draining)
  }

  /** The last non-empty result text, trimmed only at the very end. */
  function LastResult(es: seq<ListenEvent>): string {
    if es == [] then ""
    else
      var e := es[|es| - 1];
      if e.Result? && e.text != "" then e.text else LastResult(es[..|es| - 1])
  }

  /** How far the script counts: to the stop of the reading loop, and unless that was a final
      result or the closed stream, on to the stop of the drain loop. */
  function HeardUpTo(es: seq<ListenEvent>): (n: nat)
    ensures n <= |es|
  {
    var k := FirstStop(es, 0, false);
    if k == |es| then k
    else if es[k].Result? || es[k].RecvClosed? then k + 1
    else
      var d := FirstStop(es, k + 1, true);
      if d == |es| then d else d + 1
  }

  /** What `Listen` returns; `started` is whether the ASR stream could be started. */
  function Outcome(started: bool, es: seq<ListenEvent>): Heard {
    var k := FirstStop(es, 0, false);
    if !started || (k < |es| && FailsReading(es[k])) then ListenError
    else Heard(BargeIn.Trim(LastResult(es[..HeardUpTo(es)])))
  }

  // ------------------------------------------------------------- what that means

  /** The text is that of the last result that has one. */
  lemma {:induction false} LastResultIs(es: seq<ListenEvent>, k: nat)
    requires k < |es| && es[k].Result? && es[k].text != ""
    requires forall i :: k < i < |es| && es[i].Result? ==> es[i].text == ""
    ensures LastResult(es) == es[k].text
    decreases |es|
  {
    if k < |es| - 1 {
      LastResultIs(es[..|es| - 1], k);
    }
  }

  lemma NextResult(es: seq<ListenEvent>, i: nat)
    requires i < |es|
    ensures LastResult(es[..i + 1]) ==
              if es[i].Result? && es[i].text != "" then es[i].text else LastResult(es[..i])
  {
    assert es[..i + 1][..i] == es[..i];
  }

  lemma {:induction false} NoResult(es: seq<ListenEvent>)
    requires forall i :: 0 <= i < |es| && es[i].Result? ==> es[i].text == ""
    ensures LastResult(es) == ""
  {
    if es != [] {
      NoResult(es[..|es| - 1]);
    }
  }

  /** Events that the reading loop goes on after. */
  predicate ReadsOn(e: ListenEvent) {
    match e
    case Frame(sent) => sent == SendOk
    case Result(_, isFinal) => !isFinal
    case DrainTimeout => true
    case _ => false
  }

  /** Events that the drain goes on after; it no longer looks at the caller. */
  predicate DrainsOn(e: ListenEvent) {
    match e
    case Frame(_) => true
    case SilentTimeout => true
    case SourceEnded => true
    case Result(_, isFinal) => !isFinal
    case _ => false
  }

  /** The first stop is the only position that stops with none before it. */
  lemma FirstStopIs(es: seq<ListenEvent>, i: nat, draining: bool, k: nat)
    requires i <= k < |es|
    requires if draining then StopsDraining(es[k]) else StopsReading(es[k])
    requires forall j :: i <= j < k ==> if draining then !StopsDraining(es[j]) else !StopsReading(es[j])
    ensures FirstStop(es, i, draining) == k
  {
    var n := FirstStop(es, i, draining);
    assert n <= k && n >= k;
  }

  lemma ReadsUpTo(before: seq<ListenEvent>, e: ListenEvent, after: seq<ListenEvent>)
    requires forall k :: 0 <= k < |before| ==> ReadsOn(before[k])
    requires !ReadsOn(e)
    ensures var es := before + [e] + after; FirstStop(es, 0, false) == |before| && es[|before|] == e
  {
    var es := before + [e] + after;
    assert forall k :: 0 <= k < |before| ==> es[k] == before[k];
    FirstStopIs(es, 0, false, |before|);
  }

  lemma DrainsUpTo(read: seq<ListenEvent>, owed: seq<ListenEvent>, last: ListenEvent, after: seq<ListenEvent>)
    requires forall k :: 0 <= k < |owed| ==> DrainsOn(owed[k])
    requires !DrainsOn(last)
    ensures FirstStop(read + owed + [last] + after, |read|, true) == |read| + |owed|
  {
    var es := read + owed + [last] + after;
    assert forall k :: |read| <= k < |read| + |owed| ==> es[k] == owed[k - |read|];
    FirstStopIs(es, |read|, true, |read| + |owed|);
  }

  /** A final result or the end of the stream ends listening at once: nothing after it counts. */
  lemma EndsAtOnce(before: seq<ListenEvent>, e: ListenEvent, after: seq<ListenEvent>)
    requires forall k :: 0 <= k < |before| ==> ReadsOn(before[k])
    requires e == RecvClosed || (e.Result? && e.isFinal)
    ensures Outcome(true, before + [e] + after) == Heard(BargeIn.Trim(LastResult(before + [e])))
  {
    hide BargeIn.Trim, LastResult, FirstStop;
    var es := before + [e] + after;
    assert es[..|before| + 1] == before + [e];
    ReadsUpTo(before, e, after);
  }

  /** The end of the context or a failed send, and nothing else, makes listening fail. */
  lemma FailsAtOnce(before: seq<ListenEvent>, e: ListenEvent, after: seq<ListenEvent>)
    requires forall k :: 0 <= k < |before| ==> ReadsOn(before[k])
    requires !ReadsOn(e)
    ensures Outcome(true, before + [e] + after).ListenError? <==> e == ContextDone || e == Frame(SendFailed)
  {
    hide BargeIn.Trim, LastResult, FirstStop, HeardUpTo;
    ReadsUpTo(before, e, after);
  }

  /** After the caller's side has ended, ASR is still heard out: up to its final result, the end
      of its stream, the deadline or the end of the context, whichever comes first. */
  lemma DrainIsHeard(before: seq<ListenEvent>, stop: ListenEvent, owed: seq<ListenEvent>, last: ListenEvent,
                     after: seq<ListenEvent>)
    requires forall k :: 0 <= k < |before| ==> ReadsOn(before[k])
    requires stop == SilentTimeout || stop == SourceEnded || stop == Frame(SendEof)
    requires forall k :: 0 <= k < |owed| ==> DrainsOn(owed[k])
    requires !DrainsOn(last)
    ensures Outcome(true, before + [stop] + owed + [last] + after)
            == Heard(BargeIn.Trim(LastResult(before + [stop] + owed + [last])))
  {
    hide BargeIn.Trim, LastResult, FirstStop;
    hide HeardUpTo;
    var read, rest := before + [stop], owed + [last] + after;
    var heard := read + owed + [last];
    Regroup(read, owed, last, after);
    ReadsUpTo(before, stop, rest);
    DrainsUpTo(read, owed, last, after);
    HeardThroughDrain(read + rest, |before|, |heard|);
  }

  /** If nothing ends the listening but the time limits, everything in the script counts. */
  lemma TimesOut(before: seq<ListenEvent>, stop: ListenEvent, owed: seq<ListenEvent>)
    requires forall k :: 0 <= k < |before| ==> ReadsOn(before[k])
    requires stop == SilentTimeout || stop == SourceEnded || stop == Frame(SendEof)
    requires forall k :: 0 <= k < |owed| ==> DrainsOn(owed[k])
    ensures Outcome(true, before) == Heard(BargeIn.Trim(LastResult(before)))
    ensures Outcome(true, before + [stop] + owed) == Heard(BargeIn.Trim(LastResult(before + [stop] + owed)))
  {
    hide BargeIn.Trim, LastResult, FirstStop, DrainsOn, HeardUpTo, Outcome;
    var es := before + [stop] + owed;
    NeverStops(before);
    ReadsUpTo(before, stop, owed);
    NeverDrained(before + [stop], owed);
    HeardAll(before);
    HeardAll(es);
  }

  lemma NeverStops(es: seq<ListenEvent>)
    requires forall k :: 0 <= k < |es| ==> ReadsOn(es[k])
    ensures FirstStop(es, 0, false) == |es|
  {
    hide FirstStop;
    assert forall k :: 0 <= k < |es| ==> !StopsReading(es[k]);
  }

  lemma NeverDrained(read: seq<ListenEvent>, owed: seq<ListenEvent>)
    requires forall k :: 0 <= k < |owed| ==> DrainsOn(owed[k])
    ensures FirstStop(read + owed, |read|, true) == |read| + |owed|
  {
    hide FirstStop;
    assert forall k :: |read| <= k < |read| + |owed| ==> (read + owed)[k] == owed[k - |read|];
  }

  lemma HeardAll(es: seq<ListenEvent>)
    requires var k := FirstStop(es, 0, false);
             k < |es| ==> !es[k].Result? && !es[k].RecvClosed? && !FailsReading(es[k])
                          && FirstStop(es, k + 1, true) == |es|
    ensures Outcome(true, es) == Heard(BargeIn.Trim(LastResult(es)))
  {
    hide FirstStop, BargeIn.Trim, LastResult, FailsReading, HeardUpTo;
    HeardToEnd(es);
    assert es[..|es|] == es;
  }

  lemma HeardToEnd(es: seq<ListenEvent>)
    requires var k := FirstStop(es, 0, false);
             k < |es| ==> !es[k].Result? && !es[k].RecvClosed? && FirstStop(es, k + 1, true) == |es|
    ensures HeardUpTo(es) == |es|
  {
    hide FirstStop;
  }

  lemma Regroup(read: seq<ListenEvent>, owed: seq<ListenEvent>, last: ListenEvent, after: seq<ListenEvent>)
    ensures var heard := read + owed + [last];
            heard + after == read + (owed + [last] + after) && (heard + after)[..|heard|] == heard
  {
  }

  lemma HeardThroughDrain(es: seq<ListenEvent>, k: nat, n: nat)
    requires k < |es| && FirstStop(es, 0, false) == k && !es[k].Result? && !es[k].RecvClosed?
    requires k < n <= |es| && FirstStop(es, k + 1, true) == n - 1
    ensures HeardUpTo(es) == n
  {
    hide FirstStop;
  }

  // ------------------------------------------------------------- the code's form

  method Listen(started: bool, es: seq<ListenEvent>) returns (h: Heard)
    ensures h == Outcome(started, es)
    ensures !started ==> h == ListenError
  {
    hide BargeIn.Trim, LastResult;
    NoResult([]);
    if !started {
      return ListenError;
    }
    var final, gotFinal, closed := "", false, false;
    var i := 0;
    while i < |es|
      invariant i <= |es| && FirstStop(es, 0, false) == FirstStop(es, i, false)
      invariant final == LastResult(es[..i]) && !gotFinal && !closed
    {
      var e := es[i];
      NextResult(es, i);
      i := i + 1;
      match e {
        case ContextDone => return ListenError;
        case SilentTimeout => break;
        case Frame(sent) =>
          if sent == SendEof { break; }
          if sent == SendFailed { return ListenError; }
        case SourceEnded => break;
        case Result(text, isFinal) =>
          if text != "" { final := text; }
          if isFinal { gotFinal := true; break; }
        case RecvClosed => closed := true; break;
        case DrainTimeout =>
      }
    }
    if !gotFinal && !closed {
      final, i := Drain(es, i, final);
    }
    h := Heard(BargeIn.Trim(final));
  }

  /** The drain loop, which looks at nothing but results and its deadline. */
  method Drain(es: seq<ListenEvent>, start: nat, heard: string) returns (final: string, i: nat)
    requires start <= |es| && heard == LastResult(es[..start])
    ensures var d := FirstStop(es, start, true);
            i == (if d == |es| then d else d + 1) && final == LastResult(es[..i])
  {
    hide LastResult;
    final, i := heard, start;
    while i < |es|
      invariant start <= i <= |es| && final == LastResult(es[..i])
      invariant FirstStop(es, start, true) == FirstStop(es, i, true)
    {
      var e := es[i];
      NextResult(es, i);
      i := i + 1;
      if e.Result? && e.text != "" {
        final := e.text;
      }
      if StopsDraining(e) {
        break;
      }
    }
  }
}
