/** internal/pipeline/filler_ctrl.go: the decider goroutine and any number of `Cancel`
    calls share `stopped` and `stopFn` under one mutex. Each mutex section, each `Play` and
    each call of the stop function is one event; a run is any interleaving. */
module Filler {
  datatype Decider = Deciding | Played | DeciderExited

  /** The one `Cancel` that found `stopped` false; it carries the stop function it took. */
  datatype FirstCancel =
    | NoCancel
    | Unlocked(tookStop: bool)
    | ContextCanceled(tookStop: bool)
    | FirstReturned

  datatype Controller = Controller(
    decider: Decider,
    ctxDone: bool,
    stopFn: bool,        // the stored stop function is non-nil
    stopped: bool,
    first: FirstCancel,
    lateReturns: nat,    // `Cancel` calls that returned because another came first
    plays: nat,          // successful `Play` calls
    stops: nat)          // calls of the stop function

  /** `wanted` is the condition under which the controller starts its goroutines at all. */
  function Start(wanted: bool): Controller {
    Controller(if wanted then Deciding else DeciderExited, false, false, false, NoCancel, 0, 0, 0)
  }

  datatype Event =
    | SkipForFirstSentence
    | ExitOnContext
    | Play(ok: bool)
    | StoreStop          // the decider's mutex section after a successful `Play`
    | CancelSection      // the mutex section of one `Cancel` call
    | CancelFillerContext
    | CallStop
    | ParentDone

  predicate Enabled(c: Controller, e: Event) {
    match e
    case SkipForFirstSentence => c.decider.Deciding?
    case ExitOnContext => c.decider.Deciding? && c.ctxDone
    case Play(_) => c.decider.Deciding?
    case StoreStop => c.decider.Played?
    case CancelSection => true
    case CancelFillerContext => c.first.Unlocked?
    case CallStop => c.first.ContextCanceled?
    case ParentDone => true
  }

  function Step(c: Controller, e: Event): Controller
    requires Enabled(c, e)
  {
    match e
    case SkipForFirstSentence => c.(decider := DeciderExited)
    case ExitOnContext => c.(decider := DeciderExited)
    case Play(ok) => if ok then c.(plays := c.plays + 1, decider := Played) else c.(decider := DeciderExited)
    case StoreStop =>
      if c.stopped then c.(stops := c.stops + 1, decider := DeciderExited)
      else c.(stopFn := true, decider := DeciderExited)
    case CancelSection =>
      if c.stopped then c.(stopFn := false, lateReturns := c.lateReturns + 1)
      else c.(stopped := true, stopFn := false, first := Unlocked(c.stopFn))
    case CancelFillerContext => c.(ctxDone := true, first := ContextCanceled(c.first.tookStop))
    case CallStop => c.(stops := c.stops + (if c.first.tookStop then 1 else 0), first := FirstReturned)
    case ParentDone => c.(ctxDone := true)
  }

  predicate Legal(c: Controller, run: seq<Event>)
    decreases |run|
  {
    run == [] || (Enabled(c, run[0]) && Legal(Step(c, run[0]), run[1..]))
  }

  function After(c: Controller, run: seq<Event>): Controller
    requires Legal(c, run)
    decreases |run|
  {
    if run == [] then c else After(Step(c, run[0]), run[1..])
  }

  /** The first `Cancel` still has to call the stop function it took. */
  predicate StopPending(c: Controller) {
    (c.first.Unlocked? || c.first.ContextCanceled?) && c.first.tookStop
  }

  predicate SomeCancelReturned(c: Controller) {
    c.first.FirstReturned? || c.lateReturns > 0
  }

  ghost predicate Inv(c: Controller) {
    && c.plays == c.stops + (if c.decider.Played? then 1 else 0) + (if c.stopFn then 1 else 0)
                  + (if StopPending(c) then 1 else 0)
    && c.plays <= 1
    && (c.decider.Deciding? ==> c.plays == 0)
    && (c.stopped <==> !c.first.NoCancel?)
    && (c.stopped ==> !c.stopFn)
    && (c.first.ContextCanceled? || c.first.FirstReturned? ==> c.ctxDone)
    && (c.lateReturns > 0 ==> c.stopped)
  }

  lemma {:induction false} RunKeepsInv(c: Controller, run: seq<Event>)
    requires Inv(c) && Legal(c, run)
    ensures Inv(After(c, run))
    decreases |run|
  {
    if run != [] {
      RunKeepsInv(Step(c, run[0]), run[1..]);
    }
  }

  /** Over all interleavings: the stop function is called at most once and never without a
      successful `Play`. Once the decider has exited and some `Cancel` has returned, the
      filler has been stopped exactly if no other `Cancel` is still on its way to stop it;
      in particular it has once the `Cancel` that came first has returned. */
  lemma StoppedExactlyIf(wanted: bool, run: seq<Event>)
    requires Legal(Start(wanted), run)
    ensures var c := After(Start(wanted), run);
            && c.stops <= c.plays <= 1
            && (!wanted ==> c.plays == 0)
            && (c.decider.DeciderExited? && SomeCancelReturned(c) ==> (c.stops == c.plays <==> !StopPending(c)))
            && (c.decider.DeciderExited? && c.first.FirstReturned? ==> c.stops == c.plays)
  {
    RunKeepsInv(Start(wanted), run);
    if !wanted {
      UnwantedNeverPlays(Start(false), run);
    }
  }

  lemma {:induction false} UnwantedNeverPlays(c: Controller, run: seq<Event>)
    requires Legal(c, run) && c.decider.DeciderExited?
    ensures After(c, run).plays == c.plays
    decreases |run|
  {
    if run != [] {
      UnwantedNeverPlays(Step(c, run[0]), run[1..]);
    }
  }

  /** The window is real: a second `Cancel` returns while the filler is still playing,
      although the decider has exited. */
  lemma SecondCancelReturnsEarly() returns (run: seq<Event>)
    ensures Legal(Start(true), run)
    ensures var c := After(Start(true), run);
            c.decider.DeciderExited? && SomeCancelReturned(c) && c.plays == 1 && c.stops == 0
  {
    var s := Start(true);
    var playing := Step(Step(s, Play(true)), StoreStop);
    Unroll2(playing, CancelSection, CancelSection);
    run := Cons(s, Play(true), Cons(Step(s, Play(true)), StoreStop, [CancelSection, CancelSection]));
    assert playing == Controller(DeciderExited, false, true, false, NoCancel, 0, 1, 0);
    assert After(s, run) == Controller(DeciderExited, false, false, true, Unlocked(true), 1, 1, 0);
  }

  function Cons(c: Controller, e: Event, run: seq<Event>): (r: seq<Event>)
    requires Enabled(c, e)
    ensures r == [e] + run
    ensures Legal(Step(c, e), run) ==> Legal(c, r) && After(c, r) == After(Step(c, e), run)
  {
    var r := [e] + run;
    assert r[1..] == run;
    r
  }

  lemma Unroll2(c: Controller, e: Event, f: Event)
    requires Enabled(c, e) && Enabled(Step(c, e), f)
    ensures Legal(c, [e, f]) && After(c, [e, f]) == Step(Step(c, e), f)
  {
    var last := Cons(Step(c, e), f, []);
    assert Cons(c, e, last) == [e, f];
  }

  /** A step of the decider or of the `Cancel` that came first. */
  predicate Own(e: Event) {
    !e.CancelSection? && !e.ParentDone?
  }

  /** The decider and the first `Cancel` have nothing left to do. */
  ghost predicate Settled(c: Controller) {
    forall e: Event :: Own(e) ==> !Enabled(c, e)
  }

  function OwnSteps(run: seq<Event>): nat {
    if run == [] then 0 else (if Own(run[0]) then 1 else 0) + OwnSteps(run[1..])
  }

  function Rank(c: Controller): nat {
    (match c.decider case Deciding => 2 case Played => 1 case DeciderExited => 0)
    + match c.first case Unlocked(_) => 2 case ContextCanceled(_) => 1 case _ => 0
  }

  lemma {:induction false} OwnStepsBounded(c: Controller, run: seq<Event>)
    requires Inv(c) && c.stopped && Legal(c, run)
    ensures OwnSteps(run) + Rank(After(c, run)) <= Rank(c) && After(c, run).stopped
    decreases |run|
  {
    if run != [] {
      OwnStepsBounded(Step(c, run[0]), run[1..]);
    }
  }

  /** Once a `Cancel` has begun, in whatever state: every run makes at most four more steps of
      the decider and that `Cancel`, and one that leaves them nothing to do has stopped every
      filler. */
  lemma SettlesStopped(c: Controller, run: seq<Event>)
    requires Inv(c) && c.stopped && Legal(c, run)
    ensures OwnSteps(run) <= 4
    ensures Settled(After(c, run)) ==>
              var d := After(c, run);
              d.decider.DeciderExited? && d.first.FirstReturned? && d.stops == d.plays
  {
    hide After, Legal, OwnSteps;
    RunKeepsInv(c, run);
    OwnStepsBounded(c, run);
    var d := After(c, run);
    if Settled(d) {
      assert !Enabled(d, SkipForFirstSentence) && !Enabled(d, StoreStop);
      assert !Enabled(d, CancelFillerContext) && !Enabled(d, CallStop);
    }
  }

  /** They settle on their own: the rest of the first `Cancel`, then the decider, which finds
      its context done; neither the bot nor `Play` is needed. */
  lemma SettlesAlone(c: Controller) returns (run: seq<Event>)
    requires Inv(c) && c.stopped
    ensures |run| <= 3 && Legal(c, run) && Settled(After(c, run))
    ensures forall k :: 0 <= k < |run| ==> run[k] in [CancelFillerContext, CallStop, ExitOnContext, StoreStop]
  {
    var d := if c.first.Unlocked? then Step(Step(c, CancelFillerContext), CallStop)
             else if c.first.ContextCanceled? then Step(c, CallStop) else c;
    run := [];
    if d.decider.Deciding? {
      run := Cons(d, ExitOnContext, []);
    } else if d.decider.Played? {
      run := Cons(d, StoreStop, []);
    }
    if c.first.Unlocked? {
      run := Cons(Step(c, CancelFillerContext), CallStop, run);
      run := Cons(c, CancelFillerContext, run);
    } else if c.first.ContextCanceled? {
      run := Cons(c, CallStop, run);
    }
  }

  /** The controller with its mutex sections as methods that update it in place. */
  class FillerController {
    var decider: Decider
    var ctxDone: bool
    var stopFn: bool
    var stopped: bool
    var first: FirstCancel
    var lateReturns: nat
    var plays: nat
    var stops: nat

    function State(): Controller
      reads this
    {
      Controller(decider, ctxDone, stopFn, stopped, first, lateReturns, plays, stops)
    }

    constructor (wanted: bool)
      ensures State() == Start(wanted)
    {
      decider := if wanted then Deciding else DeciderExited;
      ctxDone, stopFn, stopped, first, lateReturns, plays, stops := false, false, false, NoCancel, 0, 0, 0;
    }

    /** The decider's section after a successful `Play`. */
    method Store()
      requires Enabled(State(), StoreStop)
      modifies this
      ensures State() == Step(old(State()), StoreStop)
    {
      decider := DeciderExited;
      if stopped {
        stops := stops + 1;
        return;
      }
      stopFn := true;
    }

    /** `Cancel` when nothing else runs in between: three steps, or one if it comes late. */
    method Cancel()
      modifies this
      ensures var s := Step(old(State()), CancelSection);
              State() == if old(stopped) then s else Step(Step(s, CancelFillerContext), CallStop)
    {
      var already := stopped;
      stopped := true;
      var stop := stopFn;
      stopFn := false;
      if already {
        lateReturns := lateReturns + 1;
        return;
      }
      ctxDone := true;
      if stop {
        stops := stops + 1;
      }
      first := FirstReturned;
    }
  }
}
