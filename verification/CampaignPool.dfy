/** internal/campaign/manager.go: the worker pool of one campaign.

    One dispatcher walks the leads, a semaphore of `ccu` slots bounds the workers, and
    `Cancel`, the parent context and status updates arrive from outside at any time.
    Every atomic section is one event; a run is any interleaving of enabled events. */
module CampaignPool {
  import opened Leads

  datatype Dispatcher =
    | AtCheck(i: nat)                  // about to read the flag for lead i, or to leave the loop
    | AtGate(i: nat, sawCancel: bool)  // flag read, context not yet tested
    | AtSelect(i: nat)                 // waiting for a slot or the context
    | AtSkip(i: nat)                   // about to mark the lead canceled
    | AtSpawn(i: nat)                  // slot held, worker not yet started
    | AtWait
    | AtFinish
    | Closed

  datatype Worker =
    | NotStarted
    | Starting
    | InOriginate
    | Recording(result: DialResult)
    | Sleeping
    | Releasing
    | Signaling
    | Exited

  datatype Pool = Pool(
    leads: seq<Lead>,
    status: RunStatus,
    canceled: bool,
    ctxDone: bool,
    ccu: nat,
    slots: nat,           // slots taken from the semaphore
    waitGroup: nat,
    dispatcher: Dispatcher,
    workers: seq<Worker>, // one per lead
    dials: seq<nat>,      // how often originate was entered for each lead
    lateSlots: nat)       // slots taken since the flag was set

  datatype Event =
    | ReadFlag
    | LeaveLoop
    | TestContext
    | SkipLead
    | TakeSlot
    | GiveUp
    | Spawn
    | WaitOver
    | FinishRun
    | Begin(w: nat)
    | Return(w: nat, result: DialResult)
    | Record(w: nat)
    | Wake(w: nat)
    | Release(w: nat)
    | Exit(w: nat)
    | SetCancelFlag
    | CancelContext
    | Update(uuid: string, newStatus: CallStatus, message: string)

  /** Events of the outside world; all others belong to the dispatcher or a worker. */
  predicate External(e: Event) {
    e.SetCancelFlag? || e.CancelContext? || e.Update?
  }

  /** `Create`: a non-positive bound means one worker. */
  function EffectiveCcu(ccu: int): (n: nat)
    ensures n >= 1 && (ccu >= 1 ==> n == ccu) && (ccu < 1 ==> n == 1)
  {
    if ccu <= 0 then 1 else ccu
  }

  function Start(leads: seq<Lead>, ccu: int): Pool {
    Pool(leads, Running, false, false, EffectiveCcu(ccu), 0, 0, AtCheck(0),
         seq(|leads|, _ => NotStarted), seq(|leads|, _ => 0), 0)
  }

  predicate WorkerAt(s: Pool, w: nat, pc: Worker) {
    w < |s.workers| && s.workers[w] == pc
  }

  predicate Shaped(s: Pool) {
    && |s.workers| == |s.leads| && |s.dials| == |s.leads|
    && match s.dispatcher
       case AtCheck(i) => i <= |s.leads|
       case AtGate(i, _) => i < |s.leads|
       case AtSelect(i) => i < |s.leads|
       case AtSkip(i) => i < |s.leads|
       case AtSpawn(i) => i < |s.leads|
       case _ => true
  }

  /** Outside updates carry a uuid, as both event handlers insist, and a status that the
      outbound handler reports. */
  predicate Enabled(s: Pool, e: Event)
    requires Shaped(s)
  {
    match e
    case ReadFlag => s.dispatcher.AtCheck? && s.dispatcher.i < |s.leads|
    case LeaveLoop => s.dispatcher.AtCheck? && s.dispatcher.i == |s.leads|
    case TestContext => s.dispatcher.AtGate?
    case SkipLead => s.dispatcher.AtSkip?
    case TakeSlot => s.dispatcher.AtSelect? && s.slots < s.ccu
    case GiveUp => s.dispatcher.AtSelect? && s.ctxDone
    case Spawn => s.dispatcher.AtSpawn?
    case WaitOver => s.dispatcher.AtWait? && s.waitGroup == 0
    case FinishRun => s.dispatcher.AtFinish?
    case Begin(w) => WorkerAt(s, w, Starting)
    case Return(w, r) => WorkerAt(s, w, InOriginate) && (r.Dialed? ==> r.uuid != "")
    case Record(w) => w < |s.workers| && s.workers[w].Recording?
    case Wake(w) => WorkerAt(s, w, Sleeping)
    case Release(w) => WorkerAt(s, w, Releasing) && s.slots > 0
    case Exit(w) => WorkerAt(s, w, Signaling) && s.waitGroup > 0
    case SetCancelFlag => true
    case CancelContext => true
    case Update(uuid, status, _) => uuid != "" && !status.Pending?
  }

  function Step(s: Pool, e: Event): Pool
    requires Shaped(s) && Enabled(s, e)
  {
    match e
    case ReadFlag => s.(dispatcher := AtGate(s.dispatcher.i, s.canceled))
    case LeaveLoop => s.(dispatcher := AtWait)
    case TestContext =>
      var i := s.dispatcher.i;
      s.(dispatcher := if s.dispatcher.sawCancel || s.ctxDone then AtSkip(i) else AtSelect(i))
    case SkipLead =>
      var i := s.dispatcher.i;
      s.(leads := s.leads[i := CanceledIfPending(s.leads[i])], dispatcher := AtCheck(i + 1))
    case TakeSlot =>
      s.(slots := s.slots + 1, dispatcher := AtSpawn(s.dispatcher.i),
         lateSlots := s.lateSlots + if s.canceled then 1 else 0)
    case GiveUp => s.(dispatcher := AtSkip(s.dispatcher.i))
    case Spawn =>
      var i := s.dispatcher.i;
      s.(waitGroup := s.waitGroup + 1, workers := s.workers[i := Starting], dispatcher := AtCheck(i + 1))
    case WaitOver => s.(dispatcher := AtFinish)
    case FinishRun => s.(status := if s.canceled then s.status else Done, dispatcher := Closed)
    case Begin(w) =>
      s.(leads := s.leads[w := Begun(s.leads[w])], workers := s.workers[w := InOriginate],
         dials := s.dials[w := s.dials[w] + 1])
    case Return(w, r) => s.(workers := s.workers[w := Recording(r)])
    case Record(w) =>
      s.(leads := s.leads[w := Recorded(s.leads[w], s.workers[w].result)], workers := s.workers[w := Sleeping])
    case Wake(w) => s.(workers := s.workers[w := Releasing])
    case Release(w) => s.(slots := s.slots - 1, workers := s.workers[w := Signaling])
    case Exit(w) => s.(waitGroup := s.waitGroup - 1, workers := s.workers[w := Exited])
    case SetCancelFlag => if s.canceled then s else s.(canceled := true, status := RunCanceled)
    case CancelContext => s.(ctxDone := true)
    case Update(uuid, status, message) => s.(leads := WithStatus(s.leads, uuid, status, message))
  }

  predicate Legal(s: Pool, run: seq<Event>)
    decreases |run|
  {
    Shaped(s) && (run == [] || (Enabled(s, run[0]) && Legal(Step(s, run[0]), run[1..])))
  }

  function After(s: Pool, run: seq<Event>): (t: Pool)
    requires Legal(s, run)
    ensures Shaped(t)
    decreases |run|
  {
    if run == [] then s else After(Step(s, run[0]), run[1..])
  }

  // --------------------------------------------------------- counting over workers

  function Sum(workers: seq<Worker>, weight: Worker -> nat): nat {
    if workers == [] then 0 else Sum(workers[..|workers| - 1], weight) + weight(workers[|workers| - 1])
  }

  function HoldsSlot(w: Worker): nat {
    if w.NotStarted? || w.Signaling? || w.Exited? then 0 else 1
  }

  function InGroup(w: Worker): nat {
    if w.NotStarted? || w.Exited? then 0 else 1
  }

  function Dialing(w: Worker): nat {
    if w.InOriginate? then 1 else 0
  }

  /** Steps a worker has still to make. */
  function Remaining(w: Worker): nat {
    match w
    case NotStarted => 0
    case Starting => 6
    case InOriginate => 5
    case Recording(_) => 4
    case Sleeping => 3
    case Releasing => 2
    case Signaling => 1
    case Exited => 0
  }

  lemma {:induction false} SumUpdate(workers: seq<Worker>, weight: Worker -> nat, i: nat, w: Worker)
    requires i < |workers|
    ensures Sum(workers[i := w], weight) == Sum(workers, weight) - weight(workers[i]) + weight(w)
    decreases |workers|
  {
    var n := |workers| - 1;
    if i < n {
      assert workers[i := w][..n] == workers[..n][i := w];
      SumUpdate(workers[..n], weight, i, w);
    } else {
      assert workers[i := w][..n] == workers[..n];
    }
  }

  lemma {:induction false} SumMonotone(workers: seq<Worker>, small: Worker -> nat, big: Worker -> nat)
    requires forall w :: small(w) <= big(w)
    ensures Sum(workers, small) <= Sum(workers, big)
  {
    if workers != [] {
      SumMonotone(workers[..|workers| - 1], small, big);
    }
  }

  lemma {:induction false} SumZero(workers: seq<Worker>, weight: Worker -> nat)
    ensures Sum(workers, weight) == 0 <==> forall i :: 0 <= i < |workers| ==> weight(workers[i]) == 0
  {
    if workers != [] {
      var n := |workers| - 1;
      SumZero(workers[..n], weight);
      assert forall i :: 0 <= i < n ==> workers[i] == workers[..n][i];
    }
  }
}
