/** What every run of a campaign keeps, how it ends, and what cancellation guarantees. */
module CampaignSafety {
  import opened Leads
  import opened CampaignPool

  /** The first lead the dispatcher has not decided on. */
  function Frontier(s: Pool): nat {
    match s.dispatcher
    case AtCheck(i) => i
    case AtGate(i, _) => i
    case AtSelect(i) => i
    case AtSkip(i) => i
    case AtSpawn(i) => i
    case _ => |s.leads|
  }

  predicate Recorded?(w: Worker) {
    w.Sleeping? || w.Releasing? || w.Signaling? || w.Exited?
  }

  /** The fate of one lead, told from its worker's position. */
  ghost predicate LeadOk(l: Lead, w: Worker, dials: nat, decided: bool, stopped: bool) {
    && (IsTerminal(l.status) ==> l.endedAt)
    && (dials == if w.NotStarted? || w.Starting? then 0 else 1)
    && (l.startedAt <==> dials == 1)
    && (l.callUuid != "" ==> Recorded?(w))
    && match w
       case NotStarted => if decided then l.status.Canceled? && stopped else Fresh(l)
       case Starting => decided && Fresh(l)
       case InOriginate => decided && l.status.Dialing?
       case Recording(r) => decided && l.status.Dialing? && (r.Dialed? ==> r.uuid != "")
       case _ => decided && !l.status.Pending? && (l.callUuid == "" ==> l.status.Failed?)
  }

  ghost predicate CountsOk(s: Pool) {
    && s.slots == Sum(s.workers, HoldsSlot) + (if s.dispatcher.AtSpawn? then 1 else 0)
    && s.slots <= s.ccu && s.ccu >= 1
    && s.waitGroup == Sum(s.workers, InGroup)
    && (s.dispatcher.AtFinish? || s.dispatcher.Closed? ==> s.waitGroup == 0)
  }

  ghost predicate StatusOk(s: Pool) {
    && (s.canceled <==> s.status.RunCanceled?)
    && (s.status.Done? ==> s.dispatcher.Closed?)
    && (s.dispatcher.Closed? ==> !s.status.Running?)
    && (s.dispatcher.AtGate? && s.dispatcher.sawCancel ==> s.canceled)
    && (s.dispatcher.AtSkip? ==> s.canceled || s.ctxDone)
  }

  /** The dispatcher may still reach the semaphore without reading the flag again. */
  predicate PastTheFlag(s: Pool) {
    s.dispatcher.AtSelect? || (s.dispatcher.AtGate? && !s.dispatcher.sawCancel)
  }

  ghost predicate LateOk(s: Pool) {
    && s.lateSlots <= 1
    && (!s.canceled ==> s.lateSlots == 0)
    && (s.lateSlots == 1 ==> !PastTheFlag(s))
  }

  ghost predicate LeadsOk(s: Pool)
    requires Shaped(s)
  {
    forall j :: 0 <= j < |s.leads| ==>
      LeadOk(s.leads[j], s.workers[j], s.dials[j], j < Frontier(s), s.canceled || s.ctxDone)
  }

  ghost predicate Inv(s: Pool) {
    Shaped(s) && CountsOk(s) && StatusOk(s) && LateOk(s) && LeadsOk(s)
  }

  lemma StartInv(leads: seq<Lead>, ccu: int)
    requires forall j :: 0 <= j < |leads| ==> Fresh(leads[j])
    ensures Inv(Start(leads, ccu))
  {
    var s := Start(leads, ccu);
    SumZero(s.workers, HoldsSlot);
    SumZero(s.workers, InGroup);
  }

  lemma CountsStep(s: Pool, e: Event)
    requires Inv(s) && Enabled(s, e)
    ensures CountsOk(Step(s, e))
  {
    hide Leads.Begun, Leads.Recorded, Leads.CanceledIfPending, Leads.WithStatus;
    hide LeadsOk, LateOk, StatusOk, CampaignPool.Sum;
    StepKeepsSize(s, e);
    if e.Spawn? {
      SpawnsOnce(s);
      Move(s.workers, s.dispatcher.i, Starting);
    } else if OfWorker(e, if e.Begin? || e.Return? || e.Record? || e.Wake? || e.Release? || e.Exit? then e.w else 0) {
      Move(s.workers, e.w, Step(s, e).workers[e.w]);
    }
  }

  lemma Move(workers: seq<Worker>, i: nat, w: Worker)
    requires i < |workers|
    ensures Sum(workers[i := w], HoldsSlot) == Sum(workers, HoldsSlot) - HoldsSlot(workers[i]) + HoldsSlot(w)
    ensures Sum(workers[i := w], InGroup) == Sum(workers, InGroup) - InGroup(workers[i]) + InGroup(w)
    ensures Sum(workers[i := w], Remaining) == Sum(workers, Remaining) - Remaining(workers[i]) + Remaining(w)
  {
    SumUpdate(workers, HoldsSlot, i, w);
    SumUpdate(workers, InGroup, i, w);
    SumUpdate(workers, Remaining, i, w);
  }

  lemma SpawnsOnce(s: Pool)
    requires Inv(s) && s.dispatcher.AtSpawn?
    ensures s.workers[s.dispatcher.i].NotStarted?
  {
    var i := s.dispatcher.i;
    assert LeadOk(s.leads[i], s.workers[i], s.dials[i], false, s.canceled || s.ctxDone);
  }

  predicate OfWorker(e: Event, w: nat) {
    e == Begin(w) || (e.Return? && e.w == w) || e == Record(w) || e == Wake(w) || e == Release(w) || e == Exit(w)
  }

  ghost predicate LeadOkAt(s: Pool, j: nat)
    requires Shaped(s) && j < |s.leads|
  {
    LeadOk(s.leads[j], s.workers[j], s.dials[j], j < Frontier(s), s.canceled || s.ctxDone)
  }

  lemma WorkerKeepsLead(s: Pool, e: Event, w: nat, j: nat)
    requires Shaped(s) && Enabled(s, e) && OfWorker(e, w) && j < |s.leads| && LeadOkAt(s, j)
    ensures Shaped(Step(s, e)) && LeadOkAt(Step(s, e), j)
  {
    if j != w {
      hide LeadOk, Leads.Begun, Leads.Recorded;
    }
  }

  lemma OtherKeepsLead(s: Pool, e: Event, j: nat)
    requires Shaped(s) && Enabled(s, e) && StatusOk(s) && j < |s.leads| && LeadOkAt(s, j)
    requires e.Spawn? || e.SkipLead? || e.SetCancelFlag? || e.CancelContext? || e.TakeSlot? || e.GiveUp? || e.ReadFlag?
             || e.LeaveLoop? || e.TestContext? || e.WaitOver? || e.FinishRun?
    ensures Shaped(Step(s, e)) && LeadOkAt(Step(s, e), j)
  {
  }

  lemma UpdateKeepsLead(s: Pool, e: Event, j: nat)
    requires Shaped(s) && Enabled(s, e) && e.Update? && j < |s.leads| && LeadOkAt(s, j)
    ensures Shaped(Step(s, e)) && LeadOkAt(Step(s, e), j)
  {
    var l := Step(s, e).leads[j];
    assert l == s.leads[j] || (s.leads[j].callUuid == e.uuid && l == Updated(s.leads[j], e.newStatus, e.message));
  }

  lemma StepKeepsLead(s: Pool, e: Event, j: nat)
    requires Shaped(s) && Enabled(s, e) && StatusOk(s) && j < |s.leads| && LeadOkAt(s, j)
    ensures Shaped(Step(s, e)) && LeadOkAt(Step(s, e), j)
  {
    hide Shaped, LeadOkAt, Step, Enabled, StatusOk;
    match e {
      case Begin(w) => WorkerKeepsLead(s, e, w, j);
      case Return(w, _) => WorkerKeepsLead(s, e, w, j);
      case Record(w) => WorkerKeepsLead(s, e, w, j);
      case Wake(w) => WorkerKeepsLead(s, e, w, j);
      case Release(w) => WorkerKeepsLead(s, e, w, j);
      case Exit(w) => WorkerKeepsLead(s, e, w, j);
      case Update(_, _, _) => UpdateKeepsLead(s, e, j);
      case _ => OtherKeepsLead(s, e, j);
    }
  }

  lemma StepKeepsSize(s: Pool, e: Event)
    requires Shaped(s) && Enabled(s, e)
    ensures |Step(s, e).leads| == |s.leads| && Step(s, e).ccu == s.ccu && Shaped(Step(s, e))
  {
    hide Leads.Begun, Leads.Recorded, Leads.CanceledIfPending;
  }

  lemma LeadsStep(s: Pool, e: Event)
    requires Inv(s) && Enabled(s, e)
    ensures Shaped(Step(s, e)) && LeadsOk(Step(s, e))
  {
    StepKeepsSize(s, e);
    hide Step, Enabled, LeadOk, CountsOk, LateOk, StatusOk;
    var t := Step(s, e);
    forall j | 0 <= j < |t.leads|
      ensures LeadOk(t.leads[j], t.workers[j], t.dials[j], j < Frontier(t), t.canceled || t.ctxDone)
    {
      assert LeadOkAt(s, j);
      StepKeepsLead(s, e, j);
      assert LeadOkAt(t, j);
    }
  }

  lemma StepKeepsInv(s: Pool, e: Event)
    requires Inv(s) && Enabled(s, e)
    ensures Inv(Step(s, e))
  {
    CountsStep(s, e);
    LeadsStep(s, e);
    StatusStep(s, e);
    hide Step, Enabled, CountsOk, LeadsOk, StatusOk, LateOk;
  }

  lemma StatusStep(s: Pool, e: Event)
    requires Inv(s) && Enabled(s, e)
    ensures StatusOk(Step(s, e)) && LateOk(Step(s, e))
  {
    hide LeadsOk, CountsOk, Leads.Begun, Leads.Recorded, Leads.CanceledIfPending, Leads.WithStatus;
  }

  lemma {:induction false} RunKeepsInv(s: Pool, run: seq<Event>)
    requires Inv(s) && Legal(s, run)
    ensures Inv(After(s, run))
    decreases |run|
  {
    hide Inv, Step, Enabled;
    if run != [] {
      StepKeepsInv(s, run[0]);
      RunKeepsInv(Step(s, run[0]), run[1..]);
    }
  }

  /** States that some run of some freshly created campaign leads to. */
  ghost predicate Reachable(s: Pool) {
    exists leads: seq<Lead>, ccu: int, run: seq<Event> ::
      (forall j :: 0 <= j < |leads| ==> Fresh(leads[j]))
      && Legal(Start(leads, ccu), run) && s == After(Start(leads, ccu), run)
  }

  lemma ReachableInv(s: Pool)
    requires Reachable(s)
    ensures Inv(s)
  {
    var leads: seq<Lead>, ccu: int, run: seq<Event> :|
      (forall j :: 0 <= j < |leads| ==> Fresh(leads[j]))
      && Legal(Start(leads, ccu), run) && s == After(Start(leads, ccu), run);
    StartInv(leads, ccu);
    RunKeepsInv(Start(leads, ccu), run);
  }

  // ------------------------------------------------------------------- theorems

  /** In every reachable state, the leads inside originate are at most the slots held,
      those at most the configured bound, and no lead is dialed twice. */
  lemma BoundedAndOnce(leads: seq<Lead>, ccu: int, run: seq<Event>)
    requires forall j :: 0 <= j < |leads| ==> Fresh(leads[j])
    requires Legal(Start(leads, ccu), run)
    ensures var s := After(Start(leads, ccu), run);
            && Sum(s.workers, CampaignPool.Dialing) <= s.slots <= EffectiveCcu(ccu)
            && |s.dials| == |leads| && (forall j :: 0 <= j < |leads| ==> s.dials[j] <= 1)
            && (forall j :: 0 <= j < |leads| ==> (IsTerminal(s.leads[j].status) ==> s.leads[j].endedAt))
  {
    StartInv(leads, ccu);
    RunKeepsInv(Start(leads, ccu), run);
    RunKeepsSize(Start(leads, ccu), run);
    var s := After(Start(leads, ccu), run);
    SumMonotone(s.workers, CampaignPool.Dialing, HoldsSlot);
    forall j | 0 <= j < |leads|
      ensures s.dials[j] <= 1 && (IsTerminal(s.leads[j].status) ==> s.leads[j].endedAt)
    {
      assert LeadOk(s.leads[j], s.workers[j], s.dials[j], j < Frontier(s), s.canceled || s.ctxDone);
    }
  }

  lemma {:induction false} RunKeepsSize(s: Pool, run: seq<Event>)
    requires Legal(s, run)
    ensures |After(s, run).leads| == |s.leads| && After(s, run).ccu == s.ccu
    decreases |run|
  {
    hide Step, Enabled;
    if run != [] {
      StepKeepsSize(s, run[0]);
      RunKeepsSize(Step(s, run[0]), run[1..]);
    }
  }

  /** When the run closes, no lead is pending: each was dialed once, or was skipped and is
      canceled; and without any cancellation every lead was dialed exactly once. */
  lemma ClosedMeansDecided(leads: seq<Lead>, ccu: int, run: seq<Event>)
    requires forall j :: 0 <= j < |leads| ==> Fresh(leads[j])
    requires Legal(Start(leads, ccu), run) && After(Start(leads, ccu), run).dispatcher.Closed?
    ensures var s := After(Start(leads, ccu), run);
            && |s.leads| == |s.dials| == |s.workers| == |leads|
            && (forall j :: 0 <= j < |leads| ==>
                  && !s.leads[j].status.Pending?
                  && (s.dials[j] == 1 || (s.dials[j] == 0 && s.leads[j].status.Canceled? && s.leads[j].callUuid == "")))
            && (!s.canceled && !s.ctxDone ==> forall j :: 0 <= j < |leads| ==> s.dials[j] == 1)
            && s.status == if s.canceled then RunCanceled else Done
  {
    StartInv(leads, ccu);
    RunKeepsInv(Start(leads, ccu), run);
    RunKeepsSize(Start(leads, ccu), run);
    var s := After(Start(leads, ccu), run);
    SumZero(s.workers, InGroup);
    forall j | 0 <= j < |leads|
      ensures s.workers[j].NotStarted? || s.workers[j].Exited?
      ensures LeadOk(s.leads[j], s.workers[j], s.dials[j], true, s.canceled || s.ctxDone)
    {
      assert InGroup(s.workers[j]) == 0;
      assert LeadOk(s.leads[j], s.workers[j], s.dials[j], j < Frontier(s), s.canceled || s.ctxDone);
    }
  }

  // ---------------------------------------------------------------- progress

  function DispatcherRank(s: Pool): nat
    requires Shaped(s)
  {
    var n := |s.leads|;
    match s.dispatcher
    case AtCheck(i) => 12 * (n - i) + 3
    case AtGate(i, _) => 12 * (n - i) + 2
    case AtSelect(i) => 12 * (n - i) + 1
    case AtSkip(i) => 12 * (n - i)
    case AtSpawn(i) => 12 * (n - i)
    case AtWait => 2
    case AtFinish => 1
    case Closed => 0
  }

  function Measure(s: Pool): nat
    requires Shaped(s)
  {
    DispatcherRank(s) + Sum(s.workers, Remaining)
  }

  /** An unfinished run can always make a step of its own. */
  lemma NeverStuck(s: Pool)
    requires Reachable(s) && !s.dispatcher.Closed?
    ensures Shaped(s) && exists e :: !External(e) && Enabled(s, e)
  {
    ReachableInv(s);
    if w :| 0 <= w < |s.workers| && InGroup(s.workers[w]) != 0 {
      WorkerCanMove(s, w);
    } else {
      SumZero(s.workers, InGroup);
      SumMonotone(s.workers, HoldsSlot, InGroup);
      var e := match s.dispatcher
        case AtCheck(i) => if i < |s.leads| then ReadFlag else LeaveLoop
        case AtGate(_, _) => TestContext
        case AtSelect(_) => TakeSlot
        case AtSkip(_) => SkipLead
        case AtSpawn(_) => Spawn
        case AtWait => WaitOver
        case _ => FinishRun;
      assert Enabled(s, e) && !External(e);
    }
  }

  lemma WorkerCanMove(s: Pool, w: nat)
    requires Inv(s) && w < |s.workers| && InGroup(s.workers[w]) != 0
    ensures exists e :: !External(e) && Enabled(s, e)
  {
    SumZero(s.workers, InGroup);
    SumZero(s.workers, HoldsSlot);
    var e := match s.workers[w]
      case Starting => Begin(w)
      case InOriginate => Return(w, DialError(""))
      case Recording(_) => Record(w)
      case Sleeping => Wake(w)
      case Releasing => Release(w)
      case _ => Exit(w);
    assert s.workers[w].Releasing? ==> HoldsSlot(s.workers[w]) == 1;
    assert Enabled(s, e) && !External(e);
  }

  /** Every step of the dispatcher or a worker uses up the measure; outside events do not. */
  lemma StepsDecrease(s: Pool, e: Event)
    requires Inv(s) && Enabled(s, e)
    ensures Shaped(Step(s, e))
    ensures if External(e) then Measure(Step(s, e)) == Measure(s) else Measure(Step(s, e)) < Measure(s)
  {
    assert Shaped(s);
    hide Inv, Measure, Step, Enabled, Shaped;
    match e {
      case Spawn => SpawnDecreases(s);
      case Begin(w) => WorkerDecreases(s, e, w);
      case Return(w, _) => WorkerDecreases(s, e, w);
      case Record(w) => WorkerDecreases(s, e, w);
      case Wake(w) => WorkerDecreases(s, e, w);
      case Release(w) => WorkerDecreases(s, e, w);
      case Exit(w) => WorkerDecreases(s, e, w);
      case _ => OtherDecreases(s, e);
    }
  }

  lemma SpawnDecreases(s: Pool)
    requires Inv(s) && Enabled(s, Spawn)
    ensures Shaped(Step(s, Spawn)) && Measure(Step(s, Spawn)) < Measure(s)
  {
    hide LeadsOk, CountsOk, LateOk, StatusOk;
    SpawnsOnce(s);
    Move(s.workers, s.dispatcher.i, Starting);
  }

  lemma WorkerDecreases(s: Pool, e: Event, w: nat)
    requires Shaped(s) && Enabled(s, e)
    requires OfWorker(e, w)
    ensures Shaped(Step(s, e)) && Measure(Step(s, e)) < Measure(s)
  {
    hide Leads.Begun, Leads.Recorded, CampaignPool.Sum;
    Move(s.workers, w, Step(s, e).workers[w]);
  }

  lemma OtherDecreases(s: Pool, e: Event)
    requires Shaped(s) && Enabled(s, e)
    requires External(e) || e.ReadFlag? || e.LeaveLoop? || e.TestContext? || e.SkipLead? || e.TakeSlot? || e.GiveUp?
             || e.WaitOver? || e.FinishRun?
    ensures Shaped(Step(s, e))
    ensures if External(e) then Measure(Step(s, e)) == Measure(s) else Measure(Step(s, e)) < Measure(s)
  {
    hide Leads.CanceledIfPending, CampaignPool.Sum;
  }

  function OwnSteps(run: seq<Event>): nat {
    if run == [] then 0 else (if External(run[0]) then 0 else 1) + OwnSteps(run[1..])
  }

  /** So a campaign of n leads closes after at most 12 n + 3 steps of its own, whatever the
      outside does in between. */
  lemma {:induction false} BoundedSteps(s: Pool, run: seq<Event>)
    requires Inv(s) && Legal(s, run)
    ensures OwnSteps(run) + Measure(After(s, run)) <= Measure(s)
    decreases |run|
  {
    hide Inv, Step, Enabled, Measure;
    if run != [] {
      StepKeepsInv(s, run[0]);
      StepsDecrease(s, run[0]);
      BoundedSteps(Step(s, run[0]), run[1..]);
    }
  }

  lemma StartMeasure(leads: seq<Lead>, ccu: int)
    ensures Measure(Start(leads, ccu)) == 12 * |leads| + 3
  {
    SumZero(Start(leads, ccu).workers, Remaining);
  }

  // ------------------------------------------------------------- cancellation

  /** The first lead that can no longer be dialed once the flag is set: the current one if
      the dispatcher must read the flag again, else the next. */
  function CancelLine(s: Pool): nat {
    Frontier(s) + if PastTheFlag(s) || s.dispatcher.AtSpawn? then 1 else 0
  }

  ghost predicate CanceledFrom(s: Pool, line: nat) {
    && s.canceled
    && (forall j :: line <= j < |s.workers| ==> s.workers[j].NotStarted?)
    && (PastTheFlag(s) || s.dispatcher.AtSpawn? ==> Frontier(s) < line)
  }

  lemma CanceledFromStep(s: Pool, e: Event, line: nat)
    requires Inv(s) && Enabled(s, e) && CanceledFrom(s, line)
    ensures CanceledFrom(Step(s, e), line)
  {
    hide LeadsOk, CountsOk, LateOk, Leads.WithStatus, Leads.Begun, Leads.Recorded;
  }

  lemma {:induction false} CanceledFromRun(s: Pool, run: seq<Event>, line: nat)
    requires Inv(s) && Legal(s, run) && CanceledFrom(s, line)
    ensures CanceledFrom(After(s, run), line)
    decreases |run|
  {
    hide Inv, Step, Enabled, CanceledFrom;
    if run != [] {
      StepKeepsInv(s, run[0]);
      CanceledFromStep(s, run[0], line);
      CanceledFromRun(Step(s, run[0]), run[1..], line);
    }
  }

  /** Cancellation from any reachable state on, over every run to the end: at most one more
      slot is taken; every lead from the cancel line on ends canceled and undialed; and the
      campaign status stays "canceled". */
  lemma CancelStopsDialing(s: Pool, run: seq<Event>)
    requires Reachable(s) && Shaped(s) && !s.canceled && Legal(Step(s, SetCancelFlag), run)
    ensures var t := After(Step(s, SetCancelFlag), run);
            && t.lateSlots <= 1
            && t.status.RunCanceled?
            && (t.dispatcher.Closed? ==>
                  forall j :: CancelLine(s) <= j < |t.leads| ==> t.dials[j] == 0 && t.leads[j].status.Canceled?)
  {
    ReachableInv(s);
    hide LeadOk;
    var c := Step(s, SetCancelFlag);
    StepKeepsInv(s, SetCancelFlag);
    BeyondFrontier(s);
    CanceledFromRun(c, run, CancelLine(s));
    RunKeepsInv(c, run);
    var t := After(c, run);
    if t.dispatcher.Closed? {
      forall j | CancelLine(s) <= j < |t.leads|
        ensures t.dials[j] == 0 && t.leads[j].status.Canceled?
      {
        UndialedIsCanceled(t, j);
      }
    }
  }

  lemma BeyondFrontier(s: Pool)
    requires Inv(s)
    ensures forall j :: Frontier(s) <= j < |s.workers| ==> s.workers[j].NotStarted?
  {
    forall j | Frontier(s) <= j < |s.workers|
      ensures s.workers[j].NotStarted?
    {
      assert LeadOk(s.leads[j], s.workers[j], s.dials[j], j < Frontier(s), s.canceled || s.ctxDone);
    }
  }

  lemma UndialedIsCanceled(t: Pool, j: nat)
    requires Inv(t) && t.dispatcher.Closed? && j < |t.leads| && t.workers[j].NotStarted?
    ensures t.dials[j] == 0 && t.leads[j].status.Canceled?
  {
    assert LeadOk(t.leads[j], t.workers[j], t.dials[j], j < Frontier(t), t.canceled || t.ctxDone);
  }

  /** The first lead that can no longer be dialed once the context is done. */
  function ContextLine(s: Pool): nat {
    Frontier(s) + if s.dispatcher.AtSelect? || s.dispatcher.AtSpawn? then 1 else 0
  }

  ghost predicate StoppedFrom(s: Pool, line: nat) {
    && s.ctxDone
    && (forall j :: line <= j < |s.workers| ==> s.workers[j].NotStarted?)
    && (s.dispatcher.AtSelect? || s.dispatcher.AtSpawn? ==> Frontier(s) < line)
  }

  lemma StoppedFromStep(s: Pool, e: Event, line: nat)
    requires Inv(s) && Enabled(s, e) && StoppedFrom(s, line)
    ensures StoppedFrom(Step(s, e), line)
  {
    hide LeadsOk, CountsOk, LateOk, Leads.WithStatus, Leads.Begun, Leads.Recorded;
  }

  lemma {:induction false} StoppedFromRun(s: Pool, run: seq<Event>, line: nat)
    requires Inv(s) && Legal(s, run) && StoppedFrom(s, line)
    ensures StoppedFrom(After(s, run), line)
    decreases |run|
  {
    hide Inv, Step, Enabled, StoppedFrom;
    if run != [] {
      StepKeepsInv(s, run[0]);
      StoppedFromStep(s, run[0], line);
      StoppedFromRun(Step(s, run[0]), run[1..], line);
    }
  }

  /** The end of the context alone, from a shutdown or from `Cancel`, also stops the dialing:
      only a lead that is already waiting for its slot may still be dialed. */
  lemma ContextStopsDialing(s: Pool, run: seq<Event>)
    requires Reachable(s) && Shaped(s) && Legal(Step(s, CancelContext), run)
    ensures var t := After(Step(s, CancelContext), run);
            t.dispatcher.Closed? ==>
              forall j :: ContextLine(s) <= j < |t.leads| ==> t.dials[j] == 0 && t.leads[j].status.Canceled?
  {
    ReachableInv(s);
    hide LeadOk;
    var c := Step(s, CancelContext);
    StepKeepsInv(s, CancelContext);
    BeyondFrontier(s);
    StoppedFromRun(c, run, ContextLine(s));
    RunKeepsInv(c, run);
    var t := After(c, run);
    if t.dispatcher.Closed? {
      forall j | ContextLine(s) <= j < |t.leads|
        ensures t.dials[j] == 0 && t.leads[j].status.Canceled?
      {
        UndialedIsCanceled(t, j);
      }
    }
  }

  /** "canceled" is never overwritten. */
  lemma {:induction false} CanceledStays(s: Pool, run: seq<Event>)
    requires Inv(s) && s.status.RunCanceled? && Legal(s, run)
    ensures After(s, run).status.RunCanceled?
    decreases |run|
  {
    hide Inv, Enabled;
    if run != [] {
      assert Inv(s) ==> s.canceled by { CanceledFlag(s); }
      StepKeepsInv(s, run[0]);
      CanceledStays(Step(s, run[0]), run[1..]);
    }
  }

  lemma CanceledFlag(s: Pool)
    ensures Inv(s) ==> (s.canceled <==> s.status.RunCanceled?)
  {
  }

  // ------------------------------------------------------------- frozen leads

  /** A lead the dispatcher skipped, or whose originate failed. */
  ghost predicate Frozen(s: Pool, j: nat)
    requires Shaped(s)
  {
    j < |s.leads| && s.leads[j].callUuid == ""
    && ((s.workers[j].NotStarted? && j < Frontier(s)) || Recorded?(s.workers[j]))
  }

  /** Such a lead keeps an empty uuid and is never changed again, by whatever update. */
  lemma {:induction false} FrozenStays(s: Pool, j: nat, run: seq<Event>)
    requires Inv(s) && Legal(s, run) && Frozen(s, j)
    ensures Frozen(After(s, run), j) && After(s, run).leads[j] == s.leads[j]
    ensures s.leads[j].status == if s.workers[j].NotStarted? then Canceled else Failed
    decreases |run|
  {
    assert LeadOk(s.leads[j], s.workers[j], s.dials[j], j < Frontier(s), s.canceled || s.ctxDone);
    if run != [] {
      StepKeepsInv(s, run[0]);
      FrozenStep(s, j, run[0]);
      FrozenStays(Step(s, run[0]), j, run[1..]);
    }
  }

  lemma FrozenStep(s: Pool, j: nat, e: Event)
    requires Inv(s) && Enabled(s, e) && Frozen(s, j)
    ensures Frozen(Step(s, e), j) && Step(s, e).leads[j] == s.leads[j]
  {
    assert LeadOkAt(s, j);
    hide Inv, LeadOkAt, CountsOk, LateOk, StatusOk, LeadsOk, Frozen, Step, Enabled;
    if e.Update? {
      FrozenUpdate(s, j, e);
    } else {
      FrozenOther(s, j, e);
    }
  }

  lemma FrozenUpdate(s: Pool, j: nat, e: Event)
    requires Shaped(s) && Enabled(s, e) && Frozen(s, j) && e.Update?
    ensures Shaped(Step(s, e)) && Frozen(Step(s, e), j) && Step(s, e).leads[j] == s.leads[j]
  {
    hide Leads.Updated;
  }

  lemma FrozenOther(s: Pool, j: nat, e: Event)
    requires Shaped(s) && Enabled(s, e) && Frozen(s, j) && LeadOkAt(s, j) && !e.Update?
    ensures Shaped(Step(s, e)) && Frozen(Step(s, e), j) && Step(s, e).leads[j] == s.leads[j]
  {
    hide Leads.Begun, Leads.Recorded, Leads.CanceledIfPending;
  }

  // ------------------------------------------------------------- lost updates

  lemma Prepend(s: Pool, e: Event, run: seq<Event>)
    requires Shaped(s) && Enabled(s, e) && Legal(Step(s, e), run)
    ensures Legal(s, [e] + run) && After(s, [e] + run) == After(Step(s, e), run)
  {
    assert ([e] + run)[1..] == run;
  }

  /** The end of a call can be reported before originate has returned: the update matches no
      lead, and the closed campaign shows the finished call as still dialing for ever. */
  lemma LostUpdateWitness(l: Lead)
    requires Fresh(l)
    ensures exists run :: Legal(Start([l], 1), run)
              && Update("u", Completed, "") in run
              && After(Start([l], 1), run).dispatcher.Closed?
              && After(Start([l], 1), run).leads == [l.(status := Dialing, startedAt := true, callUuid := "u")]
  {
    hide Legal, After, Step;
    var l' := l.(status := Dialing, startedAt := true);
    var dialing := Pool([l'], Running, false, false, 1, 1, 1, AtCheck(1), [InOriginate], [1], 0);
    var end := DialedRun(dialing, l');
    var run := RunToDialing(l, dialing, end);
    assert Update("u", Completed, "") in run;
  }

  /** The single lead is picked up and its worker enters originate. */
  lemma RunToDialing(l: Lead, dialing: Pool, end: seq<Event>) returns (run: seq<Event>)
    requires dialing == Pool([Begun(l)], Running, false, false, 1, 1, 1, AtCheck(1), [InOriginate], [1], 0)
    requires Legal(dialing, end)
    ensures Legal(Start([l], 1), run) && After(Start([l], 1), run) == After(dialing, end)
    ensures run == [ReadFlag] + ([TestContext] + ([TakeSlot] + ([Spawn] + ([Begin(0)] + end))))
  {
    hide Legal, After;
    var a := Step(Start([l], 1), ReadFlag);
    var b := Step(a, TestContext);
    var c := Step(b, TakeSlot);
    var d := Step(c, Spawn);
    assert d == Pool([l], Running, false, false, 1, 1, 1, AtCheck(1), [Starting], [0], 0);
    assert Step(d, Begin(0)) == dialing;
    Prepend(d, Begin(0), end);
    Prepend(c, Spawn, [Begin(0)] + end);
    Prepend(b, TakeSlot, [Spawn] + ([Begin(0)] + end));
    Prepend(a, TestContext, [TakeSlot] + ([Spawn] + ([Begin(0)] + end)));
    run := [ReadFlag] + ([TestContext] + ([TakeSlot] + ([Spawn] + ([Begin(0)] + end))));
    Prepend(Start([l], 1), ReadFlag, [TestContext] + ([TakeSlot] + ([Spawn] + ([Begin(0)] + end))));
  }

  /** From inside originate: the update arrives, then the call returns and the run closes. */
  lemma DialedRun(s: Pool, l: Lead) returns (run: seq<Event>)
    requires s == Pool([l], Running, false, false, 1, 1, 1, AtCheck(1), [InOriginate], [1], 0)
    requires l.callUuid == "" && l.status.Dialing?
    ensures Legal(s, run) && Update("u", Completed, "") in run
    ensures After(s, run).dispatcher.Closed? && After(s, run).leads == [l.(callUuid := "u")]
  {
    var t := s.(leads := [l.(callUuid := "u")], workers := [Sleeping]);
    assert Step(s, Update("u", Completed, "")) == s;
    assert Step(Step(s, Return(0, Dialed("u"))), Record(0)) == t;
    var end := ClosingRun(t);
    Prepend(Step(s, Return(0, Dialed("u"))), Record(0), end);
    Prepend(s, Return(0, Dialed("u")), [Record(0)] + end);
    Prepend(s, Update("u", Completed, ""), [Return(0, Dialed("u"))] + ([Record(0)] + end));
    run := [Update("u", Completed, "")] + ([Return(0, Dialed("u"))] + ([Record(0)] + end));
  }

  lemma ClosingRun(s: Pool) returns (run: seq<Event>)
    requires s.workers == [Sleeping] && |s.leads| == 1 && |s.dials| == 1 && s.slots == 1 && s.waitGroup == 1
    requires s.dispatcher == AtCheck(1) && !s.canceled
    ensures Legal(s, run) && After(s, run).dispatcher.Closed? && After(s, run).leads == s.leads
  {
    var a := Step(s, Wake(0));
    var b := Step(a, Release(0));
    var c := Step(b, Exit(0));
    var d := Step(c, LeaveLoop);
    var e := Step(d, WaitOver);
    var f := Step(e, FinishRun);
    assert Legal(f, []);
    Prepend(e, FinishRun, []);
    Prepend(d, WaitOver, [FinishRun] + []);
    Prepend(c, LeaveLoop, [WaitOver] + ([FinishRun] + []));
    Prepend(b, Exit(0), [LeaveLoop] + ([WaitOver] + ([FinishRun] + [])));
    Prepend(a, Release(0), [Exit(0)] + ([LeaveLoop] + ([WaitOver] + ([FinishRun] + []))));
    run := [Wake(0)] + ([Release(0)] + ([Exit(0)] + ([LeaveLoop] + ([WaitOver] + ([FinishRun] + [])))));
    Prepend(s, Wake(0), run[1..]);
    assert run == [Wake(0)] + run[1..];
  }
}
