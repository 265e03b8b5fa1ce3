/** Which status updates from outside reach a lead: over whole runs, exactly those that come
    after the worker has recorded the uuid that originate returned. */
module CampaignUpdates {
  import opened Leads
  import opened CampaignPool
  import opened CampaignSafety

  /** In the events so far, originate has returned `u` for lead `j` and the worker has recorded
      it since. */
  ghost predicate RecordedIn(past: seq<Event>, j: nat, u: string) {
    exists a, b :: 0 <= a < b < |past| && past[a] == Return(j, Dialed(u)) && past[b] == Record(j)
  }

  /** Every successful originate returned a uuid of its own. */
  ghost predicate DistinctUuids(past: seq<Event>) {
    forall a, b :: 0 <= a < b < |past| && past[a].Return? && past[b].Return?
                   && past[a].result.Dialed? && past[b].result.Dialed?
                   ==> past[a].result.uuid != past[b].result.uuid
  }

  /** What the events so far say about lead `j`, its worker and its uuid. */
  ghost predicate LeadPast(past: seq<Event>, l: Lead, w: Worker, j: nat) {
    && (forall r :: w == Recording(r) ==> Return(j, r) in past)
    && (forall r :: Return(j, r) in past ==> w == Recording(r) || Recorded?(w))
    && (forall u :: u != "" ==> (l.callUuid == u <==> RecordedIn(past, j, u)))
  }

  ghost predicate PastInv(past: seq<Event>, s: Pool)
    requires Shaped(s)
  {
    forall j :: 0 <= j < |s.leads| ==> LeadPast(past, s.leads[j], s.workers[j], j)
  }

  /** A recorded uuid stays recorded; a new one needs this very Record. */
  lemma OneMore(past: seq<Event>, e: Event, j: nat, u: string)
    ensures RecordedIn(past + [e], j, u) <==> RecordedIn(past, j, u) || (e == Record(j) && Return(j, Dialed(u)) in past)
  {
    var all := past + [e];
    if RecordedIn(past, j, u) {
      var a, b :| 0 <= a < b < |past| && past[a] == Return(j, Dialed(u)) && past[b] == Record(j);
      assert all[a] == past[a] && all[b] == past[b];
    }
    if e == Record(j) && Return(j, Dialed(u)) in past {
      var a :| 0 <= a < |past| && past[a] == Return(j, Dialed(u));
      assert all[a] == past[a] && all[|past|] == e;
    }
  }

  /** What one step does to a worker and to the uuid of its lead. */
  ghost predicate UuidStep(s: Pool, t: Pool, e: Event, j: nat)
    requires j < |s.leads| == |s.workers| == |t.leads| == |t.workers|
  {
    var w, w' := s.workers[j], t.workers[j];
    if e.Return? && e.w == j then
      w.InOriginate? && w' == Recording(e.result) && t.leads[j].callUuid == s.leads[j].callUuid
    else if e == Record(j) then
      w.Recording? && w'.Sleeping? && s.leads[j].callUuid == ""
      && t.leads[j].callUuid == if w.result.Dialed? then w.result.uuid else ""
    else
      t.leads[j].callUuid == s.leads[j].callUuid
      && (w' == w || (!w.Recording? && !w'.Recording? && Recorded?(w') == Recorded?(w)))
  }

  lemma WorkerOnLead(s: Pool, e: Event, w: nat, j: nat)
    requires Shaped(s) && Enabled(s, e) && OfWorker(e, w) && j < |s.leads| && LeadOkAt(s, j)
    ensures Shaped(Step(s, e)) && |Step(s, e).leads| == |s.leads| && UuidStep(s, Step(s, e), e, j)
  {
    StepKeepsSize(s, e);
    if j != w {
      hide LeadOk, LeadOkAt, Leads.Begun, Leads.Recorded;
    } else if e.Record? {
      hide Enabled;
      RecordOnLead(s, j);
    } else {
      hide Leads.Recorded;
    }
  }

  lemma RecordOnLead(s: Pool, j: nat)
    requires Shaped(s) && Enabled(s, Record(j)) && j < |s.leads| && LeadOkAt(s, j)
    ensures Shaped(Step(s, Record(j))) && |Step(s, Record(j)).leads| == |s.leads|
    ensures UuidStep(s, Step(s, Record(j)), Record(j), j)
  {
  }

  lemma OtherOnLead(s: Pool, e: Event, j: nat)
    requires Shaped(s) && Enabled(s, e) && j < |s.leads| && LeadOkAt(s, j)
    requires !e.Begin? && !e.Return? && !e.Record? && !e.Wake? && !e.Release? && !e.Exit?
    ensures Shaped(Step(s, e)) && |Step(s, e).leads| == |s.leads| && UuidStep(s, Step(s, e), e, j)
  {
    StepKeepsSize(s, e);
  }

  lemma StepOnLead(s: Pool, e: Event, j: nat)
    requires Inv(s) && Enabled(s, e) && j < |s.leads|
    ensures Shaped(Step(s, e)) && |Step(s, e).leads| == |s.leads| && UuidStep(s, Step(s, e), e, j)
  {
    assert Shaped(s) && LeadOkAt(s, j);
    hide Inv, Shaped, LeadOkAt, Step, Enabled, UuidStep;
    match e {
      case Begin(w) => WorkerOnLead(s, e, w, j);
      case Return(w, _) => WorkerOnLead(s, e, w, j);
      case Record(w) => WorkerOnLead(s, e, w, j);
      case Wake(w) => WorkerOnLead(s, e, w, j);
      case Release(w) => WorkerOnLead(s, e, w, j);
      case Exit(w) => WorkerOnLead(s, e, w, j);
      case _ => OtherOnLead(s, e, j);
    }
  }

  lemma StepKeepsPast(past: seq<Event>, s: Pool, e: Event, j: nat)
    requires Inv(s) && Enabled(s, e) && j < |s.leads| && LeadPast(past, s.leads[j], s.workers[j], j)
    ensures var t := Step(s, e);
            Shaped(t) && |t.leads| == |s.leads| && LeadPast(past + [e], t.leads[j], t.workers[j], j)
  {
    StepOnLead(s, e, j);
    hide Inv, Step, Enabled, RecordedIn;
    forall u | u != ""
      ensures RecordedIn(past + [e], j, u) <==>
                RecordedIn(past, j, u) || (e == Record(j) && Return(j, Dialed(u)) in past)
    {
      OneMore(past, e, j, u);
    }
  }

  lemma {:induction false} RunKeepsPast(past: seq<Event>, s: Pool, run: seq<Event>)
    requires Inv(s) && PastInv(past, s) && Legal(s, run)
    ensures PastInv(past + run, After(s, run))
    decreases |run|
  {
    hide Inv, Step, Enabled, LeadPast;
    if run == [] {
      assert past + run == past;
    } else {
      StepKeepsInv(s, run[0]);
      StepKeepsSize(s, run[0]);
      forall j | 0 <= j < |s.leads|
        ensures LeadPast(past + [run[0]], Step(s, run[0]).leads[j], Step(s, run[0]).workers[j], j)
      {
        StepKeepsPast(past, s, run[0], j);
      }
      RunKeepsPast(past + [run[0]], Step(s, run[0]), run[1..]);
      assert past + [run[0]] + run[1..] == past + run;
    }
  }

  /** With distinct uuids from originate no two leads ever carry the same one. */
  lemma OneOwner(past: seq<Event>, a: nat, b: nat, u: string)
    requires DistinctUuids(past) && RecordedIn(past, a, u) && RecordedIn(past, b, u)
    ensures a == b
  {
    var m, m' :| 0 <= m < m' < |past| && past[m] == Return(a, Dialed(u)) && past[m'] == Record(a);
    var n, n' :| 0 <= n < n' < |past| && past[n] == Return(b, Dialed(u)) && past[n'] == Record(b);
    assert m == n;
  }

  /** At any point of any run: lead `j` carries the uuid exactly if originate has returned it
      for that lead and the worker has recorded it. An update that comes then changes that
      lead and no other; one that comes before changes nothing at all. */
  lemma UpdateLandsIff(leads: seq<Lead>, ccu: int, past: seq<Event>, u: string, status: CallStatus, message: string)
    requires forall j :: 0 <= j < |leads| ==> Fresh(leads[j])
    requires Legal(Start(leads, ccu), past) && DistinctUuids(past)
    requires Enabled(After(Start(leads, ccu), past), Update(u, status, message))
    ensures var s := After(Start(leads, ccu), past);
            var t := Step(s, Update(u, status, message));
            && |s.leads| == |t.leads| == |leads|
            && (forall j :: 0 <= j < |leads| ==> (s.leads[j].callUuid == u <==> RecordedIn(past, j, u)))
            && (forall j :: 0 <= j < |leads| && RecordedIn(past, j, u) ==>
                  t.leads == s.leads[j := t.leads[j]] && UpdatedTo(s.leads[j], t.leads[j], status, message))
            && ((forall j :: 0 <= j < |leads| ==> !RecordedIn(past, j, u)) ==> t.leads == s.leads)
  {
    hide Inv, Legal, After, RecordedIn, DistinctUuids;
    StartInv(leads, ccu);
    NothingPast(leads, ccu);
    RunKeepsPast([], Start(leads, ccu), past);
    RunKeepsSize(Start(leads, ccu), past);
    assert [] + past == past;
    var s := After(Start(leads, ccu), past);
    forall j | 0 <= j < |leads|
      ensures s.leads[j].callUuid == u <==> RecordedIn(past, j, u)
    {
      assert LeadPast(past, s.leads[j], s.workers[j], j);
    }
    forall j | 0 <= j < |leads| && RecordedIn(past, j, u)
      ensures var r := WithStatus(s.leads, u, status, message);
              r == s.leads[j := r[j]] && UpdatedTo(s.leads[j], r[j], status, message)
    {
      var k := FirstMatch(s.leads, u);
      OneOwner(past, k, j, u);
    }
  }

  lemma NothingPast(leads: seq<Lead>, ccu: int)
    requires forall j :: 0 <= j < |leads| ==> Fresh(leads[j])
    ensures Inv(Start(leads, ccu)) && PastInv([], Start(leads, ccu))
  {
    StartInv(leads, ccu);
  }
}
