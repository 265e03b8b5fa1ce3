/** internal/campaign/lead.go: leads, their statuses, and the campaign that holds them.
    The critical sections of internal/campaign/manager.go on the same state are methods
    of `Campaign` as well. Timestamps are kept only as "set" or "nil". */
module Leads {
  datatype CallStatus = Pending | Dialing | Answered | Completed | Failed | NoAnswer | Canceled

  datatype Lead = Lead(
    phone: string,
    status: CallStatus,
    callUuid: string,
    error: string,
    startedAt: bool,
    endedAt: bool)

  datatype RunStatus = Running | Done | RunCanceled

  datatype Stats = Stats(
    total: nat,
    pending: nat,
    dialing: nat,
    answered: nat,
    completed: nat,
    failed: nat,
    noAnswer: nat,
    canceled: nat)

  /** What the originate callback returned. */
  datatype DialResult = Dialed(uuid: string) | DialError(message: string)

  predicate IsTerminal(s: CallStatus) {
    s.Completed? || s.Failed? || s.NoAnswer? || s.Canceled?
  }

  /** A lead as the CSV reader creates it. */
  predicate Fresh(l: Lead) {
    l.status.Pending? && l.callUuid == "" && l.error == "" && !l.startedAt && !l.endedAt
  }

  // --------------------------------------------------------- effects on one lead

  function Updated(l: Lead, status: CallStatus, message: string): Lead {
    l.(status := status,
       error := if message != "" then message else l.error,
       endedAt := l.endedAt || IsTerminal(status))
  }

  function Begun(l: Lead): Lead {
    l.(status := Dialing, startedAt := true)
  }

  function Recorded(l: Lead, r: DialResult): Lead {
    match r
    case Dialed(uuid) => l.(callUuid := uuid)
    case DialError(message) => l.(status := Failed, error := message, endedAt := true)
  }

  function CanceledIfPending(l: Lead): Lead {
    if l.status.Pending? then l.(status := Canceled, endedAt := true) else l
  }

  /** What an update means for a lead, field by field. */
  ghost predicate UpdatedTo(l: Lead, r: Lead, status: CallStatus, message: string) {
    && r.phone == l.phone && r.callUuid == l.callUuid && r.startedAt == l.startedAt
    && r.status == status
    && (message != "" ==> r.error == message) && (message == "" ==> r.error == l.error)
    && (r.endedAt <==> l.endedAt || status == Completed || status == Failed || status == NoAnswer || status == Canceled)
  }

  /** The effects of worker and dispatcher, field by field. */
  lemma EffectsByField(l: Lead, uuid: string, message: string)
    ensures var r := Begun(l);
            && r.status == Dialing && r.startedAt
            && r.phone == l.phone && r.callUuid == l.callUuid && r.error == l.error && r.endedAt == l.endedAt
    ensures var r := Recorded(l, Dialed(uuid));
            && r.callUuid == uuid && r.status == l.status
            && r.phone == l.phone && r.error == l.error && r.startedAt == l.startedAt && r.endedAt == l.endedAt
    ensures var r := Recorded(l, DialError(message));
            && r.status == Failed && r.error == message && r.endedAt
            && r.phone == l.phone && r.callUuid == l.callUuid && r.startedAt == l.startedAt
    ensures var r := CanceledIfPending(l);
            && (l.status == Pending ==> r.status == Canceled && r.endedAt)
            && (l.status != Pending ==> r.status == l.status && r.endedAt == l.endedAt)
            && r.phone == l.phone && r.callUuid == l.callUuid && r.error == l.error && r.startedAt == l.startedAt
  {
  }

  // --------------------------------------------------------- effects on all leads

  /** The first lead that carries the uuid, or the number of leads. */
  function FirstMatch(leads: seq<Lead>, uuid: string): (k: nat)
    ensures k <= |leads|
    ensures k < |leads| ==> leads[k].callUuid == uuid
    ensures forall i :: 0 <= i < k ==> leads[i].callUuid != uuid
  {
    if leads == [] || leads[0].callUuid == uuid then 0 else 1 + FirstMatch(leads[1..], uuid)
  }

  function WithStatus(leads: seq<Lead>, uuid: string, status: CallStatus, message: string): (r: seq<Lead>)
    ensures |r| == |leads|
  {
    var k := FirstMatch(leads, uuid);
    if k < |leads| then leads[k := Updated(leads[k], status, message)] else leads
  }

  function Tally(leads: seq<Lead>, status: CallStatus): nat {
    if leads == [] then 0
    else Tally(leads[..|leads| - 1], status) + if leads[|leads| - 1].status == status then 1 else 0
  }

  function LeadsWith(leads: seq<Lead>, status: CallStatus): set<int> {
    set i | 0 <= i < |leads| && leads[i].status == status
  }

  lemma OneMoreLead(leads: seq<Lead>, l: Lead, status: CallStatus)
    ensures var more := if l.status == status then {|leads|} else {};
            LeadsWith(leads + [l], status) == LeadsWith(leads, status) + more && LeadsWith(leads, status) !! more
  {
  }

  /** A tally is the number of leads with that status. */
  lemma {:induction false} TallyCounts(leads: seq<Lead>, status: CallStatus)
    ensures Tally(leads, status) == |LeadsWith(leads, status)|
  {
    if leads == [] {
      assert LeadsWith([], status) == {};
    } else {
      var init, l := leads[..|leads| - 1], leads[|leads| - 1];
      TallyCounts(init, status);
      OneMoreLead(init, l, status);
      hide LeadsWith;
      assert leads == init + [l];
    }
  }

  function StatsOf(leads: seq<Lead>): Stats {
    Stats(|leads|, Tally(leads, Pending), Tally(leads, Dialing), Tally(leads, Answered), Tally(leads, Completed),
          Tally(leads, Failed), Tally(leads, NoAnswer), Tally(leads, Canceled))
  }

  /** Every lead is counted in exactly one of the seven counters. */
  lemma {:induction false} StatsAddUp(leads: seq<Lead>)
    ensures var s := StatsOf(leads);
            s.pending + s.dialing + s.answered + s.completed + s.failed + s.noAnswer + s.canceled == s.total
  {
    if leads != [] {
      StatsAddUp(leads[..|leads| - 1]);
    }
  }

  /** An update goes to the first lead with the uuid, and only there. */
  lemma UpdateByField(leads: seq<Lead>, uuid: string, status: CallStatus, message: string)
    ensures var r := WithStatus(leads, uuid, status, message);
            && |r| == |leads|
            && forall j :: 0 <= j < |leads| ==>
                 if leads[j].callUuid == uuid && (forall i :: 0 <= i < j ==> leads[i].callUuid != uuid)
                 then UpdatedTo(leads[j], r[j], status, message) else r[j] == leads[j]
  {
    forall j | 0 <= j < |leads|
      ensures leads[j].callUuid == uuid && (forall i :: 0 <= i < j ==> leads[i].callUuid != uuid) <==>
              j == FirstMatch(leads, uuid)
    {
      if leads[j].callUuid == uuid && (forall i :: 0 <= i < j ==> leads[i].callUuid != uuid) {
        MatchIs(leads, uuid, j);
      }
    }
  }

  /** With distinct uuids, an update reaches exactly the lead that carries the uuid. */
  lemma UpdateReachesOwner(leads: seq<Lead>, i: nat, status: CallStatus, message: string)
    requires i < |leads|
    requires forall a, b :: 0 <= a < b < |leads| && leads[a].callUuid == leads[b].callUuid ==> leads[a].callUuid == ""
    requires leads[i].callUuid != ""
    ensures var r := WithStatus(leads, leads[i].callUuid, status, message);
            && r == leads[i := r[i]]
            && UpdatedTo(leads[i], r[i], status, message)
  {
    assert FirstMatch(leads, leads[i].callUuid) <= i;
  }

  /** An update for a call that no lead has recorded yet changes nothing. */
  lemma EarlyUpdateIsLost(leads: seq<Lead>, uuid: string, status: CallStatus, message: string)
    requires forall i :: 0 <= i < |leads| ==> leads[i].callUuid != uuid
    ensures WithStatus(leads, uuid, status, message) == leads
  {
  }

  /** The empty uuid is not refused: it hits the first lead without a recorded call, and
      nothing if and only if every lead has one. */
  lemma EmptyUuidHitsUndialedLead(leads: seq<Lead>, status: CallStatus, message: string) returns (k: nat)
    ensures k <= |leads|
    ensures k == |leads| <==> forall i :: 0 <= i < |leads| ==> leads[i].callUuid != ""
    ensures k < |leads| ==> leads[k].callUuid == "" && forall i :: 0 <= i < k ==> leads[i].callUuid != ""
    ensures WithStatus(leads, "", status, message) ==
            if k < |leads| then leads[k := Updated(leads[k], status, message)] else leads
    ensures k < |leads| ==> UpdatedTo(leads[k], WithStatus(leads, "", status, message)[k], status, message)
  {
    k := FirstMatch(leads, "");
  }

  class Campaign {
    const leads: array<Lead>
    var status: RunStatus
    var canceled: bool

    constructor (leads: array<Lead>)
      ensures this.leads == leads && status == Running && !canceled
    {
      this.leads := leads;
      status, canceled := Running, false;
    }

    method SetLeadStatus(uuid: string, newStatus: CallStatus, message: string)
      modifies leads
      ensures leads[..] == WithStatus(old(leads[..]), uuid, newStatus, message)
      ensures forall j :: 0 <= j < leads.Length ==>
                if old(leads[j].callUuid) == uuid && (forall i :: 0 <= i < j ==> old(leads[i].callUuid) != uuid)
                then UpdatedTo(old(leads[j]), leads[j], newStatus, message) else leads[j] == old(leads[j])
    {
      UpdateByField(leads[..], uuid, newStatus, message);
      for i := 0 to leads.Length
        invariant leads[..] == old(leads[..])
        invariant forall j :: 0 <= j < i ==> leads[j].callUuid != uuid
      {
        if leads[i].callUuid != uuid {
          continue;
        }
        assert FirstMatch(leads[..], uuid) == i by { MatchIs(leads[..], uuid, i); }
        leads[i] := leads[i].(status := newStatus);
        if message != "" {
          leads[i] := leads[i].(error := message);
        }
        if IsTerminal(newStatus) {
          leads[i] := leads[i].(endedAt := true);
        }
        return;
      }
    }

    method FindByUuid(uuid: string) returns (k: nat)
      ensures k <= leads.Length
      ensures k < leads.Length ==> leads[k].callUuid == uuid
      ensures forall j :: 0 <= j < k ==> leads[j].callUuid != uuid
    {
      for i := 0 to leads.Length
        invariant forall j :: 0 <= j < i ==> leads[j].callUuid != uuid
      {
        if leads[i].callUuid == uuid {
          return i;
        }
      }
      return leads.Length;
    }

    method CountStats() returns (s: Stats)
      ensures s == StatsOf(leads[..])
      ensures s.total == leads.Length && s.pending == Tally(leads[..], Pending)
      ensures s.dialing == Tally(leads[..], Dialing) && s.answered == Tally(leads[..], Answered)
      ensures s.completed == Tally(leads[..], Completed) && s.failed == Tally(leads[..], Failed)
      ensures s.noAnswer == Tally(leads[..], NoAnswer) && s.canceled == Tally(leads[..], Canceled)
      ensures s.pending + s.dialing + s.answered + s.completed + s.failed + s.noAnswer + s.canceled == s.total
    {
      s := Stats(leads.Length, 0, 0, 0, 0, 0, 0, 0);
      for i := 0 to leads.Length
        invariant s == StatsOf(leads[..i]).(total := leads.Length)
      {
        assert leads[..i + 1][..i] == leads[..i];
        match leads[i].status {
          case Pending => s := s.(pending := s.pending + 1);
          case Dialing => s := s.(dialing := s.dialing + 1);
          case Answered => s := s.(answered := s.answered + 1);
          case Completed => s := s.(completed := s.completed + 1);
          case Failed => s := s.(failed := s.failed + 1);
          case NoAnswer => s := s.(noAnswer := s.noAnswer + 1);
          case Canceled => s := s.(canceled := s.canceled + 1);
        }
      }
      assert leads[..leads.Length] == leads[..];
      StatsAddUp(leads[..]);
    }

    // ---------------------------------------- the critical sections of the manager

    /** `Cancel` under the lock; returns whether the context is still to be cancelled. */
    method RequestCancel() returns (first: bool)
      modifies this
      ensures first <==> !old(canceled)
      ensures canceled
      ensures status == if first then RunCanceled else old(status)
    {
      if canceled {
        return false;
      }
      canceled := true;
      status := RunCanceled;
      return true;
    }

    /** A worker announces its lead before dialing. */
    method BeginDial(i: nat)
      requires i < leads.Length
      modifies leads
      ensures leads[..] == old(leads[..])[i := Begun(old(leads[i]))]
    {
      leads[i] := leads[i].(status := Dialing);
      leads[i] := leads[i].(startedAt := true);
    }

    /** A worker records what originate returned. */
    method RecordDial(i: nat, r: DialResult)
      requires i < leads.Length
      modifies leads
      ensures leads[..] == old(leads[..])[i := Recorded(old(leads[i]), r)]
    {
      match r {
        case DialError(message) =>
          leads[i] := leads[i].(status := Failed);
          leads[i] := leads[i].(error := message);
          leads[i] := leads[i].(endedAt := true);
        case Dialed(uuid) =>
          leads[i] := leads[i].(callUuid := uuid);
      }
    }

    /** The dispatcher skips a lead after cancellation. */
    method SkipLead(i: nat)
      requires i < leads.Length
      modifies leads
      ensures leads[..] == old(leads[..])[i := CanceledIfPending(old(leads[i]))]
    {
      if leads[i].status == Pending {
        leads[i] := leads[i].(status := Canceled);
        leads[i] := leads[i].(endedAt := true);
      }
    }

    /** The dispatcher closes the run. */
    method Finish()
      modifies this
      ensures canceled == old(canceled)
      ensures status == if canceled then old(status) else Done
    {
      if !canceled {
        status := Done;
      }
    }
  }

  lemma {:induction false} MatchIs(leads: seq<Lead>, uuid: string, i: nat)
    requires i < |leads| && leads[i].callUuid == uuid
    requires forall j :: 0 <= j < i ==> leads[j].callUuid != uuid
    ensures FirstMatch(leads, uuid) == i
  {
    var k := FirstMatch(leads, uuid);
    assert k <= i && k >= i;
  }
}
