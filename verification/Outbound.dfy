/** internal/pipeline/outbound.go: one pending map serves all originated calls; the ANSWER and
    HANGUP handlers, the end of a session and a failed originate act on it. Each handler body
    is one event, and FreeSWITCH reports at most one ANSWER and one HANGUP per uuid. */
module Outbound {
  import opened Leads

  function ClassifyHangup(cause: string): CallStatus {
    if cause == "NO_ANSWER" || cause == "ALLOTTED_TIMEOUT" || cause == "USER_NOT_REGISTERED" then NoAnswer
    else Failed
  }

  /** The hangup causes of a call that was not taken; every other cause is a failure. */
  const NO_ANSWER_CAUSES := {"NO_ANSWER", "ALLOTTED_TIMEOUT", "USER_NOT_REGISTERED"}

  lemma CausesByName(cause: string)
    ensures ClassifyHangup(cause) == if cause in NO_ANSWER_CAUSES then NoAnswer else Failed
  {
  }

  /** The state the handlers share: `pending` maps a uuid to "was answered", `sessions` maps a
      running session to "was cancelled". The campaign is told of answered calls (`answers`) and
      of the end statuses of calls (`reports`). */
  datatype State = State(
    pending: map<string, bool>,
    sessions: map<string, bool>,
    answers: multiset<string>,
    reports: map<string, seq<CallStatus>>)

  function ReportsOf(s: State, u: string): seq<CallStatus> {
    if u in s.reports then s.reports[u] else []
  }

  function Reported(s: State, u: string, status: CallStatus): State {
    s.(reports := s.reports[u := ReportsOf(s, u) + [status]])
  }

  function Stored(s: State, u: string): State {
    s.(pending := s.pending[u := false])
  }

  function OriginateFailed(s: State, u: string): State {
    Reported(s.(pending := s.pending - {u}), u, Failed)
  }

  /** ANSWER starts a session goroutine for a pending call without a session. */
  predicate Spawns(s: State, u: string) {
    u != "" && u in s.pending && u !in s.sessions
  }

  function PickedUp(s: State, u: string): State {
    if u !in s.pending then s
    else s.(pending := s.pending[u := true], answers := s.answers + if Spawns(s, u) then multiset{u} else multiset{})
  }

  function HungUp(s: State, u: string, cause: string): State {
    if u == "" then s
    else if u in s.sessions then s.(sessions := s.sessions[u := true])
    else if u in s.pending then
      Reported(s.(pending := s.pending - {u}), u, if s.pending[u] then Completed else ClassifyHangup(cause))
    else s
  }

  function SessionAdded(s: State, u: string): State {
    s.(sessions := s.sessions[u := false])
  }

  /** The session's end callback: report, then drop the entry. */
  function SessionEnded(s: State, u: string): State {
    var r := Reported(s, u, Completed);
    r.(pending := r.pending - {u})
  }

  function SessionRemoved(s: State, u: string): State {
    s.(sessions := s.sessions - {u})
  }

  class OutboundHandler {
    var pending: map<string, bool>
    var sessions: map<string, bool>
    var answers: multiset<string>
    var reports: map<string, seq<CallStatus>>

    function View(): State
      reads this
    {
      State(pending, sessions, answers, reports)
    }

    constructor ()
      ensures View() == State(map[], map[], multiset{}, map[])
    {
      pending, sessions, answers, reports := map[], map[], multiset{}, map[];
    }

    method Report(u: string, status: CallStatus)
      modifies this`reports
      ensures View() == Reported(old(View()), u, status)
    {
      var before := if u in reports then reports[u] else [];
      reports := reports[u := before + [status]];
    }

    /** `Originate` around the ESL call that `eslOk` says the result of, undisturbed; without a
        bot, a registry or providers it fails before it has touched anything. */
    method Originate(u: string, botGiven: bool, wired: bool, resolved: bool, eslOk: bool) returns (ok: bool)
      modifies this
      ensures ok <==> botGiven && wired && resolved && eslOk
      ensures View() ==
              if !botGiven || !wired || !resolved then old(View())
              else if ok then Stored(old(View()), u)
              else OriginateFailed(Stored(old(View()), u), u)
    {
      if !botGiven {
        return false;
      }
      if !wired {
        return false;
      }
      if !resolved {
        return false;
      }
      pending := pending[u := false];
      if !eslOk {
        pending := pending - {u};
        Report(u, Failed);
        return false;
      }
      return true;
    }

    method OnAnswer(u: string) returns (spawn: bool)
      modifies this
      ensures View() == if u == "" then old(View()) else PickedUp(old(View()), u)
      ensures spawn <==> u != "" && old(u in pending) && old(u !in sessions)
      ensures answers == (if spawn then old(answers) + multiset{u} else old(answers))
      ensures pending == (if u != "" && old(u in pending) then old(pending)[u := true] else old(pending))
      ensures sessions == old(sessions) && reports == old(reports)
    {
      if u == "" || u !in pending {
        return false;
      }
      pending := pending[u := true];
      if u in sessions {
        return false;
      }
      answers := answers + multiset{u};
      return true;
    }

    method OnHangup(u: string, cause: string)
      modifies this
      ensures View() == HungUp(old(View()), u, cause)
      ensures u != "" && old(u in sessions) ==>
                sessions == old(sessions)[u := true] && pending == old(pending) && reports == old(reports)
      ensures u != "" && old(u !in sessions) && old(u in pending) ==>
                && pending == old(pending) - {u} && sessions == old(sessions)
                && reports == old(reports)[u := old(ReportsOf(View(), u)) +
                                                [if old(pending[u]) then Completed
                                                 else if cause in NO_ANSWER_CAUSES then NoAnswer else Failed]]
      ensures u == "" || (old(u !in sessions) && old(u !in pending)) ==> View() == old(View())
    {
      CausesByName(cause);
      if u == "" {
        return;
      }
      if u in sessions {
        sessions := sessions[u := true];
        return;
      }
      if u !in pending {
        return;
      }
      var wasAnswered := pending[u];
      pending := pending - {u};
      if wasAnswered {
        Report(u, Completed);
        return;
      }
      Report(u, ClassifyHangup(cause));
    }

    method OnEnd(u: string)
      modifies this
      ensures View() == SessionEnded(old(View()), u)
    {
      Report(u, Completed);
      pending := pending - {u};
    }
  }

  // ------------------------------------------------------------------ the protocol

  datatype Placement = Placing | Placed | PlaceFailed

  datatype Session = NoSession | Spawned | Live | Ended | Gone

  /** What is known of one call besides the shared state. */
  datatype Call = Call(
    placement: Placement,
    answerSeen: bool,
    hangupSeen: bool,
    cause: string,
    picked: bool,        // ANSWER found the call pending
    session: Session,
    hungUpInWindow: bool, // HANGUP came between ANSWER and the start of the session
    lateStart: bool)     // the session started after a HANGUP

  datatype World = World(s: State, calls: map<string, Call>)

  const START := World(State(map[], map[], multiset{}, map[]), map[])

  datatype Event =
    | Place(u: string)
    | EslOk(u: string)
    | EslError(u: string)
    | Answer(u: string)
    | Hangup(u: string, cause: string)
    | SessionStart(u: string)
    | SessionOnEnd(u: string)
    | SessionRemove(u: string)

  predicate Enabled(w: World, e: Event) {
    e.u != "" &&
    if e.Place? then e.u !in w.calls
    else
      e.u in w.calls &&
      var c := w.calls[e.u];
      match e
      case EslOk(_) => c.placement.Placing?
      case EslError(_) => c.placement.Placing?
      case Answer(_) => !c.answerSeen
      case Hangup(_, _) => !c.hangupSeen
      case SessionStart(_) => c.session.Spawned?
      case SessionOnEnd(_) => c.session.Live?
      case SessionRemove(_) => c.session.Ended?
      case _ => true
  }

  function Step(w: World, e: Event): World
    requires Enabled(w, e)
  {
    var u := e.u;
    if e.Place? then
      World(Stored(w.s, u), w.calls[u := Call(Placing, false, false, "", false, NoSession, false, false)])
    else
      var c := w.calls[u];
      match e
      case EslOk(_) => w.(calls := w.calls[u := c.(placement := Placed)])
      case EslError(_) => World(OriginateFailed(w.s, u), w.calls[u := c.(placement := PlaceFailed)])
      case Answer(_) =>
        var d := c.(answerSeen := true, picked := u in w.s.pending,
                    session := if Spawns(w.s, u) then Spawned else c.session);
        World(PickedUp(w.s, u), w.calls[u := d])
      case Hangup(_, cause) =>
        var d := c.(hangupSeen := true, cause := cause, hungUpInWindow := c.session.Spawned?);
        World(HungUp(w.s, u, cause), w.calls[u := d])
      case SessionStart(_) =>
        World(SessionAdded(w.s, u), w.calls[u := c.(session := Live, lateStart := c.hangupSeen)])
      case SessionOnEnd(_) => World(SessionEnded(w.s, u), w.calls[u := c.(session := Ended)])
      case SessionRemove(_) => World(SessionRemoved(w.s, u), w.calls[u := c.(session := Gone)])
      case _ => w
  }

  predicate Legal(w: World, run: seq<Event>)
    decreases |run|
  {
    run == [] || (Enabled(w, run[0]) && Legal(Step(w, run[0]), run[1..]))
  }

  function After(w: World, run: seq<Event>): World
    requires Legal(w, run)
    decreases |run|
  {
    if run == [] then w else After(Step(w, run[0]), run[1..])
  }

  /** The reports a call must have made, told from its history alone. */
  function ExpectedReports(c: Call): seq<CallStatus> {
    var ended := c.session.Ended? || c.session.Gone?;
    if !c.picked then (if c.hangupSeen then [ClassifyHangup(c.cause)] else [])
    else (if c.hungUpInWindow then [Completed] else []) + (if ended then [Completed] else [])
  }

  ghost predicate CallOk(s: State, u: string, c: Call) {
    && (u in s.sessions <==> c.session.Live? || c.session.Ended?)
    && (u in s.sessions ==> (s.sessions[u] <==> c.hangupSeen && !c.hungUpInWindow))
    && (c.placement.PlaceFailed? ==> Failed in ReportsOf(s, u))
    && (c.picked <==> !c.session.NoSession?)
    && (c.picked ==> c.answerSeen)
    && s.answers[u] == (if c.picked then 1 else 0)
    && (u in s.pending ==> !c.placement.PlaceFailed? && (s.pending[u] <==> c.picked))
    && (c.hungUpInWindow ==> c.hangupSeen && c.picked)
    && (c.lateStart <==> c.hungUpInWindow && !c.session.Spawned?)
    && (c.session.Spawned? ==> (c.hangupSeen <==> c.hungUpInWindow))
    && (c.hangupSeen && !c.picked ==> u !in s.pending)
    && (!c.placement.PlaceFailed? ==>
          && ReportsOf(s, u) == ExpectedReports(c)
          && (u in s.pending <==> if c.picked then !c.hungUpInWindow && !c.session.Ended? && !c.session.Gone?
                                 else !c.hangupSeen))
  }

  ghost predicate Inv(w: World) {
    && (forall u :: u in w.calls ==> CallOk(w.s, u, w.calls[u]))
    && (forall u :: u in w.s.pending || u in w.s.sessions || u in w.s.answers || u in w.s.reports ==> u in w.calls)
  }

  /** An event only touches the entries of its own uuid. */
  lemma OtherCalls(w: World, e: Event, u: string)
    requires Enabled(w, e) && u != e.u && u in w.calls && CallOk(w.s, u, w.calls[u])
    ensures var t := Step(w, e); u in t.calls && CallOk(t.s, u, t.calls[u])
  {
    hide CallOk;
    var t := Step(w, e);
    assert t.calls[u] == w.calls[u];
    SameAccount(w.s, t.s, u, w.calls[u]);
  }

  lemma SameAccount(s: State, t: State, u: string, c: Call)
    requires CallOk(s, u, c)
    requires (u in s.pending <==> u in t.pending) && (u in s.pending ==> s.pending[u] == t.pending[u])
    requires (u in s.sessions <==> u in t.sessions) && (u in s.sessions ==> s.sessions[u] == t.sessions[u])
    requires ReportsOf(s, u) == ReportsOf(t, u)
    requires s.answers[u] == t.answers[u]
    ensures CallOk(t, u, c)
  {
  }

  lemma OwnCall(w: World, e: Event)
    requires Enabled(w, e) && e.u in w.calls && CallOk(w.s, e.u, w.calls[e.u])
    ensures var t := Step(w, e); e.u in t.calls && CallOk(t.s, e.u, t.calls[e.u])
  {
  }

  lemma StepKeepsInv(w: World, e: Event)
    requires Inv(w) && Enabled(w, e)
    ensures Inv(Step(w, e))
  {
    var t := Step(w, e);
    forall u | u in t.calls
      ensures CallOk(t.s, u, t.calls[u])
    {
      if u != e.u {
        OtherCalls(w, e, u);
      } else if e.Place? {
        NewCall(w, u);
      } else {
        OwnCall(w, e);
      }
    }
    OnlyKnown(w, e);
    hide Step, Enabled, CallOk;
  }

  lemma NewCall(w: World, u: string)
    requires Inv(w) && Enabled(w, Place(u))
    ensures var t := Step(w, Place(u)); CallOk(t.s, u, t.calls[u])
  {
  }

  lemma OnlyKnown(w: World, e: Event)
    requires Inv(w) && Enabled(w, e)
    ensures var t := Step(w, e);
            forall u :: u in t.s.pending || u in t.s.sessions || u in t.s.answers || u in t.s.reports ==> u in t.calls
  {
    hide CallOk;
  }

  lemma {:induction false} RunKeepsInv(w: World, run: seq<Event>)
    requires Inv(w) && Legal(w, run)
    ensures Inv(After(w, run))
    decreases |run|
  {
    hide Inv, Step, Enabled;
    if run != [] {
      StepKeepsInv(w, run[0]);
      RunKeepsInv(Step(w, run[0]), run[1..]);
    }
  }

  /** No more ANSWER, HANGUP or session step can come for the call. */
  predicate Quiescent(c: Call) {
    && !c.placement.Placing?
    && (c.session.NoSession? || c.session.Gone?)
    && (c.hangupSeen || c.session.Gone? || c.placement.PlaceFailed?)
  }

  /** For every call in every reachable state. If originate succeeded: a call never picked up
      reports its hangup exactly once, by cause; a picked-up call only ever reports
      Completed, once when its session has ended, and once more exactly if the hangup came
      between ANSWER and the start of the session. That window is also the only way for a
      session to start after the hangup; a running session is cancelled exactly if the hangup
      came while it ran. The campaign is told of the answer once exactly if
      the call was picked up. At quiescence, also of a failed originate, the uuid
      is gone from the pending map. */
  lemma CallAccount(run: seq<Event>, u: string)
    requires Legal(START, run) && u in After(START, run).calls
    ensures var w := After(START, run);
            var c := w.calls[u];
            var reports := ReportsOf(w.s, u);
            && w.s.answers[u] == (if c.picked then 1 else 0)
            && (c.placement.Placed? && !c.picked && c.hangupSeen ==>
                  reports == [if c.cause in NO_ANSWER_CAUSES then NoAnswer else Failed])
            && (c.placement.PlaceFailed? ==> Failed in reports)
            && (u in w.s.sessions <==> c.session.Live? || c.session.Ended?)
            && (u in w.s.sessions ==> (w.s.sessions[u] <==> c.hangupSeen && !c.hungUpInWindow))
            && (c.placement.Placed? && c.picked ==> forall k :: 0 <= k < |reports| ==> reports[k] == Completed)
            && (c.placement.Placed? && c.session.Gone? ==> |reports| == if c.hungUpInWindow then 2 else 1)
            && (c.placement.Placed? && Quiescent(c) ==> reports != [])
            && (c.lateStart <==> c.hungUpInWindow && (c.session.Live? || c.session.Ended? || c.session.Gone?))
            && (Quiescent(c) ==> u !in w.s.pending && u !in w.s.sessions)
  {
    CausesByName(After(START, run).calls[u].cause);
    assert Inv(START);
    RunKeepsInv(START, run);
    var w := After(START, run);
    assert CallOk(w.s, u, w.calls[u]);
  }

  /** Once a hangup or a failed originate has removed the entry, no later ANSWER picks the
      call up, so no session is started by it. */
  lemma RemovedStaysRemoved(w: World, e: Event, u: string)
    requires Inv(w) && Enabled(w, e) && u in w.calls && u !in w.s.pending
    ensures u !in Step(w, e).s.pending
    ensures !w.calls[u].session.Spawned? ==> !Step(w, e).calls[u].session.Spawned?
  {
  }

  function Cons(w: World, e: Event, run: seq<Event>): (r: seq<Event>)
    requires Enabled(w, e)
    ensures Legal(Step(w, e), run) ==> Legal(w, r) && After(w, r) == After(Step(w, e), run)
  {
    var r := [e] + run;
    assert r[1..] == run;
    r
  }

  /** The window is real: a session starts for a call that has been hung up, and the call is
      reported Completed twice. */
  lemma LateSessionWitness() returns (run: seq<Event>)
    ensures Legal(START, run) && "u" in After(START, run).calls
    ensures var w := After(START, run);
            && w.calls["u"].placement.Placed? && w.calls["u"].lateStart
            && ReportsOf(w.s, "u") == [Completed, Completed]
  {
    hide Legal, After;
    var w1 := Step(START, Place("u"));
    var w2 := Step(w1, EslOk("u"));
    var w3 := Step(w2, Answer("u"));
    var w4 := Step(w3, Hangup("u", "NORMAL_CLEARING"));
    var w5 := Step(w4, SessionStart("u"));
    var w6 := Step(w5, SessionOnEnd("u"));
    var last := NoSteps(w6);
    run := Cons(START, Place("u"), Cons(w1, EslOk("u"), Cons(w2, Answer("u"),
             Cons(w3, Hangup("u", "NORMAL_CLEARING"), Cons(w4, SessionStart("u"),
               Cons(w5, SessionOnEnd("u"), last))))));
  }

  lemma NoSteps(w: World) returns (run: seq<Event>)
    ensures Legal(w, run) && After(w, run) == w
  {
    run := [];
  }
}
