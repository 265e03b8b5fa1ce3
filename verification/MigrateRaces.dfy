/** When a migration process that meets no failure of its own fails all the same: exactly if
    another process overtook it between its check of a file and its INSERT. */
module MigrationRaces {
  import opened Migrations

  /** One race. From where process `p` finds file `i` unrecorded up to where it is about to
      insert the version: the insert fails exactly if anything was recorded in between. */
  lemma InsertFailsIff(files: seq<File>, s: State, run: seq<Action>, p: nat)
    requires Inv(files, s) && IsRun(files, s, run)
    requires p < |s.procs| && s.procs[p].pc.Check? && s.procs[p].pc.i < |files|
    requires Version(files[s.procs[p].pc.i]) !in s.recorded
    requires var t := After(files, s, run);
             p < |t.procs| && t.procs[p].pc.Record? && t.procs[p].pc.i == s.procs[p].pc.i
    ensures var t := After(files, s, run);
            Step(files, t, Do(p, Fine)).procs[p].pc == Ended(false) <==> |t.recorded| > |s.recorded|
  {
    hide FileSet, Version, Versions, Bodies, IsRun, After;
    RunKeepsInv(files, s, run);
    var i, t := s.procs[p].pc.i, After(files, s, run);
    assert ProcInv(files, |s.recorded|, s.procs[p]);
    RecordedIff(files, |s.recorded|, i);
    RecordedIff(files, |t.recorded|, i);
  }

  // -------------------------------------------------------------- a whole process

  /** The committed state and the processes before action `n` of a run. */
  function StateAt(files: seq<File>, run: seq<Action>, n: nat): State
    requires n <= |run|
  {
    After(files, START, run[..n])
  }

  ghost predicate AtPc(files: seq<File>, run: seq<Action>, n: nat, p: nat, pc: Pc)
    requires n <= |run|
  {
    var s := StateAt(files, run, n);
    p < |s.procs| && s.procs[p].pc == pc
  }

  /** Action `c` is process `p` finding file `i` unrecorded. */
  ghost predicate ChecksAt(files: seq<File>, run: seq<Action>, c: int, p: nat, i: nat) {
    && 0 <= c < |run| && run[c] == Do(p, Fine)
    && AtPc(files, run, c, p, Check(i)) && AtPc(files, run, c + 1, p, ReadFile(i))
  }

  /** Action `j` is another process committing file `i`. */
  ghost predicate OtherCommitsAt(files: seq<File>, run: seq<Action>, j: int, p: nat, i: nat) {
    && 0 <= j < |run| && run[j].Do? && run[j].p != p && !run[j].outcome.Fails?
    && exists seen :: AtPc(files, run, j, run[j].p, Commit(i, seen))
  }

  /** Action `r` is the INSERT of process `p` for file `i`. */
  ghost predicate InsertsAt(files: seq<File>, run: seq<Action>, r: int, p: nat, i: nat) {
    && 0 <= r < |run| && run[r] == Do(p, Fine)
    && exists seen :: AtPc(files, run, r, p, Record(i, seen))
  }

  ghost predicate OvertakenOn(files: seq<File>, run: seq<Action>, p: nat, i: nat) {
    exists c, j, r :: c < j < r && ChecksAt(files, run, c, p, i) && OtherCommitsAt(files, run, j, p, i)
                      && InsertsAt(files, run, r, p, i)
  }

  ghost predicate Overtaken(files: seq<File>, run: seq<Action>, p: nat) {
    exists i :: OvertakenOn(files, run, p, i)
  }

  /** No call of process `p` fails, and it does not crash. */
  predicate Undisturbed(run: seq<Action>, p: nat) {
    forall k :: 0 <= k < |run| && run[k].Do? && run[k].p == p ==> run[k].outcome.Fine?
  }

  // ---------------------------------------------------------------- along a run

  lemma {:induction false} PrefixIsRun(files: seq<File>, run: seq<Action>, n: nat)
    requires IsRun(files, START, run) && n <= |run|
    ensures IsRun(files, START, run[..n])
    decreases |run|
  {
    if n < |run| {
      PrefixIsRun(files, run[..|run| - 1], n);
      assert run[..|run| - 1][..n] == run[..n];
    } else {
      assert run[..n] == run;
    }
  }

  /** Every moment of a run satisfies the invariant, and the next action leads to the next. */
  lemma Moment(files: seq<File>, run: seq<Action>, n: nat)
    requires FileSet(files) && IsRun(files, START, run) && n <= |run|
    ensures Inv(files, StateAt(files, run, n))
    ensures n < |run| ==> Enabled(files, StateAt(files, run, n), run[n])
                          && StateAt(files, run, n + 1) == Step(files, StateAt(files, run, n), run[n])
  {
    PrefixIsRun(files, run, n);
    RunKeepsInv(files, START, run[..n]);
    if n < |run| {
      PrefixIsRun(files, run, n + 1);
      assert run[..n + 1][..n] == run[..n];
    }
  }

  lemma StepGrows(files: seq<File>, s: State, a: Action)
    requires Inv(files, s) && Enabled(files, s, a)
    ensures |Step(files, s, a).recorded| == |s.recorded| + if Commits(s, a) then 1 else 0
    ensures Commits(s, a) ==> s.procs[a.p].pc.i == |s.recorded|
    ensures |Step(files, s, a).procs| >= |s.procs|
    ensures forall q :: 0 <= q < |s.procs| && !(a.Do? && a.p == q) ==> Step(files, s, a).procs[q] == s.procs[q]
  {
    hide FileSet, Version, Bodies, OneCommitting, Blocked;
    if a.Do? {
      assert ProcInv(files, |s.recorded|, s.procs[a.p]);
    }
  }

  /** Nothing recorded is lost, and a process that has ended stays so. */
  lemma {:induction false} Later(files: seq<File>, run: seq<Action>, m: nat, n: nat, p: nat)
    requires FileSet(files) && IsRun(files, START, run) && m <= n <= |run|
    ensures var s, t := StateAt(files, run, m), StateAt(files, run, n);
            && |s.recorded| <= |t.recorded| && |s.procs| <= |t.procs|
            && (p < |s.procs| && s.procs[p].pc.Ended? ==> t.procs[p] == s.procs[p])
    decreases n - m
  {
    hide FileSet, IsRun, StateAt, Step, Inv;
    if m < n {
      Later(files, run, m, n - 1, p);
      Moment(files, run, n - 1);
      StepGrows(files, StateAt(files, run, n - 1), run[n - 1]);
    }
  }

  /** Overtaken on some file, a process ends in failure. */
  lemma OvertakenFails(files: seq<File>, run: seq<Action>, p: nat, i: nat, j: int, r: int)
    requires FileSet(files) && IsRun(files, START, run)
    requires j < r && OtherCommitsAt(files, run, j, p, i) && InsertsAt(files, run, r, p, i)
    ensures p < |After(files, START, run).procs| && After(files, START, run).procs[p].pc == Ended(false)
  {
    hide IsRun, After, Version, Versions, Bodies, FileSet;
    var s, t := StateAt(files, run, j), StateAt(files, run, r);
    Moment(files, run, j);
    StepGrows(files, s, run[j]);
    Later(files, run, j + 1, r, p);
    Moment(files, run, r);
    assert ProcInv(files, |t.recorded|, t.procs[p]);
    RecordedIff(files, |t.recorded|, i);
    Later(files, run, r + 1, |run|, p);
    assert run[..|run|] == run;
  }

  /** Past the check of file `i` and not yet past its INSERT. */
  predicate InFlight(pc: Pc, i: nat) {
    (pc.ReadFile? || pc.Begin? || pc.Apply? || pc.Record?) && pc.i == i
  }

  ghost predicate InFlightAt(files: seq<File>, run: seq<Action>, n: nat, p: nat, i: nat)
    requires n <= |run|
  {
    var s := StateAt(files, run, n);
    p < |s.procs| && InFlight(s.procs[p].pc, i)
  }

  /** What an undisturbed process does in one step, seen from its next position. */
  lemma StepBack(files: seq<File>, s: State, a: Action, p: nat)
    requires Inv(files, s) && Enabled(files, s, a) && (a.Do? && a.p == p ==> a.outcome.Fine?)
    requires p < |Step(files, s, a).procs|
    ensures var pc' := Step(files, s, a).procs[p].pc;
            && (!(a.Do? && a.p == p) ==> if p < |s.procs| then pc' == s.procs[p].pc else pc' == CreateTable)
            && (a.Do? && a.p == p ==>
                  && p < |s.procs|
                  && (forall i: nat :: InFlight(pc', i) ==>
                        InFlight(s.procs[p].pc, i)
                        || (s.procs[p].pc == Check(i) && pc' == ReadFile(i)
                            && i < |files| && Version(files[i]) !in s.recorded))
                  && (pc' == Ended(false) ==>
                        && s.procs[p].pc.Record? && s.procs[p].pc.i < |files|
                        && Version(files[s.procs[p].pc.i]) in s.recorded))
  {
    hide Version, FileSet, Prefixes, OneCommitting, Blocked;
  }

  /** Back to the check that set an undisturbed process on file `i`. */
  lemma {:induction false} FindCheck(files: seq<File>, run: seq<Action>, n: nat, p: nat, i: nat) returns (c: nat)
    requires FileSet(files) && IsRun(files, START, run) && n <= |run| && Undisturbed(run, p)
    requires InFlightAt(files, run, n, p, i)
    ensures c < n && ChecksAt(files, run, c, p, i)
    ensures i < |files| && Version(files[i]) !in StateAt(files, run, c).recorded
    ensures forall m :: c < m <= n ==> InFlightAt(files, run, m, p, i)
    decreases n
  {
    hide FileSet, IsRun, After, Step, Inv, Version;
    if n == 0 {
      assert false by { Empty(files, run); }
    } else {
      var s, a := StateAt(files, run, n - 1), run[n - 1];
      Moment(files, run, n - 1);
      StepBack(files, s, a, p);
      if p < |s.procs| && InFlight(s.procs[p].pc, i) {
        c := FindCheck(files, run, n - 1, p, i);
      } else {
        c := n - 1;
      }
    }
  }

  lemma Empty(files: seq<File>, run: seq<Action>)
    ensures StateAt(files, run, 0) == START
  {
  }

  /** A file that got recorded between two moments was committed by some action in between. */
  lemma {:induction false} FindCommit(files: seq<File>, run: seq<Action>, m: nat, n: nat, i: nat) returns (j: nat)
    requires FileSet(files) && IsRun(files, START, run) && m <= n <= |run|
    requires |StateAt(files, run, m).recorded| <= i < |StateAt(files, run, n).recorded|
    ensures m <= j < n && Commits(StateAt(files, run, j), run[j])
    ensures StateAt(files, run, j).procs[run[j].p].pc.i == i
    decreases n - m
  {
    hide FileSet, IsRun, StateAt, Step, Inv;
    var s := StateAt(files, run, n - 1);
    Moment(files, run, n - 1);
    StepGrows(files, s, run[n - 1]);
    if i < |s.recorded| {
      j := FindCommit(files, run, m, n - 1, i);
    } else {
      j := n - 1;
    }
  }

  /** The INSERT at which an undisturbed process fails. */
  lemma {:induction false} FindFailure(files: seq<File>, run: seq<Action>, n: nat, p: nat) returns (r: nat, i: nat)
    requires FileSet(files) && IsRun(files, START, run) && n <= |run| && Undisturbed(run, p)
    requires AtPc(files, run, n, p, Ended(false))
    ensures r < n && InsertsAt(files, run, r, p, i) && InFlightAt(files, run, r, p, i)
    ensures i < |files| && Version(files[i]) in StateAt(files, run, r).recorded
    decreases n
  {
    hide FileSet, IsRun, After, Step, Inv, Version;
    if n == 0 {
      assert false by { Empty(files, run); }
    } else {
      var s, a := StateAt(files, run, n - 1), run[n - 1];
      Moment(files, run, n - 1);
      StepBack(files, s, a, p);
      if p < |s.procs| && s.procs[p].pc == Ended(false) {
        r, i := FindFailure(files, run, n - 1, p);
      } else {
        r, i := n - 1, s.procs[p].pc.i;
        assert AtPc(files, run, r, p, Record(i, s.procs[p].pc.seen));
      }
    }
  }

  lemma FailedWasOvertaken(files: seq<File>, run: seq<Action>, p: nat)
    requires FileSet(files) && IsRun(files, START, run) && Undisturbed(run, p)
    requires AtPc(files, run, |run|, p, Ended(false))
    ensures Overtaken(files, run, p)
  {
    hide IsRun, StateAt, Step, Inv, Version, Versions, FileSet;
    var r, i := FindFailure(files, run, |run|, p);
    var c := FindCheck(files, run, r, p, i);
    NotYet(files, run, c, i);
    NotYet(files, run, r, i);
    var j := FindCommit(files, run, c, r, i);
    var seen := StateAt(files, run, j).procs[run[j].p].pc.seen;
    assert AtPc(files, run, j, run[j].p, Commit(i, seen));
    assert j != c;
    assert InFlightAt(files, run, j, p, i);
    assert run[j].p != p;
    assert OtherCommitsAt(files, run, j, p, i);
    assert OvertakenOn(files, run, p, i);
  }

  lemma NotYet(files: seq<File>, run: seq<Action>, n: nat, i: nat)
    requires FileSet(files) && IsRun(files, START, run) && n <= |run| && i < |files|
    ensures Version(files[i]) in StateAt(files, run, n).recorded <==> i < |StateAt(files, run, n).recorded|
  {
    Moment(files, run, n);
    RecordedIff(files, |StateAt(files, run, n).recorded|, i);
  }

  /** In any run of any processes: a process that no call failed ends in failure exactly if, on
      some file, another process committed between its check and its INSERT. */
  lemma UndisturbedFailsIff(files: seq<File>, run: seq<Action>, p: nat)
    requires FileSet(files) && IsRun(files, START, run) && Undisturbed(run, p)
    requires p < |After(files, START, run).procs| && After(files, START, run).procs[p].pc.Ended?
    ensures After(files, START, run).procs[p].pc == Ended(false) <==> Overtaken(files, run, p)
  {
    assert run[..|run|] == run;
    hide IsRun, After, FileSet, Undisturbed;
    if Overtaken(files, run, p) {
      var i :| OvertakenOn(files, run, p, i);
      var c, j, r :| c < j < r && ChecksAt(files, run, c, p, i) && OtherCommitsAt(files, run, j, p, i)
                     && InsertsAt(files, run, r, p, i);
      OvertakenFails(files, run, p, i, j, r);
    } else if AtPc(files, run, |run|, p, Ended(false)) {
      FailedWasOvertaken(files, run, p);
    }
  }
}
