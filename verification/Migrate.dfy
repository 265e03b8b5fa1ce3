/** internal/store/migrate.go: the forward-only migration runner, on its own and as any
    number of processes that start, fail and crash at any step on one database. A process may
    be an older release that knows only the first `limit` files. */
module Migrations {

  datatype File = File(name: string, body: string)

  /** strings.TrimSuffix(name, ".sql") */
  function Version(f: File): string {
    if |f.name| >= 4 && f.name[|f.name| - 4..] == ".sql" then f.name[..|f.name| - 4] else f.name
  }

  /** Every file is named by its version and the extension. */
  lemma VersionOfFile(version: string, body: string)
    ensures Version(File(version + ".sql", body)) == version
  {
    var name := version + ".sql";
    assert name[|name| - 4..] == ".sql" && name[..|name| - 4] == version;
  }

  /** The embedded directory, filtered: SQL files with different names, in a fixed order. */
  ghost predicate FileSet(files: seq<File>) {
    && (forall i :: 0 <= i < |files| ==> |files[i].name| >= 4 && files[i].name[|files[i].name| - 4..] == ".sql")
    && (forall i, j :: 0 <= i < j < |files| ==> files[i].name != files[j].name)
  }

  function Versions(files: seq<File>): (vs: seq<string>)
    ensures |vs| == |files| && forall i :: 0 <= i < |vs| ==> vs[i] == Version(files[i])
  {
    seq(|files|, i requires 0 <= i < |files| => Version(files[i]))
  }

  function Bodies(files: seq<File>): (bs: seq<string>)
    ensures |bs| == |files| && forall i :: 0 <= i < |bs| ==> bs[i] == files[i].body
  {
    seq(|files|, i requires 0 <= i < |files| => files[i].body)
  }

  lemma VersionsDiffer(files: seq<File>, i: nat, j: nat)
    requires FileSet(files) && i < j < |files|
    ensures Versions(files)[i] != Versions(files)[j]
  {
    var a, b := files[i].name, files[j].name;
    assert a == a[..|a| - 4] + a[|a| - 4..] && b == b[..|b| - 4] + b[|b| - 4..];
  }

  lemma RecordedIff(files: seq<File>, k: nat, i: nat)
    requires FileSet(files) && k <= |files| && i < |files|
    ensures Versions(files)[i] in Versions(files)[..k] <==> i < k
  {
    var vs := Versions(files);
    if i < k {
      assert vs[..k][i] == vs[i];
    } else if vs[i] in vs[..k] {
      var j :| 0 <= j < k && vs[j] == vs[i];
      VersionsDiffer(files, j, i);
    }
  }

  // ---------------------------------------------------------- processes on a database

  /** Where a process stands. `seen` is the schema its transaction applied the body to. */
  datatype Pc =
    | CreateTable
    | Check(i: nat)
    | ReadFile(i: nat)
    | Begin(i: nat)
    | Apply(i: nat)
    | Record(i: nat, seen: seq<string>)
    | Commit(i: nat, seen: seq<string>)
    | Ended(ok: bool)

  datatype Process = Process(limit: nat, pc: Pc)

  /** The committed state, and the processes. The schema is the list of bodies applied. */
  datatype State = State(recorded: seq<string>, schema: seq<string>, procs: seq<Process>)

  const START := State([], [], [])

  /** A process does its next step, or that step fails or the process crashes and its
      transaction is rolled back, or a commit takes effect but its process never learns. */
  datatype Outcome = Fine | Fails | Lost

  datatype Action = Launch(limit: nat) | Do(p: nat, outcome: Outcome)

  /** An INSERT waits for an open transaction that has inserted the same key. */
  ghost predicate Blocked(files: seq<File>, s: State, i: nat)
    requires i < |files|
  {
    exists q :: 0 <= q < |s.procs| && s.procs[q].pc.Commit? && s.procs[q].pc.i < |files|
                && Version(files[s.procs[q].pc.i]) == Version(files[i])
  }

  ghost predicate Enabled(files: seq<File>, s: State, a: Action) {
    match a
    case Launch(limit) => limit <= |files|
    case Do(p, outcome) =>
      && p < |s.procs|
      && !s.procs[p].pc.Ended?
      && (outcome.Lost? ==> s.procs[p].pc.Commit?)
      && (outcome.Fine? && s.procs[p].pc.Record? && s.procs[p].pc.i < |files| ==> !Blocked(files, s, s.procs[p].pc.i))
  }

  /** The next program counter of an undisturbed process. */
  function Next(files: seq<File>, s: State, limit: nat, pc: Pc): Pc {
    match pc
    case CreateTable => Check(0)
    case Check(i) =>
      if i >= limit || i >= |files| then Ended(true)
      else if Version(files[i]) in s.recorded then Check(i + 1)
      else ReadFile(i)
    case ReadFile(i) => Begin(i)
    case Begin(i) => Apply(i)
    case Apply(i) => Record(i, s.schema)
    case Record(i, seen) =>
      if i < |files| && Version(files[i]) in s.recorded then Ended(false)   // primary key
      else Commit(i, seen)
    case Commit(i, _) => Check(i + 1)
    case Ended(ok) => Ended(ok)
  }

  function Step(files: seq<File>, s: State, a: Action): State {
    match a
    case Launch(limit) => s.(procs := s.procs + [Process(limit, CreateTable)])
    case Do(p, outcome) =>
      if p >= |s.procs| then s
      else
        var limit, pc := s.procs[p].limit, s.procs[p].pc;
        var pc' := if outcome.Fine? then Next(files, s, limit, pc) else Ended(false);
        var s' := s.(procs := s.procs[p := Process(limit, pc')]);
        if pc.Commit? && pc.i < |files| && !outcome.Fails? then
          s'.(recorded := s.recorded + [Version(files[pc.i])], schema := s.schema + [files[pc.i].body])
        else s'
  }

  ghost predicate IsRun(files: seq<File>, s: State, run: seq<Action>)
    decreases |run|
  {
    run == [] || (IsRun(files, s, run[..|run| - 1])
                  && Enabled(files, After(files, s, run[..|run| - 1]), run[|run| - 1]))
  }

  function After(files: seq<File>, s: State, run: seq<Action>): State
    decreases |run|
  {
    if run == [] then s else Step(files, After(files, s, run[..|run| - 1]), run[|run| - 1])
  }

  // ------------------------------------------------------------------- invariant

  ghost predicate ProcInv(files: seq<File>, k: nat, p: Process)
    requires k <= |files|
  {
    && p.limit <= |files|
    && match p.pc
       case CreateTable => true
       case Check(i) => i <= k && i <= p.limit
       case ReadFile(i) => i <= k && i < p.limit
       case Begin(i) => i <= k && i < p.limit
       case Apply(i) => i <= k && i < p.limit
       case Record(i, seen) => i <= |seen| <= k && i < p.limit && seen == Bodies(files)[..|seen|]
       case Commit(i, seen) => i == k == |seen| && i < p.limit && seen == Bodies(files)[..k]
       case Ended(ok) => ok ==> p.limit <= k
  }

  ghost predicate OneCommitting(s: State) {
    forall p, q :: 0 <= p < |s.procs| && 0 <= q < |s.procs| && s.procs[p].pc.Commit? && s.procs[q].pc.Commit? ==> p == q
  }

  ghost predicate Prefixes(files: seq<File>, s: State) {
    && |s.recorded| <= |files|
    && s.recorded == Versions(files)[..|s.recorded|]
    && s.schema == Bodies(files)[..|s.recorded|]
  }

  ghost predicate Inv(files: seq<File>, s: State) {
    && FileSet(files)
    && Prefixes(files, s)
    && (forall p :: 0 <= p < |s.procs| ==> ProcInv(files, |s.recorded|, s.procs[p]))
    && OneCommitting(s)
  }

  predicate Commits(s: State, a: Action) {
    a.Do? && !a.outcome.Fails? && a.p < |s.procs| && s.procs[a.p].pc.Commit?
  }

  lemma CommitKeepsInv(files: seq<File>, s: State, a: Action)
    requires Inv(files, s) && Enabled(files, s, a) && Commits(s, a)
    ensures Inv(files, Step(files, s, a))
  {
    hide FileSet, Version, Versions, Bodies;
    var k := |s.recorded|;
    assert ProcInv(files, k, s.procs[a.p]);
    assert Versions(files)[..k + 1] == Versions(files)[..k] + [Version(files[k])];
    assert Bodies(files)[..k + 1] == Bodies(files)[..k] + [files[k].body];
  }

  lemma OtherKeepsInv(files: seq<File>, s: State, a: Action)
    requires Inv(files, s) && Enabled(files, s, a) && !Commits(s, a)
    ensures Inv(files, Step(files, s, a))
  {
    hide FileSet, Version, Versions, Bodies;
    if a.Do? {
      var me := s.procs[a.p];
      assert ProcInv(files, |s.recorded|, me);
      if (me.pc.Record? || me.pc.Check?) && me.pc.i < |files| {
        RecordedIff(files, |s.recorded|, me.pc.i);
      }
    }
  }

  lemma StepKeepsInv(files: seq<File>, s: State, a: Action)
    requires Inv(files, s) && Enabled(files, s, a)
    ensures Inv(files, Step(files, s, a))
  {
    hide Inv, Step, Enabled;
    if Commits(s, a) {
      CommitKeepsInv(files, s, a);
    } else {
      OtherKeepsInv(files, s, a);
    }
  }

  lemma {:induction false} RunKeepsInv(files: seq<File>, s: State, run: seq<Action>)
    requires Inv(files, s) && IsRun(files, s, run)
    ensures Inv(files, After(files, s, run)) && |After(files, s, run).recorded| >= |s.recorded|
    decreases |run|
  {
    if run != [] {
      RunKeepsInv(files, s, run[..|run| - 1]);
      StepKeepsInv(files, After(files, s, run[..|run| - 1]), run[|run| - 1]);
    }
  }

  // -------------------------------------------------------------------- theorems

  /** After any run of any processes the recorded versions are the first k file names, each
      once, the schema is the result of exactly those bodies in that order, and a process
      that reported success has all its files among them. */
  lemma AppliedInOrderOnce(files: seq<File>, run: seq<Action>)
    requires FileSet(files) && IsRun(files, START, run)
    ensures var s := After(files, START, run);
            && Prefixes(files, s)
            && (forall i, j :: 0 <= i < j < |s.recorded| ==> s.recorded[i] != s.recorded[j])
            && (forall p :: 0 <= p < |s.procs| && s.procs[p].pc == Ended(true) ==> s.procs[p].limit <= |s.recorded|)
  {
    var s := After(files, START, run);
    RunKeepsInv(files, START, run);
    forall i, j | 0 <= i < j < |s.recorded| ensures s.recorded[i] != s.recorded[j] {
      VersionsDiffer(files, i, j);
    }
    forall p | 0 <= p < |s.procs| && s.procs[p].pc == Ended(true) ensures s.procs[p].limit <= |s.recorded| {
      assert ProcInv(files, |s.recorded|, s.procs[p]);
    }
  }

  /** No process commits over another's work: the schema a committing transaction ran its
      body on is still the committed schema. */
  lemma CommitsOnWhatItSaw(files: seq<File>, run: seq<Action>, p: nat)
    requires FileSet(files) && IsRun(files, START, run)
    requires p < |After(files, START, run).procs| && After(files, START, run).procs[p].pc.Commit?
    ensures var s := After(files, START, run); s.procs[p].pc.seen == s.schema
  {
    RunKeepsInv(files, START, run);
    assert ProcInv(files, |After(files, START, run).recorded|, After(files, START, run).procs[p]);
  }

  lemma Extend(files: seq<File>, s: State, run: seq<Action>, a: Action)
    requires IsRun(files, s, run) && Enabled(files, After(files, s, run), a)
    ensures IsRun(files, s, run + [a]) && After(files, s, run + [a]) == Step(files, After(files, s, run), a)
  {
    assert (run + [a])[..|run|] == run;
  }

  /** A process on an empty database gets as far as its first INSERT. */
  lemma ToFirstInsert(f: File, run: seq<Action>, p: nat) returns (run': seq<Action>)
    requires IsRun([f], START, run)
    requires var s := After([f], START, run);
             s.recorded == [] && p < |s.procs| && s.procs[p] == Process(1, CreateTable)
    ensures IsRun([f], START, run')
    ensures var s := After([f], START, run);
            After([f], START, run') == s.(procs := s.procs[p := Process(1, Record(0, s.schema))])
  {
    hide IsRun, After, Version, Blocked;
    run' := run;
    ghost var s := After([f], START, run);
    ghost var todo := [Check(0), ReadFile(0), Begin(0), Apply(0), Record(0, s.schema)];
    ghost var n := 0;
    while n < 5
      invariant n <= 5 && IsRun([f], START, run')
      invariant After([f], START, run') ==
                s.(procs := s.procs[p := Process(1, if n == 0 then CreateTable else todo[n - 1])])
    {
      Extend([f], START, run', Do(p, Fine));
      run' := run' + [Do(p, Fine)];
      n := n + 1;
    }
  }

  lemma BothAtInsert(f: File) returns (run: seq<Action>)
    ensures IsRun([f], START, run)
    ensures After([f], START, run) == State([], [], [Process(1, Record(0, [])), Process(1, Record(0, []))])
  {
    run := [];
    assert IsRun([f], START, run) && After([f], START, run) == START;
    hide IsRun, After, Version;
    Extend([f], START, run, Launch(1));
    run := run + [Launch(1)];
    Extend([f], START, run, Launch(1));
    run := run + [Launch(1)];
    run := ToFirstInsert(f, run, 0);
    run := ToFirstInsert(f, run, 1);
  }

  /** Two processes can both run a body; the primary key then fails one of them, although its
      migration is recorded. */
  lemma RaceFailsOne(f: File) returns (run: seq<Action>)
    ensures IsRun([f], START, run)
    ensures After([f], START, run) ==
            State([Version(f)], [f.body], [Process(1, Ended(true)), Process(1, Ended(false))])
  {
    run := BothAtInsert(f);
    hide IsRun, After, Version;
    Extend([f], START, run, Do(0, Fine));
    run := run + [Do(0, Fine)];
    Extend([f], START, run, Do(0, Fine));
    run := run + [Do(0, Fine)];
    assert After([f], START, run) == State([Version(f)], [f.body], [Process(1, Check(1)), Process(1, Record(0, []))]);
    Extend([f], START, run, Do(0, Fine));
    run := run + [Do(0, Fine)];
    assert After([f], START, run) ==
           State([Version(f)], [f.body], [Process(1, Ended(true)), Process(1, Record(0, []))]);
    Extend([f], START, run, Do(1, Fine));
    run := run + [Do(1, Fine)];
  }

  /** Some process can always move: one that waits for a key waits for a committing one. */
  lemma NeverStuck(files: seq<File>, s: State, p: nat) returns (q: nat)
    requires Inv(files, s) && p < |s.procs| && !s.procs[p].pc.Ended?
    ensures Enabled(files, s, Do(q, Fine))
  {
    q := p;
    if !Enabled(files, s, Do(p, Fine)) {
      q :| 0 <= q < |s.procs| && s.procs[q].pc.Commit?;
    }
  }

  function Measure(p: Process): int {
    match p.pc
    case CreateTable => 7 * p.limit + 8
    case Check(i) => 7 * (p.limit - i) + 7
    case ReadFile(i) => 7 * (p.limit - i) + 6
    case Begin(i) => 7 * (p.limit - i) + 5
    case Apply(i) => 7 * (p.limit - i) + 4
    case Record(i, _) => 7 * (p.limit - i) + 3
    case Commit(i, _) => 7 * (p.limit - i) + 2
    case Ended(_) => 0
  }

  /** Every step of a process brings that process nearer its end and moves no other. */
  lemma StepsDecrease(files: seq<File>, s: State, a: Action)
    requires Inv(files, s) && Enabled(files, s, a) && a.Do?
    ensures 0 <= Measure(Step(files, s, a).procs[a.p]) < Measure(s.procs[a.p])
    ensures forall q :: 0 <= q < |s.procs| && q != a.p ==> Step(files, s, a).procs[q] == s.procs[q]
  {
    hide Version, FileSet, OneCommitting, Blocked;
    assert ProcInv(files, |s.recorded|, s.procs[a.p]);
  }

  // ------------------------------------------------------------------ one process

  datatype Phase = Checking | Reading | Beginning | Applying | Recording | Committing

  /** Outside a commit a lost answer is a failure. */
  function AsStep(o: Outcome): Outcome {
    if o.Fine? then Fine else Fails
  }

  /** One more step of a process that has the database to itself. */
  lemma Drive(files: seq<File>, s0: State, run: seq<Action>, n: nat, pc: Pc, o: Outcome) returns (run': seq<Action>)
    requires IsRun(files, s0, run) && After(files, s0, run).procs == [Process(n, pc)] && !pc.Ended?
    requires o.Lost? ==> pc.Commit?
    ensures IsRun(files, s0, run') && After(files, s0, run') == Step(files, After(files, s0, run), Do(0, o))
  {
    run' := run + [Do(0, o)];
    Extend(files, s0, run, Do(0, o));
  }

  /** What one round of the loop makes of the database and of the process. */
  function AfterFile(f: File, s: State, n: nat, i: nat, env: (nat, Phase) -> Outcome): State {
    var failed := s.(procs := [Process(n, Ended(false))]);
    if !env(i, Checking).Fine? then failed
    else if Version(f) in s.recorded then s.(procs := [Process(n, Check(i + 1))])
    else if !env(i, Reading).Fine? || !env(i, Beginning).Fine? then failed
    else if !env(i, Applying).Fine? || !env(i, Recording).Fine? then failed
    else
      match env(i, Committing)
      case Fails => failed
      case Fine => State(s.recorded + [Version(f)], s.schema + [f.body], [Process(n, Check(i + 1))])
      case Lost => State(s.recorded + [Version(f)], s.schema + [f.body], [Process(n, Ended(false))])
  }

  /** The round is a run of steps. */
  lemma FileIsSteps(files: seq<File>, s0: State, run: seq<Action>, n: nat, i: nat, env: (nat, Phase) -> Outcome)
    returns (run': seq<Action>)
    requires i < n <= |files|
    requires IsRun(files, s0, run) && After(files, s0, run).procs == [Process(n, Check(i))]
    ensures IsRun(files, s0, run')
    ensures After(files, s0, run') == AfterFile(files[i], After(files, s0, run), n, i, env)
  {
    hide IsRun, After, Version;
    ghost var s := After(files, s0, run);
    run' := Drive(files, s0, run, n, Check(i), AsStep(env(i, Checking)));
    if !env(i, Checking).Fine? || Version(files[i]) in s.recorded {
      return;
    }
    run' := Drive(files, s0, run', n, ReadFile(i), AsStep(env(i, Reading)));
    if !env(i, Reading).Fine? {
      return;
    }
    run' := Drive(files, s0, run', n, Begin(i), AsStep(env(i, Beginning)));
    if !env(i, Beginning).Fine? {
      return;
    }
    run' := Drive(files, s0, run', n, Apply(i), AsStep(env(i, Applying)));
    if !env(i, Applying).Fine? {
      return;
    }
    run' := Drive(files, s0, run', n, Record(i, s.schema), AsStep(env(i, Recording)));
    if !env(i, Recording).Fine? {
      return;
    }
    run' := Drive(files, s0, run', n, Commit(i, s.schema), env(i, Committing));
  }

  /** A round adds its own file or nothing, and nothing if the file was recorded. */
  lemma FileGrows(files: seq<File>, s: State, n: nat, i: nat, env: (nat, Phase) -> Outcome)
    requires Inv(files, s) && i < n <= |files| && s.procs == [Process(n, Check(i))]
    ensures var s' := AfterFile(files[i], s, n, i, env);
            && (|s'.recorded| == |s.recorded| || |s'.recorded| == i + 1)
            && (i < |s.recorded| ==> s'.recorded == s.recorded && s'.schema == s.schema)
  {
    hide Version, FileSet;
    assert ProcInv(files, |s.recorded|, s.procs[0]);
    RecordedIff(files, |s.recorded|, i);
  }

  lemma Started(files: seq<File>, s0: State, n: nat, tableOk: bool) returns (run: seq<Action>)
    requires s0.procs == [] && n <= |files|
    ensures IsRun(files, s0, run)
    ensures After(files, s0, run) == s0.(procs := [Process(n, if tableOk then Check(0) else Ended(false))])
  {
    run := [];
    assert IsRun(files, s0, run) && After(files, s0, run) == s0;
    hide IsRun, After;
    Extend(files, s0, run, Launch(n));
    run := run + [Launch(n)];
    run := Drive(files, s0, run, n, CreateTable, if tableOk then Fine else Fails);
  }

  lemma Completed(files: seq<File>, s0: State, run: seq<Action>, n: nat) returns (run': seq<Action>)
    requires IsRun(files, s0, run) && After(files, s0, run).procs == [Process(n, Check(n))]
    ensures IsRun(files, s0, run')
    ensures After(files, s0, run') == After(files, s0, run).(procs := [Process(n, Ended(true))])
  {
    hide IsRun, After;
    run' := Drive(files, s0, run, n, Check(n), Fine);
  }

  /** A process that is gone leaves the database fit for the next. */
  lemma Settled(files: seq<File>, s0: State, run: seq<Action>)
    requires Inv(files, s0) && IsRun(files, s0, run)
    ensures var s := After(files, s0, run); Inv(files, s.(procs := [])) && |s.recorded| >= |s0.recorded|
    ensures var s := After(files, s0, run);
            forall p :: 0 <= p < |s.procs| && s.procs[p].pc == Ended(true) ==> s.procs[p].limit <= |s.recorded|
  {
    RunKeepsInv(files, s0, run);
  }

  class Database {
    var recorded: seq<string>
    var schema: seq<string>

    constructor ()
      ensures recorded == [] && schema == []
    {
      recorded, schema := [], [];
    }

    /** applyMigrations by one process on a database no other process is using. `all` is the
        file list of the newest release; `env` says which calls fail. The run is one of the
        interleaved system above. */
    method ApplyMigrations(ghost all: seq<File>, files: seq<File>, tableOk: bool, env: (nat, Phase) -> Outcome)
      returns (ok: bool, ghost run: seq<Action>)
      requires files <= all && Inv(all, State(recorded, schema, []))
      modifies this
      ensures IsRun(all, State(old(recorded), old(schema), []), run)
      ensures After(all, State(old(recorded), old(schema), []), run)
              == State(recorded, schema, [Process(|files|, Ended(ok))])
      ensures Inv(all, State(recorded, schema, [])) && |recorded| >= |old(recorded)|
      ensures ok ==> |recorded| >= |files|
      ensures tableOk && (forall i, phase :: env(i, phase).Fine?) ==> ok
      ensures |recorded| <= |files| || (recorded == old(recorded) && schema == old(schema))
    {
      var n := |files|;
      ghost var s0 := State(recorded, schema, []);
      hide IsRun, After, FileSet, Version, Inv, Step, Next, Enabled;
      run := Started(all, s0, n, tableOk);
      if !tableOk {
        Settled(all, s0, run);
        return false, run;
      }
      for i := 0 to n
        invariant IsRun(all, s0, run)
        invariant After(all, s0, run) == State(recorded, schema, [Process(n, Check(i))])
        invariant |recorded| <= n || (recorded == old(recorded) && schema == old(schema))
      {
        RunKeepsInv(all, s0, run);
        FileGrows(all, After(all, s0, run), n, i, env);
        run := FileIsSteps(all, s0, run, n, i, env);
        Settled(all, s0, run);
        var version := Version(files[i]);
        if !env(i, Checking).Fine? {
          return false, run;
        }
        if version in recorded {
          continue;
        }
        if !env(i, Reading).Fine? {
          return false, run;
        }
        if !env(i, Beginning).Fine? {
          return false, run;
        }
        var txSchema := schema + [files[i].body];
        if !env(i, Applying).Fine? {
          return false, run;
        }
        var txRecorded := recorded + [version];
        if !env(i, Recording).Fine? {
          return false, run;
        }
        if !env(i, Committing).Fails? {
          recorded, schema := txRecorded, txSchema;
        }
        if !env(i, Committing).Fine? {
          return false, run;
        }
      }
      run := Completed(all, s0, run, n);
      Settled(all, s0, run);
      assert After(all, s0, run).procs[0].pc == Ended(true);
      return true, run;
    }
  }

  /** Runs by one process after another: a run without failures completes the fold, and the
      next one, of the same or an older release, changes nothing. */
  method Restart(db: Database, ghost all: seq<File>, files: seq<File>, env: (nat, Phase) -> Outcome)
    requires files <= all && Inv(all, State(db.recorded, db.schema, []))
    requires forall i, phase :: env(i, phase).Fine?
    modifies db
    ensures |old(db.recorded)| <= |files| ==> db.recorded == Versions(files) && db.schema == Bodies(files)
    ensures |old(db.recorded)| >= |files| ==> db.recorded == old(db.recorded) && db.schema == old(db.schema)
  {
    var ok, _ := db.ApplyMigrations(all, files, true, env);
  }
}
