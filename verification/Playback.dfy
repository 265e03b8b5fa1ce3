/** internal/pipeline/session_runner.go: the registry of playback handles by file path,
    filled by the utterance opener and emptied by PLAYBACK_STOP events. */
module Playback {

  // -------------------------------------------------------------- utterance paths

  function Digit(d: nat): char
    requires d < 10
  {
    "0123456789"[d]
  }

  function Decimal(n: nat): (s: string)
    ensures |s| >= 1
    ensures forall k :: 0 <= k < |s| ==> '0' <= s[k] <= '9'
  {
    if n < 10 then [Digit(n)] else Decimal(n / 10) + [Digit(n % 10)]
  }

  function ValueOf(s: string): nat
    requires forall k :: 0 <= k < |s| ==> '0' <= s[k] <= '9'
  {
    if s == "" then 0 else ValueOf(s[..|s| - 1]) * 10 + (s[|s| - 1] as int - '0' as int)
  }

  lemma {:induction false} DecimalValue(n: nat)
    ensures ValueOf(Decimal(n)) == n
  {
    if n >= 10 {
      DecimalValue(n / 10);
      assert Decimal(n)[..|Decimal(n)| - 1] == Decimal(n / 10);
    } else {
      assert Decimal(n)[..0] == "";
    }
  }

  /** The FIFO of utterance `n` of a call; `dir` is the cleaned directory. */
  function PathOf(dir: string, uuid: string, n: nat): string {
    dir + "/" + uuid + "-" + Decimal(n) + ".raw"
  }

  /** The digits after the last dash are the utterance number, so no two utterances of any
      calls share a path, even when one uuid is a prefix of another. */
  lemma PathInjective(dir: string, u: string, m: nat, v: string, n: nat)
    requires PathOf(dir, u, m) == PathOf(dir, v, n)
    ensures u == v && m == n
  {
    var p := PathOf(dir, u, m);
    var d, e := Decimal(m), Decimal(n);
    var i, j := |p| - 5 - |d|, |p| - 5 - |e|;
    assert p[i] == '-' && p[j] == '-';
    assert forall k :: i < k < |p| - 4 ==> p[k] == d[k - i - 1];
    assert forall k :: j < k < |p| - 4 ==> p[k] == e[k - j - 1];
    assert i == j;
    assert d == p[i + 1..|p| - 4] == e;
    assert u == p[|dir| + 1..i] == v;
    DecimalValue(m);
    DecimalValue(n);
  }

  function Lower(c: char): char {
    if 'A' <= c <= 'Z' then (c as int + 32) as char else c
  }

  predicate HasExtension(p: string, ext: string) {
    |p| >= |ext| && forall k :: 0 <= k < |ext| ==> Lower(p[|p| - |ext| + k]) == ext[k]
  }

  /** Filler files are picked by their extension, in either letter case. */
  predicate IsFillerPath(p: string) {
    HasExtension(p, ".wav") || HasExtension(p, ".mp3")
  }

  lemma FillerNeverClashes(dir: string, uuid: string, n: nat)
    ensures !IsFillerPath(PathOf(dir, uuid, n)) && PathOf(dir, uuid, n) != ""
  {
    var p := PathOf(dir, uuid, n);
    assert p[|p| - 4..] == ".raw";
    assert p[|p| - 4 + 1] == p[|p| - 4..][1] == 'r' && Lower('r') == 'r';
    assert ".wav"[1] == 'w' && ".mp3"[1] == 'm';
  }

  /** A name as FreeSWITCH sees it. */
  lemma PathExample()
    ensures PathOf("/tts", "4f-0a", 120) == "/tts/4f-0a-120.raw"
  {
    assert Decimal(12) == Decimal(1) + ['2'];
    assert Decimal(120) == "120";
  }

  predicate Spells(e: string, ext: string)
    requires |e| == |ext| == 4
  {
    Lower(e[0]) == ext[0] && Lower(e[1]) == ext[1] && Lower(e[2]) == ext[2] && Lower(e[3]) == ext[3]
  }

  lemma ExtensionOf(p: string, e: string, ext: string)
    requires |e| == |ext| == 4
    ensures HasExtension(p + e, ext) <==> Spells(e, ext)
  {
    hide Lower;
    var q := p + e;
    assert q[|p|] == e[0] && q[|p| + 1] == e[1] && q[|p| + 2] == e[2] && q[|p| + 3] == e[3];
    if HasExtension(q, ext) {
      assert Lower(q[|q| - |ext| + 0]) == ext[0] && Lower(q[|q| - |ext| + 1]) == ext[1];
      assert Lower(q[|q| - |ext| + 2]) == ext[2] && Lower(q[|q| - |ext| + 3]) == ext[3];
    }
  }

  /** The extension counts in any letter case, and no other does. */
  lemma FillerNames(p: string, e: string)
    requires |e| == 4
    ensures IsFillerPath(p + e) <==>
              e[0] == '.' && ((e[1] in "wW" && e[2] in "aA" && e[3] in "vV")
                              || (e[1] in "mM" && e[2] in "pP" && e[3] == '3'))
  {
    ExtensionOf(p, e, ".wav");
    ExtensionOf(p, e, ".mp3");
    hide HasExtension;
  }

  // ------------------------------------------------------------- registry protocol

  datatype Handle = Handle(
    uuid: string,
    n: nat,
    openedAt: nat,       // number of stop events seen when it was registered
    dropped: bool,       // the opener failed after registering it
    droppedAt: nat,
    closes: nat)         // how often its done channel was closed

  datatype Entry = Tts(h: nat) | FillerEntry

  datatype Registry = Registry(
    dir: string,
    counters: map<string, nat>,
    handles: seq<Handle>,
    stops: map<string, Entry>,
    log: seq<string>)    // paths of all stop events so far

  function Start(dir: string): Registry {
    Registry(dir, map[], [], map[], [])
  }

  datatype Event =
    | NoFifo(uuid: string)  // the FIFO could not be made; its number is used up
    | Open(uuid: string)
    | OpenFailed(h: nat)
    | PlaybackStop(path: string)
    | FillerPlay(path: string)
    | FillerDone(path: string)

  predicate Enabled(r: Registry, e: Event) {
    match e
    case NoFifo(_) => true
    case Open(_) => true
    case OpenFailed(h) => h < |r.handles| && !r.handles[h].dropped
    case PlaybackStop(path) => path != ""
    case FillerPlay(path) => IsFillerPath(path)
    case FillerDone(path) => IsFillerPath(path)
  }

  function Counter(r: Registry, uuid: string): nat {
    if uuid in r.counters then r.counters[uuid] else 0
  }

  function PathOfHandle(r: Registry, h: nat): string
    requires h < |r.handles|
  {
    PathOf(r.dir, r.handles[h].uuid, r.handles[h].n)
  }

  function Step(r: Registry, e: Event): Registry
    requires Enabled(r, e)
  {
    match e
    case NoFifo(uuid) => r.(counters := r.counters[uuid := Counter(r, uuid) + 1])
    case Open(uuid) =>
      var n := Counter(r, uuid) + 1;
      r.(counters := r.counters[uuid := n],
         handles := r.handles + [Handle(uuid, n, |r.log|, false, 0, 0)],
         stops := r.stops[PathOf(r.dir, uuid, n) := Tts(|r.handles|)])
    case OpenFailed(h) =>
      r.(stops := r.stops - {PathOfHandle(r, h)},
         handles := r.handles[h := r.handles[h].(dropped := true, droppedAt := |r.log|)])
    case PlaybackStop(path) =>
      var s := r.(stops := r.stops - {path}, log := r.log + [path]);
      if path in r.stops && r.stops[path].Tts? && r.stops[path].h < |r.handles| then
        var h := r.stops[path].h;
        s.(handles := r.handles[h := r.handles[h].(closes := r.handles[h].closes + 1)])
      else s
    case FillerPlay(path) => r.(stops := r.stops[path := FillerEntry])
    case FillerDone(path) => r.(stops := r.stops - {path})
  }

  predicate Legal(r: Registry, run: seq<Event>)
    decreases |run|
  {
    run == [] || (Enabled(r, run[0]) && Legal(Step(r, run[0]), run[1..]))
  }

  function After(r: Registry, run: seq<Event>): Registry
    requires Legal(r, run)
    decreases |run|
  {
    if run == [] then r else After(Step(r, run[0]), run[1..])
  }

  /** A stop event with the handle's own path arrived after it was registered and before the
      opener dropped it. */
  ghost predicate OwnStop(r: Registry, h: nat)
    requires h < |r.handles|
  {
    exists k :: InWindow(r, h, k) && r.log[k] == PathOfHandle(r, h)
  }

  ghost predicate InWindow(r: Registry, h: nat, k: int)
    requires h < |r.handles|
  {
    r.handles[h].openedAt <= k < |r.log| && (r.handles[h].dropped ==> k < r.handles[h].droppedAt)
  }

  predicate Registered(r: Registry, h: nat)
    requires h < |r.handles|
  {
    var p := PathOfHandle(r, h);
    p in r.stops && r.stops[p] == Tts(h)
  }

  ghost predicate HandleOk(r: Registry, h: nat)
    requires h < |r.handles|
  {
    var x := r.handles[h];
    && x.openedAt <= |r.log| && x.droppedAt <= |r.log|
    && 1 <= x.n <= Counter(r, x.uuid)
    && x.closes == (if OwnStop(r, h) then 1 else 0)
    && (Registered(r, h) <==> !x.dropped && x.closes == 0)
  }

  ghost predicate Inv(r: Registry) {
    && (forall h :: 0 <= h < |r.handles| ==> HandleOk(r, h))
    && (forall g, h :: 0 <= g < h < |r.handles| && r.handles[g].uuid == r.handles[h].uuid ==>
          r.handles[g].n < r.handles[h].n)
    && (forall p :: p in r.stops && r.stops[p].Tts? ==>
          r.stops[p].h < |r.handles| && p == PathOfHandle(r, r.stops[p].h))
  }

  lemma DistinctPaths(r: Registry, g: nat, h: nat)
    requires Inv(r) && g < |r.handles| && h < |r.handles| && PathOfHandle(r, g) == PathOfHandle(r, h)
    ensures g == h
  {
    PathInjective(r.dir, r.handles[g].uuid, r.handles[g].n, r.handles[h].uuid, r.handles[h].n);
  }

  /** A handle that a step does not touch keeps its account. */
  lemma HandleFrame(r: Registry, s: Registry, h: nat)
    requires h < |r.handles| && h < |s.handles| && HandleOk(r, h)
    requires s.dir == r.dir && s.handles[h] == r.handles[h] && s.log == r.log
    requires Counter(s, r.handles[h].uuid) >= Counter(r, r.handles[h].uuid)
    requires Registered(s, h) <==> Registered(r, h)
    ensures HandleOk(s, h)
  {
    assert forall k :: InWindow(s, h, k) <==> InWindow(r, h, k);
  }

  lemma OpenKeepsInv(r: Registry, uuid: string)
    requires Inv(r)
    ensures Inv(Step(r, Open(uuid)))
  {
    hide PathOf;
    var s := Step(r, Open(uuid));
    var n, added := Counter(r, uuid) + 1, |r.handles|;
    forall h | 0 <= h < added
      ensures HandleOk(s, h) && PathOfHandle(s, h) != PathOf(r.dir, uuid, n)
      ensures s.handles[h] == r.handles[h] && (r.handles[h].uuid == uuid ==> r.handles[h].n < n)
    {
      assert HandleOk(r, h);
      if PathOfHandle(r, h) == PathOf(r.dir, uuid, n) {
        PathInjective(r.dir, r.handles[h].uuid, r.handles[h].n, uuid, n);
      }
      HandleFrame(r, s, h);
    }
    assert HandleOk(s, added);
  }

  lemma NoFifoKeepsInv(r: Registry, uuid: string)
    requires Inv(r)
    ensures Inv(Step(r, NoFifo(uuid)))
  {
    hide PathOf;
    var s := Step(r, NoFifo(uuid));
    forall h | 0 <= h < |s.handles|
      ensures HandleOk(s, h)
    {
      assert HandleOk(r, h);
      HandleFrame(r, s, h);
    }
  }

  lemma FailKeepsInv(r: Registry, f: nat)
    requires Inv(r) && Enabled(r, OpenFailed(f))
    ensures Inv(Step(r, OpenFailed(f)))
  {
    hide PathOf;
    var s := Step(r, OpenFailed(f));
    forall h | 0 <= h < |s.handles|
      ensures HandleOk(s, h)
    {
      assert HandleOk(r, h);
      if h == f {
        assert forall k :: InWindow(s, h, k) <==> InWindow(r, h, k);
      } else {
        if PathOfHandle(r, h) == PathOfHandle(r, f) { DistinctPaths(r, h, f); }
        HandleFrame(r, s, h);
      }
    }
  }

  lemma FillerKeepsInv(r: Registry, e: Event)
    requires Inv(r) && Enabled(r, e) && (e.FillerPlay? || e.FillerDone?)
    ensures Inv(Step(r, e))
  {
    hide PathOf, IsFillerPath;
    var s := Step(r, e);
    forall h | 0 <= h < |s.handles|
      ensures HandleOk(s, h)
    {
      assert HandleOk(r, h);
      FillerNeverClashes(r.dir, r.handles[h].uuid, r.handles[h].n);
      HandleFrame(r, s, h);
    }
  }

  lemma StopKeepsHandle(r: Registry, path: string, h: nat)
    requires Inv(r) && path != "" && h < |r.handles|
    ensures HandleOk(Step(r, PlaybackStop(path)), h)
  {
    hide PathOf;
    var s := Step(r, PlaybackStop(path));
    assert HandleOk(r, h);
    var mine := path == PathOfHandle(r, h);
    assert forall k :: 0 <= k < |r.log| ==> s.log[k] == r.log[k];
    assert forall k :: k < |r.log| ==> (InWindow(s, h, k) <==> InWindow(r, h, k));
    if mine && !r.handles[h].dropped {
      assert InWindow(s, h, |r.log|) && s.log[|r.log|] == PathOfHandle(s, h);
      assert OwnStop(s, h);
    } else {
      assert OwnStop(s, h) ==> OwnStop(r, h);
    }
    if OwnStop(r, h) {
      var k :| InWindow(r, h, k) && r.log[k] == PathOfHandle(r, h);
      assert InWindow(s, h, k) && s.log[k] == PathOfHandle(s, h);
    }
  }

  lemma StopKeepsInv(r: Registry, path: string)
    requires Inv(r) && Enabled(r, PlaybackStop(path))
    ensures Inv(Step(r, PlaybackStop(path)))
  {
    hide PathOf, HandleOk;
    var s := Step(r, PlaybackStop(path));
    forall h | 0 <= h < |s.handles|
      ensures HandleOk(s, h)
    {
      StopKeepsHandle(r, path, h);
    }
  }

  lemma {:induction false} RunKeepsInv(r: Registry, run: seq<Event>)
    requires Inv(r) && Legal(r, run)
    ensures Inv(After(r, run))
    decreases |run|
  {
    hide Inv, Step, Enabled;
    if run != [] {
      match run[0] {
        case NoFifo(uuid) => NoFifoKeepsInv(r, uuid);
        case Open(uuid) => OpenKeepsInv(r, uuid);
        case OpenFailed(h) => FailKeepsInv(r, h);
        case PlaybackStop(path) => StopKeepsInv(r, path);
        case _ => FillerKeepsInv(r, run[0]);
      }
      RunKeepsInv(Step(r, run[0]), run[1..]);
    }
  }

  /** Over any sequence of opens, failures, filler plays and stop events, in any order and
      with duplicates: each utterance's done channel closes at most once, and it has closed
      exactly if an event carrying its own path arrived while it was registered. */
  lemma DoneExactlyOnOwnStop(dir: string, run: seq<Event>)
    requires Legal(Start(dir), run)
    ensures var r := After(Start(dir), run);
            forall h :: 0 <= h < |r.handles| ==>
              r.handles[h].closes <= 1 && (r.handles[h].closes == 1 <==> OwnStop(r, h))
  {
    hide OwnStop, PathOf;
    RunKeepsInv(Start(dir), run);
    var r := After(Start(dir), run);
    forall h | 0 <= h < |r.handles|
      ensures r.handles[h].closes == if OwnStop(r, h) then 1 else 0
    {
      assert HandleOk(r, h);
    }
  }

  // ---------------------------------------------------------------- the handler

  class PlaybackHandle {
    const path: string
    var signaled: bool   // the once guard
    var closes: nat      // closes of the done channel

    ghost predicate Valid()
      reads this
    {
      closes == if signaled then 1 else 0
    }

    constructor (path: string)
      ensures this.path == path && !signaled && Valid()
    {
      this.path, signaled, closes := path, false, 0;
    }

    /** Closes the done channel exactly once, however often it is called. */
    method SignalDone()
      requires Valid()
      modifies this
      ensures Valid() && signaled && closes == 1
    {
      if !signaled {
        signaled := true;
        closes := closes + 1;
      }
    }
  }

  /** The registry in place. The ghost fields say which state of the protocol above it is in,
      and which object stands for each of its utterance handles. */
  class SessionRunner {
    const ttsDir: string
    var playbackStops: map<string, PlaybackHandle>
    ghost var registry: Registry
    ghost var handles: seq<PlaybackHandle>
    ghost var repr: set<PlaybackHandle>

    ghost predicate Valid()
      reads this, repr
    {
      && registry.dir == ttsDir && Inv(registry) && |handles| == |registry.handles|
      && HandlesMatch() && StopsMatch()
    }

    ghost predicate HandlesMatch()
      reads this, repr
    {
      && |handles| == |registry.handles|
      && (forall h :: 0 <= h < |handles| ==>
            && handles[h] in repr && handles[h].Valid()
            && handles[h].path == PathOfHandle(registry, h) && handles[h].closes == registry.handles[h].closes)
      && (forall g, h :: 0 <= g < h < |handles| ==> handles[g] != handles[h])
    }

    ghost predicate StopsMatch()
      reads this, repr
    {
      && playbackStops.Keys == registry.stops.Keys
      && (forall p :: p in playbackStops ==>
            && playbackStops[p] in repr && playbackStops[p].Valid()
            && match registry.stops[p]
               case Tts(h) => h < |handles| && playbackStops[p] == handles[h]
               case FillerEntry => playbackStops[p] !in handles)
    }

    constructor (ttsDir: string)
      ensures Valid() && this.ttsDir == ttsDir && playbackStops == map[]
      ensures registry == Start(ttsDir) && fresh(repr)
    {
      this.ttsDir, playbackStops := ttsDir, map[];
      registry, handles, repr := Start(ttsDir), [], {};
    }

    /** The event names the file in one of two headers; unknown or absent paths are ignored. */
    method OnPlaybackStop(applicationData: string, playbackFilePath: string)
      requires Valid()
      modifies this, repr
      ensures Valid() && repr == old(repr) && handles == old(handles)
      ensures var path := if applicationData != "" then applicationData else playbackFilePath;
              && registry == (if path == "" then old(registry) else Step(old(registry), PlaybackStop(path)))
              && playbackStops == (if path == "" then old(playbackStops) else old(playbackStops) - {path})
              && (path != "" && path in old(playbackStops) ==> old(playbackStops)[path].closes == 1)
              && (forall h :: h in repr ==>
                    unchanged(h) || (path != "" && path in old(playbackStops) && h == old(playbackStops)[path]))
    {
      hide Valid, Inv, Step;
      var path := applicationData;
      if path == "" {
        path := playbackFilePath;
      }
      if path == "" {
        return;
      }
      Stopped(path);
    }

    /** The entry of the path, if there is one, is taken out and its handle closed. */
    method Stopped(path: string)
      requires Valid() && path != ""
      modifies this, repr
      ensures Valid() && repr == old(repr) && handles == old(handles)
      ensures registry == Step(old(registry), PlaybackStop(path))
      ensures playbackStops == old(playbackStops) - {path}
      ensures path in old(playbackStops) ==> old(playbackStops)[path].closes == 1
      ensures forall h :: h in repr ==> unchanged(h) || (path in old(playbackStops) && h == old(playbackStops)[path])
    {
      hide PathOf, Inv;
      StopKeepsInv(registry, path);
      if path in registry.stops && registry.stops[path].Tts? {
        StopClosesOnce(registry, path);
      }
      registry := Step(registry, PlaybackStop(path));
      if path !in playbackStops {
        assert playbackStops - {path} == playbackStops;
        return;
      }
      var h := playbackStops[path];
      playbackStops := playbackStops - {path};
      h.SignalDone();
    }

    /** The opener puts the handle of its next utterance under its path. */
    method Register(handle: PlaybackHandle, ghost uuid: string)
      requires Valid() && handle !in repr && handle.Valid() && !handle.signaled
      requires handle.path == PathOf(ttsDir, uuid, Counter(registry, uuid) + 1)
      modifies this
      ensures Valid() && registry == Step(old(registry), Open(uuid))
      ensures handles == old(handles) + [handle] && repr == old(repr) + {handle}
      ensures playbackStops == old(playbackStops)[handle.path := handle]
    {
      hide PathOf, Inv;
      playbackStops := playbackStops[handle.path := handle];
      OpenKeepsInv(registry, uuid);
      registry := Step(registry, Open(uuid));
      handles, repr := handles + [handle], repr + {handle};
    }

    /** A number without a FIFO is used up. */
    ghost method SkipNumber(uuid: string)
      requires Valid()
      modifies this
      ensures Valid() && registry == Step(old(registry), NoFifo(uuid))
      ensures handles == old(handles) && repr == old(repr) && playbackStops == old(playbackStops)
    {
      hide PathOf, Inv;
      NoFifoKeepsInv(registry, uuid);
      registry := Step(registry, NoFifo(uuid));
    }

    /** A failed opener takes its entry away again. */
    method Drop(handle: PlaybackHandle, ghost h: nat)
      requires Valid() && h < |handles| && handles[h] == handle && !registry.handles[h].dropped
      modifies this
      ensures Valid() && registry == Step(old(registry), OpenFailed(h))
      ensures handles == old(handles) && repr == old(repr)
      ensures playbackStops == old(playbackStops) - {handle.path}
    {
      hide PathOf, Inv;
      playbackStops := playbackStops - {handle.path};
      FailKeepsInv(registry, h);
      registry := Step(registry, OpenFailed(h));
    }

    /** The filler player registers its handle, and drops it again if playback fails. */
    method PlayFiller(path: string, playOk: bool) returns (h: PlaybackHandle?)
      requires Valid() && IsFillerPath(path)
      modifies this
      ensures Valid() && handles == old(handles) && fresh(repr - old(repr))
      ensures h != null <==> playOk
      ensures h != null ==> fresh(h) && !h.signaled && playbackStops == old(playbackStops)[path := h]
      ensures registry ==
              var r := Step(old(registry), FillerPlay(path));
              if playOk then r else Step(r, FillerDone(path))
    {
      hide PathOf, Inv, IsFillerPath;
      var handle := new PlaybackHandle(path);
      playbackStops := playbackStops[path := handle];
      repr := repr + {handle};
      FillerKeepsInv(registry, FillerPlay(path));
      registry := Step(registry, FillerPlay(path));
      if !playOk {
        StopFiller(path);
        return null;
      }
      return handle;
    }

    /** The end of the filler's stop function. */
    method StopFiller(path: string)
      requires Valid() && IsFillerPath(path)
      modifies this
      ensures Valid() && handles == old(handles) && repr == old(repr)
      ensures playbackStops == old(playbackStops) - {path}
      ensures registry == Step(old(registry), FillerDone(path))
    {
      hide PathOf, Inv, IsFillerPath;
      playbackStops := playbackStops - {path};
      FillerKeepsInv(registry, FillerDone(path));
      registry := Step(registry, FillerDone(path));
    }
  }

  /** A registered handle has not been closed yet, and stands under its own path. */
  lemma StopClosesOnce(r: Registry, path: string)
    requires Inv(r) && path in r.stops && r.stops[path].Tts?
    ensures var h := r.stops[path].h;
            h < |r.handles| && r.handles[h].closes == 0 && path == PathOfHandle(r, h)
  {
    hide PathOf, OwnStop;
    assert HandleOk(r, r.stops[path].h);
  }

  /** The opener of one call; its counter numbers the utterances. */
  class PlaybackOpener {
    const uuid: string
    var counter: nat

    constructor (uuid: string)
      ensures this.uuid == uuid && counter == 0
    {
      this.uuid, counter := uuid, 0;
    }

    /** Registers a new handle before playback starts and drops it again if that fails; no
        other entry changes, and a number is never used twice. */
    method Open(runner: SessionRunner, fifoOk: bool, playOk: bool, writeOk: bool) returns (h: PlaybackHandle?)
      requires runner.Valid() && counter == Counter(runner.registry, uuid)
      modifies this, runner
      ensures runner.Valid() && counter == Counter(runner.registry, uuid) == old(counter) + 1
      ensures fresh(runner.repr - old(runner.repr))
      ensures h != null <==> fifoOk && playOk && writeOk
      ensures var r := old(runner.registry);
              runner.registry ==
                if !fifoOk then Step(r, NoFifo(uuid))
                else if h == null then Step(Step(r, Event.Open(uuid)), OpenFailed(|r.handles|))
                else Step(r, Event.Open(uuid))
      ensures var path := PathOf(runner.ttsDir, uuid, counter);
              && (h != null ==> fresh(h) && h.path == path && h.Valid() && !h.signaled
                                && runner.playbackStops == old(runner.playbackStops)[path := h])
              && (h == null ==> runner.playbackStops == old(runner.playbackStops) - (if fifoOk then {path} else {}))
    {
      hide PathOf, Inv, SessionRunner.HandlesMatch, SessionRunner.StopsMatch;
      counter := counter + 1;
      var path := PathOf(runner.ttsDir, uuid, counter);
      if !fifoOk {
        runner.SkipNumber(uuid);
        return null;
      }
      var handle := new PlaybackHandle(path);
      runner.Register(handle, uuid);
      if !playOk {
        runner.Drop(handle, |runner.registry.handles| - 1);
        return null;
      }
      if !writeOk {
        runner.Drop(handle, |runner.registry.handles| - 1);
        return null;
      }
      return handle;
    }
  }
}
