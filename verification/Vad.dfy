/** internal/vad/timeout.go: the energy detector's hysteresis on loud and quiet runs.
    Durations are in nanoseconds; "rms >= threshold" is decided exactly, on sums of squares. */
module Vad {
  import opened ByteStrings
  type Nanoseconds = int

  const SECOND: Nanoseconds := 1_000_000_000

  datatype Config = Config(
    sampleRate: int,
    energyThreshold: real,
    minSpeechDur: Nanoseconds,
    minSilenceDur: Nanoseconds,
    botSpeakingMul: real)

  /** Zero values stand for the defaults. */
  function Effective(cfg: Config): Config {
    cfg.(sampleRate := if cfg.sampleRate == 0 then 8000 else cfg.sampleRate,
         botSpeakingMul := if cfg.botSpeakingMul == 0.0 then 1.0 else cfg.botSpeakingMul)
  }

  /** Only a zero rate and a zero multiplier are replaced; everything else stays. */
  lemma EffectiveFields(cfg: Config)
    ensures var e := Effective(cfg);
            && (cfg.sampleRate == 0 ==> e.sampleRate == 8000)
            && (cfg.sampleRate != 0 ==> e.sampleRate == cfg.sampleRate)
            && (cfg.botSpeakingMul == 0.0 ==> e.botSpeakingMul == 1.0)
            && (cfg.botSpeakingMul != 0.0 ==> e.botSpeakingMul == cfg.botSpeakingMul)
            && e.energyThreshold == cfg.energyThreshold
            && e.minSpeechDur == cfg.minSpeechDur && e.minSilenceDur == cfg.minSilenceDur
  {
  }

  datatype Event = None | SpeechStart | SpeechEnd

  // ------------------------------------------------------------------ frames

  /** Sample `i` of a little-endian 16-bit frame. */
  function Sample(pcm: Bytes, i: nat): int
    requires 2 * i + 1 < |pcm|
  {
    var u := pcm[2 * i] as int + 0x100 * pcm[2 * i + 1] as int;
    if u >= 0x8000 then u - 0x10000 else u
  }

  /** The two's complement, low byte first, of every 16-bit number is that sample. */
  lemma SampleOfBytes(v: int, before: Bytes, after: Bytes)
    requires -0x8000 <= v < 0x8000 && |before| % 2 == 0
    ensures Sample(before + [v % 0x100, v / 0x100 % 0x100] + after, |before| / 2) == v
  {
    var pcm := before + [v % 0x100, v / 0x100 % 0x100] + after;
    assert pcm[|before|] == v % 0x100 && pcm[|before| + 1] == v / 0x100 % 0x100;
  }

  function SumOfSquares(pcm: Bytes, n: nat): nat
    requires 2 * n <= |pcm|
  {
    if n == 0 then 0 else SumOfSquares(pcm, n - 1) + Sample(pcm, n - 1) * Sample(pcm, n - 1)
  }

  method PcmSumOfSquares(pcm: Bytes) returns (sum: nat)
    ensures sum == SumOfSquares(pcm, |pcm| / 2)
  {
    sum := 0;
    for i := 0 to |pcm| / 2
      invariant sum == SumOfSquares(pcm, i)
    {
      var s := Sample(pcm, i);
      sum := sum + s * s;
    }
  }

  /** sqrt(sum / n) >= threshold, without the square root. */
  predicate IsLoud(sum: nat, n: nat, threshold: real) {
    threshold <= 0.0 || sum as real >= n as real * (threshold * threshold)
  }

  /** It decides the comparison with the exact root mean square. */
  lemma IsLoudIsRms(sum: nat, n: nat, threshold: real, rms: real)
    requires n > 0 && rms >= 0.0 && n as real * (rms * rms) == sum as real
    ensures IsLoud(sum, n, threshold) <==> rms >= threshold
  {
    if threshold > 0.0 {
      if rms >= threshold {
        Squares(threshold, rms);
        Scale(n as real, threshold * threshold, rms * rms);
      } else {
        assert threshold * threshold - rms * rms == (threshold - rms) * (threshold + rms);
        assert (threshold - rms) * (threshold + rms) > 0.0 by { PositiveProduct(threshold - rms, threshold + rms); }
        StrictScale(n as real, rms * rms, threshold * threshold);
      }
    }
  }

  lemma {:induction false} ConstantSum(pcm: Bytes, n: nat, v: int)
    requires 2 * n <= |pcm| && forall i :: 0 <= i < n ==> Sample(pcm, i) == v
    ensures SumOfSquares(pcm, n) == n * (v * v)
  {
    hide Sample;
    if n > 0 {
      ConstantSum(pcm, n - 1, v);
    }
  }

  /** A frame of one constant value is loud exactly if its amplitude reaches the threshold. */
  lemma ConstantFrameLoud(pcm: Bytes, v: int, threshold: real)
    requires |pcm| >= 2 && forall i :: 0 <= i < |pcm| / 2 ==> Sample(pcm, i) == v
    ensures IsLoud(SumOfSquares(pcm, |pcm| / 2), |pcm| / 2, threshold) <==>
              (if v >= 0 then v else -v) as real >= threshold
  {
    hide Sample, SumOfSquares, IsLoud;
    var n, a := |pcm| / 2, if v >= 0 then v else -v;
    ConstantSum(pcm, n, v);
    assert v * v == a * a;
    RealProduct(n, a);
    IsLoudIsRms(SumOfSquares(pcm, n), n, threshold, a as real);
  }

  lemma RealProduct(n: nat, a: nat)
    ensures (n * (a * a)) as real == n as real * (a as real * a as real)
  {
  }

  lemma PositiveProduct(a: real, b: real)
    requires a > 0.0 && b > 0.0
    ensures a * b > 0.0
  {
  }

  lemma StrictScale(n: real, a: real, b: real)
    requires n > 0.0 && a < b
    ensures n * a < n * b
  {
  }

  function FrameDuration(byteLen: nat, sampleRate: int): (d: Nanoseconds)
    ensures d >= 0 && (sampleRate <= 0 ==> d == 0)
    ensures sampleRate > 0 ==> d * sampleRate <= byteLen / 2 * SECOND < (d + 1) * sampleRate
  {
    if sampleRate <= 0 || byteLen < 2 then 0
    else
      Floor(byteLen / 2 * SECOND, sampleRate);
      byteLen / 2 * SECOND / sampleRate
  }

  lemma Floor(x: nat, m: int)
    requires m > 0
    ensures 0 <= x / m && x / m * m <= x < (x / m + 1) * m
  {
    assert x == x / m * m + x % m;
    assert (x / m + 1) * m == x / m * m + m;
  }

  // ------------------------------------------------------------------ detector

  class EnergyDetector {
    const cfg: Config
    var botSpeaks: bool
    var inSpeech: bool
    var loudDur: Nanoseconds
    var quietDur: Nanoseconds
    ghost var heard: seq<Frame>   // the frames that counted, since the last reset

    ghost predicate Valid()
      reads this
    {
      Tracks(cfg, heard, inSpeech, loudDur, quietDur)
    }

    constructor (cfg: Config)
      ensures Valid() && heard == [] && !botSpeaks
      ensures this.cfg == Effective(cfg)
    {
      this.cfg := Effective(cfg);
      botSpeaks, inSpeech, loudDur, quietDur, heard := false, false, 0, 0, [];
    }

    function Threshold(): real
      reads this
    {
      if botSpeaks then cfg.energyThreshold * cfg.botSpeakingMul else cfg.energyThreshold
    }

    /** The frame is judged by its energy; frames without duration do not count at all. */
    method Push(pcm: Bytes) returns (event: Event)
      requires Valid()
      modifies this
      ensures Valid() && botSpeaks == old(botSpeaks)
      ensures var dur := FrameDuration(|pcm|, cfg.sampleRate);
              var loud := IsLoud(SumOfSquares(pcm, |pcm| / 2), |pcm| / 2, old(Threshold()));
              && heard == (if dur == 0 then old(heard) else old(heard) + [Frame(loud, dur)])
              && event == if dur == 0 then None else EventAt(cfg, heard)
    {
      hide IsLoud, SumOfSquares, FrameDuration, Speaking;
      var dur := FrameDuration(|pcm|, cfg.sampleRate);
      if dur == 0 {
        return None;
      }
      var sum := PcmSumOfSquares(pcm);
      var threshold := cfg.energyThreshold;
      if botSpeaks {
        threshold := threshold * cfg.botSpeakingMul;
      }
      assert threshold == Threshold();
      var loud := IsLoud(sum, |pcm| / 2, threshold);
      event := Advance(Frame(loud, dur));
    }

    /** The state machine, for a frame already judged. */
    method Advance(f: Frame) returns (event: Event)
      requires Valid()
      modifies this
      ensures Valid() && botSpeaks == old(botSpeaks)
      ensures heard == old(heard) + [f] && event == EventAt(cfg, heard)
    {
      hide Speaking, RunDur;
      ghost var before := heard;
      heard := heard + [f];
      assert heard[..|heard| - 1] == before;
      SpeakingStep(cfg, before, heard);
      RunStep(before, f);
      event := None;
      if !inSpeech {
        if f.loud {
          loudDur := loudDur + f.dur;
          quietDur := 0;
          if loudDur >= cfg.minSpeechDur {
            inSpeech := true;
            loudDur := 0;
            return SpeechStart;
          }
        } else {
          loudDur := 0;
        }
        return None;
      }
      if !f.loud {
        quietDur := quietDur + f.dur;
        loudDur := 0;
        if quietDur >= cfg.minSilenceDur {
          inSpeech := false;
          quietDur := 0;
          return SpeechEnd;
        }
      } else {
        quietDur := 0;
      }
    }

    method SetBotSpeaking(b: bool)
      requires Valid()
      modifies this
      ensures Valid() && heard == old(heard) && botSpeaks == b
      ensures inSpeech == old(inSpeech) && loudDur == old(loudDur) && quietDur == old(quietDur)
    {
      botSpeaks := b;
    }

    method Reset()
      requires Valid()
      modifies this
      ensures Valid() && heard == [] && botSpeaks == old(botSpeaks)
    {
      inSpeech, loudDur, quietDur, heard := false, 0, 0, [];
    }
  }

  // -------------------------------------------------------------- reference: runs

  datatype Frame = Frame(loud: bool, dur: Nanoseconds)

  /** The duration of the unbroken run of loud (or of quiet) frames that ends the history. */
  function RunDur(h: seq<Frame>, loud: bool): Nanoseconds {
    if h == [] || h[|h| - 1].loud != loud then 0
    else RunDur(h[..|h| - 1], loud) + h[|h| - 1].dur
  }

  /** The history ends in a loud run that is long enough to start speech. */
  predicate LoudEnough(cfg: Config, h: seq<Frame>) {
    h != [] && h[|h| - 1].loud && RunDur(h, true) >= cfg.minSpeechDur
  }

  predicate QuietEnough(cfg: Config, h: seq<Frame>) {
    h != [] && !h[|h| - 1].loud && RunDur(h, false) >= cfg.minSilenceDur
  }

  /** Speech: some loud run was long enough, and no quiet run since then was. */
  ghost predicate Speaking(cfg: Config, h: seq<Frame>) {
    exists j :: StartedAt(cfg, h, j)
  }

  ghost predicate StartedAt(cfg: Config, h: seq<Frame>, j: int) {
    0 <= j <= |h| && LoudEnough(cfg, h[..j]) && forall i :: j < i <= |h| ==> !QuietEnough(cfg, h[..i])
  }

  /** The event of the last frame of a history. */
  ghost function EventAt(cfg: Config, h: seq<Frame>): Event {
    if h == [] then None
    else if !Speaking(cfg, h[..|h| - 1]) && LoudEnough(cfg, h) then SpeechStart
    else if Speaking(cfg, h[..|h| - 1]) && QuietEnough(cfg, h) then SpeechEnd
    else None
  }

  /** What the detector's fields say about the history. */
  ghost predicate Tracks(cfg: Config, h: seq<Frame>, inSpeech: bool, loudDur: Nanoseconds, quietDur: Nanoseconds) {
    && (inSpeech <==> Speaking(cfg, h))
    && (if inSpeech then quietDur == RunDur(h, false) && loudDur == 0 else loudDur == RunDur(h, true) && quietDur == 0)
  }

  lemma RunStep(h: seq<Frame>, f: Frame)
    ensures RunDur(h + [f], f.loud) == RunDur(h, f.loud) + f.dur
    ensures RunDur(h + [f], !f.loud) == 0
  {
    assert (h + [f])[..|h|] == h;
  }

  /** One more frame: speech ends with a long enough quiet run and starts with a long enough
      loud one. */
  lemma SpeakingStep(cfg: Config, before: seq<Frame>, h: seq<Frame>)
    requires h != [] && h[..|h| - 1] == before
    ensures Speaking(cfg, h) <==> if Speaking(cfg, before) then !QuietEnough(cfg, h) else LoudEnough(cfg, h)
  {
    hide LoudEnough, QuietEnough;
    var n := |h|;
    assert h[..n] == h;
    assert forall i :: 0 <= i < n ==> h[..i] == before[..i];
    assert !(LoudEnough(cfg, h) && QuietEnough(cfg, h)) by { NotBoth(cfg, h); }
    if LoudEnough(cfg, h) {
      assert StartedAt(cfg, h, n);
    }
    if Speaking(cfg, before) && !QuietEnough(cfg, h) {
      var j :| StartedAt(cfg, before, j);
      assert StartedAt(cfg, h, j);
    }
    if Speaking(cfg, h) && !LoudEnough(cfg, h) {
      var j :| StartedAt(cfg, h, j);
      assert j < n;
      assert StartedAt(cfg, before, j);
    }
  }

  lemma NotBoth(cfg: Config, h: seq<Frame>)
    ensures !(LoudEnough(cfg, h) && QuietEnough(cfg, h))
  {
  }

  lemma NothingHeard(cfg: Config)
    ensures !Speaking(cfg, [])
  {
  }

  // ------------------------------------------------------------------- theorems

  /** All events of a history, in order. */
  ghost function Events(cfg: Config, h: seq<Frame>): seq<Event> {
    if h == [] then []
    else Events(cfg, h[..|h| - 1]) + if EventAt(cfg, h).None? then [] else [EventAt(cfg, h)]
  }

  /** Events strictly alternate, starting with SpeechStart, for every configuration. */
  lemma {:induction false} EventsAlternate(cfg: Config, h: seq<Frame>)
    ensures var es := Events(cfg, h);
            && (forall i :: 0 <= i < |es| ==> es[i] == if i % 2 == 0 then SpeechStart else SpeechEnd)
            && (|es| % 2 == 1 <==> Speaking(cfg, h))
  {
    hide Speaking, LoudEnough, QuietEnough;
    if h == [] {
      NothingHeard(cfg);
    } else {
      EventsAlternate(cfg, h[..|h| - 1]);
      SpeakingStep(cfg, h[..|h| - 1], h);
    }
  }

  /** With positive minimum durations: SpeechStart comes exactly when, outside speech, the
      unbroken loud run first reaches its minimum, and SpeechEnd exactly when, in speech, the
      unbroken quiet run first does. */
  lemma EventsAtThresholds(cfg: Config, h: seq<Frame>)
    requires cfg.minSpeechDur > 0 && cfg.minSilenceDur > 0 && h != []
    ensures var before := h[..|h| - 1];
            && (EventAt(cfg, h) == SpeechStart <==>
                  !Speaking(cfg, before) && RunDur(h, true) >= cfg.minSpeechDur)
            && (EventAt(cfg, h) == SpeechEnd <==>
                  Speaking(cfg, before) && RunDur(h, false) >= cfg.minSilenceDur)
            && (EventAt(cfg, h) == SpeechStart ==> RunDur(before, true) < cfg.minSpeechDur)
            && (EventAt(cfg, h) == SpeechEnd ==> RunDur(before, false) < cfg.minSilenceDur)
  {
    var before := h[..|h| - 1];
    assert h == before + [h[|h| - 1]];
    RunStep(before, h[|h| - 1]);
    if before != [] {
      SpeakingStep(cfg, before[..|before| - 1], before);
      if RunDur(before, true) >= cfg.minSpeechDur { assert LoudEnough(cfg, before); }
      if RunDur(before, false) >= cfg.minSilenceDur { assert QuietEnough(cfg, before); }
    }
  }

  /** The same frames heard through two thresholds. */
  ghost predicate Quieter(strict: seq<Frame>, plain: seq<Frame>) {
    && |strict| == |plain|
    && forall i :: 0 <= i < |plain| ==>
         strict[i].dur == plain[i].dur >= 0 && (strict[i].loud ==> plain[i].loud)
  }

  lemma {:induction false} QuieterRuns(strict: seq<Frame>, plain: seq<Frame>)
    requires Quieter(strict, plain)
    ensures 0 <= RunDur(strict, true) <= RunDur(plain, true)
    decreases |plain|
  {
    if plain != [] {
      QuieterRuns(strict[..|strict| - 1], plain[..|plain| - 1]);
    }
  }

  /** Multiplying a non-negative threshold by at least one only makes frames quieter. */
  lemma HigherThreshold(sum: nat, n: nat, threshold: real, mul: real)
    requires threshold >= 0.0 && mul >= 1.0 && n > 0
    ensures IsLoud(sum, n, threshold * mul) ==> IsLoud(sum, n, threshold)
  {
    if IsLoud(sum, n, threshold * mul) && threshold > 0.0 {
      var t := threshold * mul;
      assert t >= threshold by { assert threshold * mul - threshold == threshold * (mul - 1.0); }
      assert t * t >= threshold * threshold by { Squares(threshold, t); }
      Scale(n as real, threshold * threshold, t * t);
    }
  }

  lemma Squares(a: real, b: real)
    requires 0.0 <= a <= b
    ensures a * a <= b * b
  {
    assert b * b - a * a == (b - a) * (b + a);
  }

  lemma Scale(n: real, a: real, b: real)
    requires n >= 0.0 && a <= b
    ensures n * a <= n * b
  {
  }

  /** On the same frames from a common history outside speech, the detector with the raised
      threshold never starts speech before the plain one does. */
  lemma {:induction false} NeverEarlier(cfg: Config, strict: seq<Frame>, plain: seq<Frame>, from: nat)
    requires Quieter(strict, plain) && from <= |plain| && strict[..from] == plain[..from]
    requires forall k :: from <= k <= |plain| ==> !Speaking(cfg, plain[..k])
    ensures forall k :: from <= k <= |strict| ==> !Speaking(cfg, strict[..k])
    decreases |plain|
  {
    hide Speaking, LoudEnough;
    var n := |plain|;
    assert plain[..n] == plain && strict[..n] == strict;
    if n > from {
      var s, p := strict[..n - 1], plain[..n - 1];
      assert strict[..from] == s[..from] && plain[..from] == p[..from];
      assert forall k :: from <= k <= n - 1 ==> plain[..k] == p[..k] && strict[..k] == s[..k];
      NeverEarlier(cfg, s, p, from);
      assert !Speaking(cfg, s) by { assert s[..n - 1] == s; }
      assert !Speaking(cfg, plain[..n - 1]);
      SpeakingStep(cfg, p, plain);
      SpeakingStep(cfg, s, strict);
      QuieterRuns(strict, plain);
      LoudOnlyIfPlain(cfg, strict, plain);
    }
  }

  lemma LoudOnlyIfPlain(cfg: Config, strict: seq<Frame>, plain: seq<Frame>)
    requires Quieter(strict, plain) && RunDur(strict, true) <= RunDur(plain, true)
    ensures LoudEnough(cfg, strict) ==> LoudEnough(cfg, plain)
  {
  }

  /** Frames as a detector with a fixed threshold counts them. */
  function Judged(pcms: seq<Bytes>, sampleRate: int, threshold: real): seq<Frame> {
    if pcms == [] then []
    else
      var pcm := pcms[|pcms| - 1];
      var dur := FrameDuration(|pcm|, sampleRate);
      Judged(pcms[..|pcms| - 1], sampleRate, threshold)
      + if dur == 0 then [] else [Frame(IsLoud(SumOfSquares(pcm, |pcm| / 2), |pcm| / 2, threshold), dur)]
  }

  /** A detector fed whole recordings: it counts exactly the frames of `Judged`, at the
      threshold that its bot flag selects, and reports exactly the history's events. */
  method Detect(config: Config, pcms: seq<Bytes>, botSpeaks: bool) returns (cfg: Config, events: seq<Event>)
    ensures cfg == Effective(config)
    ensures var threshold := if botSpeaks then cfg.energyThreshold * cfg.botSpeakingMul else cfg.energyThreshold;
            events == Events(cfg, Judged(pcms, cfg.sampleRate, threshold))
  {
    hide IsLoud, SumOfSquares, FrameDuration, Speaking, EventAt;
    var d := new EnergyDetector(config);
    d.SetBotSpeaking(botSpeaks);
    cfg, events := d.cfg, [];
    ghost var threshold := d.Threshold();
    for i := 0 to |pcms|
      invariant fresh(d) && d.Valid() && d.cfg == cfg && d.botSpeaks == botSpeaks
      invariant d.Threshold() == threshold && d.heard == Judged(pcms[..i], cfg.sampleRate, threshold)
      invariant events == Events(cfg, d.heard)
    {
      assert pcms[..i + 1][..i] == pcms[..i];
      ghost var before := d.heard;
      var event := d.Push(pcms[i]);
      assert d.heard != before ==> d.heard[..|d.heard| - 1] == before;
      if event != None {
        events := events + [event];
      }
    }
    assert pcms[..|pcms|] == pcms;
    assert threshold == if botSpeaks then cfg.energyThreshold * cfg.botSpeakingMul else cfg.energyThreshold;
    assert d.heard == Judged(pcms, cfg.sampleRate, threshold);
    assert events == Events(cfg, d.heard);
  }

  lemma {:induction false} RaisedIsQuieter(pcms: seq<Bytes>, sampleRate: int, threshold: real, mul: real)
    requires threshold >= 0.0 && mul >= 1.0
    ensures Quieter(Judged(pcms, sampleRate, threshold * mul), Judged(pcms, sampleRate, threshold))
  {
    hide IsLoud, SumOfSquares, FrameDuration;
    if pcms != [] {
      var pcm := pcms[|pcms| - 1];
      RaisedIsQuieter(pcms[..|pcms| - 1], sampleRate, threshold, mul);
      if FrameDuration(|pcm|, sampleRate) != 0 {
        assert |pcm| / 2 > 0 by { NoEmptyFrame(|pcm|, sampleRate); }
        HigherThreshold(SumOfSquares(pcm, |pcm| / 2), |pcm| / 2, threshold, mul);
      }
    }
  }

  lemma NoEmptyFrame(len: nat, sampleRate: int)
    requires FrameDuration(len, sampleRate) != 0
    ensures len / 2 > 0
  {
  }

  /** While the bot speaks, on the same frames from a fresh detector with a multiplier of at
      least one and a non-negative threshold: as long as the plain detector has not started
      speech, the bot-speaking one has not either. */
  lemma BotSpeakingNeverEarlier(cfg: Config, pcms: seq<Bytes>)
    requires cfg.energyThreshold >= 0.0 && cfg.botSpeakingMul >= 1.0
    ensures var plain := Judged(pcms, cfg.sampleRate, cfg.energyThreshold);
            var strict := Judged(pcms, cfg.sampleRate, cfg.energyThreshold * cfg.botSpeakingMul);
            && |strict| == |plain|
            && forall k :: SilentUpTo(cfg, plain, k) ==> SilentUpTo(cfg, strict, k)
  {
    hide Speaking, Judged;
    RaisedIsQuieter(pcms, cfg.sampleRate, cfg.energyThreshold, cfg.botSpeakingMul);
    var plain := Judged(pcms, cfg.sampleRate, cfg.energyThreshold);
    var strict := Judged(pcms, cfg.sampleRate, cfg.energyThreshold * cfg.botSpeakingMul);
    forall k | SilentUpTo(cfg, plain, k)
      ensures SilentUpTo(cfg, strict, k)
    {
      var s, p := strict[..k], plain[..k];
      assert forall i :: 0 <= i <= k ==> p[..i] == plain[..i] && s[..i] == strict[..i];
      NeverEarlier(cfg, s, p, 0);
    }
  }

  /** No speech has started within the first `k` frames. */
  ghost predicate SilentUpTo(cfg: Config, h: seq<Frame>, k: int) {
    0 <= k <= |h| && forall i :: 0 <= i <= k ==> !Speaking(cfg, h[..i])
  }

  function TotalDuration(lens: seq<nat>, sampleRate: int): Nanoseconds {
    if lens == [] then 0
    else TotalDuration(lens[..|lens| - 1], sampleRate) + FrameDuration(lens[|lens| - 1], sampleRate)
  }

  function TotalSamples(lens: seq<nat>): nat {
    if lens == [] then 0 else TotalSamples(lens[..|lens| - 1]) + lens[|lens| - 1] / 2
  }

  /** Truncation: the summed durations of k frames fall short of the exact duration of their
      samples by less than k nanoseconds, and by nothing if the rate divides a second. */
  lemma {:induction false} DurationShortfall(lens: seq<nat>, sampleRate: int)
    requires sampleRate > 0
    ensures var short := TotalSamples(lens) * SECOND - TotalDuration(lens, sampleRate) * sampleRate;
            && 0 <= short && (lens != [] ==> short < |lens| * sampleRate)
            && (SECOND % sampleRate == 0 ==> short == 0)
  {
    hide FrameDuration;
    if lens != [] {
      var init, len := lens[..|lens| - 1], lens[|lens| - 1];
      DurationShortfall(init, sampleRate);
      FrameShortfall(len, sampleRate);
      var d := FrameDuration(len, sampleRate);
      Distribute(TotalDuration(init, sampleRate), d, sampleRate);
      Distribute(|init|, 1, sampleRate);
    }
  }

  lemma Distribute(a: int, b: int, m: int)
    ensures (a + b) * m == a * m + b * m
  {
  }

  lemma FrameShortfall(len: nat, sampleRate: int)
    requires sampleRate > 0
    ensures var short := len / 2 * SECOND - FrameDuration(len, sampleRate) * sampleRate;
            0 <= short < sampleRate && (SECOND % sampleRate == 0 ==> short == 0)
  {
    var x := len / 2 * SECOND;
    assert x == x / sampleRate * sampleRate + x % sampleRate;
    if SECOND % sampleRate == 0 {
      var q := SECOND / sampleRate;
      assert x == (len / 2 * q) * sampleRate;
      Multiple(len / 2 * q, sampleRate);
    }
  }

  lemma Multiple(k: nat, m: int)
    requires m > 0
    ensures k * m % m == 0
  {
    var x := k * m;
    assert x == x / m * m + x % m;
    assert (k - x / m) * m == x % m;
    SmallMultiple(k - x / m, m);
  }

  /** The only multiple of m in the range 0 to m is 0. */
  lemma SmallMultiple(k: int, m: int)
    requires m > 0 && 0 <= k * m < m
    ensures k == 0
  {
    if k > 0 {
      AtLeast(k, m);
    } else if k < 0 {
      AtLeast(-k, m);
    }
  }

  lemma AtLeast(k: int, m: int)
    requires k >= 1 && m > 0
    ensures k * m >= m && (-k) * m <= -m
  {
  }
}
