/** A subset of RIFF/WAVE (IBM/Microsoft "Multimedia Programming Interface and Data
    Specifications 1.0", section "Waveform Audio File Format"): the recorder of
    internal/api/web_voice.go and the two chunk walkers of cmd/offline-cli/main.go and
    cmd/loadtest/main.go. The walkers do not skip a pad byte after odd chunks. */
module Wav {
  import opened ByteStrings

  const U32 := 0x1_0000_0000
  const RIFF: Bytes := [0x52, 0x49, 0x46, 0x46]
  const WAVE: Bytes := [0x57, 0x41, 0x56, 0x45]
  const FMT: Bytes := [0x66, 0x6D, 0x74, 0x20]
  const DATA: Bytes := [0x64, 0x61, 0x74, 0x61]

  // ------------------------------------------------------- little-endian integers

  /** The low `n` bytes of a number: the conversions wrap silently. */
  function PutLe(v: nat, n: nat): (s: Bytes)
    ensures |s| == n
  {
    if n == 0 then [] else [v % 0x100] + PutLe(v / 0x100, n - 1)
  }

  function GetLe(s: Bytes): (v: nat)
  {
    if s == [] then 0 else s[0] as int + 0x100 * GetLe(s[1..])
  }

  function Radix(n: nat): (p: nat)
    ensures p > 0
  {
    if n == 0 then 1 else 0x100 * Radix(n - 1)
  }

  lemma SplitMod(v: nat, m: nat)
    requires m > 0
    ensures v % (0x100 * m) == v % 0x100 + 0x100 * (v / 0x100 % m)
    ensures v % (0x100 * m) / 0x100 == v / 0x100 % m && v % (0x100 * m) % 0x100 == v % 0x100
  {
    var q, r := v / 0x100 / m, v / 0x100 % m;
    var low := v % 0x100 + 0x100 * r;
    assert v / 0x100 == q * m + r;
    assert v == q * (0x100 * m) + low;
    assert 0 <= low < 0x100 * m;
    ModUnique(v, 0x100 * m, q, low);
  }

  lemma Grows(d: int, n: nat)
    requires d > 0
    ensures d * n >= n
  {
  }

  lemma ModUnique(v: nat, n: nat, q: nat, r: nat)
    requires r < n && v == q * n + r
    ensures v % n == r && v / n == q
  {
    var d := v / n - q;
    assert d * n == r - v % n;
    if d > 0 {
      Grows(d, n);
    } else if d < 0 {
      Grows(-d, n);
    }
  }

  /** Only the number modulo 256^n reaches an n-byte field, and that much is read back. */
  lemma {:induction false} LittleEndian(v: nat, n: nat)
    ensures GetLe(PutLe(v, n)) == v % Radix(n)
    ensures PutLe(v % Radix(n), n) == PutLe(v, n)
  {
    if n > 0 {
      LittleEndian(v / 0x100, n - 1);
      SplitMod(v, Radix(n - 1));
      assert PutLe(v, n)[1..] == PutLe(v / 0x100, n - 1);
    }
  }

  /** The least significant byte comes first. */
  lemma {:induction false} ByteOrder(v: nat, n: nat, k: nat)
    requires k < n
    ensures PutLe(v, n)[k] == v / Radix(k) % 0x100
    decreases n
  {
    if k > 0 {
      ByteOrder(v / 0x100, n - 1, k - 1);
      DivDiv(v, Radix(k - 1));
    }
  }

  lemma DivDiv(v: nat, m: nat)
    requires m > 0
    ensures v / 0x100 / m == v / (0x100 * m)
  {
    SplitMod(v, m);
    ModUnique(v, 0x100 * m, v / 0x100 / m, v % (0x100 * m));
  }

  lemma ByteValues(a: Byte, b: Byte, c: Byte, d: Byte)
    ensures GetLe([a, b]) == a as int + 0x100 * b as int
    ensures GetLe([a, b, c, d]) == a as int + 0x100 * b as int + 0x1_0000 * c as int + 0x100_0000 * d as int
  {
    TwoBytes(a, b);
    TwoBytes(c, d);
    assert [a, b, c, d][1..] == [b, c, d] && [b, c, d][1..] == [c, d];
    assert GetLe([b, c, d]) == b as int + 0x100 * GetLe([c, d]);
  }

  lemma TwoBytes(a: Byte, b: Byte)
    ensures GetLe([a, b]) == a as int + 0x100 * b as int
  {
    assert [a, b][1..] == [b] && [b][1..] == [];
    assert GetLe([b]) == b as int + 0x100 * GetLe([]);
  }

  lemma Le16(v: nat)
    ensures GetLe(PutLe(v, 2)) == v % 0x1_0000
  {
    LittleEndian(v, 2);
  }

  lemma Le32(v: nat)
    ensures GetLe(PutLe(v, 4)) == v % U32
  {
    LittleEndian(v, 4);
    RadixFour();
  }

  lemma RadixFour()
    ensures Radix(4) == U32
  {
    assert Radix(3) == 0x100 * Radix(2) && Radix(2) == 0x1_0000;
  }

  lemma PutWraps(v: nat)
    ensures PutLe(v, 4) == PutLe(v % U32, 4)
  {
    LittleEndian(v, 4);
    RadixFour();
  }

  // ------------------------------------------------------------------- recorder

  /** The fields of the format chunk: PCM, mono, the rates, two-byte blocks, 16 bits. */
  function FormatBody(sampleRate: nat): (b: Bytes)
    ensures |b| == 16
  {
    PutLe(1, 2) + PutLe(1, 2) + PutLe(sampleRate, 4) + PutLe(sampleRate * 16 / 8, 4) + PutLe(2, 2) + PutLe(16, 2)
  }

  /** The 44 bytes that `Close` writes over the reserved header. */
  function Header(sampleRate: nat, bytesWritten: nat): (h: Bytes)
    ensures |h| == 44
  {
    var riff := RIFF + PutLe(36 + bytesWritten, 4) + WAVE;
    var fmt := FMT + PutLe(16, 4) + FormatBody(sampleRate);
    var data := DATA + PutLe(bytesWritten, 4);
    riff + fmt + data
  }

  /** The file is its bytes and a write position; `bytesWritten` is a 32-bit counter. */
  class WavRecorder {
    const sampleRate: nat
    var file: Bytes
    var bytesWritten: nat
    var open: bool
    ghost var pcm: Bytes

    ghost predicate Valid()
      reads this
    {
      && |file| == 44 + |pcm| && file[44..] == pcm
      && bytesWritten == |pcm| % U32
    }

    constructor (sampleRate: nat)
      ensures Valid() && open && pcm == [] && this.sampleRate == sampleRate
    {
      this.sampleRate := sampleRate;
      file, bytesWritten, open, pcm := seq(44, _ => 0), 0, true, [];
    }

    /** The file system takes the first `taken` bytes; a closed file takes none. */
    method Write(p: Bytes, taken: nat) returns (n: nat)
      requires Valid() && taken <= |p|
      modifies this
      ensures Valid() && open == old(open) && n == (if open then taken else 0)
      ensures pcm == old(pcm) + p[..n] && (!open ==> file == old(file))
    {
      if !open {
        assert p[..0] == [];
        return 0;
      }
      file := file + p[..taken];
      pcm := pcm + p[..taken];
      n := taken;
      bytesWritten := (bytesWritten + n) % U32;
    }

    /** The header is written over the reserved bytes, as far as the file system takes it; the
        file is closed in any case, and a second call does nothing. */
    method Close(seekOk: bool, taken: nat) returns (ok: bool)
      requires Valid() && taken <= 44
      modifies this
      ensures Valid() && pcm == old(pcm) && !open
      ensures ok <==> !old(open) || (seekOk && taken == 44)
      ensures !old(open) || !seekOk ==> file == old(file)
      ensures old(open) && seekOk ==> file == Header(sampleRate, |pcm|)[..taken] + old(file)[taken..]
      ensures old(open) && ok ==> file == Recorded(sampleRate, pcm)
    {
      if !open {
        return true;
      }
      open := false;
      if !seekOk {
        return false;
      }
      HeaderWraps(sampleRate, |pcm|);
      ghost var before := file;
      file := Header(sampleRate, bytesWritten)[..taken] + file[taken..];
      assert file[44..] == before[44..];
      ok := taken == 44;
    }
  }

  /** A closed recording of the given samples. */
  function Recorded(sampleRate: nat, pcm: Bytes): Bytes {
    Header(sampleRate, |pcm|) + pcm
  }

  lemma HeaderWraps(sampleRate: nat, n: nat)
    ensures Header(sampleRate, n % U32) == Header(sampleRate, n)
  {
    hide PutLe;
    PutWraps(n);
    PutWraps(36 + n);
    PutWraps(36 + n % U32);
    assert (36 + n) % U32 == (36 + n % U32) % U32;
  }

  // -------------------------------------------------------------------- readers

  datatype Format = Format(seen: bool, channels: nat, sampleRate: nat, bits: nat)

  const NO_FORMAT := Format(false, 0, 0, 0)

  datatype Error =
    | TooShort | NotWave | ChunkHeader | ReadFmt | FmtTooSmall | NotPcm | DataBeforeFmt | ReadData
    | NotMono | WrongRate | WrongBits

  datatype Parsed = Ok(pcm: Bytes) | Err(error: Error)

  function FormatOf(body: Bytes): Format
    requires |body| >= 16
  {
    Format(true, GetLe(body[2..4]), GetLe(body[4..8]), GetLe(body[14..16]))
  }

  /** The chunk loop of the offline CLI, on what is left of the file. */
  function Walk(rest: Bytes, format: Format): Parsed
    decreases |rest|
  {
    if |rest| < 8 then Err(ChunkHeader)
    else
      var id, size, after := rest[..4], GetLe(rest[4..8]), rest[8..];
      if id == FMT then
        if size > |after| then Err(ReadFmt)
        else if size < 16 then Err(FmtTooSmall)
        else if GetLe(after[..2]) != 1 then Err(NotPcm)
        else Walk(after[size..], FormatOf(after[..size]))
      else if id == DATA then
        if !format.seen then Err(DataBeforeFmt)
        else if size > |after| then Err(ReadData)
        else if format.channels != 1 then Err(NotMono)
        else if format.sampleRate != 8000 then Err(WrongRate)
        else if format.bits != 16 then Err(WrongBits)
        else Ok(after[..size])
      else Walk(if size <= |after| then after[size..] else [], format)
  }

  function Parse(file: Bytes): Parsed {
    if |file| < 12 then Err(TooShort)
    else if file[..4] != RIFF || file[8..12] != WAVE then Err(NotWave)
    else Walk(file[12..], NO_FORMAT)
  }

  /** What is left of a file at a position that may lie past its end. */
  function Left(file: Bytes, pos: nat): (rest: Bytes)
    ensures |rest| == if pos <= |file| then |file| - pos else 0
  {
    if pos <= |file| then file[pos..] else []
  }

  lemma LeftParts(file: Bytes, pos: nat, n: nat)
    requires pos + n <= |file|
    ensures Left(file, pos)[..n] == file[pos..pos + n] && Left(file, pos)[n..] == Left(file, pos + n)
  {
  }

  /** One round of the chunk loop, by positions in the file. */
  function Round(file: Bytes, pos: nat, format: Format): Parsed {
    if pos + 8 > |file| then Err(ChunkHeader)
    else
      var id, size, at := file[pos..pos + 4], GetLe(file[pos + 4..pos + 8]), pos + 8;
      if id == FMT then
        if at + size > |file| then Err(ReadFmt)
        else if size < 16 then Err(FmtTooSmall)
        else if GetLe(file[at..at + size][0..2]) != 1 then Err(NotPcm)
        else Walk(Left(file, at + size), FormatOf(file[at..at + size]))
      else if id == DATA then
        if !format.seen then Err(DataBeforeFmt)
        else if at + size > |file| then Err(ReadData)
        else if format.channels != 1 then Err(NotMono)
        else if format.sampleRate != 8000 then Err(WrongRate)
        else if format.bits != 16 then Err(WrongBits)
        else Ok(file[at..at + size])
      else Walk(Left(file, at + size), format)
  }

  lemma WalkAt(file: Bytes, pos: nat, format: Format)
    ensures Walk(Left(file, pos), format) == Round(file, pos, format)
  {
    hide GetLe, FormatOf, Left;
    if pos + 8 <= |file| {
      LeftParts(file, pos, 4);
      LeftParts(file, pos + 4, 4);
      LeftParts(file, pos, 8);
      var rest, size, at := Left(file, pos), GetLe(file[pos + 4..pos + 8]), pos + 8;
      assert rest[4..8] == rest[4..][..4];
      if at + size <= |file| {
        LeftParts(file, at, size);
        assert size >= 16 ==> rest[8..][..2] == file[at..at + size][0..2];
      } else {
        assert Left(file, at + size) == [];
      }
    }
  }

  lemma ParseStart(file: Bytes)
    ensures Parse(file) == if |file| < 12 then Err(TooShort)
                           else if file[0..4] != RIFF || file[8..12] != WAVE then Err(NotWave)
                           else Walk(Left(file, 12), NO_FORMAT)
  {
    if |file| >= 12 {
      assert file[0..4] == file[..4];
    }
  }

  /** cmd/offline-cli: a position moves through the file, past its end after a long skip. */
  method ParseWav(file: Bytes) returns (r: Parsed)
    ensures r == Parse(file)
  {
    hide Parse, GetLe, Walk, Left;
    ParseStart(file);
    if |file| < 12 {
      return Err(TooShort);
    }
    if file[0..4] != RIFF || file[8..12] != WAVE {
      return Err(NotWave);
    }
    var pos, fmtSeen, channels, sampleRate, bits := 12, false, 0, 0, 0;
    while true
      invariant pos >= 12
      invariant Walk(Left(file, pos), Format(fmtSeen, channels, sampleRate, bits)) == Parse(file)
      decreases |file| - pos
    {
      WalkAt(file, pos, Format(fmtSeen, channels, sampleRate, bits));
      if pos + 8 > |file| {
        return Err(ChunkHeader);
      }
      var id, size := file[pos..pos + 4], GetLe(file[pos + 4..pos + 8]);
      pos := pos + 8;
      if id == FMT {
        if pos + size > |file| {
          return Err(ReadFmt);
        }
        var body := file[pos..pos + size];
        pos := pos + size;
        if size < 16 {
          return Err(FmtTooSmall);
        }
        if GetLe(body[0..2]) != 1 {
          return Err(NotPcm);
        }
        channels, sampleRate, bits := GetLe(body[2..4]), GetLe(body[4..8]), GetLe(body[14..16]);
        fmtSeen := true;
      } else if id == DATA {
        if !fmtSeen {
          return Err(DataBeforeFmt);
        }
        if pos + size > |file| {
          return Err(ReadData);
        }
        var body := file[pos..pos + size];
        if channels != 1 {
          return Err(NotMono);
        }
        if sampleRate != 8000 {
          return Err(WrongRate);
        }
        if bits != 16 {
          return Err(WrongBits);
        }
        return Ok(body);
      } else {
        pos := pos + size;
      }
    }
  }

  datatype LoadError = BadFile | BadHeader | ShortRead | OnlyPcm | EarlyData | WrongFormat

  datatype Loaded = Pcm(pcm: Bytes) | Refused(error: LoadError)

  /** cmd/loadtest: the second reader, with coarser errors and combined tests. */
  method LoadWav(file: Bytes) returns (r: Loaded)
    ensures r == Coarsened(Parse(file))
  {
    hide Parse, GetLe, Walk, Left;
    ParseStart(file);
    if |file| < 12 || file[0..4] != RIFF || file[8..12] != WAVE {
      return Refused(BadFile);
    }
    var pos, sampleRate, channels, bps, fmtSeen := 12, 0, 0, 0, false;
    while true
      invariant pos >= 12
      invariant Walk(Left(file, pos), Format(fmtSeen, channels, sampleRate, bps)) == Parse(file)
      decreases |file| - pos
    {
      WalkAt(file, pos, Format(fmtSeen, channels, sampleRate, bps));
      if pos + 8 > |file| {
        return Refused(BadHeader);
      }
      var id, size := file[pos..pos + 4], GetLe(file[pos + 4..pos + 8]);
      pos := pos + 8;
      if id == FMT {
        if pos + size > |file| {
          return Refused(ShortRead);
        }
        var body := file[pos..pos + size];
        pos := pos + size;
        if size < 16 || GetLe(body[0..2]) != 1 {
          return Refused(OnlyPcm);
        }
        channels, sampleRate, bps := GetLe(body[2..4]), GetLe(body[4..8]), GetLe(body[14..16]);
        fmtSeen := true;
      } else if id == DATA {
        if !fmtSeen {
          return Refused(EarlyData);
        }
        if pos + size > |file| {
          return Refused(ShortRead);
        }
        var body := file[pos..pos + size];
        if channels != 1 || sampleRate != 8000 || bps != 16 {
          return Refused(WrongFormat);
        }
        return Pcm(body);
      } else {
        pos := pos + size;
      }
    }
  }

  /** The load tester's error for each of the CLI's. */
  function Coarse(e: Error): LoadError {
    match e
    case TooShort => BadFile
    case NotWave => BadFile
    case ChunkHeader => BadHeader
    case ReadFmt => ShortRead
    case ReadData => ShortRead
    case FmtTooSmall => OnlyPcm
    case NotPcm => OnlyPcm
    case DataBeforeFmt => EarlyData
    case _ => WrongFormat
  }

  function Coarsened(p: Parsed): Loaded {
    if p.Ok? then Pcm(p.pcm) else Refused(Coarse(p.error))
  }

  /** Which refusals of the CLI each refusal of the load tester stands for. */
  lemma RefusalKinds(p: Parsed)
    ensures Coarsened(p) == Refused(BadFile) <==> p in {Err(TooShort), Err(NotWave)}
    ensures Coarsened(p) == Refused(BadHeader) <==> p == Err(ChunkHeader)
    ensures Coarsened(p) == Refused(ShortRead) <==> p in {Err(ReadFmt), Err(ReadData)}
    ensures Coarsened(p) == Refused(OnlyPcm) <==> p in {Err(FmtTooSmall), Err(NotPcm)}
    ensures Coarsened(p) == Refused(EarlyData) <==> p == Err(DataBeforeFmt)
    ensures Coarsened(p) == Refused(WrongFormat) <==> p in {Err(NotMono), Err(WrongRate), Err(WrongBits)}
    ensures Coarsened(p).Pcm? <==> p.Ok?
  {
  }

  /** Both readers accept the same files, with the same samples. */
  method BothReaders(file: Bytes) returns (a: Parsed, b: Loaded)
    ensures a.Ok? <==> b.Pcm?
    ensures a.Ok? ==> a.pcm == b.pcm
    ensures a == Parse(file)
  {
    a := ParseWav(file);
    b := LoadWav(file);
  }

  // ------------------------------------------------------------------- theorems

  /** A chunk as the walkers see it: no padding. */
  function Chunk(id: Bytes, body: Bytes): Bytes {
    id + PutLe(|body|, 4) + body
  }

  lemma ChunkParts(id: Bytes, body: Bytes, rest: Bytes)
    requires |id| == 4 && |body| < U32
    ensures var s := Chunk(id, body) + rest;
            && |s| >= 8 && s[..4] == id && GetLe(s[4..8]) == |body| && s[8..] == body + rest
            && s[8..][..|body|] == body && s[8..][|body|..] == rest
  {
    var s := Chunk(id, body) + rest;
    assert s[4..8] == PutLe(|body|, 4);
    Le32(|body|);
    assert s[8..] == body + rest;
  }

  /** A chunk that claims more bytes than the file has. */
  lemma Truncated(s: Bytes, format: Format)
    requires |s| >= 8 && GetLe(s[4..8]) > |s| - 8
    ensures Walk(s, format) ==
              if s[..4] == FMT then Err(ReadFmt)
              else if s[..4] == DATA then Err(if format.seen then ReadData else DataBeforeFmt)
              else Err(ChunkHeader)
  {
    hide GetLe, FormatOf;
    assert Walk([], format) == Err(ChunkHeader);
  }

  datatype RawChunk = RawChunk(id: Bytes, body: Bytes)

  ghost predicate WellFormed(cs: seq<RawChunk>) {
    forall k :: 0 <= k < |cs| ==> |cs[k].id| == 4 && |cs[k].body| < U32
  }

  function Chunks(cs: seq<RawChunk>): Bytes {
    if cs == [] then [] else Chunk(cs[0].id, cs[0].body) + Chunks(cs[1..])
  }

  datatype Effect = Continue(format: Format) | Stop(result: Parsed)

  /** What a walker does on a complete chunk. */
  function EffectOf(c: RawChunk, format: Format): Effect {
    if c.id == FMT then
      if |c.body| < 16 then Stop(Err(FmtTooSmall))
      else if GetLe(c.body[..2]) != 1 then Stop(Err(NotPcm))
      else Continue(FormatOf(c.body))
    else if c.id == DATA then
      Stop(if !format.seen then Err(DataBeforeFmt)
           else if format.channels != 1 then Err(NotMono)
           else if format.sampleRate != 8000 then Err(WrongRate)
           else if format.bits != 16 then Err(WrongBits)
           else Ok(c.body))
    else Continue(format)
  }

  lemma WalkChunk(c: RawChunk, rest: Bytes, format: Format)
    requires |c.id| == 4 && |c.body| < U32
    ensures Walk(Chunk(c.id, c.body) + rest, format) ==
              var e := EffectOf(c, format);
              if e.Continue? then Walk(rest, e.format) else e.result
  {
    hide Chunk, GetLe, FormatOf;
    ChunkParts(c.id, c.body, rest);
    assert |c.body| >= 16 ==> (c.body + rest)[..2] == c.body[..2];
  }

  /** An unknown chunk at any chunk boundary, whatever chunks stand before it and whatever
      bytes follow, changes nothing. */
  lemma {:induction false} UnknownChunkIgnored(cs: seq<RawChunk>, extra: RawChunk, rest: Bytes, format: Format)
    requires WellFormed(cs) && |extra.id| == 4 && |extra.body| < U32 && extra.id != FMT && extra.id != DATA
    ensures Walk(Chunks(cs) + (Chunk(extra.id, extra.body) + rest), format) == Walk(Chunks(cs) + rest, format)
    decreases |cs|
  {
    hide Chunk, Walk, GetLe, FormatOf;
    var inserted := Chunk(extra.id, extra.body) + rest;
    if cs == [] {
      WalkChunk(extra, rest, format);
      assert Chunks(cs) + inserted == inserted && Chunks(cs) + rest == rest;
    } else {
      var c, tail := cs[0], cs[1..];
      assert Chunks(cs) + inserted == Chunk(c.id, c.body) + (Chunks(tail) + inserted);
      assert Chunks(cs) + rest == Chunk(c.id, c.body) + (Chunks(tail) + rest);
      WalkChunk(c, Chunks(tail) + inserted, format);
      WalkChunk(c, Chunks(tail) + rest, format);
      var e := EffectOf(c, format);
      if e.Continue? {
        UnknownChunkIgnored(tail, extra, rest, e.format);
      }
    }
  }

  lemma FormatBodyRead(sampleRate: nat)
    ensures |FormatBody(sampleRate)| == 16 && GetLe(FormatBody(sampleRate)[..2]) == 1
    ensures FormatOf(FormatBody(sampleRate)) == Format(true, 1, sampleRate % U32, 16)
  {
    hide PutLe, GetLe;
    var b := FormatBody(sampleRate);
    assert b[..2] == PutLe(1, 2) && b[2..4] == PutLe(1, 2);
    assert b[4..8] == PutLe(sampleRate, 4) && b[14..16] == PutLe(16, 2);
    Le16(1);
    Le16(16);
    Le32(sampleRate);
  }

  /** A recording is a format chunk, a data chunk as long as its size field can say, and
      what is left over. */
  lemma RecordedChunks(sampleRate: nat, pcm: Bytes)
    ensures var file, kept := Recorded(sampleRate, pcm), |pcm| % U32;
            && |file| >= 12 && file[..4] == RIFF && file[8..12] == WAVE
            && file[12..] == Chunk(FMT, FormatBody(sampleRate)) + (Chunk(DATA, pcm[..kept]) + pcm[kept..])
  {
    hide PutLe, Header, FormatBody;
    var file, kept := Recorded(sampleRate, pcm), |pcm| % U32;
    HeaderTail(sampleRate, |pcm|);
    PutWraps(|pcm|);
    assert file[..4] == Header(sampleRate, |pcm|)[..4] && file[8..12] == Header(sampleRate, |pcm|)[8..12];
    assert file[12..] == Header(sampleRate, |pcm|)[12..] + pcm;
    assert pcm == pcm[..kept] + pcm[kept..];
  }

  lemma HeaderTail(sampleRate: nat, n: nat)
    ensures var h := Header(sampleRate, n);
            && h[..4] == RIFF && h[8..12] == WAVE
            && h[12..] == Chunk(FMT, FormatBody(sampleRate)) + (DATA + PutLe(n, 4))
  {
    hide PutLe, FormatBody;
  }

  lemma DoubleRate(rate: nat)
    ensures rate * 16 / 8 % U32 == rate % U32 * 2 % U32
  {
    var q, r := rate / U32, rate % U32;
    var carry, low := r * 2 / U32, r * 2 % U32;
    assert rate == q * U32 + r && r * 2 == carry * U32 + low;
    assert rate * 16 / 8 == (2 * q + carry) * U32 + low;
    ModUnique(rate * 16 / 8, U32, 2 * q + carry, low);
  }

  lemma HeaderFields(sampleRate: nat, n: nat)
    ensures var h := Header(sampleRate, n);
            && h[4..8] == PutLe(36 + n, 4) && h[16..20] == PutLe(16, 4) && h[22..24] == PutLe(1, 2)
            && h[24..28] == PutLe(sampleRate, 4) && h[28..32] == PutLe(sampleRate * 16 / 8, 4)
            && h[32..34] == PutLe(2, 2) && h[34..36] == PutLe(16, 2) && h[40..44] == PutLe(n, 4)
  {
    hide PutLe, FormatBody;
    var h, b := Header(sampleRate, n), FormatBody(sampleRate);
    assert h[20..36] == b;
    BodyFields(sampleRate);
    assert h[22..24] == b[2..4] && h[24..28] == b[4..8] && h[28..32] == b[8..12];
    assert h[32..34] == b[12..14] && h[34..36] == b[14..16];
  }

  lemma BodyFields(sampleRate: nat)
    ensures var b := FormatBody(sampleRate);
            && b[..2] == PutLe(1, 2) && b[2..4] == PutLe(1, 2) && b[4..8] == PutLe(sampleRate, 4)
            && b[8..12] == PutLe(sampleRate * 16 / 8, 4) && b[12..14] == PutLe(2, 2) && b[14..16] == PutLe(16, 2)
  {
    hide PutLe;
  }

  /** The header fields that no reader looks at agree with those that it does: the byte rate is
      the sample rate times the block size, and the block size is one sample of each channel. */
  lemma HeaderConsistent(sampleRate: nat, n: nat)
    ensures var h := Header(sampleRate, n);
            var channels, rate, bits := GetLe(h[22..24]), GetLe(h[24..28]), GetLe(h[34..36]);
            && GetLe(h[16..20]) == 16
            && GetLe(h[32..34]) * 8 == channels * bits
            && GetLe(h[28..32]) == rate * GetLe(h[32..34]) % U32
            && GetLe(h[40..44]) == n % U32 && GetLe(h[4..8]) == (36 + n) % U32
  {
    hide Header, PutLe, GetLe;
    HeaderFields(sampleRate, n);
    DoubleRate(sampleRate);
    Le16(1);
    Le16(2);
    Le16(16);
    Le32(16);
    Le32(sampleRate);
    Le32(sampleRate * 16 / 8);
    Le32(n);
    Le32(36 + n);
  }

  /** The whole truth about reading back a closed recording: at 8000 Hz the walker returns
      the samples, cut to their number modulo 2^32; any other rate is refused. */
  lemma ReadBack(sampleRate: nat, pcm: Bytes)
    ensures Parse(Recorded(sampleRate, pcm)) ==
              if sampleRate % U32 == 8000 then Ok(pcm[..|pcm| % U32]) else Err(WrongRate)
  {
    hide Recorded, Chunk, FormatBody, PutLe, Walk, GetLe;
    var fmt := RawChunk(FMT, FormatBody(sampleRate));
    var kept := |pcm| % U32;
    var data := RawChunk(DATA, pcm[..kept]);
    var rest := Chunk(data.id, data.body) + pcm[kept..];
    FormatBodyRead(sampleRate);
    RecordedChunks(sampleRate, pcm);
    WalkChunk(fmt, rest, NO_FORMAT);
    WalkChunk(data, pcm[kept..], Format(true, 1, sampleRate % U32, 16));
  }

  /** So a recording at 8000 Hz round-trips exactly if it is shorter than 2^32 bytes; the
      RIFF size field, which no reader looks at, needs 36 bytes less. */
  lemma RoundTripIff(pcm: Bytes)
    ensures Parse(Recorded(8000, pcm)) == Ok(pcm) <==> |pcm| < U32
    ensures GetLe(Recorded(8000, pcm)[4..8]) == |Recorded(8000, pcm)| - 8 <==> 36 + |pcm| < U32
  {
    hide Parse, PutLe, GetLe;
    ReadBack(8000, pcm);
    var file := Recorded(8000, pcm);
    assert file[4..8] == PutLe(36 + |pcm|, 4);
    Le32(36 + |pcm|);
    if |pcm| < U32 {
      assert pcm[..|pcm|] == pcm;
    } else {
      assert |pcm[..|pcm| % U32]| < |pcm|;
    }
  }

  /** The body of any format chunk, possibly an extended one. */
  function AnyBody(tag: nat, channels: nat, rate: nat, byteRate: nat, align: nat, bits: nat, extra: Bytes): Bytes {
    PutLe(tag, 2) + PutLe(channels, 2) + PutLe(rate, 4) + PutLe(byteRate, 4) + PutLe(align, 2) + PutLe(bits, 2) + extra
  }

  lemma AnyBodyRead(tag: nat, channels: nat, rate: nat, byteRate: nat, align: nat, bits: nat, extra: Bytes)
    requires tag < 0x1_0000 && channels < 0x1_0000 && bits < 0x1_0000 && rate < U32
    ensures var b := AnyBody(tag, channels, rate, byteRate, align, bits, extra);
            && |b| == 16 + |extra| && GetLe(b[..2]) == tag && FormatOf(b) == Format(true, channels, rate, bits)
  {
    hide PutLe, GetLe;
    var b := AnyBody(tag, channels, rate, byteRate, align, bits, extra);
    assert b[..2] == PutLe(tag, 2) && b[2..4] == PutLe(channels, 2);
    assert b[4..8] == PutLe(rate, 4) && b[14..16] == PutLe(bits, 2);
    Le16(tag);
    Le16(channels);
    Le16(bits);
    Le32(rate);
  }

  /** Any file of a format chunk and a data chunk, whatever the RIFF size field says and
      whatever follows: the readers accept exactly 8000 Hz mono 16-bit PCM, and return the data. */
  lemma AnyFormat(riffSize: nat, tag: nat, channels: nat, rate: nat, byteRate: nat, align: nat, bits: nat,
                  extra: Bytes, pcm: Bytes, rest: Bytes)
    requires tag < 0x1_0000 && channels < 0x1_0000 && bits < 0x1_0000 && rate < U32
    requires 16 + |extra| < U32 && |pcm| < U32
    ensures var body := AnyBody(tag, channels, rate, byteRate, align, bits, extra);
            var file := RIFF + PutLe(riffSize, 4) + WAVE + (Chunk(FMT, body) + (Chunk(DATA, pcm) + rest));
            && Parse(file) == (if tag != 1 then Err(NotPcm)
                               else if channels != 1 then Err(NotMono)
                               else if rate != 8000 then Err(WrongRate)
                               else if bits != 16 then Err(WrongBits)
                               else Ok(pcm))
            && Coarsened(Parse(file)) == (if tag != 1 then Refused(OnlyPcm)
                                          else if channels != 1 || rate != 8000 || bits != 16 then Refused(WrongFormat)
                                          else Pcm(pcm))
  {
    hide PutLe, GetLe, Walk, Chunk, AnyBody, FormatOf;
    var body := AnyBody(tag, channels, rate, byteRate, align, bits, extra);
    var data := Chunk(DATA, pcm) + rest;
    var file := RIFF + PutLe(riffSize, 4) + WAVE + (Chunk(FMT, body) + data);
    assert file[..4] == RIFF && file[8..12] == WAVE && file[12..] == Chunk(FMT, body) + data;
    AnyBodyRead(tag, channels, rate, byteRate, align, bits, extra);
    WalkChunk(RawChunk(FMT, body), data, NO_FORMAT);
    WalkChunk(RawChunk(DATA, pcm), rest, Format(true, channels, rate, bits));
  }

  // -------------------------------------------------------------------- framing

  /** The end of the samples cut so far. */
  function Clip(i: nat, n: nat): nat {
    if i <= n then i else n
  }

  /** Every frame has `n` bytes except that the last may be shorter, never empty. */
  ghost predicate Framed(frames: seq<Bytes>, n: nat) {
    && (forall k :: 0 <= k < |frames| - 1 ==> |frames[k]| == n)
    && (frames != [] ==> 0 < |frames[|frames| - 1]| <= n)
  }

  ghost predicate AllFull(frames: seq<Bytes>, n: nat) {
    forall k :: 0 <= k < |frames| ==> |frames[k]| == n
  }

  lemma NextFrame(frames: seq<Bytes>, pcm: Bytes, i: nat, n: nat)
    requires i < |pcm| && n > 0 && Flatten(frames) == pcm[..i] && AllFull(frames, n)
    ensures var end := Clip(i + n, |pcm|);
            var more := frames + [pcm[i..end]];
            && Flatten(more) == pcm[..end] && Framed(more, n) && (i + n <= |pcm| ==> AllFull(more, n))
  {
    var end := Clip(i + n, |pcm|);
    assert (frames + [pcm[i..end]])[..|frames|] == frames;
    assert pcm[..end] == pcm[..i] + pcm[i..end];
  }

  /** The framing loop shared by the replay sources; a non-positive size means 320. */
  method CutFrames(pcm: Bytes, frameBytes: int) returns (frames: seq<Bytes>)
    ensures Flatten(frames) == pcm
    ensures var n := if frameBytes <= 0 then 320 else frameBytes;
            Framed(frames, n)
  {
    var n := if frameBytes <= 0 then 320 else frameBytes;
    frames := [];
    assert Framed(frames, n) && AllFull(frames, n) && Flatten(frames) == pcm[..0];
    hide Flatten, Framed, AllFull;
    var i := 0;
    while i < |pcm|
      invariant 0 <= i && Flatten(frames) == pcm[..Clip(i, |pcm|)]
      invariant Framed(frames, n) && (i <= |pcm| ==> AllFull(frames, n))
      decreases |pcm| - i
    {
      var end := i + n;
      if end > |pcm| {
        end := |pcm|;
      }
      NextFrame(frames, pcm, i, n);
      frames := frames + [pcm[i..end]];
      i := i + n;
    }
    assert pcm[..|pcm|] == pcm;
  }

  /** `playFiller` on any file: drop 44 bytes, send 640-byte frames until the context is found
      done before frame `cancelAt`. What was sent is a prefix of the samples, in order; a run
      that ends before that frame has sent them all. */
  method PlayFiller(body: Bytes, cancelAt: nat) returns (sent: seq<Bytes>)
    ensures |body| <= 44 ==> sent == []
    ensures |body| > 44 ==> Flatten(sent) <= body[44..]
    ensures |body| > 44 && |sent| < cancelAt ==> Flatten(sent) == body[44..]
    ensures |body| > 44 ==> 640 * (|sent| - 1) < |body| - 44
    ensures |sent| <= cancelAt && Framed(sent, 640)
  {
    sent := [];
    if |body| <= 44 {
      return;
    }
    var pcm := body[44..];
    assert Framed(sent, 640) && AllFull(sent, 640) && Flatten(sent) == pcm[..0];
    hide Flatten, Framed, AllFull;
    var i := 0;
    while i < |pcm|
      invariant i == 640 * |sent| && |sent| <= cancelAt && i - 640 < |pcm|
      invariant Flatten(sent) == pcm[..Clip(i, |pcm|)]
      invariant Framed(sent, 640) && (i <= |pcm| ==> AllFull(sent, 640))
      decreases |pcm| - i
    {
      if |sent| == cancelAt {
        return;
      }
      var end := if i + 640 > |pcm| then |pcm| else i + 640;
      NextFrame(sent, pcm, i, 640);
      sent := sent + [pcm[i..end]];
      i := i + 640;
    }
    assert pcm[..|pcm|] == pcm;
  }

  /** Playing a whole recording sends exactly the recorded samples. */
  method PlayRecording(sampleRate: nat, pcm: Bytes) returns (sent: seq<Bytes>)
    ensures Flatten(sent) == pcm
  {
    var file := Recorded(sampleRate, pcm);
    assert file[44..] == pcm;
    sent := PlayFiller(file, |file|);
  }
}
