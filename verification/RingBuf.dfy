/** internal/audio/ringbuf.go: a fixed-capacity byte ring that keeps the most recent bytes. */
module RingBuffer {
  import opened ByteStrings

  /** The last `n` elements, or all if there are fewer. */
  function LastOf(s: Bytes, n: nat): (r: Bytes)
    ensures |r| == if |s| <= n then |s| else n
  {
    if |s| <= n then s else s[|s| - n..]
  }

  lemma LastOfIsSuffix(s: Bytes, n: nat)
    ensures LastOf(s, n) == s[|s| - |LastOf(s, n)|..]
  {
  }

  /** Forgetting early or late makes no difference. */
  lemma LastOfAppend(s: Bytes, t: Bytes, n: nat)
    ensures LastOf(LastOf(s, n) + t, n) == LastOf(s + t, n)
  {
  }

  lemma TakeFront(s: Bytes, t: Bytes, n: nat)
    requires n <= |t|
    ensures (s + t[..n]) + t[n..] == s + t
  {
    assert t[..n] + t[n..] == t;
  }

  /** The bytes of a ring in chronological order. */
  function Chronological(buf: Bytes, head: nat, full: bool): Bytes
    requires head <= |buf|
  {
    if full then buf[head..] + buf[..head] else buf[..head]
  }

  /** Overwriting `n` bytes at the head drops the `n` oldest and appends the new ones. */
  lemma OverwriteAtHead(before: Bytes, after: Bytes, head: nat, p: Bytes)
    requires |before| == |after| && head + |p| <= |before|
    requires after == before[..head] + p + before[head + |p|..]
    ensures after[..head + |p|] == before[..head] + p
    ensures var all := before[head..] + before[..head];
            && after[head + |p|..] + after[..head + |p|] == LastOf(all + p, |before|)
            && (head + |p| == |before| ==> after == LastOf(all + p, |before|))
  {
    var all := before[head..] + before[..head];
    assert LastOf(all + p, |before|) == all[|p|..] + p;
    assert all[|p|..] == before[head + |p|..] + before[..head];
    assert after[head + |p|..] == before[head + |p|..];
  }

  class RingBuf {
    const buf: array<Byte>
    var head: nat
    var full: bool
    ghost var written: Bytes   // everything written since the last reset

    ghost predicate Valid()
      reads this, buf
    {
      && (head < buf.Length || head == buf.Length == 0)
      && (full <==> buf.Length > 0 && |written| >= buf.Length)
      && Chronological(buf[..], head, full) == LastOf(written, buf.Length)
    }

    constructor (capacity: nat)
      ensures Valid() && written == [] && fresh(buf) && buf.Length == capacity
    {
      buf := new Byte[capacity](_ => 0);
      head, full, written := 0, false, [];
    }

    /** A ring without capacity cannot take a byte: its loop would make no progress. */
    method Write(p: Bytes)
      requires Valid() && (p == [] || buf.Length > 0)
      modifies this, buf
      ensures Valid() && written == old(written) + p
    {
      hide Chronological, LastOf;
      var rest := p;
      while |rest| > 0
        invariant Valid() && (rest == [] || buf.Length > 0)
        invariant written + rest == old(written) + p
        decreases |rest|
      {
        var n := if buf.Length - head < |rest| then buf.Length - head else |rest|;
        TakeFront(written, rest, n);
        CopyIn(rest[..n]);
        rest := rest[n..];
      }
    }

    /** One turn of the loop: fill up to the physical end, then wrap. */
    method CopyIn(p: Bytes)
      requires Valid() && 0 < |p| <= buf.Length - head
      modifies this, buf
      ensures Valid() && written == old(written) + p
    {
      ghost var before := buf[..];
      forall k | 0 <= k < |p| {
        buf[head + k] := p[k];
      }
      assert buf[..] == before[..head] + p + before[head + |p|..];
      OverwriteAtHead(before, buf[..], head, p);
      LastOfAppend(written, p, buf.Length);
      written := written + p;
      head := head + |p|;
      if head >= buf.Length {
        head := 0;
        full := true;
      }
    }

    method Snapshot() returns (s: Bytes)
      requires Valid()
      ensures s == LastOf(written, buf.Length)
    {
      if !full && head == 0 {
        return [];
      }
      if !full {
        return buf[..head];
      }
      return buf[head..] + buf[..head];
    }

    method Reset()
      requires Valid()
      modifies this, buf
      ensures Valid() && written == []
      ensures forall k :: 0 <= k < buf.Length ==> buf[k] == 0
    {
      head, full := 0, false;
      for i := 0 to buf.Length
        invariant head == 0 && !full
        invariant forall k :: 0 <= k < i ==> buf[k] == 0
      {
        buf[i] := 0;
      }
      written := [];
    }
  }

  // ------------------------------------------------------------- runs of the ring

  datatype Op = Put(p: Bytes) | Clear

  /** Everything written since the last reset of a sequence of operations. */
  function Since(ops: seq<Op>): Bytes {
    if ops == [] then []
    else
      match ops[|ops| - 1]
      case Put(p) => Since(ops[..|ops| - 1]) + p
      case Clear => []
  }

  /** What a ring that forgets after every operation holds: the reference needs no more than
      the current contents, so the ring may forget what it overwrites. */
  function Held(ops: seq<Op>, capacity: nat): Bytes {
    if ops == [] then []
    else
      match ops[|ops| - 1]
      case Put(p) => LastOf(Held(ops[..|ops| - 1], capacity) + p, capacity)
      case Clear => []
  }

  lemma {:induction false} HeldIsSuffix(ops: seq<Op>, capacity: nat)
    ensures Held(ops, capacity) == LastOf(Since(ops), capacity)
  {
    if ops != [] && ops[|ops| - 1].Put? {
      HeldIsSuffix(ops[..|ops| - 1], capacity);
      LastOfAppend(Since(ops[..|ops| - 1]), ops[|ops| - 1].p, capacity);
    }
  }

  /** After any sequence of writes and resets on a ring of positive capacity, the snapshot is
      the last bytes written since the last reset. */
  method RunAll(ops: seq<Op>, capacity: nat) returns (snapshot: Bytes)
    requires capacity > 0
    ensures snapshot == Held(ops, capacity) == LastOf(Since(ops), capacity)
  {
    var ring := new RingBuf(capacity);
    for i := 0 to |ops|
      invariant ring.Valid() && ring.buf.Length == capacity && fresh(ring) && fresh(ring.buf)
      invariant ring.written == Since(ops[..i])
    {
      assert ops[..i + 1][..i] == ops[..i];
      match ops[i] {
        case Put(p) => ring.Write(p);
        case Clear => ring.Reset();
      }
    }
    assert ops[..|ops|] == ops;
    HeldIsSuffix(ops, capacity);
    snapshot := ring.Snapshot();
  }
}
