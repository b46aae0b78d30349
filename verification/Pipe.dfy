/** The pipe of kernel/fs/pipe.c: a 500-byte ring whose two counters run freely in uint32.
    `sent` and `received` are histories: every byte ever put in, and every byte ever taken out. */
module Pipe {
  import opened Base

  const PIPE_SIZE: nat := 500

  datatype PipeState = PipeState(data: seq<byte>, nread: nat, nwrite: nat,
                                 readopen: bool, writeopen: bool,
                                 sent: seq<byte>, received: seq<byte>)

  /** `nwrite - nread` in uint32 arithmetic. */
  function Unread(p: PipeState): int {
    (p.nwrite - p.nread) % U32
  }

  /** The facts that hold for ever, whatever the counters have wrapped to. */
  ghost predicate RingOk(p: PipeState) {
    && |p.data| == PIPE_SIZE
    && p.nread < U32 && p.nwrite < U32
    && Unread(p) <= PIPE_SIZE
  }

  function Put(p: PipeState, b: byte): PipeState
    requires |p.data| == PIPE_SIZE
  {
    p.(data := p.data[p.nwrite % PIPE_SIZE := b], nwrite := (p.nwrite + 1) % U32, sent := p.sent + [b])
  }

  function Get(p: PipeState): PipeState
    requires |p.data| == PIPE_SIZE
  {
    p.(nread := (p.nread + 1) % U32, received := p.received + [p.data[p.nread % PIPE_SIZE]])
  }

  /** One stretch of the write loop: bytes go in until `buf` is used up or the ring is full. */
  function Fill(p: PipeState, buf: seq<byte>): (r: (PipeState, seq<byte>))
    requires |p.data| == PIPE_SIZE
    ensures |r.0.data| == PIPE_SIZE
    decreases |buf|
  {
    if buf == [] || Unread(p) == PIPE_SIZE then (p, buf) else Fill(Put(p, buf[0]), buf[1..])
  }

  /** One stretch of the read loop: at most `len` bytes come out, fewer if the ring empties. */
  function Drain(p: PipeState, len: nat): (r: PipeState)
    requires |p.data| == PIPE_SIZE
    ensures |r.data| == PIPE_SIZE
    decreases len
  {
    if len == 0 || p.nread == p.nwrite then p else Drain(Get(p), len - 1)
  }

  lemma PutCounts(p: PipeState, b: byte)
    requires RingOk(p) && Unread(p) != PIPE_SIZE
    ensures RingOk(Put(p, b)) && Unread(Put(p, b)) == Unread(p) + 1
  {
  }

  lemma GetCounts(p: PipeState)
    requires RingOk(p) && p.nread != p.nwrite
    ensures RingOk(Get(p)) && Unread(Get(p)) == Unread(p) - 1 >= 0
  {
  }

  lemma {:induction false} FillFacts(p: PipeState, buf: seq<byte>)
    requires RingOk(p)
    ensures var (q, rest) := Fill(p, buf);
            && RingOk(q)
            && |rest| <= |buf| && rest == buf[|buf| - |rest|..]
            && q.sent == p.sent + buf[..|buf| - |rest|]
            && q.received == p.received && q.nread == p.nread
            && q.readopen == p.readopen && q.writeopen == p.writeopen
            && Unread(q) == Unread(p) + |buf| - |rest|
            && (rest != [] ==> Unread(q) == PIPE_SIZE)
    decreases |buf|
  {
    if buf == [] || Unread(p) == PIPE_SIZE {
      assert buf[..0] == [] && p.sent + [] == p.sent;
    } else {
      var p1 := Put(p, buf[0]);
      PutCounts(p, buf[0]);
      FillFacts(p1, buf[1..]);
      var (q, rest) := Fill(p1, buf[1..]);
      var k := |buf| - |rest|;
      assert buf[..k] == [buf[0]] + buf[1..][..k - 1];
    }
  }

  lemma {:induction false} DrainFacts(p: PipeState, len: nat)
    requires RingOk(p)
    ensures var q := Drain(p, len);
            && RingOk(q)
            && q.sent == p.sent && p.received <= q.received
            && q.nwrite == p.nwrite && q.data == p.data
            && q.readopen == p.readopen && q.writeopen == p.writeopen
            && |q.received| - |p.received| == Unread(p) - Unread(q)
            && |q.received| - |p.received| == if len <= Unread(p) then len else Unread(p)
    decreases len
  {
    if len != 0 && p.nread != p.nwrite {
      GetCounts(p);
      DrainFacts(Get(p), len - 1);
    }
  }

  /** What a reader may rely on: received bytes are a prefix of sent bytes, and the unread
      window of the ring holds exactly the rest, in order. */
  ghost predicate Fifo(p: PipeState) {
    && RingOk(p)
    && |p.received| <= |p.sent| && |p.sent| - |p.received| == Unread(p)
    && p.nwrite == |p.sent| % U32 && p.nread == |p.received| % U32
    && p.received == p.sent[..|p.received|]
    && forall k :: |p.received| <= k < |p.sent| ==> p.data[k % PIPE_SIZE] == p.sent[k]
  }

  lemma PutFifo(p: PipeState, b: byte)
    requires Fifo(p) && Unread(p) < PIPE_SIZE && |p.sent| < U32
    ensures Fifo(Put(p, b))
  {
    hide Unread;
    var q := Put(p, b);
    PutCounts(p, b);
    assert p.nwrite == |p.sent|;
    assert q.sent[..|q.received|] == p.sent[..|p.received|];
    assert p.nwrite % PIPE_SIZE == |p.sent| % PIPE_SIZE;
    hide RingOk, Put;
    forall k | |q.received| <= k < |q.sent| ensures q.data[k % PIPE_SIZE] == q.sent[k] {
      if k < |p.sent| {
        WindowSlotsDiffer(k, |p.sent|);
      }
    }
  }

  lemma WindowSlotsDiffer(j: nat, k: nat)
    requires j < k < j + PIPE_SIZE
    ensures j % PIPE_SIZE != k % PIPE_SIZE
  {
    var d := k / PIPE_SIZE - j / PIPE_SIZE;
    assert k % PIPE_SIZE - j % PIPE_SIZE == k - j - PIPE_SIZE * d;
  }

  lemma NotEmpty(p: PipeState)
    requires RingOk(p)
    ensures Unread(p) > 0 <==> p.nread != p.nwrite
  {
  }

  lemma GetFifo(p: PipeState)
    requires Fifo(p) && Unread(p) > 0 && |p.sent| <= U32
    ensures Fifo(Get(p))
  {
    hide Unread;
    var q := Get(p);
    assert p.nread != p.nwrite by { NotEmpty(p); }
    GetCounts(p);
    assert p.nread == |p.received|;
    assert q.received == q.sent[..|q.received|];
  }

  lemma {:induction false} FillFifo(p: PipeState, buf: seq<byte>)
    requires Fifo(p) && |Fill(p, buf).0.sent| <= U32
    ensures Fifo(Fill(p, buf).0)
    decreases |buf|
  {
    if buf != [] && Unread(p) != PIPE_SIZE {
      var p1 := Put(p, buf[0]);
      PutCounts(p, buf[0]);
      FillFacts(p1, buf[1..]);
      PutFifo(p, buf[0]);
      FillFifo(p1, buf[1..]);
    }
  }

  lemma {:induction false} DrainFifo(p: PipeState, len: nat)
    requires Fifo(p) && |p.sent| <= U32
    ensures Fifo(Drain(p, len))
    decreases len
  {
    if len != 0 && p.nread != p.nwrite {
      GetCounts(p);
      GetFifo(p);
      DrainFifo(Get(p), len - 1);
    }
  }

  // ----- past 2^32 bytes

  /** The slot both ends use for the k-th byte; at each multiple of 2^32 it jumps back to slot 0. */
  function SlotOf(k: nat): nat { k % U32 % PIPE_SIZE }

  /** Every unread byte is where its reader will look, however much has gone through. */
  ghost predicate InOrder(p: PipeState) {
    && RingOk(p)
    && |p.received| <= |p.sent| && |p.sent| - |p.received| == Unread(p)
    && p.nwrite == |p.sent| % U32 && p.nread == |p.received| % U32
    && forall k: nat :: |p.received| <= k < |p.sent| ==> p.data[SlotOf(k)] == p.sent[k]
  }

  lemma FifoInOrder(p: PipeState)
    requires Fifo(p) && |p.sent| <= U32
    ensures InOrder(p)
  {
    forall k: nat | |p.received| <= k < |p.sent| ensures SlotOf(k) == k % PIPE_SIZE {}
  }

  /** The next write lands on an unread byte: it comes less than 296 bytes after a multiple of 2^32,
      and 296 or more bytes are unread. */
  predicate Clashes(p: PipeState) {
    |p.sent| >= U32 && |p.sent| % U32 < 296 && Unread(p) >= 296
  }

  /** Within a window of 500 two bytes share a slot exactly when they are 296 apart with a multiple of
      2^32 between them, because 2^32 modulo 500 is 296. */
  lemma SameSlot(k: nat, n: nat)
    requires k < n < k + PIPE_SIZE
    ensures SlotOf(k) == SlotOf(n) <==> k + 296 == n && n >= U32 && n % U32 < 296
  {
    var x, y := k % U32, n % U32;
    if k / U32 == n / U32 {
      assert y == x + (n - k);
      WindowSlotsDiffer(x, y);
    } else {
      assert n / U32 == k / U32 + 1 && n - k == U32 - x + y;
      NearWrap(x, y);
    }
  }

  lemma NearWrap(x: nat, y: nat)
    requires x < U32 && U32 - x + y < PIPE_SIZE
    ensures x % PIPE_SIZE == y % PIPE_SIZE <==> U32 - x + y == 296
  {
    var d := U32 - x;
    assert U32 == 8589934 * PIPE_SIZE + 296;
    if d <= 296 {
      assert x == 8589934 * PIPE_SIZE + (296 - d);
    } else {
      assert x == 8589933 * PIPE_SIZE + (796 - d);
    }
  }

  /** A write leaves every unread byte in its place exactly when it clashes with none, or happens to
      bring the byte that was there. */
  lemma PutInOrderIff(p: PipeState, b: byte)
    requires InOrder(p) && Unread(p) < PIPE_SIZE
    ensures InOrder(Put(p, b)) <==> !Clashes(p) || p.sent[|p.sent| - 296] == b
  {
    hide Unread, SlotOf;
    var q, n := Put(p, b), |p.sent|;
    PutCounts(p, b);
    WriteSlot(p, b);
    forall k: nat | |p.received| <= k < n
      ensures q.data[SlotOf(k)] == p.sent[k] <==> !Clashes(p) || k + 296 != n || p.sent[k] == b
    {
      SameSlot(k, n);
    }
    if InOrder(q) && Clashes(p) { assert q.data[SlotOf(n - 296)] == q.sent[n - 296]; }
    if !Clashes(p) || p.sent[n - 296] == b {
      forall k: nat | |q.received| <= k < |q.sent| ensures q.data[SlotOf(k)] == q.sent[k] {}
    }
  }

  lemma WriteSlot(p: PipeState, b: byte)
    requires InOrder(p)
    ensures SlotOf(|p.sent|) < PIPE_SIZE && Put(p, b).data == p.data[SlotOf(|p.sent|) := b]
    ensures Put(p, b).nwrite == |Put(p, b).sent| % U32
    ensures forall k :: SlotOf(k) < PIPE_SIZE
  {
  }

  /** A read takes out the byte that was sent, wrapped or not. */
  lemma GetInOrder(p: PipeState)
    requires InOrder(p) && Unread(p) > 0
    ensures InOrder(Get(p)) && Get(p).received == p.received + [p.sent[|p.received|]]
  {
    NotEmpty(p);
    GetCounts(p);
    assert p.data[SlotOf(|p.received|)] == p.sent[|p.received|];
  }

  /** The clash is real: 2^32 zeros have been sent, the last 296 of them are unread, and a one goes in. */
  lemma WrapBreaks()
    ensures exists p: PipeState :: InOrder(p) && Fifo(p) && |p.sent| == U32 && Unread(p) < PIPE_SIZE && !InOrder(Put(p, 1))
  {
    var sent: seq<byte> := Zeros(U32);
    var p := PipeState(Zeros(PIPE_SIZE), U32 - 296, 0, true, true, sent, sent[..U32 - 296]);
    assert Unread(p) == 296;
    assert Fifo(p);
    FifoInOrder(p);
    PutInOrderIff(p, 1);
  }

  function Zeros(n: nat): (r: seq<byte>)
    ensures |r| == n && forall i :: 0 <= i < n ==> r[i] == 0
  {
    seq(n, _ => 0)
  }

  /** The loops of pipe_write and pipe_read over the buffer in place. */
  class Ring {
    const data: array<byte>
    var nread: nat
    var nwrite: nat
    var readopen: bool
    var writeopen: bool
    ghost var sent: seq<byte>
    ghost var received: seq<byte>

    ghost predicate Valid() reads this, data {
      RingOk(View())
    }

    ghost function View(): PipeState reads this, data {
      PipeState(data[..], nread, nwrite, readopen, writeopen, sent, received)
    }

    constructor ()
      ensures Valid() && Fifo(View()) && fresh(data)
      ensures nread == 0 && nwrite == 0 && readopen && writeopen && sent == [] && received == []
    {
      data := new byte[PIPE_SIZE](_ => 0);
      nread, nwrite, readopen, writeopen := 0, 0, true, true;
      sent, received := [], [];
    }

    /** The part of pipe_write's loop that runs without sleeping. */
    method WriteUntilFull(buf: seq<byte>, start: nat) returns (i: nat)
      requires Valid() && start <= |buf|
      modifies this, data
      ensures Valid() && start <= i <= |buf|
      ensures (View(), buf[i..]) == Fill(old(View()), buf[start..])
      ensures i < |buf| ==> (nwrite - nread) % U32 == PIPE_SIZE
    {
      i := start;
      while i < |buf| && (nwrite - nread) % U32 != PIPE_SIZE
        invariant Valid() && start <= i <= |buf|
        invariant Fill(View(), buf[i..]) == Fill(old(View()), buf[start..])
      {
        ghost var before := View();
        PutCounts(before, buf[i]);
        data[nwrite % PIPE_SIZE] := buf[i];
        nwrite := (nwrite + 1) % U32;
        sent := sent + [buf[i]];
        assert View() == Put(before, buf[i]);
        assert buf[i..][1..] == buf[i + 1..];
        i := i + 1;
      }
    }

    /** The copy loop of pipe_read. */
    method ReadUntilEmpty(len: nat) returns (out: seq<byte>)
      requires Valid()
      modifies this
      ensures Valid() && View() == Drain(old(View()), len)
      ensures received == old(received) + out
    {
      out := [];
      var i := 0;
      while i < len && nread != nwrite
        invariant Valid() && i <= len
        invariant received == old(received) + out
        invariant Drain(View(), len - i) == Drain(old(View()), len)
      {
        ghost var before := View();
        GetCounts(before);
        var ch := data[nread % PIPE_SIZE];
        nread := (nread + 1) % U32;
        out := out + [ch];
        received := received + [ch];
        assert View() == Get(before);
        i := i + 1;
      }
    }
  }
}
