/** The split virtqueue driver of kernel/dev/virtio.c against a device that follows section 2.6 of
    OASIS Virtio v1.1: driver calls, interrupt iterations and device actions as steps that
    interleave freely, with completions in any order. */
module Virtio {
  import opened Base

  const NUM: nat := 8

  /** What a descriptor's address points at: the request header, a buffer's data, a status byte. */
  datatype Addr = Null | Header(write: bool, sector: nat) | BufData(buf: nat) | StatusOf(head: nat)

  /** `more` and `devWrites` are the flag bits VRING_DESC_F_NEXT and VRING_DESC_F_WRITE. */
  datatype Desc = Desc(addr: Addr, len: nat, more: bool, devWrites: bool, next: nat)

  datatype Phase = Queued | Working | Used | Done

  /** A submitted request: its buffer, what it asked for, its other two descriptors. */
  datatype Req = Req(buf: nat, write: bool, sector: nat, d1: nat, d2: nat, phase: Phase)

  /** Driver memory, the shared rings, the device's position, and bookkeeping that the code keeps
      on its stacks or not at all: the request of each head, the head each descriptor belongs to,
      the head each buffer waits for, and histories of every head published and completed and of
      the buffers completed and cleared. */
  datatype Disk = Disk(
    free: seq<bool>, desc: seq<Desc>, info: seq<Option<nat>>, busy: set<nat>,
    avail: seq<nat>, availIdx: nat, usedRing: seq<nat>, usedIdx: nat, seen: nat,
    devSeen: nat, working: set<nat>,
    reqs: seq<Option<Req>>, owner: seq<Option<nat>>, holder: map<nat, nat>,
    published: seq<nat>, taken: nat, completed: seq<nat>, handled: nat,
    completedBufs: seq<nat>, clearedBufs: seq<nat>)

  function FirstFree(free: seq<bool>, from: nat): (i: nat)
    requires from <= |free|
    ensures from <= i <= |free| && (i < |free| ==> free[i]) && forall k :: from <= k < i ==> !free[k]
    decreases |free| - from
  {
    if from == |free| || free[from] then from else FirstFree(free, from + 1)
  }

  /** `n` rounds of alloc_desc, each taking the lowest free descriptor while there is one. */
  function Take(free: seq<bool>, n: nat): (r: (seq<nat>, seq<bool>))
    ensures |r.1| == |free| && |r.0| <= n
    ensures forall a :: 0 <= a < |r.0| ==> r.0[a] < |free|
  {
    if n == 0 then ([], free) else
    var (idx, f) := Take(free, n - 1);
    var i := FirstFree(f, 0);
    if i == |f| then (idx, f) else (idx + [i], f[i := false])
  }

  /** alloc3_desc: three descriptors or none. */
  function Alloc3(free: seq<bool>): (r: Option<seq<nat>>)
    ensures r.Some? ==> |r.value| == 3 && forall a :: 0 <= a < 3 ==> r.value[a] < |free|
  {
    var idx := Take(free, 3).0;
    if |idx| == 3 then Some(idx) else None
  }

  function FreeCount(free: seq<bool>): nat {
    if free == [] then 0 else FreeCount(free[..|free| - 1]) + (if free[|free| - 1] then 1 else 0)
  }

  lemma {:induction false} FreeCountUpdate(free: seq<bool>, i: nat, b: bool)
    requires i < |free|
    ensures FreeCount(free[i := b]) == FreeCount(free) - (if free[i] then 1 else 0) + (if b then 1 else 0)
  {
    var n := |free| - 1;
    if i < n {
      FreeCountUpdate(free[..n], i, b);
      assert free[i := b][..n] == free[..n][i := b];
    } else {
      assert free[i := b][..n] == free[..n];
    }
  }

  lemma {:induction false} FreeCountZero(free: seq<bool>)
    requires forall i :: 0 <= i < |free| ==> !free[i]
    ensures FreeCount(free) == 0
  {
    if free != [] { FreeCountZero(free[..|free| - 1]); }
  }

  lemma {:induction false} TakeFacts(free: seq<bool>, n: nat)
    ensures var (idx, f) := Take(free, n);
            && NoDup(idx)
            && (forall a :: 0 <= a < |idx| ==> idx[a] < |free| && free[idx[a]])
            && (forall d :: 0 <= d < |free| ==> f[d] == (free[d] && d !in idx))
            && FreeCount(f) == FreeCount(free) - |idx|
            && (|idx| < n ==> FreeCount(f) == 0)
  {
    if n > 0 {
      TakeFacts(free, n - 1);
      var (idx, f) := Take(free, n - 1);
      var i := FirstFree(f, 0);
      if i == |f| { FreeCountZero(f); } else {
        FreeCountUpdate(f, i, false);
        if FreeCount(f) == 0 { FreeCountPositive(f, i); }
      }
    }
  }

  lemma {:induction false} FreeCountPositive(free: seq<bool>, i: nat)
    requires i < |free| && free[i]
    ensures FreeCount(free) > 0
  {
    if i < |free| - 1 { FreeCountPositive(free[..|free| - 1], i); }
  }

  /** alloc3_desc succeeds exactly when three descriptors are free, and then takes three
      different ones. */
  lemma {:induction false} Alloc3Facts(free: seq<bool>)
    ensures Alloc3(free).Some? <==> FreeCount(free) >= 3
    ensures Alloc3(free).Some? ==> var idx := Alloc3(free).value; var f := Take(free, 3).1;
              && NoDup(idx) && FreeCount(f) == FreeCount(free) - 3
              && (forall a :: 0 <= a < 3 ==> idx[a] < |free| && free[idx[a]])
              && (forall d :: 0 <= d < |free| ==> f[d] == (free[d] && d !in idx))
  {
    TakeFacts(free, 3);
  }

  /** free_chain: follow the next links, clearing each address and setting each free flag. */
  function FreeWalk(free: seq<bool>, desc: seq<Desc>, i: nat, fuel: nat): (r: (seq<bool>, seq<Desc>))
    requires |free| == |desc|
    ensures |r.0| == |r.1| == |free|
    decreases fuel
  {
    if fuel == 0 || i >= |free| then (free, desc) else
    var free1 := free[i := true];
    var desc1 := desc[i := desc[i].(addr := Null)];
    if desc1[i].more then FreeWalk(free1, desc1, desc1[i].next, fuel - 1) else (free1, desc1)
  }

  /** A chain of allocated descriptors, linked by next and ended by a descriptor without NEXT. */
  ghost predicate IsChain(free: seq<bool>, desc: seq<Desc>, chain: seq<nat>) {
    && |free| == |desc| && |chain| > 0
    && (forall a :: 0 <= a < |chain| ==> chain[a] < |free| && !free[chain[a]])
    && (forall a, b :: 0 <= a < b < |chain| ==> chain[a] != chain[b])
    && (forall a :: 0 <= a < |chain| - 1 ==> desc[chain[a]].more && desc[chain[a]].next == chain[a + 1])
    && !desc[chain[|chain| - 1]].more
  }

  /** free_chain after `a` of the chain's descriptors: the others are as they were, and what is left
      to do from here is what was to do from the start. */
  ghost predicate Walking(f0: seq<bool>, d0: seq<Desc>, f: seq<bool>, d: seq<Desc>, chain: seq<nat>, a: nat) {
    && |f| == |d| == |f0| == |d0| && a < |chain| && IsChain(f0, d0, chain)
    && (forall b :: a <= b < |chain| ==> d[chain[b]] == d0[chain[b]] && !f[chain[b]])
    && FreeWalk(f, d, chain[a], |chain| - a) == FreeWalk(f0, d0, chain[0], |chain|)
    && (forall k :: 0 <= k < |f| ==> f[k] == (f0[k] || k in chain[..a]))
  }

  lemma WalkAt(f0: seq<bool>, d0: seq<Desc>, f: seq<bool>, d: seq<Desc>, chain: seq<nat>, a: nat)
    requires Walking(f0, d0, f, d, chain, a)
    ensures a < |chain| && chain[a] < |f| == |d| && !f[chain[a]]
  {
  }

  lemma {:induction false} WalkStart(f: seq<bool>, d: seq<Desc>, chain: seq<nat>)
    requires IsChain(f, d, chain)
    ensures |chain| > 0 && Walking(f, d, f, d, chain, 0)
  {
  }

  lemma WalkMembers(chain: seq<nat>, a: nat)
    requires a < |chain|
    ensures chain[..a + 1] == chain[..a] + [chain[a]] && (a + 1 == |chain| ==> chain[..a + 1] == chain)
  {
  }

  lemma {:induction false} WalkStep(f0: seq<bool>, d0: seq<Desc>, f: seq<bool>, d: seq<Desc>, chain: seq<nat>, a: nat)
    requires Walking(f0, d0, f, d, chain, a)
    ensures a < |chain| && chain[a] < |f| == |d|
    ensures var i := chain[a];
            var f1, d1 := f[i := true], d[i := d[i].(addr := Null)];
            if d[i].more then a + 1 < |chain| && d[i].next == chain[a + 1] && Walking(f0, d0, f1, d1, chain, a + 1)
            else (f1, d1) == FreeWalk(f0, d0, chain[0], |chain|) && forall k :: 0 <= k < |f1| ==> f1[k] == (f0[k] || k in chain)
  {
    WalkMembers(chain, a);
  }

  /** The driver's allocation routines over its own arrays. */
  class Descriptors {
    const free: array<bool>
    const desc: array<Desc>

    ghost predicate Valid() reads this { free.Length == desc.Length }

    constructor ()
      ensures Valid() && fresh(free) && fresh(desc) && free.Length == NUM
      ensures forall i :: 0 <= i < NUM ==> free[i]
    {
      free := new bool[NUM](_ => true);
      desc := new Desc[NUM](_ => Desc(Null, 0, false, false, 0));
    }

    method AllocDesc() returns (r: int)
      requires Valid()
      modifies free
      ensures var i := FirstFree(old(free[..]), 0);
              if i == free.Length then r == -1 && free[..] == old(free[..])
              else r == i && free[..] == old(free[..])[i := false]
    {
      for i := 0 to free.Length
        invariant free[..] == old(free[..])
        invariant forall k :: 0 <= k < i ==> !free[k]
      {
        if free[i] {
          free[i] := false;
          return i;
        }
      }
      return -1;
    }

    /** Panics on a bad or already free index. */
    method FreeDesc(i: nat)
      requires Valid() && i < free.Length && !free[i]
      modifies free, desc
      ensures free[..] == old(free[..])[i := true]
      ensures desc[..] == old(desc[..])[i := old(desc[i]).(addr := Null)]
    {
      desc[i] := desc[i].(addr := Null);
      free[i] := true;
    }

    method FreeChain(head: nat, ghost chain: seq<nat>)
      requires Valid() && IsChain(free[..], desc[..], chain) && chain[0] == head
      modifies free, desc
      ensures (free[..], desc[..]) == FreeWalk(old(free[..]), old(desc[..]), head, |chain|)
      ensures forall i :: 0 <= i < free.Length ==> free[i] == (old(free[i]) || i in chain)
    {
      hide IsChain, FreeWalk, Walking;
      var i := head;
      ghost var a := 0;
      ghost var f0, d0 := free[..], desc[..];
      WalkStart(f0, d0, chain);
      while true
        invariant a < |chain| && i == chain[a] && Walking(f0, d0, free[..], desc[..], chain, a)
        decreases |chain| - a
      {
        WalkAt(f0, d0, free[..], desc[..], chain, a);
        WalkStep(f0, d0, free[..], desc[..], chain, a);
        FreeDesc(i);
        if desc[i].more {
          i := desc[i].next;
          a := a + 1;
        } else {
          break;
        }
      }
    }

    /** The rollback loop of alloc3_desc. */
    method GiveBack(idx: seq<nat>)
      requires Valid() && NoDup(idx)
      requires forall a :: 0 <= a < |idx| ==> idx[a] < free.Length && !free[idx[a]]
      modifies free, desc
      ensures forall d :: 0 <= d < free.Length ==> free[d] == (old(free[d]) || d in idx)
      ensures forall d :: 0 <= d < desc.Length ==> desc[d] == if d in idx then old(desc[d]).(addr := Null) else old(desc[d])
    {
      for j := 0 to |idx|
        invariant forall d :: 0 <= d < free.Length ==> free[d] == (old(free[d]) || d in idx[..j])
        invariant forall d :: 0 <= d < desc.Length ==> desc[d] == if d in idx[..j] then old(desc[d]).(addr := Null) else old(desc[d])
      {
        assert idx[..j + 1] == idx[..j] + [idx[j]];
        assert idx[j] !in idx[..j];
        FreeDesc(idx[j]);
      }
      assert idx[..|idx|] == idx;
    }

    /** On failure everything taken so far goes back. */
    method Alloc3Desc() returns (ok: bool, idx: seq<nat>)
      requires Valid()
      modifies free, desc
      ensures ok <==> Alloc3(old(free[..])).Some?
      ensures ok ==> idx == Alloc3(old(free[..])).value && free[..] == Take(old(free[..]), 3).1 && desc[..] == old(desc[..])
      ensures !ok ==> free[..] == old(free[..])
      ensures forall d :: 0 <= d < desc.Length ==> desc[d] == old(desc[d]) || (free[d] && desc[d] == old(desc[d]).(addr := Null))
    {
      ghost var f0 := free[..];
      idx := [];
      for n := 0 to 3
        invariant |idx| == n && desc[..] == old(desc[..])
        invariant (idx, free[..]) == Take(f0, n)
      {
        TakeFacts(f0, n);
        var r := AllocDesc();
        if r < 0 {
          NoneLeft(f0, n);
          GiveBack(idx);
          assert free[..] == f0;
          return false, idx;
        }
        idx := idx + [r];
      }
      ok := true;
    }
  }

  lemma {:induction false} NoneLeft(free: seq<bool>, n: nat)
    requires n < 3 && FirstFree(Take(free, n).1, 0) == |free|
    ensures |Take(free, 3).0| < 3
    decreases 3 - n
  {
    if n == 2 { assert Take(free, 3) == Take(free, 2); }
    else { assert Take(free, n + 1) == Take(free, n); NoneLeft(free, n + 1); }
  }

  // ----- the protocol

  datatype Step =
    | Submit(buf: nat, write: bool, block: nat)  // virtio_disk_rw up to the notify
    | Starve                                     // alloc3_desc fails, the caller sleeps
    | TakeAvail                                  // the device consumes an available-ring entry
    | Complete(head: nat)                        // the device finishes some request it holds
    | Handle                                     // one iteration of virtio_disk_intr
    | Finish(head: nat)                          // virtio_disk_rw after its wait loop

  predicate Sized(d: Disk) {
    |d.free| == |d.desc| == |d.info| == |d.avail| == |d.usedRing| == |d.reqs| == |d.owner| == NUM
  }

  /** virtio_disk_init: zeroed pages, every descriptor free. */
  predicate Initial(d: Disk) {
    && Sized(d) && d.busy == {} && d.working == {} && d.holder == map[]
    && (forall i :: 0 <= i < NUM ==> d.free[i] && d.reqs[i] == None && d.owner[i] == None)
    && d.availIdx == d.usedIdx == d.seen == d.devSeen == d.taken == d.handled == 0
    && d.published == d.completed == d.completedBufs == d.clearedBufs == []
  }

  predicate Live(reqs: seq<Option<Req>>, h: nat) { h < |reqs| && reqs[h].Some? }

  predicate InPhase(reqs: seq<Option<Req>>, h: nat, phase: Phase) { Live(reqs, h) && reqs[h].value.phase == phase }

  function SetPhase(reqs: seq<Option<Req>>, h: nat, phase: Phase): seq<Option<Req>>
    requires Live(reqs, h)
  {
    reqs[h := Some(reqs[h].value.(phase := phase))]
  }

  /** The caller holds the buffer's sleep lock, so it has no other request on it. */
  predicate CanSubmit(d: Disk, buf: nat)
    requires Sized(d)
  {
    buf !in d.holder && Alloc3(d.free).Some?
  }

  /** `b->block_num * (BLOCK_SIZE / 512)`, a 32-bit product. */
  function Sector(block: nat): nat { block * 2 % U32 }

  /** Format the three descriptors, record the buffer, publish the head. */
  function Submitted(d: Disk, buf: nat, write: bool, block: nat, h: nat, i: nat, j: nat): Disk
    requires Sized(d) && h < NUM && i < NUM && j < NUM
  {
    d.(free := d.free[h := false][i := false][j := false],
       desc := d.desc[h := Desc(Header(write, Sector(block)), 16, true, false, i)]
                     [i := Desc(BufData(buf), 1024, true, !write, j)]
                     [j := Desc(StatusOf(h), 1, false, true, 0)],
       info := d.info[h := Some(buf)],
       busy := d.busy + {buf},
       avail := d.avail[d.availIdx % NUM := h],
       availIdx := (d.availIdx + 1) % U16,
       reqs := d.reqs[h := Some(Req(buf, write, Sector(block), i, j, Queued))],
       owner := d.owner[h := Some(h)][i := Some(h)][j := Some(h)],
       holder := d.holder[buf := h],
       published := d.published + [h])
  }

  /** alloc3_desc's failure path: the descriptors it had taken lose their address. */
  function Nulled(desc: seq<Desc>, idx: seq<nat>): (r: seq<Desc>)
    ensures |r| == |desc|
    ensures forall i :: 0 <= i < |desc| ==> r[i] == if i in idx then desc[i].(addr := Null) else desc[i]
  {
    seq(|desc|, i requires 0 <= i < |desc| => if i in idx then desc[i].(addr := Null) else desc[i])
  }

  predicate CanTake(d: Disk)
    requires Sized(d)
  {
    d.devSeen != d.availIdx && Live(d.reqs, d.avail[d.devSeen % NUM])
  }

  function Taken(d: Disk): Disk
    requires Sized(d) && CanTake(d)
  {
    var h := d.avail[d.devSeen % NUM];
    d.(devSeen := (d.devSeen + 1) % U16, working := d.working + {h}, taken := d.taken + 1,
       reqs := SetPhase(d.reqs, h, Working))
  }

  predicate CanComplete(d: Disk, h: nat) { h in d.working && Live(d.reqs, h) }

  function Completed(d: Disk, h: nat): Disk
    requires Sized(d) && CanComplete(d, h)
  {
    d.(working := d.working - {h}, usedRing := d.usedRing[d.usedIdx % NUM := h],
       usedIdx := (d.usedIdx + 1) % U16,
       reqs := SetPhase(d.reqs, h, Used),
       completed := d.completed + [h], completedBufs := d.completedBufs + [d.reqs[h].value.buf])
  }

  predicate CanHandle(d: Disk)
    requires Sized(d)
  {
    d.seen % NUM != d.usedIdx % NUM && d.seen < NUM && d.usedRing[d.seen] < NUM
    && d.info[d.usedRing[d.seen]].Some?
  }

  function Handled(d: Disk): Disk
    requires Sized(d) && CanHandle(d)
  {
    var id := d.usedRing[d.seen];
    var buf := d.info[id].value;
    d.(busy := d.busy - {buf}, seen := (d.seen + 1) % NUM,
       clearedBufs := d.clearedBufs + [buf], handled := d.handled + 1,
       reqs := if Live(d.reqs, id) then SetPhase(d.reqs, id, Done) else d.reqs)
  }

  predicate CanFinish(d: Disk, h: nat) { Live(d.reqs, h) && d.reqs[h].value.buf !in d.busy }

  function Finished(d: Disk, h: nat): Disk
    requires Sized(d) && CanFinish(d, h)
  {
    var w := FreeWalk(d.free, d.desc, h, NUM);
    d.(info := d.info[h := None], free := w.0, desc := w.1,
       reqs := d.reqs[h := None], owner := Disowned(d.owner, h), holder := d.holder - {d.reqs[h].value.buf})
  }

  function Disowned(owner: seq<Option<nat>>, h: nat): (r: seq<Option<nat>>)
    ensures |r| == |owner|
    ensures forall i :: 0 <= i < |owner| ==> r[i] == if owner[i] == Some(h) then None else owner[i]
  {
    seq(|owner|, i requires 0 <= i < |owner| => if owner[i] == Some(h) then None else owner[i])
  }

  /** One step of the whole system; None when it is not enabled. */
  function Apply(d: Disk, e: Step): Option<Disk>
    requires Sized(d)
  {
    match e
    case Submit(buf, write, block) =>
      if !CanSubmit(d, buf) then None else
      var idx := Alloc3(d.free).value;
      Some(Submitted(d, buf, write, block, idx[0], idx[1], idx[2]))
    case Starve =>
      if Alloc3(d.free).Some? then None else Some(d.(desc := Nulled(d.desc, Take(d.free, 3).0)))
    case TakeAvail => if CanTake(d) then Some(Taken(d)) else None
    case Complete(h) => if CanComplete(d, h) then Some(Completed(d, h)) else None
    case Handle => if CanHandle(d) then Some(Handled(d)) else None
    case Finish(h) => if CanFinish(d, h) then Some(Finished(d, h)) else None
  }

  // ----- what every step keeps

  function ReqCount(reqs: seq<Option<Req>>): nat {
    if reqs == [] then 0 else ReqCount(reqs[..|reqs| - 1]) + (if reqs[|reqs| - 1].Some? then 1 else 0)
  }

  lemma {:induction false} ReqCountUpdate(reqs: seq<Option<Req>>, h: nat, r: Option<Req>)
    requires h < |reqs|
    ensures ReqCount(reqs[h := r]) == ReqCount(reqs) - (if reqs[h].Some? then 1 else 0) + (if r.Some? then 1 else 0)
  {
    var n := |reqs| - 1;
    if h < n {
      ReqCountUpdate(reqs[..n], h, r);
      assert reqs[h := r][..n] == reqs[..n][h := r];
    } else {
      assert reqs[h := r][..n] == reqs[..n];
    }
  }

  /** The chain of head h is intact, allocated, and h's alone; its buffer waits for it alone. */
  ghost predicate ReqOk(d: Disk, h: nat)
    requires Sized(d) && Live(d.reqs, h)
  {
    var r := d.reqs[h].value;
    && r.d1 < NUM && r.d2 < NUM && h != r.d1 && h != r.d2 && r.d1 != r.d2
    && d.owner[h] == d.owner[r.d1] == d.owner[r.d2] == Some(h)
    && d.desc[h] == Desc(Header(r.write, r.sector), 16, true, false, r.d1)
    && d.desc[r.d1] == Desc(BufData(r.buf), 1024, true, !r.write, r.d2)
    && d.desc[r.d2] == Desc(StatusOf(h), 1, false, true, 0)
    && d.info[h] == Some(r.buf)
    && r.buf in d.holder && d.holder[r.buf] == h
    && (r.buf in d.busy <==> r.phase != Done)
  }

  predicate Uses(h: nat, r: Req, i: nat) { i == h || i == r.d1 || i == r.d2 }

  /** Descriptors with an owner are exactly the allocated ones, and every owner is in flight. */
  ghost predicate OwnerOk(d: Disk, i: nat)
    requires Sized(d) && i < NUM
  {
    && (d.free[i] <==> d.owner[i] == None)
    && (d.owner[i].Some? ==>
          Live(d.reqs, d.owner[i].value) && Uses(d.owner[i].value, d.reqs[d.owner[i].value].value, i))
  }

  ghost predicate Chains(d: Disk) {
    && Sized(d)
    && (forall h :: 0 <= h < NUM && Live(d.reqs, h) ==> ReqOk(d, h))
    && (forall i :: 0 <= i < NUM ==> OwnerOk(d, i))
    && (forall b :: b in d.holder ==> Live(d.reqs, d.holder[b]) && d.reqs[d.holder[b]].value.buf == b)
    && FreeCount(d.free) + 3 * ReqCount(d.reqs) == NUM
  }

  /** A ring window: distinct heads of requests in this phase, each in its modulo-8 slot. */
  ghost predicate Window(ring: seq<nat>, log: seq<nat>, from: nat, reqs: seq<Option<Req>>, phase: Phase) {
    && |ring| == NUM && from <= |log|
    && (forall k :: from <= k < |log| ==> InPhase(reqs, log[k], phase) && ring[k % NUM] == log[k])
    && (forall k, l :: from <= k < l < |log| ==> log[k] != log[l])
  }

  /** ... and every request of the phase is in it. */
  ghost predicate Covers(log: seq<nat>, from: nat, reqs: seq<Option<Req>>, phase: Phase) {
    forall h :: InPhase(reqs, h, phase) ==> InLog(log, from, h)
  }

  ghost predicate InLog(log: seq<nat>, from: nat, h: nat) {
    exists k :: from <= k < |log| && log[k] == h
  }

  ghost predicate Queues(d: Disk) {
    && Window(d.avail, d.published, d.taken, d.reqs, Queued)
    && Window(d.usedRing, d.completed, d.handled, d.reqs, Used)
    && Covers(d.published, d.taken, d.reqs, Queued)
    && Covers(d.completed, d.handled, d.reqs, Used)
    && (forall h :: h in d.working <==> InPhase(d.reqs, h, Working))
  }

  predicate Counters(d: Disk) {
    && d.availIdx == |d.published| % U16 && d.devSeen == d.taken % U16
    && d.usedIdx == |d.completed| % U16 && d.seen == d.handled % NUM
  }

  ghost predicate Logs(d: Disk) {
    && |d.completedBufs| == |d.completed| && d.handled <= |d.completed|
    && d.clearedBufs == d.completedBufs[..d.handled]
    && (forall k :: d.handled <= k < |d.completed| ==>
          Live(d.reqs, d.completed[k]) && d.completedBufs[k] == d.reqs[d.completed[k]].value.buf)
  }

  ghost predicate Inv(d: Disk) {
    Chains(d) && Queues(d) && Counters(d) && Logs(d)
  }

  lemma {:induction false} WindowSmall(s: seq<nat>, reqs: seq<Option<Req>>)
    requires NoDup(s) && forall a :: 0 <= a < |s| ==> Live(reqs, s[a])
    ensures |s| <= ReqCount(reqs)
  {
    if s != [] {
      var n := |s| - 1;
      ReqCountUpdate(reqs, s[n], None);
      WindowSmall(s[..n], reqs[s[n] := None]);
    }
  }

  lemma {:induction false} WindowSize(ring: seq<nat>, log: seq<nat>, from: nat, reqs: seq<Option<Req>>, phase: Phase)
    requires Window(ring, log, from, reqs, phase)
    ensures |log| - from <= ReqCount(reqs)
  {
    var s := log[from..];
    forall a | 0 <= a < |s| ensures Live(reqs, s[a]) { assert s[a] == log[from + a]; }
    WindowSmall(s, reqs);
  }

  /** Eight descriptors allow two requests, so a ring of eight slots never fills. */
  lemma WindowBound(d: Disk)
    requires Chains(d) && Queues(d)
    ensures ReqCount(d.reqs) <= 2 && |d.published| - d.taken <= 2 && |d.completed| - d.handled <= 2
  {
    hide Chains, Window, Covers;
    assert ReqCount(d.reqs) <= 2 by { TwoAtMost(d); }
    WindowSize(d.avail, d.published, d.taken, d.reqs, Queued);
    WindowSize(d.usedRing, d.completed, d.handled, d.reqs, Used);
  }

  lemma TwoAtMost(d: Disk)
    requires Chains(d)
    ensures ReqCount(d.reqs) <= 2
  {
  }

  lemma SlotsDiffer(j: nat, k: nat)
    requires j < k < j + NUM
    ensures j % NUM != k % NUM && j % U16 != k % U16
  {
  }

  lemma ModStep(j: nat)
    ensures (j % U16 + 1) % U16 == (j + 1) % U16
  {
  }

  lemma SlotStep(j: nat)
    ensures (j % NUM + 1) % NUM == (j + 1) % NUM
  {
  }

  /** The ring size divides 2^16, so a wrapped index still names the right slot. */
  lemma ModChain(j: nat)
    ensures (j % U16) % NUM == j % NUM
  {
    var q, r := 8192 * (j / U16), j % U16;
    assert j == NUM * q + r;
    assert NUM * q + r == NUM * (q + r / NUM) + r % NUM;
  }

  /** Appending head h to a window of a ring that is not full. */
  lemma Push(ring: seq<nat>, log: seq<nat>, from: nat, reqs: seq<Option<Req>>, next: seq<Option<Req>>, phase: Phase, h: nat)
    requires Window(ring, log, from, reqs, phase) && Covers(log, from, reqs, phase) && |log| - from < NUM
    requires h < |reqs| && |next| == |reqs| && next == reqs[h := next[h]] && InPhase(next, h, phase) && !InPhase(reqs, h, phase)
    ensures Window(ring[|log| % NUM := h], log + [h], from, next, phase) && Covers(log + [h], from, next, phase)
  {
    var n := |log|;
    var r2, l2 := ring[n % NUM := h], log + [h];
    forall k | from <= k < |l2| ensures InPhase(next, l2[k], phase) && r2[k % NUM] == l2[k] {
      if k < n { SlotsDiffer(k, n); }
    }
    forall g | InPhase(next, g, phase) ensures InLog(l2, from, g) {
      if g == h { assert l2[n] == g; } else {
        assert InLog(log, from, g);
        var k :| from <= k < |log| && log[k] == g;
        assert l2[k] == g;
      }
    }
  }

  /** Taking the oldest head off a window by moving it to another phase. */
  lemma Pop(ring: seq<nat>, log: seq<nat>, from: nat, reqs: seq<Option<Req>>, next: seq<Option<Req>>, phase: Phase)
    requires Window(ring, log, from, reqs, phase) && Covers(log, from, reqs, phase) && from < |log|
    requires log[from] < |reqs| == |next| && next == reqs[log[from] := next[log[from]]] && !InPhase(next, log[from], phase)
    ensures Window(ring, log, from + 1, next, phase) && Covers(log, from + 1, next, phase)
  {
    forall g | InPhase(next, g, phase) ensures InLog(log, from + 1, g) {
      assert InPhase(reqs, g, phase) && InLog(log, from, g);
    }
  }

  /** A window does not notice a change of a request that is outside its phase before and after. */
  lemma Other(ring: seq<nat>, log: seq<nat>, from: nat, reqs: seq<Option<Req>>, next: seq<Option<Req>>, phase: Phase, h: nat)
    requires Window(ring, log, from, reqs, phase) && Covers(log, from, reqs, phase)
    requires h < |reqs| && |next| == |reqs| && next == reqs[h := next[h]] && !InPhase(reqs, h, phase) && !InPhase(next, h, phase)
    ensures Window(ring, log, from, next, phase) && Covers(log, from, next, phase)
  {
    forall g | InPhase(next, g, phase) ensures InLog(log, from, g) {
      assert InPhase(reqs, g, phase);
    }
  }

  /** Only the phase of one request changes. */
  lemma PhaseChains(d: Disk, t: Disk, h: nat, phase: Phase)
    requires Chains(d) && Sized(t) && t.free == d.free && t.desc == d.desc && t.info == d.info
    requires t.owner == d.owner && t.holder == d.holder && Live(d.reqs, h) && d.reqs[h].value.phase != Done
    requires t.reqs == SetPhase(d.reqs, h, phase)
    requires t.busy == if phase == Done then d.busy - {d.reqs[h].value.buf} else d.busy
    ensures Chains(t)
  {
    hide FreeCount, ReqCount;
    ReqCountUpdate(d.reqs, h, t.reqs[h]);
    assert ReqOk(d, h);
    forall g | 0 <= g < NUM && Live(t.reqs, g) ensures ReqOk(t, g) { assert ReqOk(d, g); }
    forall i | 0 <= i < NUM ensures OwnerOk(t, i) { assert OwnerOk(d, i); }
  }

  lemma SubmitChains(d: Disk, buf: nat, write: bool, block: nat, h: nat, i: nat, j: nat)
    requires Chains(d) && buf !in d.holder && h < NUM && i < NUM && j < NUM
    requires d.free[h] && d.free[i] && d.free[j] && h != i && h != j && i != j
    ensures Chains(Submitted(d, buf, write, block, h, i, j)) && !Live(d.reqs, h)
  {
    hide FreeCount, ReqCount;
    var t := Submitted(d, buf, write, block, h, i, j);
    assert OwnerOk(d, h) && OwnerOk(d, i) && OwnerOk(d, j);
    assert !Live(d.reqs, h) by { assert Live(d.reqs, h) ==> ReqOk(d, h); }
    ReqCountUpdate(d.reqs, h, t.reqs[h]);
    FreeCountUpdate(d.free, h, false);
    FreeCountUpdate(d.free[h := false], i, false);
    FreeCountUpdate(d.free[h := false][i := false], j, false);
    forall g | 0 <= g < NUM && Live(t.reqs, g) ensures ReqOk(t, g) {
      if g != h { SubmitOthers(d, buf, write, block, h, i, j, g); }
    }
    forall a | 0 <= a < NUM ensures OwnerOk(t, a) {
      assert OwnerOk(d, a);
      SubmitOwner(d, buf, write, block, h, i, j, a);
    }
  }

  lemma SubmitOwner(d: Disk, buf: nat, write: bool, block: nat, h: nat, i: nat, j: nat, a: nat)
    requires Sized(d) && h < NUM && i < NUM && j < NUM && a < NUM && OwnerOk(d, a) && !Live(d.reqs, h)
    ensures OwnerOk(Submitted(d, buf, write, block, h, i, j), a)
  {
  }

  lemma SubmitOthers(d: Disk, buf: nat, write: bool, block: nat, h: nat, i: nat, j: nat, g: nat)
    requires Sized(d) && buf !in d.holder && h < NUM && i < NUM && j < NUM && g < NUM
    requires OwnerOk(d, h) && OwnerOk(d, i) && OwnerOk(d, j)
    requires d.free[h] && d.free[i] && d.free[j] && g != h && Live(d.reqs, g) && ReqOk(d, g)
    ensures ReqOk(Submitted(d, buf, write, block, h, i, j), g)
  {
  }

  lemma SubmitKeeps(d: Disk, buf: nat, write: bool, block: nat, h: nat, i: nat, j: nat)
    requires Sized(d) && Inv(d) && buf !in d.holder && h < NUM && i < NUM && j < NUM
    requires d.free[h] && d.free[i] && d.free[j] && h != i && h != j && i != j
    ensures Inv(Submitted(d, buf, write, block, h, i, j))
  {
    hide Chains, Window, Covers;
    var t := Submitted(d, buf, write, block, h, i, j);
    SubmitChains(d, buf, write, block, h, i, j);
    WindowBound(d);
    ModChain(|d.published|);
    ModStep(|d.published|);
    Push(d.avail, d.published, d.taken, d.reqs, t.reqs, Queued, h);
    Other(d.usedRing, d.completed, d.handled, d.reqs, t.reqs, Used, h);
  }

  lemma StarveKeeps(d: Disk)
    requires Sized(d) && Inv(d) && Alloc3(d.free).None?
    ensures Inv(d.(desc := Nulled(d.desc, Take(d.free, 3).0)))
  {
    hide Chains, Queues, Counters, Logs, Take;
    var idx := Take(d.free, 3).0;
    TakeFacts(d.free, 3);
    var t := d.(desc := Nulled(d.desc, idx));
    assert forall i :: 0 <= i < NUM && !d.free[i] ==> t.desc[i] == d.desc[i];
    StarveChains(d, t);
    SameQueues(d, t);
  }

  lemma StarveChains(d: Disk, t: Disk)
    requires Chains(d) && Sized(t) && t == d.(desc := t.desc)
    requires forall i :: 0 <= i < NUM && !d.free[i] ==> t.desc[i] == d.desc[i]
    ensures Chains(t)
  {
    hide FreeCount, ReqCount;
    forall g | 0 <= g < NUM && Live(t.reqs, g) ensures ReqOk(t, g) {
      assert ReqOk(d, g);
      var r := d.reqs[g].value;
      assert OwnerOk(d, g) && OwnerOk(d, r.d1) && OwnerOk(d, r.d2);
    }
    forall i | 0 <= i < NUM ensures OwnerOk(t, i) { assert OwnerOk(d, i); }
  }

  lemma SameQueues(d: Disk, t: Disk)
    requires Queues(d) && Counters(d) && Logs(d) && t == d.(desc := t.desc)
    ensures Queues(t) && Counters(t) && Logs(t)
  {
    hide Window, Covers;
  }

  lemma FrontOfWindow(ring: seq<nat>, log: seq<nat>, from: nat, reqs: seq<Option<Req>>, phase: Phase)
    requires Window(ring, log, from, reqs, phase) && from < |log|
    ensures InPhase(reqs, log[from], phase) && ring[from % NUM] == log[from]
  {
  }

  lemma WindowLimits(d: Disk)
    requires Queues(d)
    ensures d.taken <= |d.published| && d.handled <= |d.completed| && |d.avail| == |d.usedRing| == NUM
  {
  }

  lemma TakeKeeps(d: Disk)
    requires Sized(d) && Inv(d) && CanTake(d)
    ensures Inv(Taken(d))
  {
    hide Chains, Window, Covers;
    var t := Taken(d);
    WindowLimits(d);
    ModChain(d.taken);
    ModStep(d.taken);
    FrontOfWindow(d.avail, d.published, d.taken, d.reqs, Queued);
    var h := d.published[d.taken];
    assert d.avail[d.devSeen % NUM] == h;
    PhaseChains(d, t, h, Working);
    Pop(d.avail, d.published, d.taken, d.reqs, t.reqs, Queued);
    Other(d.usedRing, d.completed, d.handled, d.reqs, t.reqs, Used, h);
  }

  lemma CompleteKeeps(d: Disk, h: nat)
    requires Sized(d) && Inv(d) && CanComplete(d, h)
    ensures Inv(Completed(d, h))
  {
    hide Chains, Window, Covers;
    var t := Completed(d, h);
    WindowLimits(d);
    ModChain(|d.completed|);
    ModStep(|d.completed|);
    WindowBound(d);
    assert InPhase(d.reqs, h, Working);
    PhaseChains(d, t, h, Used);
    Push(d.usedRing, d.completed, d.handled, d.reqs, t.reqs, Used, h);
    Other(d.avail, d.published, d.taken, d.reqs, t.reqs, Queued, h);
  }

  lemma ReqFacts(d: Disk, h: nat)
    requires Chains(d) && Live(d.reqs, h)
    ensures d.info[h] == Some(d.reqs[h].value.buf)
    ensures d.reqs[h].value.buf in d.busy <==> d.reqs[h].value.phase != Done
  {
    assert ReqOk(d, h);
  }

  lemma HandleKeeps(d: Disk)
    requires Sized(d) && Inv(d) && CanHandle(d)
    ensures Inv(Handled(d))
  {
    hide Chains, Window, Covers;
    var t := Handled(d);
    WindowLimits(d);
    ModChain(|d.completed|);
    SlotStep(d.handled);
    FrontOfWindow(d.usedRing, d.completed, d.handled, d.reqs, Used);
    var h := d.completed[d.handled];
    assert d.usedRing[d.seen] == h;
    ReqFacts(d, h);
    PhaseChains(d, t, h, Done);
    Pop(d.usedRing, d.completed, d.handled, d.reqs, t.reqs, Used);
    Other(d.avail, d.published, d.taken, d.reqs, t.reqs, Queued, h);
    assert t.clearedBufs == t.completedBufs[..t.handled];
  }

  /** free_chain on an intact chain frees its three descriptors and touches nothing else. */
  lemma {:induction false} FreeWalkThree(free: seq<bool>, desc: seq<Desc>, h: nat, i: nat, j: nat)
    requires |free| == |desc| == NUM && h < NUM && i < NUM && j < NUM && h != i && h != j && i != j
    requires desc[h].more && desc[h].next == i && desc[i].more && desc[i].next == j && !desc[j].more
    ensures var (f, ds) := FreeWalk(free, desc, h, NUM);
            && f == free[h := true][i := true][j := true]
            && (forall k :: 0 <= k < NUM && k != h && k != i && k != j ==> ds[k] == desc[k])
            && (forall k :: k in {h, i, j} ==> ds[k] == desc[k].(addr := Null))
  {
    var f1, d1 := free[h := true], desc[h := desc[h].(addr := Null)];
    var f2, d2 := f1[i := true], d1[i := d1[i].(addr := Null)];
    assert FreeWalk(free, desc, h, NUM) == FreeWalk(f1, d1, i, NUM - 1);
    assert FreeWalk(f1, d1, i, NUM - 1) == FreeWalk(f2, d2, j, NUM - 2);
  }

  lemma FinishParts(d: Disk, h: nat)
    requires Chains(d) && CanFinish(d, h)
    ensures var t, r := Finished(d, h), d.reqs[h].value;
            && Sized(t) && r.phase == Done && r.d1 < NUM && r.d2 < NUM && t.free == d.free[h := true][r.d1 := true][r.d2 := true]
            && (forall k :: 0 <= k < NUM && k != h && k != r.d1 && k != r.d2 ==> t.desc[k] == d.desc[k])
            && FreeCount(t.free) + 3 * ReqCount(t.reqs) == NUM
  {
    hide FreeCount, ReqCount, FreeWalk;
    var r := d.reqs[h].value;
    assert ReqOk(d, h) && OwnerOk(d, h) && OwnerOk(d, r.d1) && OwnerOk(d, r.d2);
    FreeWalkThree(d.free, d.desc, h, r.d1, r.d2);
    ReqCountUpdate(d.reqs, h, None);
    FreeCountUpdate(d.free, h, true);
    FreeCountUpdate(d.free[h := true], r.d1, true);
    FreeCountUpdate(d.free[h := true][r.d1 := true], r.d2, true);
  }

  lemma FinishChains(d: Disk, h: nat)
    requires Chains(d) && CanFinish(d, h)
    ensures Chains(Finished(d, h)) && d.reqs[h].value.phase == Done
  {
    hide FreeCount, ReqCount, FreeWalk, OwnerOk;
    var t := Finished(d, h);
    FinishParts(d, h);
    assert ReqOk(d, h);
    forall g | 0 <= g < NUM && Live(t.reqs, g) ensures ReqOk(t, g) {
      assert ReqOk(d, g);
      FinishOthers(d, t, h, g);
    }
    forall i | 0 <= i < NUM ensures OwnerOk(t, i) {
      assert OwnerOk(d, i);
      FinishOwner(d, t, h, i);
    }
  }

  lemma FinishOwner(d: Disk, t: Disk, h: nat, i: nat)
    requires Sized(d) && Sized(t) && i < NUM && Live(d.reqs, h) && ReqOk(d, h) && OwnerOk(d, i)
    requires var r := d.reqs[h].value; t.free == d.free[h := true][r.d1 := true][r.d2 := true]
    requires t.reqs == d.reqs[h := None] && t.owner == Disowned(d.owner, h)
    ensures OwnerOk(t, i)
  {
  }

  lemma FinishOthers(d: Disk, t: Disk, h: nat, g: nat)
    requires Sized(d) && Sized(t) && Live(d.reqs, h) && Live(d.reqs, g) && g != h && ReqOk(d, h) && ReqOk(d, g)
    requires var r := d.reqs[h].value; forall k :: 0 <= k < NUM && k != h && k != r.d1 && k != r.d2 ==> t.desc[k] == d.desc[k]
    requires t.info == d.info[h := None] && t.reqs == d.reqs[h := None] && t.owner == Disowned(d.owner, h)
    requires t.holder == d.holder - {d.reqs[h].value.buf} && t.busy == d.busy
    ensures ReqOk(t, g)
  {
  }

  lemma FinishKeeps(d: Disk, h: nat)
    requires Sized(d) && Inv(d) && CanFinish(d, h)
    ensures Inv(Finished(d, h))
  {
    hide Chains, Window, Covers, FreeWalk;
    var t := Finished(d, h);
    WindowLimits(d);
    FinishChains(d, h);
    forall k | d.handled <= k < |d.completed| ensures d.completed[k] != h {
      UsedNotDone(d, k);
    }
    Other(d.avail, d.published, d.taken, d.reqs, t.reqs, Queued, h);
    Other(d.usedRing, d.completed, d.handled, d.reqs, t.reqs, Used, h);
  }

  lemma UsedNotDone(d: Disk, k: nat)
    requires Queues(d) && d.handled <= k < |d.completed|
    ensures InPhase(d.reqs, d.completed[k], Used)
  {
  }

  lemma StepKeeps(d: Disk, e: Step)
    requires Sized(d) && Inv(d) && Apply(d, e).Some?
    ensures Inv(Apply(d, e).value)
  {
    hide Inv, Taken, Completed, Handled, Finished, CanTake, CanHandle, CanComplete, CanFinish, Take;
    match e
    case Submit(buf, write, block) =>
      Alloc3Facts(d.free);
      var idx := Alloc3(d.free).value;
      SubmitKeeps(d, buf, write, block, idx[0], idx[1], idx[2]);
    case Starve => StarveKeeps(d);
    case TakeAvail => TakeKeeps(d);
    case Complete(h) => CompleteKeeps(d, h);
    case Handle => HandleKeeps(d);
    case Finish(h) => FinishKeeps(d, h);
  }

  // ----- whole runs

  ghost predicate IsRun(run: seq<Disk>) {
    && |run| > 0 && Initial(run[0])
    && (forall k :: 0 <= k < |run| - 1 ==> Sized(run[k]) && exists e :: Apply(run[k], e) == Some(run[k + 1]))
  }

  lemma {:induction false} FreeCountAll(free: seq<bool>)
    requires forall i :: 0 <= i < |free| ==> free[i]
    ensures FreeCount(free) == |free|
  {
    if free != [] { FreeCountAll(free[..|free| - 1]); }
  }

  lemma {:induction false} ReqCountNone(reqs: seq<Option<Req>>)
    requires forall i :: 0 <= i < |reqs| ==> reqs[i] == None
    ensures ReqCount(reqs) == 0
  {
    if reqs != [] { ReqCountNone(reqs[..|reqs| - 1]); }
  }

  lemma InitialInv(d: Disk)
    requires Initial(d)
    ensures Inv(d)
  {
    hide FreeCount, ReqCount;
    FreeCountAll(d.free);
    ReqCountNone(d.reqs);
  }

  lemma {:induction false} RunInv(run: seq<Disk>, k: nat)
    requires IsRun(run) && k < |run|
    ensures Sized(run[k]) && Inv(run[k])
  {
    hide Inv, Apply;
    if k == 0 {
      InitialInv(run[0]);
    } else {
      RunInv(run, k - 1);
      var j := k - 1;
      assert Sized(run[j]) && exists e :: Apply(run[j], e) == Some(run[j + 1]);
      var e :| Apply(run[j], e) == Some(run[j + 1]);
      StepKeeps(run[j], e);
    }
    InvSized(run[k]);
  }

  lemma InvSized(d: Disk)
    requires Inv(d)
    ensures Sized(d)
  {
  }

  /** In-flight requests own disjoint, intact three-descriptor chains that say what was asked, and
      with the free descriptors they account for all eight. */
  lemma ChainsSafe(run: seq<Disk>, k: nat, h: nat)
    requires IsRun(run) && k < |run| && Live(run[k].reqs, h)
    ensures var d := run[k]; var r := d.reqs[h].value;
            && Sized(d) && IsChain(d.free, d.desc, [h, r.d1, r.d2]) && r.d1 < NUM && r.d2 < NUM
            && d.desc[h].addr == Header(r.write, r.sector) && d.desc[r.d1].addr == BufData(r.buf)
            && d.desc[r.d2].addr == StatusOf(h)
            && (d.desc[r.d1].devWrites <==> !r.write)
            && (forall g, i :: 0 <= g < NUM && g != h && Live(d.reqs, g) && Uses(h, r, i) ==>
                  !Uses(g, d.reqs[g].value, i) && d.reqs[g].value.buf != r.buf)
            && FreeCount(d.free) + 3 * ReqCount(d.reqs) == NUM
  {
    hide Queues, Counters, Logs, IsRun, FreeCount, ReqCount;
    RunInv(run, k);
    var d := run[k];
    var r := d.reqs[h].value;
    assert ReqOk(d, h) && OwnerOk(d, h) && OwnerOk(d, r.d1) && OwnerOk(d, r.d2);
    var c := [h, r.d1, r.d2];
    assert c[0] == h && c[1] == r.d1 && c[2] == r.d2;
    forall g, i | 0 <= g < NUM && g != h && Live(d.reqs, g) && Uses(h, r, i)
      ensures !Uses(g, d.reqs[g].value, i) && d.reqs[g].value.buf != r.buf
    {
      assert ReqOk(d, g);
    }
  }

  /** Publishing never lands on an entry the device has not read, and the 16-bit and modulo-8
      comparisons tell exactly whether something is pending, across every wrap. */
  ghost predicate RingsExact(d: Disk) {
    && 0 <= |d.published| - d.taken <= 2 && 0 <= |d.completed| - d.handled <= 2
    && (forall a :: d.taken <= a < |d.published| ==> a % NUM != d.availIdx % NUM)
    && (forall a :: d.handled <= a < |d.completed| ==> a % NUM != d.usedIdx % NUM)
    && (d.devSeen == d.availIdx <==> d.taken == |d.published|)
    && (d.seen % NUM == d.usedIdx % NUM <==> d.handled == |d.completed|)
  }

  lemma CountersExact(d: Disk)
    requires Counters(d)
    requires 0 <= |d.published| - d.taken <= 2 && 0 <= |d.completed| - d.handled <= 2
    ensures RingsExact(d)
  {
    ModChain(|d.published|);
    ModChain(|d.completed|);
    if d.taken < |d.published| { SlotsDiffer(d.taken, |d.published|); }
    if d.handled < |d.completed| { SlotsDiffer(d.handled, |d.completed|); }
    forall a | d.taken <= a < |d.published| ensures a % NUM != d.availIdx % NUM { SlotsDiffer(a, |d.published|); }
    forall a | d.handled <= a < |d.completed| ensures a % NUM != d.usedIdx % NUM { SlotsDiffer(a, |d.completed|); }
  }

  lemma RingsSafe(run: seq<Disk>, k: nat)
    requires IsRun(run) && k < |run|
    ensures RingsExact(run[k])
  {
    hide Chains, Queues, IsRun, Logs, Counters, RingsExact;
    RunInv(run, k);
    WindowBound(run[k]);
    WindowLimits(run[k]);
    CountersExact(run[k]);
  }

  /** Each completion is handled once, in order, and clears the buffer that submitted it: the
      buffers cleared so far are a prefix of the buffers completed so far, and what is left is
      pending. A waiting submitter is released exactly when its own completion was handled. */
  lemma CompletionsSafe(run: seq<Disk>, k: nat)
    requires IsRun(run) && k < |run|
    ensures var d := run[k];
            && d.handled <= |d.completed| == |d.completedBufs|
            && d.clearedBufs == d.completedBufs[..d.handled]
            && (forall h: nat :: Live(d.reqs, h) ==> (d.reqs[h].value.buf in d.busy <==> d.reqs[h].value.phase != Done))
            && (forall h :: InPhase(d.reqs, h, Used) ==> InLog(d.completed, d.handled, h))
            && (forall h :: InPhase(d.reqs, h, Queued) ==> InLog(d.published, d.taken, h))
            && (forall h :: InPhase(d.reqs, h, Working) ==> h in d.working)
  {
    hide Chains, Window, IsRun;
    RunInv(run, k);
    forall h: nat | Live(run[k].reqs, h)
      ensures run[k].reqs[h].value.buf in run[k].busy <==> run[k].reqs[h].value.phase != Done
    {
      ReqFacts(run[k], h);
    }
  }

  /** The guards that look for a missing request never fire: a device or handler step is refused
      only when there is nothing for it to do. */
  lemma NothingStuck(run: seq<Disk>, k: nat)
    requires IsRun(run) && k < |run|
    ensures Sized(run[k])
    ensures CanTake(run[k]) <==> run[k].taken < |run[k].published|
    ensures CanHandle(run[k]) <==> run[k].handled < |run[k].completed|
    ensures forall h :: h in run[k].working ==> CanComplete(run[k], h)
    ensures forall h :: InPhase(run[k].reqs, h, Done) ==> CanFinish(run[k], h)
  {
    hide Chains, Window, Covers, IsRun, Logs;
    RunInv(run, k);
    RingsSafe(run, k);
    var d := run[k];
    ModChain(d.taken);
    if d.taken < |d.published| { FrontOfWindow(d.avail, d.published, d.taken, d.reqs, Queued); }
    if d.handled < |d.completed| {
      FrontOfWindow(d.usedRing, d.completed, d.handled, d.reqs, Used);
      ReqFacts(d, d.completed[d.handled]);
    }
    forall h | InPhase(d.reqs, h, Done) ensures CanFinish(d, h) { ReqFacts(d, h); }
  }
}
