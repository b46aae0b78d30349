/** What a disk request asks of the device and when its caller returns, over whole runs of Virtio and
    from the arguments of virtio_disk_rw. */
module Requests {
  import opened Base
  import opened Virtio

  /** A run with the steps it takes. */
  ghost predicate Traced(run: seq<Disk>, steps: seq<Step>) {
    && |run| == |steps| + 1 && Initial(run[0])
    && forall k :: 0 <= k < |steps| ==> Takes(run[k], steps[k], run[k + 1])
  }

  ghost predicate Takes(d: Disk, e: Step, t: Disk) { Sized(d) && Apply(d, e) == Some(t) }

  lemma {:induction false} TracedInv(run: seq<Disk>, steps: seq<Step>, k: nat)
    requires Traced(run, steps) && k < |run|
    ensures Inv(run[k]) && Sized(run[k])
  {
    hide Initial, Inv, Apply;
    if k == 0 {
      InitialInv(run[0]);
    } else {
      var j := k - 1;
      TracedInv(run, steps, j);
      assert Takes(run[j], steps[j], run[j + 1]);
      StepKeeps(run[j], steps[j]);
    }
    InvSized(run[k]);
  }

  // ----- what the device reads

  /** The descriptors behind h, followed from one to the next, ask for this transfer and belong to nobody else. */
  predicate Says(d: Disk, h: nat, buf: nat, write: bool, block: nat) {
    && Sized(d) && h < NUM && d.desc[h].next < NUM && d.desc[d.desc[h].next].next < NUM
    && var i, j := d.desc[h].next, d.desc[d.desc[h].next].next;
       && h != i && h != j && i != j && !d.free[h] && !d.free[i] && !d.free[j]
       && d.desc[h].addr == Header(write, 2 * block % 0x1_0000_0000) && d.desc[h].len == 16 && d.desc[h].more && !d.desc[h].devWrites
       && d.desc[i].addr == BufData(buf) && d.desc[i].len == 1024 && d.desc[i].more && (d.desc[i].devWrites <==> !write)
       && d.desc[j].addr == StatusOf(h) && d.desc[j].len == 1 && !d.desc[j].more && d.desc[j].devWrites
       && d.info[h] == Some(buf)
  }

  /** The request recorded for h is the caller's. */
  predicate Recorded(d: Disk, h: nat, buf: nat, write: bool, block: nat) {
    && Live(d.reqs, h) && d.reqs[h].value.buf == buf && d.reqs[h].value.write == write
    && d.reqs[h].value.sector == 2 * block % 0x1_0000_0000
  }

  lemma SaysSo(d: Disk, h: nat, buf: nat, write: bool, block: nat)
    requires Chains(d) && Recorded(d, h, buf, write, block)
    ensures Says(d, h, buf, write, block) && buf in d.holder && d.holder[buf] == h
  {
    hide FreeCount, ReqCount;
    var r := d.reqs[h].value;
    assert ReqOk(d, h) && OwnerOk(d, h) && OwnerOk(d, r.d1) && OwnerOk(d, r.d2);
  }

  lemma InvChains(d: Disk)
    requires Inv(d)
    ensures Chains(d)
  {
  }

  lemma SubmitIs(d: Disk, buf: nat, write: bool, block: nat)
    requires Sized(d) && Chains(d) && Apply(d, Submit(buf, write, block)).Some?
    ensures var t := Apply(d, Submit(buf, write, block)).value;
            && buf in t.holder && t.holder[buf] < NUM && d.free[t.holder[buf]] && buf !in d.holder
            && exists i, j :: 0 <= i < NUM && 0 <= j < NUM && t == Submitted(d, buf, write, block, t.holder[buf], i, j)
  {
    hide Chains, Take;
    Alloc3Facts(d.free);
    var idx := Alloc3(d.free).value;
    var t := Apply(d, Submit(buf, write, block)).value;
    assert t == Submitted(d, buf, write, block, idx[0], idx[1], idx[2]);
  }

  lemma FreeIsIdle(d: Disk, h: nat)
    requires Chains(d) && h < NUM && d.free[h]
    ensures !Live(d.reqs, h)
  {
    assert OwnerOk(d, h);
    assert Live(d.reqs, h) ==> ReqOk(d, h);
  }

  lemma SubmitRecords(d: Disk, buf: nat, write: bool, block: nat)
    requires Sized(d) && Chains(d) && Apply(d, Submit(buf, write, block)).Some?
    ensures var t := Apply(d, Submit(buf, write, block)).value;
            && buf in t.holder && t.holder[buf] < |d.reqs| && Recorded(t, t.holder[buf], buf, write, block) && t.reqs[t.holder[buf]].value.phase == Queued
            && t.published == d.published + [t.holder[buf]] && buf !in d.holder && !Live(d.reqs, t.holder[buf])
            && t.taken == d.taken && t.working == d.working && t.completed == d.completed && t.completedBufs == d.completedBufs
            && t.handled == d.handled && t.reqs == d.reqs[t.holder[buf] := t.reqs[t.holder[buf]]]
  {
    hide Chains, Apply;
    SubmitIs(d, buf, write, block);
    var t := Apply(d, Submit(buf, write, block)).value;
    FreeIsIdle(d, t.holder[buf]);
  }

  /** A request is put to the device as its caller asked for it. */
  lemma SubmitSays(d: Disk, buf: nat, write: bool, block: nat)
    requires Sized(d) && Inv(d) && Apply(d, Submit(buf, write, block)).Some?
    ensures var t := Apply(d, Submit(buf, write, block)).value;
            buf in t.holder && Says(t, t.holder[buf], buf, write, block)
  {
    hide Inv, Apply, Recorded, Says;
    InvChains(d);
    SubmitRecords(d, buf, write, block);
    var t := Apply(d, Submit(buf, write, block)).value;
    StepKeeps(d, Submit(buf, write, block));
    InvChains(t);
    SaysSo(t, t.holder[buf], buf, write, block);
  }

  // ----- what the other steps leave alone

  predicate SameAsked(a: Req, b: Req) { a.buf == b.buf && a.write == b.write && a.sector == b.sector }

  /** What may happen to request h in a step other than its own end. */
  ghost predicate Advances(e: Step, h: nat, a: Phase, b: Phase) {
    if e == Complete(h) then a == Working && b == Used
    else b == a || (e == TakeAvail && a == Queued && b == Working) || (e == Handle && a == Used && b == Done)
  }

  lemma ReqStays(d: Disk, e: Step, h: nat)
    requires Sized(d) && Inv(d) && Apply(d, e).Some? && Live(d.reqs, h) && e != Finish(h)
    ensures var t := Apply(d, e).value;
            Live(t.reqs, h) && SameAsked(t.reqs[h].value, d.reqs[h].value) && Advances(e, h, d.reqs[h].value.phase, t.reqs[h].value.phase)
  {
    hide Chains, Window, Covers, Logs, Apply;
    match e
    case Submit(buf, write, block) =>
      SubmitRecords(d, buf, write, block);
    case Starve => StepIs(d, e);
    case TakeAvail =>
      StepIs(d, e);
      WindowLimits(d);
      FrontTaken(d);
    case Complete(g) => StepIs(d, e);
    case Handle =>
      StepIs(d, e);
      FrontUsed(d);
    case Finish(g) => StepIs(d, e);
  }

  lemma StepIs(d: Disk, e: Step)
    requires Sized(d) && Apply(d, e).Some? && !e.Submit?
    ensures var t := Apply(d, e).value;
            match e
            case Starve => t == d.(desc := t.desc)
            case TakeAvail => CanTake(d) && t == Taken(d)
            case Complete(g) => CanComplete(d, g) && t == Completed(d, g)
            case Handle => CanHandle(d) && t == Handled(d)
            case Finish(g) => CanFinish(d, g) && t == Finished(d, g)
            case _ => true
  {
  }

  lemma FrontTaken(d: Disk)
    requires Sized(d) && Inv(d) && CanTake(d)
    ensures d.taken < |d.published| && d.avail[d.devSeen % NUM] == d.published[d.taken]
    ensures InPhase(d.reqs, d.published[d.taken], Queued) && d.published[d.taken] !in d.working
  {
    hide Chains, Window, Covers, Logs;
    WindowLimits(d);
    ModChain(d.taken);
    FrontOfWindow(d.avail, d.published, d.taken, d.reqs, Queued);
  }

  lemma FrontUsed(d: Disk)
    requires Sized(d) && Inv(d) && CanHandle(d)
    ensures d.handled < |d.completed| && d.usedRing[d.seen] == d.completed[d.handled]
    ensures InPhase(d.reqs, d.completed[d.handled], Used)
  {
    hide Chains, Window, Covers, Logs;
    WindowLimits(d);
    ModChain(|d.completed|);
    FrontOfWindow(d.usedRing, d.completed, d.handled, d.reqs, Used);
  }

  // ----- from the call to its return

  /** No step from m up to k ends the request of head h. */
  ghost predicate Open(steps: seq<Step>, m: nat, k: nat, h: nat) {
    forall n :: m <= n < k && n < |steps| ==> steps[n] != Finish(h)
  }

  /** How often the device has completed head h in the steps from m up to k. */
  function Completions(steps: seq<Step>, m: nat, k: nat, h: nat): nat
    requires k <= |steps|
  {
    if k <= m then 0 else Completions(steps, m, k - 1, h) + if steps[k - 1] == Complete(h) then 1 else 0
  }

  predicate Back(phase: Phase) { phase.Used? || phase.Done? }

  /** Step m submits the request whose head is h. */
  ghost predicate Submits(run: seq<Disk>, steps: seq<Step>, m: nat, h: nat, buf: nat, write: bool, block: nat)
    requires |run| == |steps| + 1
  {
    m < |steps| && steps[m] == Submit(buf, write, block) && buf in run[m + 1].holder && run[m + 1].holder[buf] == h
  }

  lemma {:induction false} RequestAt(run: seq<Disk>, steps: seq<Step>, m: nat, k: nat, h: nat, buf: nat, write: bool, block: nat)
    requires Traced(run, steps) && Submits(run, steps, m, h, buf, write, block) && m < k <= |steps| && Open(steps, m + 1, k, h)
    ensures Recorded(run[k], h, buf, write, block)
    ensures Completions(steps, m + 1, k, h) == if Back(run[k].reqs[h].value.phase) then 1 else 0
  {
    hide Initial, Inv, Apply;
    var n := k - 1;
    assert Takes(run[n], steps[n], run[n + 1]);
    TracedInv(run, steps, n);
    if n == m {
      InvChains(run[m]);
      SubmitRecords(run[m], buf, write, block);
    } else {
      RequestAt(run, steps, m, n, h, buf, write, block);
      ReqStays(run[n], steps[n], h);
    }
  }

  /** From the call to its return the device finds the request as the caller made it. */
  lemma RequestSays(run: seq<Disk>, steps: seq<Step>, m: nat, k: nat, h: nat, buf: nat, write: bool, block: nat)
    requires Traced(run, steps) && Submits(run, steps, m, h, buf, write, block) && m < k <= |steps| && Open(steps, m + 1, k, h)
    ensures Says(run[k], h, buf, write, block) && buf in run[k].holder && run[k].holder[buf] == h
  {
    hide Initial, Inv, Apply, Says, Recorded, Submits, Open;
    RequestAt(run, steps, m, k, h, buf, write, block);
    TracedInv(run, steps, k);
    InvChains(run[k]);
    SaysSo(run[k], h, buf, write, block);
  }

  /** virtio_disk_rw returns exactly when the device has completed its request, once, and the interrupt
      handler has let the buffer go. */
  lemma {:induction false} ReturnsOnce(run: seq<Disk>, steps: seq<Step>, m: nat, k: nat, h: nat, buf: nat, write: bool, block: nat)
    requires Traced(run, steps) && Submits(run, steps, m, h, buf, write, block) && m < k <= |steps| && Open(steps, m + 1, k, h)
    requires Sized(run[k])
    ensures Completions(steps, m + 1, k, h) <= 1
    ensures Apply(run[k], Finish(h)).Some? <==> buf !in run[k].busy
    ensures buf !in run[k].busy ==> Completions(steps, m + 1, k, h) == 1
  {
    hide Initial, Inv, Submits, Open, Chains, Completions, Finished;
    RequestAt(run, steps, m, k, h, buf, write, block);
    TracedInv(run, steps, k);
    InvChains(run[k]);
    ReqFacts(run[k], h);
  }

  // ----- the descriptors are conserved

  /** Submissions so far, less those that have returned. */
  function InFlight(steps: seq<Step>, k: nat): int
    requires k <= |steps|
  {
    if k == 0 then 0
    else InFlight(steps, k - 1) + match steps[k - 1] case Submit(_, _, _) => 1 case Finish(_) => -1 case _ => 0
  }

  lemma CountStep(d: Disk, e: Step)
    requires Sized(d) && Inv(d) && Apply(d, e).Some?
    ensures ReqCount(Apply(d, e).value.reqs) == ReqCount(d.reqs) + match e case Submit(_, _, _) => 1 case Finish(_) => -1 case _ => 0
  {
    hide Chains, Window, Covers, Logs, Apply, Advances;
    var t := Apply(d, e).value;
    match e
    case Submit(buf, write, block) =>
      SubmitRecords(d, buf, write, block);
      ReqCountUpdate(d.reqs, t.holder[buf], t.reqs[t.holder[buf]]);
    case Starve => StepIs(d, e);
    case TakeAvail =>
      StepIs(d, e);
      FrontTaken(d);
      var h := d.published[d.taken];
      ReqCountUpdate(d.reqs, h, t.reqs[h]);
    case Complete(g) =>
      StepIs(d, e);
      ReqCountUpdate(d.reqs, g, t.reqs[g]);
    case Handle =>
      StepIs(d, e);
      FrontUsed(d);
      var h := d.completed[d.handled];
      ReqCountUpdate(d.reqs, h, t.reqs[h]);
    case Finish(g) =>
      StepIs(d, e);
      ReqCountUpdate(d.reqs, g, None);
  }

  lemma {:induction false} InFlightCount(run: seq<Disk>, steps: seq<Step>, k: nat)
    requires Traced(run, steps) && k <= |steps|
    ensures ReqCount(run[k].reqs) == InFlight(steps, k)
  {
    hide Inv, Apply;
    if k == 0 {
      ReqCountNone(run[0].reqs);
    } else {
      var j := k - 1;
      InFlightCount(run, steps, j);
      TracedInv(run, steps, j);
      assert Takes(run[j], steps[j], run[j + 1]);
      CountStep(run[j], steps[j]);
    }
  }

  /** Every call in flight has three descriptors, and the rest are free. */
  lemma {:induction false} DescriptorsConserved(run: seq<Disk>, steps: seq<Step>, k: nat)
    requires Traced(run, steps) && k <= |steps|
    ensures FreeCount(run[k].free) + 3 * InFlight(steps, k) == 8
  {
    hide Initial, Apply, Queues, Counters, Logs;
    InFlightCount(run, steps, k);
    TracedInv(run, steps, k);
  }

  // ----- the order of the two rings

  /** The heads submitted so far, in the order of the calls. */
  function Heads(run: seq<Disk>, steps: seq<Step>, k: nat): seq<nat>
    requires |run| == |steps| + 1 && k <= |steps|
  {
    if k == 0 then []
    else
      var before := Heads(run, steps, k - 1);
      match steps[k - 1]
      case Submit(buf, _, _) => if buf in run[k].holder then before + [run[k].holder[buf]] else before
      case _ => before
  }

  /** The heads the device has completed so far, in its order. */
  function CompletedHeads(steps: seq<Step>, k: nat): seq<nat>
    requires k <= |steps|
  {
    if k == 0 then []
    else
      match steps[k - 1]
      case Complete(h) => CompletedHeads(steps, k - 1) + [h]
      case _ => CompletedHeads(steps, k - 1)
  }

  function Takings(steps: seq<Step>, k: nat): nat
    requires k <= |steps|
  {
    if k == 0 then 0 else Takings(steps, k - 1) + if steps[k - 1] == TakeAvail then 1 else 0
  }

  function Handlings(steps: seq<Step>, k: nat): nat
    requires k <= |steps|
  {
    if k == 0 then 0 else Handlings(steps, k - 1) + if steps[k - 1] == Handle then 1 else 0
  }

  ghost predicate HistoryOk(run: seq<Disk>, steps: seq<Step>, k: nat)
    requires |run| == |steps| + 1 && k <= |steps|
  {
    && run[k].published == Heads(run, steps, k) && run[k].taken == Takings(steps, k)
    && run[k].completed == CompletedHeads(steps, k) && run[k].handled == Handlings(steps, k)
  }

  lemma HistoryStep(run: seq<Disk>, steps: seq<Step>, j: nat)
    requires |run| == |steps| + 1 && j < |steps| && Takes(run[j], steps[j], run[j + 1]) && Inv(run[j]) && HistoryOk(run, steps, j)
    ensures HistoryOk(run, steps, j + 1)
  {
    hide Inv, Apply, Recorded;
    var d, e := run[j], steps[j];
    if e.Submit? {
      InvChains(d);
      SubmitRecords(d, e.buf, e.write, e.block);
    } else {
      StepIs(d, e);
    }
  }

  lemma {:induction false} HistoryRun(run: seq<Disk>, steps: seq<Step>, k: nat)
    requires Traced(run, steps) && k <= |steps|
    ensures HistoryOk(run, steps, k)
  {
    hide Inv, Apply, HistoryOk;
    if k == 0 {
      assert HistoryOk(run, steps, 0) by { HistoryStart(run, steps); }
    } else {
      var j := k - 1;
      HistoryRun(run, steps, j);
      TracedInv(run, steps, j);
      assert Takes(run[j], steps[j], run[j + 1]);
      HistoryStep(run, steps, j);
    }
  }

  lemma HistoryStart(run: seq<Disk>, steps: seq<Step>)
    requires |run| == |steps| + 1 && Initial(run[0])
    ensures HistoryOk(run, steps, 0)
  {
  }

  /** The device takes requests in the order of the calls: its n-th taking starts the n-th submission. */
  lemma TakenInOrder(run: seq<Disk>, steps: seq<Step>, k: nat)
    requires Traced(run, steps) && k < |steps| && steps[k] == TakeAvail
    ensures Takings(steps, k) < |Heads(run, steps, k)|
    ensures var h := Heads(run, steps, k)[Takings(steps, k)]; h !in run[k].working && run[k + 1].working == run[k].working + {h}
  {
    hide Initial, Inv, Apply;
    HistoryRun(run, steps, k);
    TracedInv(run, steps, k);
    assert Takes(run[k], steps[k], run[k + 1]);
    StepIs(run[k], steps[k]);
    FrontTaken(run[k]);
  }

  /** The handler lets buffers go in the order of the completions: its n-th iteration releases the buffer
      that was waiting for the n-th completed head. */
  lemma HandledInOrder(run: seq<Disk>, steps: seq<Step>, k: nat)
    requires Traced(run, steps) && k < |steps| && steps[k] == Handle
    ensures Handlings(steps, k) < |CompletedHeads(steps, k)|
    ensures var h := CompletedHeads(steps, k)[Handlings(steps, k)];
            exists buf :: buf in run[k].holder && run[k].holder[buf] == h && buf in run[k].busy && run[k + 1].busy == run[k].busy - {buf}
  {
    hide Initial, Apply, Chains, Counters, Window, Covers;
    HistoryRun(run, steps, k);
    TracedInv(run, steps, k);
    assert Takes(run[k], steps[k], run[k + 1]);
    StepIs(run[k], steps[k]);
    FrontUsed(run[k]);
    Waits(run[k], run[k].completed[run[k].handled]);
  }

  lemma Waits(d: Disk, h: nat)
    requires Chains(d) && Live(d.reqs, h) && d.reqs[h].value.phase != Done
    ensures d.info[h].Some? && d.info[h].value in d.holder && d.holder[d.info[h].value] == h && d.info[h].value in d.busy
  {
    assert ReqOk(d, h);
  }

  /** A request is taken up exactly when its buffer has none in flight and three descriptors are free;
      otherwise, for lack of descriptors, the caller sleeps. */
  lemma SubmitsIff(d: Disk, buf: nat, write: bool, block: nat)
    requires Sized(d)
    ensures Apply(d, Submit(buf, write, block)).Some? <==> buf !in d.holder && FreeCount(d.free) >= 3
    ensures Apply(d, Starve).Some? <==> FreeCount(d.free) < 3
  {
    Alloc3Facts(d.free);
  }

  /** No free descriptor points anywhere. */
  ghost predicate Blank(d: Disk) {
    Sized(d) && forall i :: 0 <= i < NUM && d.free[i] ==> d.desc[i].addr == Null
  }

  lemma BlankSubmit(d: Disk, e: Step)
    requires Sized(d) && Chains(d) && Blank(d) && e.Submit? && Apply(d, e).Some?
    ensures Blank(Apply(d, e).value)
  {
    hide Chains, Apply;
    SubmitIs(d, e.buf, e.write, e.block);
  }

  lemma BlankFinish(d: Disk, h: nat)
    requires Sized(d) && Chains(d) && Blank(d) && CanFinish(d, h)
    ensures Blank(Finished(d, h))
  {
    hide FreeCount, ReqCount, FreeWalk;
    assert ReqOk(d, h);
    FreeWalkThree(d.free, d.desc, h, d.reqs[h].value.d1, d.reqs[h].value.d2);
  }

  lemma BlankStep(d: Disk, e: Step)
    requires Sized(d) && Chains(d) && Blank(d) && Apply(d, e).Some?
    ensures Blank(Apply(d, e).value)
  {
    hide Chains;
    match e
    case Submit(_, _, _) => BlankSubmit(d, e);
    case Finish(h) =>
      StepIs(d, e);
      BlankFinish(d, h);
    case _ => StepIs(d, e);
  }

  /** Where the descriptor page was zero at the start, no free descriptor ever keeps the address of a
      request that is over. */
  lemma {:induction false} FreeIsBlank(run: seq<Disk>, steps: seq<Step>, k: nat)
    requires Traced(run, steps) && k <= |steps| && Blank(run[0])
    ensures Blank(run[k])
  {
    hide Inv, Apply, Blank, Initial;
    if k > 0 {
      var j := k - 1;
      FreeIsBlank(run, steps, j);
      TracedInv(run, steps, j);
      InvChains(run[j]);
      assert Takes(run[j], steps[j], run[j + 1]);
      BlankStep(run[j], steps[j]);
    }
  }
}
