/** What the calls of SleepWakeup have done by the time they return, over whole runs and from the
    step that begins them: sem_wait and sem_up, sleeplock_acquire and sleeplock_release, pipe_write,
    pipe_read and pipe_close. */
module Calls {
  import opened Base
  import opened Pipe
  import opened Resources
  import opened SleepWakeup

  /** A run with the steps it takes. */
  ghost predicate Traced(run: seq<Sys>, steps: seq<Step>) {
    && |run| == |steps| + 1 && Init(run[0])
    && forall k :: 0 <= k < |steps| ==> Takes(run[k], steps[k], run[k + 1])
  }

  ghost predicate Takes(s: Sys, e: Step, t: Sys) { Shape(s) && Apply(s, e) == Some(t) }

  lemma {:induction false} TracedInv(run: seq<Sys>, steps: seq<Step>, k: nat)
    requires Traced(run, steps) && k < |run|
    ensures Inv(run[k])
  {
    hide Init, Inv, Apply;
    if k == 0 {
      InitInv(run[0]);
    } else {
      var j := k - 1;
      TracedInv(run, steps, j);
      assert Takes(run[j], steps[j], run[j + 1]);
      StepKeeps(run[j], steps[j]);
    }
  }

  // ----- what a process is doing, read off its place

  function Under(pc: Pc): Pc {
    match pc
    case YieldMark(b) => b case Yielding(b) => b case Yielded(b) => b case YieldBack(b) => b
    case _ => pc
  }

  /** In user code, running or preempted there. */
  predicate InUser(pc: Pc) { Under(pc) == User }

  datatype Call = Call(r: nat, op: Op)

  /** The call a process is in and has not carried out, with what is left of it. */
  function Owed(pc: Pc): Option<Call> {
    match Under(pc)
    case Crit(r, op) => Some(Call(r, op))
    case WakeScan(r, _, _, op, next) => if next.SleepOn? then Some(Call(r, op)) else None
    case WakeTest(r, _, _, op, next) => if next.SleepOn? then Some(Call(r, op)) else None
    case SleepTake(r, _, op) => Some(Call(r, op))
    case SleepDrop(r, _, op) => Some(Call(r, op))
    case SleepMark(r, _, op) => Some(Call(r, op))
    case Parking(r, _, op) => Some(Call(r, op))
    case Parked(r, _, op) => Some(Call(r, op))
    case Resumed(r, op) => Some(Call(r, op))
    case Retake(r, op) => Some(Call(r, op))
    case _ => None
  }

  // ----- the call a process began last, and what it did to pipes since

  function LastCall(steps: seq<Step>, p: nat): Option<Call> {
    if steps == [] then None
    else
      match steps[|steps| - 1]
      case Begin(q, r, op) => if q == p then Some(Call(r, op)) else LastCall(steps[..|steps| - 1], p)
      case _ => LastCall(steps[..|steps| - 1], p)
  }

  /** What a step appended to `sent`, or to `received`, of the pipe r. */
  function Sent(s: Sys, r: nat): seq<byte> {
    if r < |s.res| && s.res[r].PipeRes? then s.res[r].pipe.sent else []
  }

  function Received(s: Sys, r: nat): seq<byte> {
    if r < |s.res| && s.res[r].PipeRes? then s.res[r].pipe.received else []
  }

  function Beyond(a: seq<byte>, b: seq<byte>): seq<byte> { if |a| <= |b| then b[|a|..] else [] }

  /** The bytes p has put into pipe r since it began its last call. */
  function Wrote(run: seq<Sys>, steps: seq<Step>, k: nat, p: nat, r: nat): seq<byte>
    requires |run| == |steps| + 1 && k <= |steps|
  {
    if k == 0 || (steps[k - 1].Begin? && steps[k - 1].p == p) then []
    else if steps[k - 1] == Go(p) then Wrote(run, steps, k - 1, p, r) + Beyond(Sent(run[k - 1], r), Sent(run[k], r))
    else Wrote(run, steps, k - 1, p, r)
  }

  /** The bytes p has taken out of pipe r since it began its last call. */
  function Took(run: seq<Sys>, steps: seq<Step>, k: nat, p: nat, r: nat): seq<byte>
    requires |run| == |steps| + 1 && k <= |steps|
  {
    if k == 0 || (steps[k - 1].Begin? && steps[k - 1].p == p) then []
    else if steps[k - 1] == Go(p) then Took(run, steps, k - 1, p, r) + Beyond(Received(run[k - 1], r), Received(run[k], r))
    else Took(run, steps, k - 1, p, r)
  }

  // ----- one step

  /** All that a step does to the process that takes it, as far as calls are concerned: nothing, the
      beginning of a call, or a critical section. */
  ghost predicate Quiet(s: Sys, t: Sys, p: nat)
  {
    && |t.procs| == |s.procs| && t.res == s.res
    && forall q :: 0 <= q < |s.procs| ==> Owed(t.procs[q].pc) == Owed(s.procs[q].pc) && t.procs[q].holds == s.procs[q].holds
  }

  lemma QuietGo(s: Sys, p: nat)
    requires Inv(s) && p < |s.procs| && Apply(s, Go(p)).Some? && !s.procs[p].pc.Crit?
    ensures Quiet(s, Apply(s, Go(p)).value, p)
  {
    hide LocksOk, ResOk, SleepersOk, HoldersOk, Critical;
    assert StateOk(s.procs[p]) && PcShape(s.res, |s.procs|, s.procs[p].pc);
  }

  lemma QuietSwitch(s: Sys, e: Step)
    requires Inv(s) && Apply(s, e).Some? && !e.Begin? && !e.Go?
    ensures Quiet(s, Apply(s, e).value, e.p)
  {
    hide LocksOk, ResOk, SleepersOk, HoldersOk, GoStep, PcShape;
    if e.p < |s.procs| { assert StateOk(s.procs[e.p]); }
  }

  lemma QuietStep(s: Sys, e: Step)
    requires Inv(s) && Apply(s, e).Some? && !e.Begin? && (e.Go? ==> e.p < |s.procs| && !s.procs[e.p].pc.Crit?)
    ensures Quiet(s, Apply(s, e).value, e.p)
  {
    hide LocksOk, ResOk, SleepersOk, HoldersOk, GoStep, Quiet;
    if e.Go? { QuietGo(s, e.p); } else { QuietSwitch(s, e); }
  }

  function Min(a: nat, b: nat): nat { if a <= b then a else b }

  /** The open ends of a pipe stay as they are, or close. */
  predicate NotReopened(p: PipeState, q: PipeState) {
    (p.readopen || !q.readopen) && (p.writeopen || !q.writeopen)
  }

  /** What one critical section may do to its object, and what it leaves of the call. */
  ghost predicate Does(res: Res, op: Op, me: nat, after: Res, left: Option<Op>) {
    match op
    case SemWait =>
      res.Sem? && after.Sem? &&
      (if res.value == 0 then after == res && left == Some(op)
       else after == res.(value := res.value - 1, downs := res.downs + 1) && left == None)
    case SemUp => res.Sem? && after.Sem? && after == res.(value := res.value + 1, ups := res.ups + 1) && left == None
    case LockAcquire =>
      res.SleepLock? && (if res.locked then after == res && left == Some(op) else after == SleepLock(true, me) && left == None)
    case LockRelease => res.SleepLock? && after == SleepLock(false, NO_PID) && left == None
    case PipeWrite(buf) =>
      && res.PipeRes? && after.PipeRes? && res.pipe.sent <= after.pipe.sent && after.pipe.received == res.pipe.received
      && after.pipe.readopen == res.pipe.readopen && after.pipe.writeopen == res.pipe.writeopen
      && (match left
          case Some(PipeWrite(rest)) => buf == Beyond(res.pipe.sent, after.pipe.sent) + rest
          case Some(_) => false
          case None =>
            Beyond(res.pipe.sent, after.pipe.sent) == buf || (Beyond(res.pipe.sent, after.pipe.sent) <= buf && !after.pipe.readopen))
    case PipeRead(len) =>
      && res.PipeRes? && after.PipeRes? && after.pipe.sent == res.pipe.sent && res.pipe.received <= after.pipe.received
      && after.pipe.readopen == res.pipe.readopen && after.pipe.writeopen == res.pipe.writeopen
      && (match left
          case Some(o) => o == op && after == res && Unread(res.pipe) == 0 && res.pipe.writeopen
          case None =>
            && (Unread(res.pipe) > 0 || !res.pipe.writeopen)
            && |Beyond(res.pipe.received, after.pipe.received)| == Min(len, Unread(res.pipe)))
    case PipeClose(writable) =>
      && res.PipeRes? && left == None
      && after == (if writable then PipeRes(res.pipe.(writeopen := false)) else PipeRes(res.pipe.(readopen := false)))
  }

  lemma CriticalDoes(res: Res, op: Op, me: nat)
    requires Fits(res, op) && ResOk(res)
    ensures var o := Critical(res, op, me);
            Does(res, op, me, o.res, if o.next.Exit? then None else Some(o.op))
  {
    match op
    case PipeWrite(buf) =>
      FillFacts(res.pipe, buf);
      var (q, rest) := Fill(res.pipe, buf);
      var k := |buf| - |rest|;
      assert buf == buf[..k] + buf[k..];
      assert Beyond(res.pipe.sent, q.sent) == buf[..k];
    case PipeRead(len) =>
      DrainFacts(res.pipe, len);
    case _ =>
  }

  /** A step inside a critical section: the object and the call change as Does says, and nothing else. */
  ghost predicate Worked(s: Sys, t: Sys, p: nat, r: nat, op: Op) {
    && |t.procs| == |s.procs| && |t.res| == |s.res| && p < |s.procs| && r < |s.res|
    && (forall q :: 0 <= q < |s.procs| && q != p ==> Owed(t.procs[q].pc) == Owed(s.procs[q].pc) && t.procs[q].holds == s.procs[q].holds)
    && (forall x :: 0 <= x < |s.res| && x != r ==> t.res[x] == s.res[x])
    && (Owed(t.procs[p].pc).Some? ==> Owed(t.procs[p].pc).value.r == r && t.procs[p].holds == s.procs[p].holds)
    && Does(s.res[r], op, p, t.res[r], if Owed(t.procs[p].pc).Some? then Some(Owed(t.procs[p].pc).value.op) else None)
    && (Owed(t.procs[p].pc) == None ==>
          t.procs[p].holds == if op.LockAcquire? then s.procs[p].holds + {r} else if op.LockRelease? then s.procs[p].holds - {r} else s.procs[p].holds)
  }

  lemma CritStep(s: Sys, p: nat)
    requires Inv(s) && p < |s.procs| && s.procs[p].pc.Crit? && Apply(s, Go(p)).Some?
    ensures Worked(s, Apply(s, Go(p)).value, p, s.procs[p].pc.r, s.procs[p].pc.op)
  {
    hide LocksOk, ResOk, SleepersOk, HoldersOk, Critical, Does, StateOk;
    var Crit(r, op) := s.procs[p].pc;
    assert PcShape(s.res, |s.procs|, s.procs[p].pc);
    CriticalDoes(s.res[r], op, p);
  }

  lemma BeginStep(s: Sys, e: Step)
    requires Inv(s) && e.Begin? && Apply(s, e).Some?
    ensures var t := Apply(s, e).value;
            && e.p < |s.procs| == |t.procs| && t.res == s.res && e.r < |s.res| && Fits(s.res[e.r], e.op)
            && Owed(s.procs[e.p].pc) == None && Owed(t.procs[e.p].pc) == Some(Call(e.r, e.op)) && t.procs[e.p].holds == s.procs[e.p].holds
            && (forall q :: 0 <= q < |s.procs| && q != e.p ==> t.procs[q] == s.procs[q])
  {
    hide LocksOk, ResOk, SleepersOk, HoldersOk;
  }

  // ----- one call over a run

  /** What is still to be done of a call, given what it has done to its pipe so far. */
  ghost predicate Pending(op: Op, left: Op, wrote: seq<byte>, took: seq<byte>) {
    took == [] &&
    match op
    case PipeWrite(buf) => left.PipeWrite? && buf == wrote + left.buf
    case _ => left == op && wrote == []
  }

  /** What a call has done once it is carried out. `holds` is the process's own set of sleep locks. */
  ghost predicate Finished(res: Res, r: nat, op: Op, holds: set<nat>, wrote: seq<byte>, took: seq<byte>) {
    && (!op.PipeWrite? ==> wrote == []) && (!op.PipeRead? ==> took == [])
    && match op
       case SemWait => res.Sem?
       case SemUp => res.Sem?
       case LockAcquire => res.SleepLock? && r in holds
       case LockRelease => res.SleepLock? && r !in holds
       case PipeWrite(buf) => res.PipeRes? && (wrote == buf || (wrote <= buf && !res.pipe.readopen))
       case PipeRead(len) => res.PipeRes? && |took| <= len
       case PipeClose(writable) => res.PipeRes? && (if writable then !res.pipe.writeopen else !res.pipe.readopen)
  }

  ghost predicate CallOk(run: seq<Sys>, steps: seq<Step>, k: nat, p: nat)
    requires |run| == |steps| + 1 && k <= |steps|
  {
    p < |run[k].procs| &&
    match LastCall(steps[..k], p)
    case None => Owed(run[k].procs[p].pc) == None
    case Some(Call(r, op)) =>
      && r < |run[k].res|
      && match Owed(run[k].procs[p].pc)
         case Some(c) => c.r == r && Pending(op, c.op, Wrote(run, steps, k, p, r), Took(run, steps, k, p, r))
         case None =>
           Finished(run[k].res[r], r, op, run[k].procs[p].holds, Wrote(run, steps, k, p, r), Took(run, steps, k, p, r))
  }

  lemma {:induction false} LastOf(steps: seq<Step>, k: nat, p: nat)
    requires k < |steps|
    ensures LastCall(steps[..k + 1], p) ==
            match steps[k]
            case Begin(q, r, op) => (if q == p then Some(Call(r, op)) else LastCall(steps[..k], p))
            case _ => LastCall(steps[..k], p)
  {
    assert steps[..k + 1][..k] == steps[..k];
  }

  lemma BeyondSelf(a: seq<byte>)
    ensures Beyond(a, a) == []
  {
  }

  /** A finished call stays finished whatever others do. */
  lemma FinishedStays(res: Res, after: Res, other: Op, q: nat, left: Option<Op>, r: nat, op: Op, holds: set<nat>, wrote: seq<byte>, took: seq<byte>)
    requires Finished(res, r, op, holds, wrote, took) && Does(res, other, q, after, left)
    ensures Finished(after, r, op, holds, wrote, took)
  {
  }

  /** The critical section of the call itself. */
  lemma WorkedOn(res: Res, after: Res, op: Op, o: Op, p: nat, left: Option<Op>, r: nat, holds: set<nat>, wrote: seq<byte>, took: seq<byte>)
    requires Pending(op, o, wrote, took) && Does(res, o, p, after, left)
    ensures var w := wrote + (if res.PipeRes? && after.PipeRes? then Beyond(res.pipe.sent, after.pipe.sent) else []);
            var k := took + (if res.PipeRes? && after.PipeRes? then Beyond(res.pipe.received, after.pipe.received) else []);
            match left
            case Some(o') => Pending(op, o', w, k)
            case None =>
              Finished(after, r, op, (if o.LockAcquire? then holds + {r} else if o.LockRelease? then holds - {r} else holds), w, k)
  {
    if res.PipeRes? {
      BeyondSelf(res.pipe.sent);
      BeyondSelf(res.pipe.received);
    }
    match op {
      case PipeWrite(buf) =>
        var add := Beyond(res.pipe.sent, after.pipe.sent);
        if left.Some? { assert wrote + (add + left.value.buf) == wrote + add + left.value.buf; }
        if left == None && add <= o.buf { assert wrote + add <= wrote + o.buf; }
      case _ =>
    }
  }

  lemma SameRes(run: seq<Sys>, steps: seq<Step>, k: nat, p: nat, r: nat)
    requires |run| == |steps| + 1 && k < |steps| && run[k + 1].res == run[k].res && !(steps[k].Begin? && steps[k].p == p)
    ensures Wrote(run, steps, k + 1, p, r) == Wrote(run, steps, k, p, r) && Took(run, steps, k + 1, p, r) == Took(run, steps, k, p, r)
  {
    BeyondSelf(Sent(run[k], r));
    BeyondSelf(Received(run[k], r));
  }

  lemma CallBegins(run: seq<Sys>, steps: seq<Step>, k: nat, p: nat)
    requires Traced(run, steps) && k < |steps| && CallOk(run, steps, k, p) && Inv(run[k]) && steps[k].Begin?
    ensures CallOk(run, steps, k + 1, p)
  {
    hide Inv, Apply, Owed, Finished;
    assert Takes(run[k], steps[k], run[k + 1]);
    BeginStep(run[k], steps[k]);
    LastOf(steps, k, p);
    if steps[k].p != p {
      var last := LastCall(steps[..k], p);
      if last.Some? { SameRes(run, steps, k, p, last.value.r); }
    }
  }

  lemma CallQuiet(run: seq<Sys>, steps: seq<Step>, k: nat, p: nat)
    requires Traced(run, steps) && k < |steps| && CallOk(run, steps, k, p) && Inv(run[k]) && !steps[k].Begin?
    requires steps[k].Go? ==> steps[k].p < |run[k].procs| && !run[k].procs[steps[k].p].pc.Crit?
    ensures CallOk(run, steps, k + 1, p)
  {
    hide Inv, Apply, Owed, Finished, Pending;
    assert Takes(run[k], steps[k], run[k + 1]);
    QuietStep(run[k], steps[k]);
    LastOf(steps, k, p);
    var last := LastCall(steps[..k], p);
    if last.Some? { SameRes(run, steps, k, p, last.value.r); }
  }

  lemma CallWorks(run: seq<Sys>, steps: seq<Step>, k: nat, p: nat)
    requires Traced(run, steps) && k < |steps| && CallOk(run, steps, k, p) && Inv(run[k])
    requires steps[k].Go? && steps[k].p < |run[k].procs| && run[k].procs[steps[k].p].pc.Crit?
    ensures CallOk(run, steps, k + 1, p)
  {
    hide Inv, Apply, Finished, Pending, Does;
    var s, t, q := run[k], run[k + 1], steps[k].p;
    var Crit(x, o) := s.procs[q].pc;
    assert Takes(s, steps[k], t);
    CritStep(s, q);
    LastOf(steps, k, p);
    var last := LastCall(steps[..k], p);
    var left := if Owed(t.procs[q].pc).Some? then Some(Owed(t.procs[q].pc).value.op) else None;
    if last.Some? {
      var Call(r, op) := last.value;
      var wrote, took := Wrote(run, steps, k, p, r), Took(run, steps, k, p, r);
      if q == p {
        assert Owed(s.procs[p].pc) == Some(Call(x, o));
        WorkedOn(s.res[r], t.res[r], op, o, p, left, r, s.procs[p].holds, wrote, took);
        SentIs(s, t, r, o, p, left);
      } else if Owed(s.procs[p].pc) == None && x == r {
        FinishedStays(s.res[r], t.res[r], o, q, left, r, op, s.procs[p].holds, wrote, took);
      }
    }
  }

  lemma SentIs(s: Sys, t: Sys, r: nat, o: Op, p: nat, left: Option<Op>)
    requires r < |s.res| == |t.res| && Does(s.res[r], o, p, t.res[r], left)
    ensures s.res[r].PipeRes? <==> t.res[r].PipeRes?
    ensures Beyond(Sent(s, r), Sent(t, r)) == if s.res[r].PipeRes? then Beyond(s.res[r].pipe.sent, t.res[r].pipe.sent) else []
    ensures Beyond(Received(s, r), Received(t, r)) == if s.res[r].PipeRes? then Beyond(s.res[r].pipe.received, t.res[r].pipe.received) else []
  {
  }

  lemma {:induction false} CallRun(run: seq<Sys>, steps: seq<Step>, k: nat, p: nat)
    requires Traced(run, steps) && k <= |steps| && p < |run[0].procs|
    ensures CallOk(run, steps, k, p)
  {
    hide Init, Inv, Apply, CallOk;
    if k == 0 {
      CallStart(run, steps, p);
    } else {
      var j := k - 1;
      CallRun(run, steps, j, p);
      TracedInv(run, steps, j);
      assert Takes(run[j], steps[j], run[j + 1]);
      InTable(run[j], steps[j]);
      if steps[j].Begin? {
        CallBegins(run, steps, j, p);
      } else if steps[j].Go? && run[j].procs[steps[j].p].pc.Crit? {
        CallWorks(run, steps, j, p);
      } else {
        CallQuiet(run, steps, j, p);
      }
    }
  }

  lemma CallStart(run: seq<Sys>, steps: seq<Step>, p: nat)
    requires |run| == |steps| + 1 && Init(run[0]) && p < |run[0].procs|
    ensures CallOk(run, steps, 0, p)
  {
    assert steps[..0] == [];
  }

  lemma InTable(s: Sys, e: Step)
    requires Shape(s) && Apply(s, e).Some?
    ensures e.p < |s.procs|
  {
  }

  /** Behind p's last Begin. */
  function Since(steps: seq<Step>, p: nat): (n: nat)
    ensures n <= |steps|
  {
    if steps == [] || (steps[|steps| - 1].Begin? && steps[|steps| - 1].p == p) then |steps| else Since(steps[..|steps| - 1], p)
  }

  /** Step m is the one in which p's read took what it took: the smaller of `len` and what was unread,
      which was something unless the write end was closed. */
  ghost predicate TookAt(run: seq<Sys>, steps: seq<Step>, m: nat, p: nat, r: nat, len: nat, took: seq<byte>) {
    && m < |steps| < |run| && steps[m] == Go(p) && r < |run[m].res| && run[m].res[r].PipeRes?
    && (Unread(run[m].res[r].pipe) > 0 || !run[m].res[r].pipe.writeopen)
    && |took| == Min(len, Unread(run[m].res[r].pipe)) && took == Beyond(Received(run[m], r), Received(run[m + 1], r))
  }

  predicate Working(s: Sys, e: Step, p: nat) {
    e == Go(p) && p < |s.procs| && s.procs[p].pc.Crit?
  }

  /** Before any step but the critical section itself the read was done already. */
  lemma ReadBefore(run: seq<Sys>, steps: seq<Step>, j: nat, p: nat, r: nat, len: nat)
    requires Traced(run, steps) && j < |steps| && p < |run[0].procs| && p < |run[j + 1].procs| && !Working(run[j], steps[j], p)
    requires LastCall(steps[..j + 1], p) == Some(Call(r, PipeRead(len))) && Owed(run[j + 1].procs[p].pc) == None
    ensures p < |run[j].procs| && Owed(run[j].procs[p].pc) == None && LastCall(steps[..j], p) == Some(Call(r, PipeRead(len)))
    ensures !(steps[j].Begin? && steps[j].p == p) && Took(run, steps, j + 1, p, r) == Took(run, steps, j, p, r)
  {
    hide Inv, Apply, Finished, Owed, Init;
    var e := steps[j];
    LastOf(steps, j, p);
    assert Takes(run[j], e, run[j + 1]);
    TracedInv(run, steps, j);
    CallRun(run, steps, j, p);
    if e.Begin? {
      BeginStep(run[j], e);
      SameRes(run, steps, j, p, r);
    } else if e.Go? && Working(run[j], e, e.p) {
      CritStep(run[j], e.p);
    } else {
      InTable(run[j], e);
      QuietStep(run[j], e);
      SameRes(run, steps, j, p, r);
    }
  }

  /** The critical section that ends a read. */
  lemma {:induction false} ReadHere(run: seq<Sys>, steps: seq<Step>, j: nat, p: nat, r: nat, len: nat)
    requires Traced(run, steps) && j < |steps| && p < |run[0].procs| && p < |run[j + 1].procs| && Working(run[j], steps[j], p)
    requires LastCall(steps[..j + 1], p) == Some(Call(r, PipeRead(len))) && Owed(run[j + 1].procs[p].pc) == None
    ensures TookAt(run, steps, j, p, r, len, Took(run, steps, j + 1, p, r))
  {
    hide Inv, Apply, Finished, Init;
    LastOf(steps, j, p);
    assert Takes(run[j], steps[j], run[j + 1]);
    TracedInv(run, steps, j);
    CallRun(run, steps, j, p);
    CritStep(run[j], p);
    assert Owed(run[j].procs[p].pc) == Some(Call(run[j].procs[p].pc.r, run[j].procs[p].pc.op)) by { OwedCrit(run[j].procs[p].pc); }
  }

  lemma {:induction false} SinceOf(steps: seq<Step>, j: nat, p: nat)
    requires j < |steps|
    ensures Since(steps[..j + 1], p) == if steps[j].Begin? && steps[j].p == p then j + 1 else Since(steps[..j], p)
  {
    assert steps[..j + 1][..j] == steps[..j];
  }

  lemma {:induction false} ReadStep(run: seq<Sys>, steps: seq<Step>, k: nat, p: nat, r: nat, len: nat) returns (m: nat)
    requires Traced(run, steps) && k <= |steps| && p < |run[0].procs| && p < |run[k].procs|
    requires LastCall(steps[..k], p) == Some(Call(r, PipeRead(len))) && Owed(run[k].procs[p].pc) == None
    ensures Since(steps[..k], p) <= m < k && TookAt(run, steps, m, p, r, len, Took(run, steps, k, p, r))
  {
    hide Init, Apply, Owed, TookAt, Took;
    assert k > 0 by { NoCallYet(steps, p); }
    var j := k - 1;
    SinceOf(steps, j, p);
    if Working(run[j], steps[j], p) {
      ReadHere(run, steps, j, p, r, len);
      m := j;
    } else {
      ReadBefore(run, steps, j, p, r, len);
      m := ReadStep(run, steps, j, p, r, len);
    }
  }

  lemma {:induction false} NoCallYet(steps: seq<Step>, p: nat)
    ensures LastCall(steps[..0], p) == None
  {
  }

  // ----- what the callers of the five objects get

  /** sleeplock_acquire returns with the lock. */
  lemma {:induction false} AcquireReturns(run: seq<Sys>, steps: seq<Step>, k: nat, p: nat, r: nat)
    requires Traced(run, steps) && k <= |steps| && p < |run[0].procs| && p < |run[k].procs|
    requires LastCall(steps[..k], p) == Some(Call(r, LockAcquire)) && InUser(run[k].procs[p].pc)
    ensures r < |run[k].res| && run[k].res[r].SleepLock? && run[k].res[r].locked && run[k].res[r].pid == p
  {
    CallRun(run, steps, k, p);
    TracedInv(run, steps, k);
    assert HoldersOk(run[k], p);
  }

  /** sleeplock_release returns without it. */
  lemma {:induction false} ReleaseReturns(run: seq<Sys>, steps: seq<Step>, k: nat, p: nat, r: nat)
    requires Traced(run, steps) && k <= |steps| && p < |run[0].procs| && p < |run[k].procs|
    requires LastCall(steps[..k], p) == Some(Call(r, LockRelease)) && InUser(run[k].procs[p].pc)
    ensures r < |run[k].res| && run[k].res[r].SleepLock? && !(run[k].res[r].locked && run[k].res[r].pid == p)
  {
    CallRun(run, steps, k, p);
    TracedInv(run, steps, k);
    assert HoldersOk(run[k], p);
  }

  /** pipe_write returns with all of its bytes put in, once each and in order across all its sleeps, or
      with a prefix of them and the read end closed. */
  lemma {:induction false} WriteReturns(run: seq<Sys>, steps: seq<Step>, k: nat, p: nat, r: nat, buf: seq<byte>)
    requires Traced(run, steps) && k <= |steps| && p < |run[0].procs| && p < |run[k].procs|
    requires LastCall(steps[..k], p) == Some(Call(r, PipeWrite(buf))) && InUser(run[k].procs[p].pc)
    ensures r < |run[k].res| && run[k].res[r].PipeRes?
    ensures Wrote(run, steps, k, p, r) == buf || (Wrote(run, steps, k, p, r) <= buf && !run[k].res[r].pipe.readopen)
  {
    CallRun(run, steps, k, p);
  }

  /** pipe_read returns with what it took in a single step: the smaller of `len` and what was unread
      then, and that is nothing only if the write end was closed. */
  lemma {:induction false} ReadReturns(run: seq<Sys>, steps: seq<Step>, k: nat, p: nat, r: nat, len: nat)
    requires Traced(run, steps) && k <= |steps| && p < |run[0].procs| && p < |run[k].procs|
    requires LastCall(steps[..k], p) == Some(Call(r, PipeRead(len))) && InUser(run[k].procs[p].pc)
    ensures exists m :: Since(steps[..k], p) <= m < k && TookAt(run, steps, m, p, r, len, Took(run, steps, k, p, r))
  {
    var m := ReadStep(run, steps, k, p, r, len);
  }

  /** pipe_close returns with its end closed. */
  lemma {:induction false} CloseReturns(run: seq<Sys>, steps: seq<Step>, k: nat, p: nat, r: nat, writable: bool)
    requires Traced(run, steps) && k <= |steps| && p < |run[0].procs| && p < |run[k].procs|
    requires LastCall(steps[..k], p) == Some(Call(r, PipeClose(writable))) && InUser(run[k].procs[p].pc)
    ensures r < |run[k].res| && run[k].res[r].PipeRes? && (if writable then !run[k].res[r].pipe.writeopen else !run[k].res[r].pipe.readopen)
  {
    CallRun(run, steps, k, p);
  }

  // ----- semaphores: every call counts once

  /** How many calls of this kind have been begun. */
  function Begun(steps: seq<Step>, c: Call): nat {
    if steps == [] then 0
    else
      var e := steps[|steps| - 1];
      Begun(steps[..|steps| - 1], c) + (if e.Begin? && Call(e.r, e.op) == c then 1 else 0)
  }

  /** How many processes are in such a call and have not carried it out. */
  function Waiting(procs: seq<Process>, c: Call): nat {
    if procs == [] then 0
    else Waiting(procs[..|procs| - 1], c) + (if Owed(procs[|procs| - 1].pc) == Some(c) then 1 else 0)
  }

  lemma {:induction false} WaitingChanges(a: seq<Process>, b: seq<Process>, p: nat, c: Call)
    requires |a| == |b| && forall q :: 0 <= q < |a| && q != p ==> Owed(a[q].pc) == Owed(b[q].pc)
    ensures p >= |a| ==> Waiting(a, c) == Waiting(b, c)
    ensures p < |a| ==>
      Waiting(b, c) - Waiting(a, c) == (if Owed(b[p].pc) == Some(c) then 1 else 0) - (if Owed(a[p].pc) == Some(c) then 1 else 0)
  {
    hide Owed;
    if a != [] {
      var n := |a| - 1;
      WaitingChanges(a[..n], b[..n], p, c);
      if p < n { assert a[..n][p] == a[p] && b[..n][p] == b[p]; }
    }
  }

  /** Calls begun and carried out: past their critical section, or returned. */
  function Carried(steps: seq<Step>, s: Sys, c: Call): int { Begun(steps, c) - Waiting(s.procs, c) }

  /** How many calls of this kind a step carries out. */
  function Gain(s: Sys, e: Step, t: Sys, c: Call): int {
    (if e.Begin? && Call(e.r, e.op) == c then 1 else 0) - (Waiting(t.procs, c) - Waiting(s.procs, c))
  }

  ghost predicate Counts(a: Res, b: Res, up: int, wait: int) {
    a.Sem? && b.Sem? && b.value == a.value + up - wait && b.ups == a.ups + up && b.downs == a.downs + wait
  }

  lemma SemWorks(s: Sys, p: nat, r: nat)
    requires Inv(s) && p < |s.procs| && s.procs[p].pc.Crit? && Apply(s, Go(p)).Some? && r < |s.res| && s.res[r].Sem?
    ensures var t := Apply(s, Go(p)).value;
            && r < |t.res|
            && Counts(s.res[r], t.res[r], Gain(s, Go(p), t, Call(r, SemUp)), Gain(s, Go(p), t, Call(r, SemWait)))
  {
    hide LocksOk, ResOk, SleepersOk, HoldersOk, Owed, Apply;
    var t := Apply(s, Go(p)).value;
    CritStep(s, p);
    OwedCrit(s.procs[p].pc);
    WaitingChanges(s.procs, t.procs, p, Call(r, SemUp));
    WaitingChanges(s.procs, t.procs, p, Call(r, SemWait));
  }

  lemma SemElse(s: Sys, e: Step, r: nat)
    requires Inv(s) && Apply(s, e).Some? && (e.Go? ==> e.p < |s.procs| && !s.procs[e.p].pc.Crit?) && r < |s.res| && s.res[r].Sem?
    ensures var t := Apply(s, e).value;
            && r < |t.res|
            && Counts(s.res[r], t.res[r], Gain(s, e, t, Call(r, SemUp)), Gain(s, e, t, Call(r, SemWait)))
  {
    hide LocksOk, ResOk, SleepersOk, HoldersOk, Owed, Apply;
    var t := Apply(s, e).value;
    if e.Begin? { BeginStep(s, e); } else { QuietStep(s, e); }
    WaitingChanges(s.procs, t.procs, e.p, Call(r, SemUp));
    WaitingChanges(s.procs, t.procs, e.p, Call(r, SemWait));
  }

  /** The value is the one at the start, plus the sem_up calls carried out, less the sem_wait calls
      carried out: each takes or gives exactly one unit, woken ones included. */
  lemma {:induction false} SemaphoreCounts(run: seq<Sys>, steps: seq<Step>, k: nat, r: nat)
    requires Traced(run, steps) && k <= |steps| && r < |run[0].res| && run[0].res[r].Sem?
    ensures r < |run[k].res| && run[k].res[r].Sem?
    ensures run[k].res[r].value == run[0].res[r].value + Carried(steps[..k], run[k], Call(r, SemUp)) - Carried(steps[..k], run[k], Call(r, SemWait))
    ensures run[k].res[r].ups == run[0].res[r].ups + Carried(steps[..k], run[k], Call(r, SemUp))
    ensures run[k].res[r].downs == run[0].res[r].downs + Carried(steps[..k], run[k], Call(r, SemWait))
  {
    hide Inv, Owed, GoStep;
    if k == 0 {
      assert steps[..0] == [];
      InitWaits(run[0], Call(r, SemUp));
      InitWaits(run[0], Call(r, SemWait));
    } else {
      var j := k - 1;
      var e, s, t := steps[j], run[j], run[k];
      SemaphoreCounts(run, steps, j, r);
      TracedInv(run, steps, j);
      assert steps[..k][..j] == steps[..j];
      assert Takes(s, e, t);
      if e.Go? && e.p < |s.procs| && s.procs[e.p].pc.Crit? { SemWorks(s, e.p, r); } else { SemElse(s, e, r); }
    }
  }

  lemma {:induction false} InitWaits(s: Sys, c: Call)
    requires Init(s)
    ensures Waiting(s.procs, c) == 0
  {
    NobodyWaits(s.procs, c);
  }

  lemma OwedCrit(pc: Pc)
    requires pc.Crit?
    ensures Owed(pc) == Some(Call(pc.r, pc.op))
  {
  }

  lemma {:induction false} NobodyWaits(procs: seq<Process>, c: Call)
    requires forall p :: 0 <= p < |procs| ==> Owed(procs[p].pc) == None
    ensures Waiting(procs, c) == 0
  {
    if procs != [] { NobodyWaits(procs[..|procs| - 1], c); }
  }

  // ----- nobody is stuck

  /** The lock the next piece of code spins for. */
  function Spins(s: Sys, p: nat): Option<Owner>
    requires Shape(s) && p < |s.procs|
  {
    match s.procs[p].pc
    case WakeScan(_, _, i, _, _) => if i < |s.plk| then Some(s.plk[i]) else None
    case SleepTake(_, _, _) => Some(s.plk[p])
    case Retake(r, _) => Some(s.rlk[r])
    case _ => None
  }

  /** Running inside a call. */
  predicate InCode(pc: Pc) { !pc.User? && !pc.Parking? && !pc.Parked? && !pc.Yielding? && !pc.Yielded? }

  /** In every reachable state a process in the middle of a call can take its next step, unless it spins
      for a lock that is taken, or has been switched out; then the scheduler can release its lock, and can
      run it again once it is runnable and a hart has its lock. */
  lemma NothingStuck(run: seq<Sys>, k: nat, p: nat)
    requires IsRun(run) && k < |run| && p < |run[k].procs|
    ensures Shape(run[k])
    ensures var s, pc := run[k], run[k].procs[p].pc;
            && (Spins(s, p) in {None, Some(Free)} && InCode(pc) ==>
                  Apply(s, Go(p)).Some? && p < |Apply(s, Go(p)).value.procs| && Apply(s, Go(p)).value.procs[p].pc != pc)
            && (pc.Parking? || pc.Yielding? ==> Apply(s, SwitchOut(p)).Some?)
            && (forall h :: (pc.Parked? || pc.Yielded?) && s.plk[p] == Hart(h) && s.procs[p].state == Runnable ==> Apply(s, Dispatch(h, p)).Some?)
  {
    RunInv(run, k);
    hide LocksOk, ResOk, SleepersOk, HoldersOk, Critical;
    assert StateOk(run[k].procs[p]) && PcShape(run[k].res, |run[k].procs|, run[k].procs[p].pc);
  }

  /** A call the object offers, on arguments that make pipe_read and pipe_write do anything at all. */
  predicate Offers(res: Res, op: Op) {
    match op
    case SemWait => res.Sem?
    case SemUp => res.Sem?
    case LockAcquire => res.SleepLock?
    case LockRelease => res.SleepLock?
    case PipeWrite(buf) => res.PipeRes? && buf != []
    case PipeRead(len) => res.PipeRes? && len > 0
    case PipeClose(_) => res.PipeRes?
  }

  /** A process in user code can begin any call its object offers exactly when the object's spinlock is free;
      a sleep lock is released only by a process that has acquired it. */
  lemma BeginsIff(s: Sys, p: nat, r: nat, op: Op)
    requires Shape(s)
    ensures Apply(s, Begin(p, r, op)).Some? <==>
              && p < |s.procs| && s.procs[p].pc == User && r < |s.res| && s.rlk[r] == Free && Offers(s.res[r], op)
              && (op.LockRelease? ==> r in s.procs[p].holds)
  {
  }

  /** A process in user code, or about to take its object's lock again, can be preempted when its own lock is free. */
  lemma PreemptedIff(s: Sys, p: nat)
    requires Shape(s)
    ensures Apply(s, Preempt(p)).Some? <==>
              p < |s.procs| && (s.procs[p].pc == User || s.procs[p].pc.Retake?) && s.plk[p] == Free
  {
  }

  // ----- how a call gets on

  /** How many pieces of code a process has before it, at most, until its next critical section, its next
      sleep or its return, with n processes to look at in proc_wakeup. */
  function Ahead(n: nat, pc: Pc): nat {
    match pc
    case WakeScan(_, _, i, _, _) => if i <= n then 2 * (n - i) + 10 else 10
    case WakeTest(_, _, i, _, _) => if i < n then 2 * (n - i) + 9 else 10
    case SleepTake(_, _, _) => 9
    case SleepDrop(_, _, _) => 8
    case SleepMark(_, _, _) => 7
    case Parking(_, _, _) => 6
    case Parked(_, _, _) => 5
    case Resumed(_, _) => 4
    case Retake(_, _) => 3
    case Crit(_, _) => 2
    case Leave(_) => 1
    case User => 0
    case YieldMark(back) => 13
    case Yielding(back) => 12
    case Yielded(back) => 11
    case YieldBack(back) => 10
  }

  /** Outside the critical sections every piece of code of a call brings its end, or its next critical
      section or sleep, nearer; so a proc_wakeup in it ends after one turn for each process. */
  lemma GetsOn(s: Sys, p: nat)
    requires Inv(s) && p < |s.procs| && Apply(s, Go(p)).Some? && !s.procs[p].pc.Crit?
    ensures p < |Apply(s, Go(p)).value.procs|
    ensures Ahead(|s.procs|, Apply(s, Go(p)).value.procs[p].pc) < Ahead(|s.procs|, s.procs[p].pc)
  {
    hide LocksOk, ResOk, SleepersOk, HoldersOk, Critical;
    assert PcShape(s.res, |s.procs|, s.procs[p].pc);
  }

  /** Some hart takes a free process lock and can give it back as if nothing had happened; holding it, it runs
      a ready process that was switched out, which then holds its own lock. */
  lemma SchedulerServes(s: Sys, h: nat, p: nat)
    requires Inv(s) && p < |s.procs| && s.plk[p] == Free
    ensures Apply(s, HartTake(h, p)).Some?
    ensures var a := Apply(s, HartTake(h, p)).value;
            && Shape(a) && Apply(a, HartDrop(h, p)) == Some(s)
            && ((s.procs[p].pc.Parked? || s.procs[p].pc.Yielded?) && s.procs[p].state == Runnable ==>
                  Apply(a, Dispatch(h, p)).Some? && var b := Apply(a, Dispatch(h, p)).value;
                    b.procs == s.procs[p := b.procs[p]] && b.procs[p].state == Running && b.plk == s.plk[p := Proc(p)])
  {
    hide LocksOk, ResOk, SleepersOk, HoldersOk, GoStep;
    var a := Apply(s, HartTake(h, p)).value;
    assert a.plk == s.plk[p := Hart(h)];
    assert s.plk[p := Hart(h)][p := Free] == s.plk;
    assert s.plk[p := Hart(h)][p := Proc(p)] == s.plk[p := Proc(p)];
  }

  /** A process has a sleep_space exactly from where it marks itself asleep to where it is back. */
  predicate SpaceOk(me: Process) {
    match me.pc
    case Parking(r, side, _) => me.chan == On(r, side)
    case Parked(r, side, _) => me.chan == On(r, side)
    case Resumed(r, _) => me.chan != NoChan
    case _ => me.chan == NoChan
  }

  lemma SpaceGo(s: Sys, p: nat, q: nat)
    requires Shape(s) && p < |s.procs| && q < |s.procs| && Apply(s, Go(p)).Some? && SpaceOk(s.procs[q]) && SpaceOk(s.procs[p])
    requires forall i :: 0 <= i < |s.procs| ==> StateOk(s.procs[i])
    ensures var t := Apply(s, Go(p)).value; |t.procs| == |s.procs| && SpaceOk(t.procs[q])
  {
    hide Critical;
    assert PcShape(s.res, |s.procs|, s.procs[p].pc);
  }

  lemma SpaceRest(s: Sys, e: Step, q: nat)
    requires Shape(s) && q < |s.procs| && Apply(s, e).Some? && !e.Go? && SpaceOk(s.procs[q])
    requires forall i :: 0 <= i < |s.procs| ==> StateOk(s.procs[i])
    ensures var t := Apply(s, e).value; |t.procs| == |s.procs| && SpaceOk(t.procs[q])
  {
    hide GoStep;
    assert StateOk(s.procs[q]);
  }

  /** In every reachable state sleep_space is set from where a process falls asleep until it is back, and
      then to what it sleeps on; at all other times it is empty. */
  lemma {:induction false} SpaceRun(run: seq<Sys>, steps: seq<Step>, k: nat, q: nat)
    requires Traced(run, steps) && k <= |steps| && q < |run[k].procs|
    ensures SpaceOk(run[k].procs[q])
    decreases k
  {
    hide Inv, Apply, SpaceOk, Shape;
    if k == 0 {
      assert SpaceOk(run[0].procs[q]) by { SpaceStart(run[0], q); }
    } else {
      var j := k - 1;
      var s, e := run[j], steps[j];
      TracedInv(run, steps, j);
      States(s);
      assert Takes(s, e, run[k]);
      InTable(s, e);
      SizeStays(s, e);
      SpaceRun(run, steps, j, q);
      SpaceRun(run, steps, j, e.p);
      if e.Go? { SpaceGo(s, e.p, q); } else { SpaceRest(s, e, q); }
    }
  }

  lemma SpaceStart(s: Sys, q: nat)
    requires Init(s) && q < |s.procs|
    ensures SpaceOk(s.procs[q])
  {
  }

  lemma States(s: Sys)
    requires Inv(s)
    ensures Shape(s) && forall i :: 0 <= i < |s.procs| ==> StateOk(s.procs[i])
  {
  }

  lemma SizeStays(s: Sys, e: Step)
    requires Shape(s) && Apply(s, e).Some?
    ensures |Apply(s, e).value.procs| == |s.procs|
  {
    hide Critical;
    assert PcShape(s.res, |s.procs|, s.procs[e.p].pc);
  }
}
