/** The objects that processes sleep on, and what one critical section of each operation does
    between taking the object's spinlock and either leaving it or going to sleep on it. */
module Resources {
  import opened Base
  import opened Pipe

  /** `start`, `ups` and `downs` are history: the value at the start, completed increments and
      completed waits. */
  datatype Res =
    | Sem(value: int, start: nat, ups: nat, downs: nat)
    | SleepLock(locked: bool, pid: int)
    | PipeRes(pipe: PipeState)

  datatype Op =
    | SemWait | SemUp
    | LockAcquire | LockRelease
    | PipeWrite(buf: seq<byte>) | PipeRead(len: nat) | PipeClose(writable: bool)

  /** The address slept on: the object itself, `&pipe->nread` or `&pipe->nwrite`. */
  datatype Side = Whole | Readers | Writers

  datatype Next = Exit | SleepOn(side: Side)

  /** The new object, the operation still to be done on waking, the proc_wakeup call made before
      leaving or sleeping, and which of the two comes next. */
  datatype Outcome = Outcome(res: Res, op: Op, wake: Option<Side>, next: Next)

  const NO_PID: int := -1

  predicate Fits(res: Res, op: Op) {
    match res
    case Sem(_, _, _, _) => op.SemWait? || op.SemUp?
    case SleepLock(_, _) => op.LockAcquire? || op.LockRelease?
    case PipeRes(_) => op.PipeWrite? || op.PipeRead? || op.PipeClose?
  }

  ghost predicate ResOk(res: Res) {
    match res
    case Sem(value, start, ups, downs) => 0 <= value == start + ups - downs
    case SleepLock(locked, pid) => locked <==> pid != NO_PID
    case PipeRes(pipe) => RingOk(pipe) && (|pipe.sent| <= U32 ==> Fifo(pipe))
  }

  /** Process `me` runs its critical section. */
  function Critical(res: Res, op: Op, me: nat): Outcome
    requires Fits(res, op)
    requires res.PipeRes? ==> |res.pipe.data| == PIPE_SIZE
  {
    match op
    case SemWait =>
      if res.value == 0 then Outcome(res, op, None, SleepOn(Whole))
      else Outcome(res.(value := res.value - 1, downs := res.downs + 1), op, None, Exit)
    case SemUp => Outcome(res.(value := res.value + 1, ups := res.ups + 1), op, Some(Whole), Exit)
    case LockAcquire =>
      if res.locked then Outcome(res, op, None, SleepOn(Whole))
      else Outcome(SleepLock(true, me), op, None, Exit)
    case LockRelease => Outcome(SleepLock(false, NO_PID), op, Some(Whole), Exit)
    case PipeWrite(buf) =>
      var (p, rest) := Fill(res.pipe, buf);
      if rest == [] then Outcome(PipeRes(p), PipeWrite(rest), Some(Readers), Exit)
      else if !p.readopen then Outcome(PipeRes(p), PipeWrite(rest), None, Exit)  // PIPE_ERROR
      else Outcome(PipeRes(p), PipeWrite(rest), Some(Readers), SleepOn(Writers))
    case PipeRead(len) =>
      if res.pipe.nread == res.pipe.nwrite && res.pipe.writeopen
      then Outcome(res, op, None, SleepOn(Readers))
      else Outcome(PipeRes(Drain(res.pipe, len)), op, Some(Writers), Exit)
    case PipeClose(writable) =>
      if writable then Outcome(PipeRes(res.pipe.(writeopen := false)), op, Some(Readers), Exit)
      else Outcome(PipeRes(res.pipe.(readopen := false)), op, Some(Writers), Exit)
  }

  /** The states of the object in which sleeping on `side` is justified. */
  ghost predicate Blocked(res: Res, side: Side) {
    match res
    case Sem(value, _, _, _) => value == 0
    case SleepLock(locked, _) => locked
    case PipeRes(p) =>
      if side == Readers then (p.nread == p.nwrite && p.writeopen) || !p.readopen
      else Unread(p) == PIPE_SIZE && p.readopen
  }

  predicate HasSide(res: Res, side: Side) {
    if res.PipeRes? then side != Whole else side == Whole
  }

  /** The wake obligation of every operation: a critical section that ends someone's reason to
      sleep wakes exactly that address, one that goes to sleep has a reason, and the object keeps
      its own invariant. */
  lemma CriticalKeeps(res: Res, op: Op, me: nat)
    requires Fits(res, op) && ResOk(res)
    ensures var o := Critical(res, op, me);
            && ResOk(o.res) && Fits(o.res, o.op)
            && (res.Sem? <==> o.res.Sem?) && (res.SleepLock? <==> o.res.SleepLock?)
            && (o.op.LockRelease? <==> op.LockRelease?)
            && (o.wake.Some? ==> HasSide(o.res, o.wake.value))
            && (o.next.SleepOn? ==> HasSide(o.res, o.next.side) && Blocked(o.res, o.next.side) && !o.op.LockRelease?)
            && (forall side :: HasSide(res, side) && Blocked(res, side) && !Blocked(o.res, side)
                               ==> o.wake == Some(side))
  {
    match op
    case PipeWrite(buf) =>
      var p := res.pipe;
      FillFacts(p, buf);
      if |Fill(p, buf).0.sent| <= U32 { FillFifo(p, buf); }
    case PipeRead(len) =>
      DrainFacts(res.pipe, len);
      if |res.pipe.sent| <= U32 { DrainFifo(res.pipe, len); }
    case _ =>
  }
}
