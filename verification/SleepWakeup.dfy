/** proc_sleep and proc_wakeup as an interleaved step system: any number of processes, one
    spinlock per process and one per object, and the scheduler that releases a parked process's
    lock and hands it back on dispatch. A step is the code between two lock operations. */
module SleepWakeup {
  import opened Base
  import opened Resources
  import opened Pipe

  datatype PState = Running | Runnable | Sleeping

  datatype Chan = NoChan | On(r: nat, side: Side)

  datatype Owner = Free | Proc(p: nat) | Hart(h: nat)

  /** Where a process stands. The comment gives the spinlocks it holds there. */
  datatype Pc =
    | User                                                                  // none
    | Crit(r: nat, op: Op)                                                  // object
    | WakeScan(r: nat, side: Side, i: nat, op: Op, next: Next)              // object
    | WakeTest(r: nat, side: Side, i: nat, op: Op, next: Next)              // object, procs[i]
    | SleepTake(r: nat, side: Side, op: Op)                                 // object
    | SleepDrop(r: nat, side: Side, op: Op)                                 // object, own
    | SleepMark(r: nat, side: Side, op: Op)                                 // own
    | Parking(r: nat, side: Side, op: Op)                                   // own
    | Parked(r: nat, side: Side, op: Op)                                    // none
    | Resumed(r: nat, op: Op)                                               // own
    | Retake(r: nat, op: Op)                                                // none
    | Leave(r: nat)                                                         // object
    | YieldMark(back: Pc)                                                   // own
    | Yielding(back: Pc)                                                    // own
    | Yielded(back: Pc)                                                     // none
    | YieldBack(back: Pc)                                                   // own

  /** `holds` is the set of sleep locks this process has acquired and not yet released. */
  datatype Process = Process(state: PState, chan: Chan, pc: Pc, holds: set<nat>)

  datatype Sys = Sys(procs: seq<Process>, plk: seq<Owner>, rlk: seq<Owner>, res: seq<Res>)

  datatype Step =
    | Begin(p: nat, r: nat, op: Op)   // a system call takes the object's lock
    | Go(p: nat)                      // process p runs to its next lock operation
    | Preempt(p: nat)                 // a timer interrupt reaches p while it holds no lock
    | SwitchOut(p: nat)               // the scheduler releases the lock of a parked process
    | HartTake(h: nat, p: nat)        // some hart's scan, or a wakeup elsewhere, takes p's lock
    | HartDrop(h: nat, p: nat)        // ... and gives it back
    | Dispatch(h: nat, p: nat)        // ... or hands it to p and runs it

  function HeldObject(pc: Pc): Option<nat> {
    match pc
    case Crit(r, _) => Some(r)
    case WakeScan(r, _, _, _, _) => Some(r)
    case WakeTest(r, _, _, _, _) => Some(r)
    case SleepTake(r, _, _) => Some(r)
    case SleepDrop(r, _, _) => Some(r)
    case Leave(r) => Some(r)
    case _ => None
  }

  predicate HoldsOwn(pc: Pc) {
    pc.SleepDrop? || pc.SleepMark? || pc.Parking? || pc.Resumed? || pc.YieldMark? || pc.Yielding? || pc.YieldBack?
  }

  predicate HoldsProc(p: nat, pc: Pc, i: nat) {
    (HoldsOwn(pc) && i == p) || (pc.WakeTest? && pc.i == i)
  }

  function After(r: nat, op: Op, next: Next): Pc {
    match next
    case Exit => Leave(r)
    case SleepOn(side) => SleepTake(r, side, op)
  }

  function SetPc(s: Sys, p: nat, pc: Pc): Sys
    requires p < |s.procs|
  {
    s.(procs := s.procs[p := s.procs[p].(pc := pc)])
  }

  function HoldsAfter(holds: set<nat>, r: nat, op: Op, o: Outcome): set<nat> {
    if op.LockRelease? then holds - {r}
    else if op.LockAcquire? && o.next.Exit? then holds + {r} else holds
  }

  /** Process p's next piece of code; None when it has to spin for a lock. */
  function GoStep(s: Sys, p: nat): Option<Sys>
    requires Shape(s) && p < |s.procs|
  {
    var me := s.procs[p];
    match me.pc
    case Crit(r, op) =>
      var o := Critical(s.res[r], op, p);
      var pc := if o.wake.Some? then WakeScan(r, o.wake.value, 0, o.op, o.next) else After(r, o.op, o.next);
      Some(s.(res := s.res[r := o.res],
              procs := s.procs[p := me.(pc := pc, holds := HoldsAfter(me.holds, r, op, o))]))
    case WakeScan(r, side, i, op, next) =>
      if i >= |s.procs| then Some(SetPc(s, p, After(r, op, next)))
      else if s.plk[i] != Free then None
      else Some(SetPc(s.(plk := s.plk[i := Proc(p)]), p, WakeTest(r, side, i, op, next)))
    case WakeTest(r, side, i, op, next) =>
      var it := s.procs[i];
      var woken := if it.state == Sleeping && it.chan == On(r, side)
                   then s.(procs := s.procs[i := it.(state := Runnable)]) else s;
      Some(SetPc(woken.(plk := s.plk[i := Free]), p, WakeScan(r, side, i + 1, op, next)))
    case SleepTake(r, side, op) =>
      if s.plk[p] != Free then None
      else Some(SetPc(s.(plk := s.plk[p := Proc(p)]), p, SleepDrop(r, side, op)))
    case SleepDrop(r, side, op) =>
      Some(SetPc(s.(rlk := s.rlk[r := Free]), p, SleepMark(r, side, op)))
    case SleepMark(r, side, op) =>
      Some(s.(procs := s.procs[p := me.(chan := On(r, side), state := Sleeping, pc := Parking(r, side, op))]))
    case Resumed(r, op) =>
      Some(s.(plk := s.plk[p := Free], procs := s.procs[p := me.(chan := NoChan, pc := Retake(r, op))]))
    case Retake(r, op) =>
      if s.rlk[r] != Free then None
      else Some(SetPc(s.(rlk := s.rlk[r := Proc(p)]), p, Crit(r, op)))
    case Leave(r) => Some(SetPc(s.(rlk := s.rlk[r := Free]), p, User))
    case YieldMark(back) =>
      Some(s.(procs := s.procs[p := me.(state := Runnable, pc := Yielding(back))]))
    case YieldBack(back) => Some(SetPc(s.(plk := s.plk[p := Free]), p, back))
    case _ => None
  }

  /** One step of the whole system; None when it is not enabled. */
  function Apply(s: Sys, e: Step): Option<Sys>
    requires Shape(s)
  {
    match e
    case Begin(p, r, op) =>
      if !(p < |s.procs| && r < |s.res| && s.procs[p].pc == User && s.rlk[r] == Free && Fits(s.res[r], op)) then None
      else if op.LockRelease? && r !in s.procs[p].holds then None
      else if op == PipeWrite([]) || op == PipeRead(0) then None
      else Some(SetPc(s.(rlk := s.rlk[r := Proc(p)]), p, Crit(r, op)))
    case Go(p) => if p < |s.procs| then GoStep(s, p) else None
    case Preempt(p) =>
      if p < |s.procs| && (s.procs[p].pc.User? || s.procs[p].pc.Retake?) && s.plk[p] == Free
      then Some(SetPc(s.(plk := s.plk[p := Proc(p)]), p, YieldMark(s.procs[p].pc))) else None
    case SwitchOut(p) =>
      if p >= |s.procs| then None else
      (match s.procs[p].pc
       case Parking(r, side, op) => Some(SetPc(s.(plk := s.plk[p := Free]), p, Parked(r, side, op)))
       case Yielding(back) => Some(SetPc(s.(plk := s.plk[p := Free]), p, Yielded(back)))
       case _ => None)
    case HartTake(h, p) =>
      if p < |s.procs| && s.plk[p] == Free then Some(s.(plk := s.plk[p := Hart(h)])) else None
    case HartDrop(h, p) =>
      if p < |s.procs| && s.plk[p] == Hart(h) then Some(s.(plk := s.plk[p := Free])) else None
    case Dispatch(h, p) =>
      if !(p < |s.procs| && s.plk[p] == Hart(h) && s.procs[p].state == Runnable) then None else
      (match s.procs[p].pc
       case Parked(r, side, op) => Some(Woken(s, p, Resumed(r, op)))
       case Yielded(back) => Some(Woken(s, p, YieldBack(back)))
       case _ => None)
  }

  function Woken(s: Sys, p: nat, pc: Pc): Sys
    requires p < |s.procs| == |s.plk|
  {
    s.(plk := s.plk[p := Proc(p)], procs := s.procs[p := s.procs[p].(state := Running, pc := pc)])
  }

  // ----- what every step keeps

  predicate PcShape(res: seq<Res>, n: nat, pc: Pc) {
    match pc
    case User => true
    case Crit(r, op) => r < |res| && Fits(res[r], op)
    case WakeScan(r, side, i, op, next) =>
      r < |res| && i <= n && HasSide(res[r], side) && Fits(res[r], op)
      && (next.SleepOn? ==> HasSide(res[r], next.side) && !op.LockRelease?)
    case WakeTest(r, side, i, op, next) =>
      r < |res| && i < n && HasSide(res[r], side) && Fits(res[r], op)
      && (next.SleepOn? ==> HasSide(res[r], next.side) && !op.LockRelease?)
    case SleepTake(r, side, op) => r < |res| && HasSide(res[r], side) && Fits(res[r], op) && !op.LockRelease?
    case SleepDrop(r, side, op) => r < |res| && HasSide(res[r], side) && Fits(res[r], op) && !op.LockRelease?
    case SleepMark(r, side, op) => r < |res| && HasSide(res[r], side) && Fits(res[r], op) && !op.LockRelease?
    case Parking(r, side, op) => r < |res| && HasSide(res[r], side) && Fits(res[r], op) && !op.LockRelease?
    case Parked(r, side, op) => r < |res| && HasSide(res[r], side) && Fits(res[r], op) && !op.LockRelease?
    case Resumed(r, op) => r < |res| && Fits(res[r], op) && !op.LockRelease?
    case Retake(r, op) => r < |res| && Fits(res[r], op) && !op.LockRelease?
    case Leave(r) => r < |res|
    case YieldMark(back) => BackShape(res, back)
    case Yielding(back) => BackShape(res, back)
    case Yielded(back) => BackShape(res, back)
    case YieldBack(back) => BackShape(res, back)
  }

  predicate BackShape(res: seq<Res>, back: Pc) {
    back.User? || (back.Retake? && back.r < |res| && Fits(res[back.r], back.op) && !back.op.LockRelease?)
  }

  predicate Shape(s: Sys) {
    && |s.plk| == |s.procs| && |s.rlk| == |s.res|
    && (forall r :: 0 <= r < |s.res| && s.res[r].PipeRes? ==> |s.res[r].pipe.data| == PIPE_SIZE)
    && (forall p :: 0 <= p < |s.procs| ==> PcShape(s.res, |s.procs|, s.procs[p].pc))
  }

  /** Every lock's owner field tells exactly who stands inside it. */
  ghost predicate LocksOk(s: Sys)
    requires Shape(s)
  {
    ObjectLocks(s) && ProcLocks(s)
  }

  ghost predicate ObjectLocks(s: Sys)
    requires Shape(s)
  {
    && (forall p :: 0 <= p < |s.procs| && HeldObject(s.procs[p].pc).Some?
                    ==> s.rlk[HeldObject(s.procs[p].pc).value] == Proc(p))
    && (forall r :: 0 <= r < |s.rlk| && s.rlk[r].Proc?
                    ==> s.rlk[r].p < |s.procs| && HeldObject(s.procs[s.rlk[r].p].pc) == Some(r))
    && (forall r :: 0 <= r < |s.rlk| ==> !s.rlk[r].Hart?)
  }

  ghost predicate ProcLocks(s: Sys)
    requires Shape(s)
  {
    && (forall p :: 0 <= p < |s.procs| && HoldsOwn(s.procs[p].pc) ==> s.plk[p] == Proc(p))
    && (forall p :: 0 <= p < |s.procs| && s.procs[p].pc.WakeTest? ==> s.plk[s.procs[p].pc.i] == Proc(p))
    && (forall i :: 0 <= i < |s.plk| && s.plk[i].Proc?
                    ==> s.plk[i].p < |s.procs| && HoldsProc(s.plk[i].p, s.procs[s.plk[i].p].pc, i))
  }

  /** The state and sleep_space fields follow the program counter. */
  ghost predicate StateOk(me: Process) {
    match me.pc
    case Parking(r, side, _) => me.state == Sleeping && me.chan == On(r, side)
    case Parked(r, side, _) => me.state != Running && me.chan == On(r, side)
    case Yielding(_) => me.state == Runnable
    case Yielded(_) => me.state == Runnable
    case _ => me.state == Running
  }

  /** p is asleep on this address, or past the point where the object's lock protects it. */
  ghost predicate OnChan(me: Process, r: nat, side: Side) {
    match me.pc
    case SleepMark(r', side', _) => r' == r && side' == side
    case Parking(r', side', _) => r' == r && side' == side
    case Parked(r', side', _) => r' == r && side' == side && me.state == Sleeping
    case _ => false
  }

  /** p has decided to sleep on this address but still holds the object's lock. */
  ghost predicate Deciding(me: Process, r: nat, side: Side) {
    match me.pc
    case SleepTake(r', side', _) => r' == r && side' == side
    case SleepDrop(r', side', _) => r' == r && side' == side
    case WakeScan(r', _, _, _, next) => r' == r && next == SleepOn(side)
    case WakeTest(r', _, _, _, next) => r' == r && next == SleepOn(side)
    case _ => false
  }

  /** The wakeup loop of `waker` for this address has not gone past process p. */
  ghost predicate WakeComing(waker: Process, r: nat, side: Side, p: nat) {
    match waker.pc
    case WakeScan(r', side', i, _, _) => r' == r && side' == side && i <= p
    case WakeTest(r', side', i, _, _) => r' == r && side' == side && i <= p
    case _ => false
  }

  ghost predicate SleepersOk(s: Sys, p: nat)
    requires Shape(s) && LocksOk(s) && p < |s.procs|
  {
    && (forall r, side :: 0 <= r < |s.res| && Deciding(s.procs[p], r, side) ==> Blocked(s.res[r], side))
    && (forall r, side :: 0 <= r < |s.res| && OnChan(s.procs[p], r, side) && !Blocked(s.res[r], side)
          ==> s.rlk[r].Proc? && WakeComing(s.procs[s.rlk[r].p], r, side, p))
  }

  /** A process's own record of a sleep lock agrees with the lock's two fields. */
  ghost predicate HoldersOk(s: Sys, p: nat)
    requires Shape(s) && p < |s.procs|
  {
    && (forall r :: r in s.procs[p].holds ==> r < |s.res| && s.res[r].SleepLock?)
    && (forall r :: 0 <= r < |s.res| && s.res[r].SleepLock?
          ==> (r in s.procs[p].holds <==> s.res[r].locked && s.res[r].pid == p))
    && (s.procs[p].pc.Crit? && s.procs[p].pc.op.LockRelease? ==> s.procs[p].pc.r in s.procs[p].holds)
  }

  ghost predicate Inv(s: Sys) {
    && Shape(s) && LocksOk(s)
    && (forall r :: 0 <= r < |s.res| ==> ResOk(s.res[r]))
    && (forall p :: 0 <= p < |s.procs| ==> StateOk(s.procs[p]))
    && (forall p :: 0 <= p < |s.procs| ==> SleepersOk(s, p))
    && (forall p :: 0 <= p < |s.procs| ==> HoldersOk(s, p))
  }

  /** Every process is in user code, running or waiting for a hart; no lock is held. */
  ghost predicate Init(s: Sys) {
    && |s.plk| == |s.procs| && |s.rlk| == |s.res|
    && (forall p :: 0 <= p < |s.procs| ==>
          s.procs[p] == Process(Running, NoChan, User, {}) || s.procs[p] == Process(Runnable, NoChan, Yielded(User), {}))
    && (forall p :: 0 <= p < |s.plk| ==> s.plk[p] == Free)
    && (forall r :: 0 <= r < |s.rlk| ==> s.rlk[r] == Free)
    && (forall r :: 0 <= r < |s.res| ==> ResOk(s.res[r]) && (s.res[r].SleepLock? ==> !s.res[r].locked))
  }

  lemma InitInv(s: Sys)
    requires Init(s)
    ensures Inv(s)
  {
  }

  /** Only process p's program counter moved. */
  ghost predicate OnlyPc(s: Sys, t: Sys, p: nat) {
    && |t.procs| == |s.procs| && t.res == s.res && p < |s.procs|
    && |t.plk| == |s.plk| && |t.rlk| == |s.rlk|
    && (forall q :: 0 <= q < |s.procs| && q != p ==> t.procs[q].pc == s.procs[q].pc)
  }

  lemma ShapeStep(s: Sys, t: Sys, p: nat)
    requires Shape(s) && OnlyPc(s, t, p) && PcShape(s.res, |s.procs|, t.procs[p].pc)
    ensures Shape(t)
  {
    forall q | 0 <= q < |t.procs| ensures PcShape(t.res, |t.procs|, t.procs[q].pc) {
      assert q != p ==> PcShape(s.res, |s.procs|, s.procs[q].pc);
    }
  }

  predicate SameProcLocks(a: Pc, b: Pc) {
    HoldsOwn(a) == HoldsOwn(b) && !a.WakeTest? && !b.WakeTest?
  }

  lemma TakeObject(s: Sys, t: Sys, p: nat, r: nat)
    requires Shape(s) && LocksOk(s) && OnlyPc(s, t, p) && Shape(t) && r < |s.rlk|
    requires s.rlk[r] == Free && t.rlk == s.rlk[r := Proc(p)] && t.plk == s.plk
    requires HeldObject(s.procs[p].pc) == None && HeldObject(t.procs[p].pc) == Some(r)
    requires SameProcLocks(s.procs[p].pc, t.procs[p].pc)
    ensures LocksOk(t)
  {
  }

  lemma DropObject(s: Sys, t: Sys, p: nat, r: nat)
    requires Shape(s) && LocksOk(s) && OnlyPc(s, t, p) && Shape(t) && r < |s.rlk|
    requires t.rlk == s.rlk[r := Free] && t.plk == s.plk
    requires HeldObject(s.procs[p].pc) == Some(r) && HeldObject(t.procs[p].pc) == None
    requires SameProcLocks(s.procs[p].pc, t.procs[p].pc)
    ensures LocksOk(t)
  {
  }

  lemma MoveObjects(s: Sys, t: Sys, p: nat)
    requires Shape(s) && ObjectLocks(s) && OnlyPc(s, t, p) && Shape(t) && t.rlk == s.rlk
    requires HeldObject(t.procs[p].pc) == HeldObject(s.procs[p].pc)
    ensures ObjectLocks(t)
  {
    hide HeldObject;
    assert forall q :: 0 <= q < |s.procs| ==> HeldObject(t.procs[q].pc) == HeldObject(s.procs[q].pc);
  }

  lemma MoveProc(s: Sys, t: Sys, p: nat, i: nat, o: Owner)
    requires Shape(s) && LocksOk(s) && OnlyPc(s, t, p) && Shape(t) && i < |s.plk|
    requires t.rlk == s.rlk && t.plk == s.plk[i := o]
    requires HeldObject(t.procs[p].pc) == HeldObject(s.procs[p].pc)
    requires forall k :: 0 <= k < |s.plk| && k != i ==>
               (HoldsProc(p, s.procs[p].pc, k) <==> HoldsProc(p, t.procs[p].pc, k))
    requires if o == s.plk[i] then HoldsProc(p, s.procs[p].pc, i) <==> HoldsProc(p, t.procs[p].pc, i)
             else (s.plk[i].Proc? ==> s.plk[i] == Proc(p)) && (o.Proc? ==> o == Proc(p))
                  && (HoldsProc(p, t.procs[p].pc, i) <==> o == Proc(p))
    ensures LocksOk(t)
  {
    hide HoldsOwn, ObjectLocks, HeldObject;
    MoveObjects(s, t, p);
    forall q | 0 <= q < |t.procs| && HoldsOwn(t.procs[q].pc) ensures t.plk[q] == Proc(q) {
      assert HoldsProc(q, t.procs[q].pc, q);
    }
    forall q | 0 <= q < |t.procs| && t.procs[q].pc.WakeTest? ensures t.plk[t.procs[q].pc.i] == Proc(q) {
      assert HoldsProc(q, t.procs[q].pc, t.procs[q].pc.i);
    }
  }

  /** The one argument behind every quiet step: nobody new is exposed, and a waker in progress
      does not step past a process that is still asleep. */
  lemma SleepersStep(s: Sys, t: Sys, p: nat, q: nat)
    requires Inv(s) && OnlyPc(s, t, p) && Shape(t) && LocksOk(t) && q < |s.procs|
    requires forall r, side :: OnChan(t.procs[q], r, side) ==> OnChan(s.procs[q], r, side) || Deciding(s.procs[q], r, side)
    requires forall r, side :: Deciding(t.procs[q], r, side) ==> Deciding(s.procs[q], r, side)
    requires forall r, side :: WakeComing(s.procs[p], r, side, q) && OnChan(t.procs[q], r, side)
               ==> WakeComing(t.procs[p], r, side, q)
    ensures SleepersOk(t, q)
  {
    assert SleepersOk(s, q);
    forall r, side | 0 <= r < |t.res| && OnChan(t.procs[q], r, side) && !Blocked(t.res[r], side)
      ensures t.rlk[r].Proc? && WakeComing(t.procs[t.rlk[r].p], r, side, q)
    {
      var w := s.rlk[r].p;
      assert WakeComing(s.procs[w], r, side, q);
      assert WakeComing(t.procs[w], r, side, q);
      assert HeldObject(t.procs[w].pc) == Some(r);
    }
  }

  /** A step that moves only p, changes no object and no other process's fields. */
  lemma SoloKeeps(s: Sys, t: Sys, p: nat)
    requires Inv(s) && OnlyPc(s, t, p) && Shape(t) && LocksOk(t)
    requires forall q :: 0 <= q < |s.procs| && q != p ==> t.procs[q] == s.procs[q]
    requires StateOk(t.procs[p]) && t.procs[p].holds == s.procs[p].holds
    requires t.procs[p].pc.Crit? && t.procs[p].pc.op.LockRelease? ==> t.procs[p].pc.r in s.procs[p].holds
    requires forall r, side :: OnChan(t.procs[p], r, side) ==> OnChan(s.procs[p], r, side) || Deciding(s.procs[p], r, side)
    requires forall r, side :: Deciding(t.procs[p], r, side) ==> Deciding(s.procs[p], r, side)
    requires forall r, side, q :: 0 <= q < |s.procs| && WakeComing(s.procs[p], r, side, q) ==> WakeComing(t.procs[p], r, side, q)
    ensures Inv(t)
  {
    forall q | 0 <= q < |t.procs| ensures StateOk(t.procs[q]) && SleepersOk(t, q) && HoldersOk(t, q) {
      assert StateOk(s.procs[q]) && HoldersOk(s, q);
      SleepersStep(s, t, p, q);
    }
  }

  lemma WakeTestKeeps(s: Sys, p: nat)
    requires Inv(s) && p < |s.procs| && s.procs[p].pc.WakeTest?
    ensures Inv(GoStep(s, p).value)
  {
    hide SleepersOk, ResOk, Blocked, Critical;
    var t := GoStep(s, p).value;
    var i := s.procs[p].pc.i;
    ShapeStep(s, t, p);
    MoveProc(s, t, p, i, Free);
    forall q | 0 <= q < |t.procs| ensures StateOk(t.procs[q]) && SleepersOk(t, q) && HoldersOk(t, q) {
      assert StateOk(s.procs[q]) && HoldersOk(s, q) && StateOk(s.procs[p]);
      WakeTestMoves(s, p, q);
      SleepersStep(s, t, p, q);
    }
  }

  /** A sleeper on the address being woken becomes runnable when the loop reaches it. */
  lemma WakeTestMoves(s: Sys, p: nat, q: nat)
    requires Inv(s) && p < |s.procs| && s.procs[p].pc.WakeTest? && q < |s.procs|
    ensures var t := GoStep(s, p).value;
            && |t.procs| == |s.procs|
            && (var pc := s.procs[p].pc;
                var woken := q == pc.i && s.procs[q].state == Sleeping && s.procs[q].chan == On(pc.r, pc.side);
                q != p ==> t.procs[q] == if woken then s.procs[q].(state := Runnable) else s.procs[q])
            && StateOk(t.procs[q]) && t.procs[q].holds == s.procs[q].holds
            && (q != p ==> t.procs[q].pc == s.procs[q].pc)
            && (forall r, side :: OnChan(t.procs[q], r, side) ==> OnChan(s.procs[q], r, side))
            && (forall r, side :: Deciding(t.procs[q], r, side) ==> Deciding(s.procs[q], r, side))
            && (forall r, side :: WakeComing(s.procs[p], r, side, q) && OnChan(t.procs[q], r, side)
                  ==> WakeComing(t.procs[p], r, side, q))
  {
    hide SleepersOk, HoldersOk, ResOk, Blocked, Critical;
    assert StateOk(s.procs[q]) && StateOk(s.procs[p]);
  }

  lemma ScanKeeps(s: Sys, p: nat)
    requires Inv(s) && p < |s.procs| && s.procs[p].pc.WakeScan? && GoStep(s, p).Some?
    ensures Inv(GoStep(s, p).value)
  {
    hide SleepersOk, ResOk, Blocked, Critical;
    var t := GoStep(s, p).value;
    var me := s.procs[p].pc;
    assert StateOk(s.procs[p]);
    ShapeStep(s, t, p);
    if me.i >= |s.procs| { MoveProc(s, t, p, p, s.plk[p]); } else { MoveProc(s, t, p, me.i, Proc(p)); }
    SoloKeeps(s, t, p);
  }

  lemma SleepKeeps(s: Sys, p: nat)
    requires Inv(s) && p < |s.procs| && GoStep(s, p).Some?
    requires var pc := s.procs[p].pc; pc.SleepTake? || pc.SleepDrop? || pc.SleepMark?
    ensures Inv(GoStep(s, p).value)
  {
    hide SleepersOk, HoldersOk, ResOk, Blocked, Critical, WakeComing;
    var t := GoStep(s, p).value;
    assert StateOk(s.procs[p]);
    ShapeStep(s, t, p);
    match s.procs[p].pc {
      case SleepTake(_, _, _) => MoveProc(s, t, p, p, Proc(p));
      case SleepDrop(r, _, _) => DropObject(s, t, p, r);
      case SleepMark(_, _, _) => MoveProc(s, t, p, p, Proc(p));
    }
    NotWaking(s.procs[p]);
    SoloKeeps(s, t, p);
  }

  lemma NotWaking(me: Process)
    requires !me.pc.WakeScan? && !me.pc.WakeTest?
    ensures forall r, side, q :: !WakeComing(me, r, side, q)
  {
  }

  lemma ReturnKeeps(s: Sys, p: nat)
    requires Inv(s) && p < |s.procs| && GoStep(s, p).Some?
    requires var pc := s.procs[p].pc; pc.Resumed? || pc.Retake? || pc.Leave?
    ensures Inv(GoStep(s, p).value)
  {
    hide SleepersOk, HoldersOk, ResOk, Blocked, Critical, WakeComing;
    var t := GoStep(s, p).value;
    assert StateOk(s.procs[p]);
    ShapeStep(s, t, p);
    match s.procs[p].pc {
      case Resumed(_, _) => MoveProc(s, t, p, p, Free);
      case Retake(r, _) => TakeObject(s, t, p, r);
      case Leave(r) => DropObject(s, t, p, r);
    }
    NotWaking(s.procs[p]);
    SoloKeeps(s, t, p);
  }

  lemma YieldKeeps(s: Sys, p: nat)
    requires Inv(s) && p < |s.procs| && (s.procs[p].pc.YieldMark? || s.procs[p].pc.YieldBack?)
    ensures Inv(GoStep(s, p).value)
  {
    var t := GoStep(s, p).value;
    assert StateOk(s.procs[p]);
    ShapeStep(s, t, p);
    MoveProc(s, t, p, p, if s.procs[p].pc.YieldMark? then Proc(p) else Free);
    SoloKeeps(s, t, p);
  }

  lemma SameWaking(me: Process, after: Process)
    requires me.pc == after.pc || (!me.pc.WakeScan? && !me.pc.WakeTest?)
    ensures forall r, side, q :: WakeComing(me, r, side, q) ==> WakeComing(after, r, side, q)
  {
  }

  lemma SwitchLocks(s: Sys, e: Step)
    requires Inv(s) && (e.Preempt? || e.SwitchOut? || e.Dispatch?) && Apply(s, e).Some?
    ensures OnlyPc(s, Apply(s, e).value, e.p) && Shape(Apply(s, e).value) && LocksOk(Apply(s, e).value)
    ensures StateOk(Apply(s, e).value.procs[e.p])
  {
    hide SleepersOk, ResOk, HoldersOk;
    var t := Apply(s, e).value;
    var p := e.p;
    assert StateOk(s.procs[p]) && PcShape(s.res, |s.procs|, s.procs[p].pc);
    ShapeStep(s, t, p);
    MoveProc(s, t, p, p, t.plk[p]);
  }

  lemma SwitchKeeps(s: Sys, e: Step)
    requires Inv(s) && (e.Preempt? || e.SwitchOut? || e.Dispatch?) && Apply(s, e).Some?
    ensures Inv(Apply(s, e).value)
  {
    hide SleepersOk, ResOk, Blocked, Critical, WakeComing, LocksOk;
    var t := Apply(s, e).value;
    var p := e.p;
    assert StateOk(s.procs[p]) && HoldersOk(s, p);
    SwitchLocks(s, e);
    SameWaking(s.procs[p], t.procs[p]);
    SoloKeeps(s, t, p);
  }

  lemma HartKeeps(s: Sys, e: Step)
    requires Inv(s) && (e.HartTake? || e.HartDrop?) && Apply(s, e).Some?
    ensures Inv(Apply(s, e).value)
  {
    hide SleepersOk, ResOk, Blocked, Critical, WakeComing;
    var t := Apply(s, e).value;
    var p := e.p;
    assert StateOk(s.procs[p]) && HoldersOk(s, p) && PcShape(s.res, |s.procs|, s.procs[p].pc);
    ShapeStep(s, t, p);
    MoveProc(s, t, p, p, t.plk[p]);
    SameWaking(s.procs[p], t.procs[p]);
    SoloKeeps(s, t, p);
  }

  lemma BeginKeeps(s: Sys, e: Step)
    requires Inv(s) && e.Begin? && Apply(s, e).Some?
    ensures Inv(Apply(s, e).value)
  {
    var t := Apply(s, e).value;
    assert StateOk(s.procs[e.p]);
    ShapeStep(s, t, e.p);
    TakeObject(s, t, e.p, e.r);
    SoloKeeps(s, t, e.p);
  }

  lemma CritKeeps(s: Sys, p: nat)
    requires Inv(s) && p < |s.procs| && s.procs[p].pc.Crit?
    ensures Inv(GoStep(s, p).value)
  {
    var t := GoStep(s, p).value;
    var Crit(r, op) := s.procs[p].pc;
    var o := Critical(s.res[r], op, p);
    CriticalKeeps(s.res[r], op, p);
    CritShape(s, p, o.res);
    CritLocks(s, p);
    forall q | 0 <= q < |t.procs| ensures StateOk(t.procs[q]) && SleepersOk(t, q) && HoldersOk(t, q) {
      assert StateOk(s.procs[q]);
      CritSleepers(s, p, q);
      CritHolders(s, p, q);
    }
  }

  lemma CritShape(s: Sys, p: nat, res: Res)
    requires Inv(s) && p < |s.procs| && s.procs[p].pc.Crit?
    requires res == Critical(s.res[s.procs[p].pc.r], s.procs[p].pc.op, p).res
    ensures Shape(GoStep(s, p).value)
  {
    var t := GoStep(s, p).value;
    CriticalKeeps(s.res[s.procs[p].pc.r], s.procs[p].pc.op, p);
    forall q | 0 <= q < |t.procs| ensures PcShape(t.res, |t.procs|, t.procs[q].pc) {
      assert q != p ==> PcShape(s.res, |s.procs|, s.procs[q].pc);
    }
  }

  lemma CritLocks(s: Sys, p: nat)
    requires Inv(s) && p < |s.procs| && s.procs[p].pc.Crit?
    requires Shape(GoStep(s, p).value)
    ensures LocksOk(GoStep(s, p).value)
  {
    hide Critical, ResOk, Blocked, HoldersOk, SleepersOk;
  }

  lemma CritSleepers(s: Sys, p: nat, q: nat)
    requires Inv(s) && p < |s.procs| && s.procs[p].pc.Crit? && q < |s.procs|
    requires Shape(GoStep(s, p).value) && LocksOk(GoStep(s, p).value)
    ensures SleepersOk(GoStep(s, p).value, q)
  {
    hide Critical, ResOk, Blocked, HoldersOk;
    var t := GoStep(s, p).value;
    var r0 := s.procs[p].pc.r;
    CriticalKeeps(s.res[r0], s.procs[p].pc.op, p);
    assert SleepersOk(s, q) && PcShape(s.res, |s.procs|, s.procs[q].pc);
    forall r, side | 0 <= r < |t.res| && OnChan(t.procs[q], r, side) && !Blocked(t.res[r], side)
      ensures t.rlk[r].Proc? && WakeComing(t.procs[t.rlk[r].p], r, side, q)
    {
      assert OnChan(s.procs[q], r, side) && HasSide(s.res[r], side);
      assert s.rlk[r0] == Proc(p);
    }
    forall r, side | 0 <= r < |t.res| && Deciding(t.procs[q], r, side)
      ensures Blocked(t.res[r], side)
    {
      assert HeldObject(t.procs[q].pc) == Some(r);
    }
  }

  lemma CritHolders(s: Sys, p: nat, q: nat)
    requires Inv(s) && p < |s.procs| && s.procs[p].pc.Crit? && q < |s.procs|
    requires Shape(GoStep(s, p).value)
    ensures HoldersOk(GoStep(s, p).value, q)
  {
    CriticalKeeps(s.res[s.procs[p].pc.r], s.procs[p].pc.op, p);
    assert HoldersOk(s, q) && HoldersOk(s, p);
  }

  lemma StepKeeps(s: Sys, e: Step)
    requires Inv(s) && Apply(s, e).Some?
    ensures Inv(Apply(s, e).value)
  {
    match e
    case Begin(_, _, _) => BeginKeeps(s, e);
    case Go(p) =>
      match s.procs[p].pc {
        case Crit(_, _) => CritKeeps(s, p);
        case WakeTest(_, _, _, _, _) => WakeTestKeeps(s, p);
        case WakeScan(_, _, _, _, _) => ScanKeeps(s, p);
        case YieldMark(_) => YieldKeeps(s, p);
        case YieldBack(_) => YieldKeeps(s, p);
        case SleepTake(_, _, _) => SleepKeeps(s, p);
        case SleepDrop(_, _, _) => SleepKeeps(s, p);
        case SleepMark(_, _, _) => SleepKeeps(s, p);
        case _ => ReturnKeeps(s, p);
      }
    case HartTake(_, _) => HartKeeps(s, e);
    case HartDrop(_, _) => HartKeeps(s, e);
    case _ => SwitchKeeps(s, e);
  }

  // ----- whole runs

  ghost predicate IsRun(run: seq<Sys>) {
    && |run| > 0 && Init(run[0])
    && (forall k :: 0 <= k < |run| - 1 ==> Shape(run[k]) && exists e :: Apply(run[k], e) == Some(run[k + 1]))
  }

  lemma {:induction false} RunInv(run: seq<Sys>, k: nat)
    requires IsRun(run) && k < |run|
    ensures Inv(run[k])
  {
    if k == 0 {
      InitInv(run[0]);
    } else {
      RunInv(run, k - 1);
      var j := k - 1;
      assert Shape(run[j]) && exists e :: Apply(run[j], e) == Some(run[j + 1]);
      var e :| Apply(run[j], e) == Some(run[j + 1]);
      StepKeeps(run[j], e);
    }
  }

  /** No lost wakeup: in every reachable state, whenever an object's lock is free, whoever is
      asleep on it or on the way to sleep still has a reason to be. */
  lemma NoLostWakeup(run: seq<Sys>, k: nat, r: nat, p: nat, side: Side)
    requires IsRun(run) && k < |run| && r < |run[k].res| && r < |run[k].rlk| && p < |run[k].procs|
    requires run[k].rlk[r] == Free
    requires OnChan(run[k].procs[p], r, side) || Deciding(run[k].procs[p], r, side)
    ensures Blocked(run[k].res[r], side)
  {
    RunInv(run, k);
    assert SleepersOk(run[k], p);
  }

  /** Semaphores: nobody sleeps past a positive value, and the value is what the history says. */
  lemma SemaphoreSafe(run: seq<Sys>, k: nat, r: nat)
    requires IsRun(run) && k < |run| && r < |run[k].res| && r < |run[k].rlk| && run[k].res[r].Sem?
    ensures var sem := run[k].res[r];
            && 0 <= sem.value == sem.start + sem.ups - sem.downs
            && (run[k].rlk[r] == Free && sem.value > 0 ==>
                  forall p :: 0 <= p < |run[k].procs| ==> run[k].procs[p].state == Sleeping ==> run[k].procs[p].chan != On(r, Whole))
  {
    RunInv(run, k);
    var s := run[k];
    forall p | 0 <= p < |s.procs| && s.procs[p].state == Sleeping && s.procs[p].chan == On(r, Whole)
      ensures s.rlk[r] == Free ==> s.res[r].value == 0
    {
      assert StateOk(s.procs[p]) && SleepersOk(s, p);
      assert OnChan(s.procs[p], r, Whole);
    }
  }

  /** Sleep locks: at most one process holds one, `sleeplock_holding` tells exactly who, and
      nobody sleeps on a lock that is free. */
  lemma SleepLockSafe(run: seq<Sys>, k: nat, r: nat, p: nat, q: nat)
    requires IsRun(run) && k < |run| && r < |run[k].res| && r < |run[k].rlk| && run[k].res[r].SleepLock?
    requires p < |run[k].procs| && q < |run[k].procs|
    ensures r in run[k].procs[p].holds && r in run[k].procs[q].holds ==> p == q
    ensures Holding(run[k].res[r], p) <==> r in run[k].procs[p].holds
    ensures run[k].rlk[r] == Free && !run[k].res[r].locked && run[k].procs[p].state == Sleeping
            ==> run[k].procs[p].chan != On(r, Whole)
  {
    RunInv(run, k);
    var s := run[k];
    assert HoldersOk(s, p) && HoldersOk(s, q) && StateOk(s.procs[p]) && SleepersOk(s, p);
    if s.rlk[r] == Free && s.procs[p].state == Sleeping && s.procs[p].chan == On(r, Whole) {
      assert OnChan(s.procs[p], r, Whole);
    }
  }

  /** sleeplock_holding. */
  predicate Holding(res: Res, me: nat)
    requires res.SleepLock?
  {
    res.locked && res.pid == me
  }

  /** Pipes: no reader sleeps on data or on a closed write end (while the read end is open), no
      writer sleeps on room or on a closed read end, and the bytes come out as they went in. */
  lemma PipeSafe(run: seq<Sys>, k: nat, r: nat)
    requires IsRun(run) && k < |run| && r < |run[k].res| && r < |run[k].rlk| && run[k].res[r].PipeRes?
    ensures var s := run[k]; var pipe := s.res[r].pipe;
            && 0 <= Unread(pipe) <= PIPE_SIZE == |pipe.data|
            && (|pipe.sent| <= U32 ==>
                  && pipe.received <= pipe.sent
                  && |pipe.sent| - |pipe.received| == Unread(pipe)
                  && forall j :: |pipe.received| <= j < |pipe.sent| ==> pipe.data[j % PIPE_SIZE] == pipe.sent[j])
            && (s.rlk[r] == Free ==> forall p :: 0 <= p < |s.procs| && s.procs[p].state == Sleeping ==>
                  && (s.procs[p].chan == On(r, Readers) && pipe.readopen ==> pipe.nread == pipe.nwrite && pipe.writeopen)
                  && (s.procs[p].chan == On(r, Writers) ==> Unread(pipe) == PIPE_SIZE && pipe.readopen))
  {
    RunInv(run, k);
    var s := run[k];
    var pipe := s.res[r].pipe;
    assert ResOk(s.res[r]);
    if s.rlk[r] == Free {
      forall p | 0 <= p < |s.procs| && s.procs[p].state == Sleeping
        ensures (s.procs[p].chan == On(r, Readers) && pipe.readopen ==> pipe.nread == pipe.nwrite && pipe.writeopen)
        ensures (s.procs[p].chan == On(r, Writers) ==> Unread(pipe) == PIPE_SIZE && pipe.readopen)
      {
        assert StateOk(s.procs[p]) && SleepersOk(s, p);
        if s.procs[p].chan == On(r, Readers) { assert OnChan(s.procs[p], r, Readers); }
        if s.procs[p].chan == On(r, Writers) { assert OnChan(s.procs[p], r, Writers); }
      }
    }
  }
}
