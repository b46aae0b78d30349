/** proc_fork, proc_wait and proc_exit as an interleaved step system over process locks. A step is
    the code between two lock operations; proc_wait scans the `parent` fields without their locks,
    and so does proc_reparent. */
module ChildExit {
  import opened Base

  datatype PState = Unused | Runnable | Running | Sleeping | Zombie

  /** sleep_space: a process waiting for a child sleeps on itself. */
  datatype Chan = NoChan | OnSelf | Elsewhere

  datatype Owner = Free | Proc(p: nat) | Hart

  /** Where a process stands; the comment gives the process locks it holds there. */
  datatype Pc =
    | User
    | Dead                                    // slot unused, or a zombie switched out
    | YieldMark(back: Pc)                     // own
    | Yielding(back: Pc)                      // own
    | Yielded(back: Pc)
    | YieldBack(back: Pc)                     // own
    | NapMark                                 // own; sleeping on something else
    | Napping                                 // own
    | Napped
    | NapBack                                 // own
    | ForkHold(c: nat)                        // c
    | WaitTake
    | WaitScan(i: nat, kids: bool)            // own
    | WaitTry(i: nat)                         // own
    | WaitCheck(i: nat)                       // own, i
    | WaitFreed(i: nat)                       // own, i
    | WaitDone(i: nat)                        // i
    | WaitPark                                // own
    | WaitAsleep
    | WaitBack                                // own
    | WaitLeak                                // own; returned -1 without releasing it
    | ExitZero
    | ExitZeroHold                            // proczero
    | ExitOwn
    | ExitRead                                // own
    | ExitPar(par: nat)
    | ExitSelf(par: nat)                      // par
    | ExitScan(par: nat, i: nat)              // par, own
    | ExitTry(par: nat, i: nat)               // par, own
    | ExitMove(par: nat, i: nat)              // par, own, i
    | ExitWake(par: nat)                      // par, own
    | ExitMark(par: nat)                      // par, own
    | ExitDrop(par: nat)                      // par, own
    | ZombiePark                              // own

  datatype Process = Process(state: PState, parent: Option<nat>, chan: Chan, pc: Pc)

  /** `late` is history: the children that an exiting parent handed to proczero only after they had read
      who their parent is, until they are reaped. No step looks at it. */
  datatype Sys = Sys(procs: seq<Process>, plk: seq<Owner>, zero: nat, late: set<nat>)

  datatype Call = Fork(c: nat) | Wait | Exit | Nap

  datatype Step =
    | Begin(p: nat, call: Call)
    | Go(p: nat)
    | Preempt(p: nat)
    | SwitchOut(p: nat)     // the scheduler releases a parked process's lock
    | HartTake(p: nat)
    | HartDrop(p: nat)
    | Dispatch(p: nat)      // the scheduler, holding p's lock, hands it to p
    | WakeNap(p: nat)       // some proc_wakeup for another address

  predicate Own(pc: Pc) {
    match pc
    case YieldMark(_) => true case Yielding(_) => true case YieldBack(_) => true
    case NapMark => true case Napping => true case NapBack => true
    case WaitScan(_, _) => true case WaitTry(_) => true case WaitCheck(_) => true case WaitFreed(_) => true
    case WaitPark => true case WaitBack => true case WaitLeak => true
    case ExitRead => true
    case ExitScan(_, _) => true case ExitTry(_, _) => true case ExitMove(_, _) => true
    case ExitWake(_) => true case ExitMark(_) => true case ExitDrop(_) => true
    case ZombiePark => true
    case _ => false
  }

  function ExitParent(pc: Pc): Option<nat> {
    match pc
    case ExitPar(par) => Some(par)
    case ExitSelf(par) => Some(par)
    case ExitScan(par, _) => Some(par)
    case ExitTry(par, _) => Some(par)
    case ExitMove(par, _) => Some(par)
    case ExitWake(par) => Some(par)
    case ExitMark(par) => Some(par)
    case ExitDrop(par) => Some(par)
    case _ => None
  }

  predicate Third(pc: Pc, i: nat) {
    match pc
    case ForkHold(c) => c == i
    case WaitCheck(j) => j == i
    case WaitFreed(j) => j == i
    case WaitDone(j) => j == i
    case ExitMove(_, j) => j == i
    case _ => false
  }

  predicate Holds(p: nat, zero: nat, pc: Pc, i: nat) {
    || (Own(pc) && i == p)
    || (ExitParent(pc) == Some(i) && !pc.ExitPar?)
    || Third(pc, i)
    || (pc.ExitZeroHold? && i == zero)
  }

  function SetPc(s: Sys, p: nat, pc: Pc): Sys
    requires p < |s.procs|
  {
    s.(procs := s.procs[p := s.procs[p].(pc := pc)])
  }

  function Locked(s: Sys, i: nat, p: nat, pc: Pc): Option<Sys>
    requires p < |s.procs|
  {
    if i < |s.plk| && s.plk[i] == Free then Some(SetPc(s.(plk := s.plk[i := Proc(p)]), p, pc)) else None
  }

  function Unlocked(s: Sys, i: nat, p: nat, pc: Pc): Option<Sys>
    requires p < |s.procs|
  {
    if i < |s.plk| then Some(SetPc(s.(plk := s.plk[i := Free]), p, pc)) else None
  }

  /** proc_wakeup_one. */
  function WokenOne(s: Sys, i: nat): Sys {
    if i < |s.procs| && s.procs[i].state == Sleeping && s.procs[i].chan == OnSelf
    then s.(procs := s.procs[i := s.procs[i].(state := Runnable)]) else s
  }

  function Under(pc: Pc): Pc {
    match pc
    case YieldMark(b) => b case Yielding(b) => b case Yielded(b) => b case YieldBack(b) => b
    case _ => pc
  }

  /** The process is a zombie, or has read its parent in proc_exit already. */
  predicate HasRead(me: Process) { me.state == Zombie || ExitParent(Under(me.pc)).Some? }

  function Later(s: Sys, i: nat): set<nat> {
    if i < |s.procs| && HasRead(s.procs[i]) then s.late + {i} else s.late
  }

  function GoStep(s: Sys, p: nat): Option<Sys>
    requires p < |s.procs|
  {
    var me := s.procs[p];
    var n := |s.procs|;
    match me.pc
    case YieldMark(back) => Some(s.(procs := s.procs[p := me.(state := Runnable, pc := Yielding(back))]))
    case YieldBack(back) => Unlocked(s, p, p, back)
    case NapMark => Some(s.(procs := s.procs[p := me.(state := Sleeping, chan := Elsewhere, pc := Napping)]))
    case NapBack => Unlocked(s.(procs := s.procs[p := me.(chan := NoChan)]), p, p, User)
    case ForkHold(c) =>
      if c >= n || c == p then None else
      Unlocked(s.(procs := s.procs[c := Process(Runnable, Some(p), NoChan, Yielded(User))], late := s.late - {c}), c, p, User)
    case WaitTake => Locked(s, p, p, WaitScan(0, false))
    case WaitScan(i, kids) =>
      if i < n then
        Some(SetPc(s, p, if s.procs[i].parent == Some(p) then WaitTry(i) else WaitScan(i + 1, kids)))
      else if !kids then Some(SetPc(s, p, WaitLeak))
      else Some(s.(procs := s.procs[p := me.(state := Sleeping, chan := OnSelf, pc := WaitPark)]))
    case WaitTry(i) => Locked(s, i, p, WaitCheck(i))
    case WaitCheck(i) =>
      if i >= n || i == p then None
      else if s.procs[i].state == Zombie
      then Some(SetPc(s.(procs := s.procs[i := Process(Unused, None, NoChan, Dead)], late := s.late - {i}), p, WaitFreed(i)))
      else Unlocked(s, i, p, WaitScan(i + 1, true))
    case WaitFreed(i) => Unlocked(s, p, p, WaitDone(i))
    case WaitDone(i) => Unlocked(s, i, p, User)
    case WaitBack => Some(s.(procs := s.procs[p := me.(chan := NoChan, pc := WaitScan(0, false))]))
    case ExitZero => Locked(s, s.zero, p, ExitZeroHold)
    case ExitZeroHold => Unlocked(WokenOne(s, s.zero), s.zero, p, ExitOwn)
    case ExitOwn => Locked(s, p, p, ExitRead)
    case ExitRead => if me.parent == None then None else Unlocked(s, p, p, ExitPar(me.parent.value))
    case ExitPar(par) => Locked(s, par, p, ExitSelf(par))
    case ExitSelf(par) => Locked(s, p, p, ExitScan(par, 0))
    case ExitScan(par, i) =>
      if i < n then Some(SetPc(s, p, if s.procs[i].parent == Some(p) then ExitTry(par, i) else ExitScan(par, i + 1)))
      else Some(SetPc(s, p, ExitWake(par)))
    case ExitTry(par, i) => Locked(s, i, p, ExitMove(par, i))
    case ExitMove(par, i) =>
      if i >= n || i == p then None else
      Unlocked(s.(procs := s.procs[i := s.procs[i].(parent := Some(s.zero))], late := Later(s, i)), i, p, ExitScan(par, i + 1))
    case ExitWake(par) => if par == p then None else Some(SetPc(WokenOne(s, par), p, ExitMark(par)))
    case ExitMark(par) => Some(s.(procs := s.procs[p := me.(state := Zombie, pc := ExitDrop(par))]))
    case ExitDrop(par) => Unlocked(s, par, p, ZombiePark)
    case _ => None
  }

  function Start(s: Sys, p: nat, call: Call): Option<Sys>
    requires p < |s.procs| == |s.plk|
  {
    match call
    case Fork(c) => if c < |s.procs| && c != p && s.procs[c].state == Unused then Locked(s, c, p, ForkHold(c)) else None
    case Wait => Some(SetPc(s, p, WaitTake))
    case Exit => if p == s.zero then None else Some(SetPc(s, p, ExitZero))
    case Nap => Locked(s, p, p, NapMark)
  }

  /** Interrupts are on only where no lock is held. */
  predicate Preemptible(pc: Pc) {
    pc.User? || pc.WaitTake? || pc.ExitZero? || pc.ExitOwn? || pc.ExitPar?
  }

  function Resumed(s: Sys, p: nat, pc: Pc): Sys
    requires p < |s.procs| == |s.plk|
  {
    s.(plk := s.plk[p := Proc(p)], procs := s.procs[p := s.procs[p].(state := Running, pc := pc)])
  }

  function Apply(s: Sys, e: Step): Option<Sys>
    requires |s.procs| == |s.plk|
  {
    if e.p >= |s.procs| then None else
    var me := s.procs[e.p];
    match e
    case Begin(p, call) => if me.pc == User then Start(s, p, call) else None
    case Go(p) => GoStep(s, p)
    case Preempt(p) => if Preemptible(me.pc) then Locked(s, p, p, YieldMark(me.pc)) else None
    case SwitchOut(p) =>
      (match me.pc
       case Yielding(back) => Unlocked(s, p, p, Yielded(back))
       case Napping => Unlocked(s, p, p, Napped)
       case WaitPark => Unlocked(s, p, p, WaitAsleep)
       case ZombiePark => Unlocked(s, p, p, Dead)
       case _ => None)
    case HartTake(p) => if s.plk[p] == Free then Some(s.(plk := s.plk[p := Hart])) else None
    case HartDrop(p) => if s.plk[p] == Hart then Some(s.(plk := s.plk[p := Free])) else None
    case Dispatch(p) =>
      if !(s.plk[p] == Hart && me.state == Runnable) then None else
      (match me.pc
       case Yielded(back) => Some(Resumed(s, p, YieldBack(back)))
       case Napped => Some(Resumed(s, p, NapBack))
       case WaitAsleep => Some(Resumed(s, p, WaitBack))
       case _ => None)
    case WakeNap(p) =>
      if s.plk[p] == Free && me.state == Sleeping && me.chan == Elsewhere
      then Some(s.(procs := s.procs[p := me.(state := Runnable)])) else None
  }

  // ----- what every step keeps

  ghost predicate LocksOk(s: Sys) {
    && |s.plk| == |s.procs|
    && (forall p, i :: 0 <= p < |s.procs| && 0 <= i < |s.plk| && Holds(p, s.zero, s.procs[p].pc, i) ==> s.plk[i] == Proc(p))
    && (forall i :: 0 <= i < |s.plk| && s.plk[i].Proc? ==>
          s.plk[i].p < |s.procs| && Holds(s.plk[i].p, s.zero, s.procs[s.plk[i].p].pc, i))
  }

  /** The state and sleep_space fields follow the program counter. */
  ghost predicate StateOk(me: Process) {
    match me.pc
    case Dead => me.state == Unused || me.state == Zombie
    case Yielding(back) => me.state == Runnable && Preemptible(back)
    case Yielded(back) => me.state == Runnable && Preemptible(back)
    case YieldMark(back) => me.state == Running && Preemptible(back)
    case YieldBack(back) => me.state == Running && Preemptible(back)
    case Napping => me.state == Sleeping && me.chan == Elsewhere
    case Napped => me.state != Running && me.chan == Elsewhere && (me.state == Sleeping || me.state == Runnable)
    case WaitPark => me.state == Sleeping && me.chan == OnSelf
    case WaitAsleep => (me.state == Sleeping || me.state == Runnable) && me.chan == OnSelf
    case ExitDrop(_) => me.state == Zombie
    case ZombiePark => me.state == Zombie
    case _ => me.state == Running
  }

  /** An exiting process's idea of its parent can only be overtaken by a late hand-over. */
  ghost predicate ParentOk(s: Sys, p: nat)
    requires p < |s.procs|
  {
    var par := ExitParent(Under(s.procs[p].pc));
    par.Some? && !s.procs[p].pc.ExitDrop? ==> s.procs[p].parent == par || (s.procs[p].parent == Some(s.zero) && p in s.late)
  }

  predicate AwaitingSelf(me: Process) { me.state == Sleeping && me.chan == OnSelf }

  /** How far a waiting process has seen that its children are not zombies. */
  function Cleared(s: Sys, p: nat): nat
    requires p < |s.procs|
  {
    var me := s.procs[p];
    match me.pc
    case WaitScan(i, _) => i
    case WaitTry(i) => i
    case WaitCheck(i) => i
    case _ => if AwaitingSelf(me) then |s.procs| else 0
  }

  ghost predicate ClearOk(s: Sys, p: nat)
    requires p < |s.procs|
  {
    forall j :: 0 <= j < Cleared(s, p) && j < |s.procs| && s.procs[j].parent == Some(p) && (p == s.zero ==> j !in s.late) ==>
      s.procs[j].state != Zombie
  }

  /** Between waking the parent and becoming a zombie, the parent is not asleep in proc_wait. */
  ghost predicate WokeOk(s: Sys, p: nat)
    requires p < |s.procs|
  {
    s.procs[p].pc.ExitMark? && s.procs[p].pc.par < |s.procs| ==> !AwaitingSelf(s.procs[s.procs[p].pc.par])
  }

  /** A process never takes a lock it stands in already. */
  predicate Apart(p: nat, pc: Pc) {
    match pc
    case ForkHold(c) => c != p
    case WaitCheck(i) => i != p
    case WaitFreed(i) => i != p
    case ExitScan(par, _) => par != p
    case ExitTry(par, _) => par != p
    case ExitMove(par, i) => par != p && i != p && i != par
    case ExitWake(par) => par != p
    case ExitMark(par) => par != p
    case ExitDrop(par) => par != p
    case _ => true
  }

  ghost predicate ForkOk(s: Sys, p: nat)
    requires p < |s.procs|
  {
    s.procs[p].pc.ForkHold? ==> s.procs[p].pc.c < |s.procs| && s.procs[s.procs[p].pc.c].state == Unused
  }

  ghost predicate ProcOk(s: Sys, p: nat)
    requires p < |s.procs|
  {
    Apart(p, s.procs[p].pc) && ForkOk(s, p) &&
    StateOk(s.procs[p]) && ParentOk(s, p) && ClearOk(s, p) && WokeOk(s, p)
  }

  ghost predicate Inv(s: Sys) {
    LocksOk(s) && forall p :: 0 <= p < |s.procs| ==> ProcOk(s, p)
  }

  /** Every slot is unused, or a process in user code that may be running or ready. */
  ghost predicate Init(s: Sys) {
    && |s.plk| == |s.procs| && s.zero < |s.procs| && s.late == {}
    && (forall i :: 0 <= i < |s.plk| ==> s.plk[i] == Free)
    && (forall p :: 0 <= p < |s.procs| ==> Fresh(s.procs[p]))
  }

  predicate Fresh(me: Process) {
    me.chan == NoChan &&
    match me.pc
    case User => me.state == Running
    case Yielded(User) => me.state == Runnable
    case Dead => me.state == Unused && me.parent == None
    case _ => false
  }

  lemma InitInv(s: Sys)
    requires Init(s)
    ensures Inv(s)
  {
  }

  /** Process p moved; of the others only fields, not the locks they stand in. */
  ghost predicate Moves(s: Sys, t: Sys, p: nat) {
    && |t.procs| == |s.procs| == |s.plk| == |t.plk| && t.zero == s.zero && p < |s.procs|
    && (forall q, i :: 0 <= q < |s.procs| && q != p ==>
          (Holds(q, s.zero, t.procs[q].pc, i) <==> Holds(q, s.zero, s.procs[q].pc, i)))
  }

  lemma LockStep(s: Sys, t: Sys, p: nat, i: nat)
    requires LocksOk(s) && Moves(s, t, p) && i < |s.plk| && t.plk == s.plk[i := t.plk[i]]
    requires forall k :: 0 <= k < |s.plk| && k != i ==>
               (Holds(p, s.zero, s.procs[p].pc, k) <==> Holds(p, s.zero, t.procs[p].pc, k))
    requires if t.plk[i] == s.plk[i]
             then Holds(p, s.zero, s.procs[p].pc, i) <==> Holds(p, s.zero, t.procs[p].pc, i)
             else (s.plk[i].Proc? ==> s.plk[i] == Proc(p)) && (t.plk[i].Proc? ==> t.plk[i] == Proc(p))
                  && (Holds(p, s.zero, t.procs[p].pc, i) <==> t.plk[i] == Proc(p))
    ensures LocksOk(t)
  {
  }

  /** What a step of process p alone does to another process. */
  lemma SoloOther(s: Sys, t: Sys, p: nat, q: nat)
    requires |t.procs| == |s.procs| && t.zero == s.zero && t.late == s.late && p < |s.procs| && q < |s.procs| && q != p
    requires ProcOk(s, q)
    requires forall j :: 0 <= j < |s.procs| && j != p ==> t.procs[j] == s.procs[j]
    requires t.procs[p].parent == s.procs[p].parent
    requires t.procs[p].state == Zombie ==> s.procs[p].state == Zombie
    requires s.procs[p].state == Unused ==> t.procs[p].state == Unused
    requires s.procs[q].pc == ExitMark(p) && AwaitingSelf(t.procs[p]) ==> AwaitingSelf(s.procs[p])
    ensures ProcOk(t, q)
  {
  }

  /** A step that changes only process p, and does not make it a zombie. */
  lemma SoloKeeps(s: Sys, t: Sys, p: nat)
    requires Inv(s) && Moves(s, t, p) && LocksOk(t) && ProcOk(t, p)
    requires forall q :: 0 <= q < |s.procs| && q != p ==> t.procs[q] == s.procs[q]
    requires t.procs[p].parent == s.procs[p].parent && t.late == s.late
    requires t.procs[p].state == Zombie ==> s.procs[p].state == Zombie
    requires s.procs[p].state == Unused ==> t.procs[p].state == Unused
    requires AwaitingSelf(t.procs[p]) ==> AwaitingSelf(s.procs[p]) || s.plk[p] == Proc(p)
    ensures Inv(t)
  {
    hide ProcOk;
    forall q | 0 <= q < |t.procs| ensures ProcOk(t, q) {
      if q != p {
        assert ProcOk(s, q);
        if s.procs[q].pc == ExitMark(p) { assert Holds(q, s.zero, s.procs[q].pc, p); }
        SoloOther(s, t, p, q);
      }
    }
  }

  /** The lock, if any, that a plain step takes or releases. */
  function Touched(s: Sys, p: nat): nat
    requires p < |s.procs|
  {
    match s.procs[p].pc
    case ForkHold(c) => c
    case WaitTry(i) => i
    case WaitCheck(i) => i
    case WaitDone(i) => i
    case ExitZero => s.zero
    case ExitZeroHold => s.zero
    case ExitPar(par) => par
    case ExitTry(_, i) => i
    case ExitMove(_, i) => i
    case ExitDrop(par) => par
    case _ => p
  }

  lemma OwnsItself(s: Sys, p: nat)
    requires LocksOk(s) && p < |s.procs|
    ensures Own(s.procs[p].pc) ==> s.plk[p] == Proc(p)
  {
    assert Own(s.procs[p].pc) ==> Holds(p, s.zero, s.procs[p].pc, p);
  }

  lemma SelfHeld(s: Sys, p: nat)
    requires LocksOk(s) && p < |s.procs|
    ensures forall i :: 0 <= i < |s.plk| && s.plk[i] == Free ==> !Holds(p, s.zero, s.procs[p].pc, i)
  {
  }

  lemma PlainLocks(s: Sys, p: nat)
    requires Inv(s) && p < |s.procs| && GoStep(s, p).Some?
    requires var pc := s.procs[p].pc;
             pc.YieldMark? || pc.YieldBack? || pc.NapMark? || pc.NapBack?
    ensures Moves(s, GoStep(s, p).value, p) && LocksOk(GoStep(s, p).value) && Apart(p, GoStep(s, p).value.procs[p].pc)
  {
    hide ParentOk, ClearOk, WokeOk, ForkOk;
    assert ProcOk(s, p);
    SelfHeld(s, p);
    LockStep(s, GoStep(s, p).value, p, Touched(s, p));
  }

  lemma PlainKeeps(s: Sys, p: nat)
    requires Inv(s) && p < |s.procs| && GoStep(s, p).Some?
    requires var pc := s.procs[p].pc;
             pc.YieldMark? || pc.YieldBack? || pc.NapMark? || pc.NapBack?
    ensures Inv(GoStep(s, p).value)
  {
    hide Holds;
    var t := GoStep(s, p).value;
    assert ProcOk(s, p);
    PlainLocks(s, p);
    OwnsItself(s, p);
    SoloKeeps(s, t, p);
  }

  lemma WaiterLocks(s: Sys, p: nat)
    requires Inv(s) && p < |s.procs| && GoStep(s, p).Some?
    requires var pc := s.procs[p].pc;
             pc.WaitTake? || pc.WaitTry? || pc.WaitFreed? || pc.WaitDone? || pc.WaitBack?
    ensures Moves(s, GoStep(s, p).value, p) && LocksOk(GoStep(s, p).value) && Apart(p, GoStep(s, p).value.procs[p].pc)
  {
    hide ParentOk, ClearOk, WokeOk, ForkOk;
    assert ProcOk(s, p);
    SelfHeld(s, p);
    LockStep(s, GoStep(s, p).value, p, Touched(s, p));
  }

  lemma WaiterKeeps(s: Sys, p: nat)
    requires Inv(s) && p < |s.procs| && GoStep(s, p).Some?
    requires var pc := s.procs[p].pc;
             pc.WaitTake? || pc.WaitTry? || pc.WaitFreed? || pc.WaitDone? || pc.WaitBack?
    ensures Inv(GoStep(s, p).value)
  {
    hide Holds;
    var t := GoStep(s, p).value;
    assert ProcOk(s, p);
    WaiterLocks(s, p);
    OwnsItself(s, p);
    SoloKeeps(s, t, p);
  }

  lemma ExitFirstLocks(s: Sys, p: nat)
    requires Inv(s) && p < |s.procs| && GoStep(s, p).Some?
    requires var pc := s.procs[p].pc;
             pc.ExitZero? || pc.ExitOwn? || pc.ExitRead?
    ensures Moves(s, GoStep(s, p).value, p) && LocksOk(GoStep(s, p).value) && Apart(p, GoStep(s, p).value.procs[p].pc)
  {
    hide ParentOk, ClearOk, WokeOk, ForkOk;
    assert ProcOk(s, p);
    SelfHeld(s, p);
    LockStep(s, GoStep(s, p).value, p, Touched(s, p));
  }

  lemma ExitPairLocks(s: Sys, p: nat)
    requires Inv(s) && p < |s.procs| && GoStep(s, p).Some?
    requires var pc := s.procs[p].pc;
             pc.ExitPar? || pc.ExitSelf?
    ensures Moves(s, GoStep(s, p).value, p) && LocksOk(GoStep(s, p).value) && Apart(p, GoStep(s, p).value.procs[p].pc)
  {
    hide ParentOk, ClearOk, WokeOk, ForkOk;
    assert ProcOk(s, p);
    SelfHeld(s, p);
    LockStep(s, GoStep(s, p).value, p, Touched(s, p));
  }

  lemma ExitEarlyKeeps(s: Sys, p: nat)
    requires Inv(s) && p < |s.procs| && GoStep(s, p).Some?
    requires var pc := s.procs[p].pc;
             pc.ExitZero? || pc.ExitOwn? || pc.ExitRead? || pc.ExitPar? || pc.ExitSelf?
    ensures Inv(GoStep(s, p).value)
  {
    hide Holds;
    var t := GoStep(s, p).value;
    assert ProcOk(s, p);
    if s.procs[p].pc.ExitPar? || s.procs[p].pc.ExitSelf? { ExitPairLocks(s, p); } else { ExitFirstLocks(s, p); }
    OwnsItself(s, p);
    SoloKeeps(s, t, p);
  }

  lemma ExitLateLocks(s: Sys, p: nat)
    requires Inv(s) && p < |s.procs| && GoStep(s, p).Some?
    requires var pc := s.procs[p].pc;
             pc.ExitScan? || pc.ExitTry? || pc.ExitDrop?
    ensures Moves(s, GoStep(s, p).value, p) && LocksOk(GoStep(s, p).value) && Apart(p, GoStep(s, p).value.procs[p].pc)
  {
    hide ParentOk, ClearOk, WokeOk, ForkOk, StateOk;
    assert ProcOk(s, p);
    SelfHeld(s, p);
    LockStep(s, GoStep(s, p).value, p, Touched(s, p));
  }

  lemma ExitLateKeeps(s: Sys, p: nat)
    requires Inv(s) && p < |s.procs| && GoStep(s, p).Some?
    requires var pc := s.procs[p].pc;
             pc.ExitScan? || pc.ExitTry? || pc.ExitDrop?
    ensures Inv(GoStep(s, p).value)
  {
    hide Holds;
    var t := GoStep(s, p).value;
    assert ProcOk(s, p);
    ExitLateLocks(s, p);
    OwnsItself(s, p);
    SoloKeeps(s, t, p);
  }

  lemma WaitScanLocks(s: Sys, p: nat)
    requires Inv(s) && p < |s.procs| && s.procs[p].pc.WaitScan?
    ensures Moves(s, GoStep(s, p).value, p) && LocksOk(GoStep(s, p).value)
  {
    hide ProcOk;
    LockStep(s, GoStep(s, p).value, p, p);
  }

  lemma WaitScanKeeps(s: Sys, p: nat)
    requires Inv(s) && p < |s.procs| && s.procs[p].pc.WaitScan?
    ensures Inv(GoStep(s, p).value)
  {
    hide Holds;
    var t := GoStep(s, p).value;
    assert ProcOk(s, p);
    WaitScanLocks(s, p);
    OwnsItself(s, p);
    SoloKeeps(s, t, p);
  }

  lemma ZombieOwns(s: Sys, i: nat)
    requires Inv(s) && i < |s.procs|
    ensures s.procs[i].state == Zombie ==> s.procs[i].pc == Dead || Own(s.procs[i].pc)
  {
    assert ProcOk(s, i);
  }

  lemma WaitCheckLocks(s: Sys, p: nat)
    requires Inv(s) && p < |s.procs| && s.procs[p].pc.WaitCheck? && GoStep(s, p).Some?
    ensures Moves(s, GoStep(s, p).value, p) && LocksOk(GoStep(s, p).value)
  {
    hide ProcOk;
    var i := s.procs[p].pc.i;
    ZombieOwns(s, i);
    assert Holds(p, s.zero, s.procs[p].pc, i);
    HeldByOther(s, p, i);
    LockStep(s, GoStep(s, p).value, p, i);
  }

  lemma Reaped(s: Sys, t: Sys, p: nat, i: nat, q: nat)
    requires p < |s.procs| && q < |s.procs| && i < |s.procs| && i != p && t.zero == s.zero && t.late == s.late - {i}
    requires ProcOk(s, p) && ProcOk(s, q) && s.procs[p].pc == WaitCheck(i) && s.procs[i].state == Zombie
    requires t.procs == s.procs[i := Process(Unused, None, NoChan, Dead)][p := s.procs[p].(pc := WaitFreed(i))]
    ensures ProcOk(t, q)
  {
  }

  lemma WaitCheckKeeps(s: Sys, p: nat)
    requires Inv(s) && p < |s.procs| && s.procs[p].pc.WaitCheck? && GoStep(s, p).Some?
    ensures Inv(GoStep(s, p).value)
  {
    var t := GoStep(s, p).value;
    var i := s.procs[p].pc.i;
    WaitCheckLocks(s, p);
    assert ProcOk(s, p);
    if s.procs[i].state == Zombie {
      forall q | 0 <= q < |t.procs| ensures ProcOk(t, q) {
        assert ProcOk(s, q);
        Reaped(s, t, p, i, q);
      }
    } else {
      hide Holds;
      SoloKeeps(s, t, p);
    }
  }

  lemma ForkLocks(s: Sys, p: nat)
    requires Inv(s) && p < |s.procs| && s.procs[p].pc.ForkHold? && GoStep(s, p).Some?
    ensures Moves(s, GoStep(s, p).value, p) && LocksOk(GoStep(s, p).value)
    ensures forall q :: 0 <= q < |s.procs| && q != p && s.procs[q].pc.ForkHold? ==> s.procs[q].pc.c != s.procs[p].pc.c
  {
    hide ParentOk, ClearOk, WokeOk;
    var c := s.procs[p].pc.c;
    assert ProcOk(s, p) && ProcOk(s, c);
    LockStep(s, GoStep(s, p).value, p, c);
    forall q | 0 <= q < |s.procs| && q != p && s.procs[q].pc.ForkHold? ensures s.procs[q].pc.c != c {
      assert Holds(q, s.zero, s.procs[q].pc, s.procs[q].pc.c) && Holds(p, s.zero, s.procs[p].pc, c);
    }
  }

  lemma ForkKeeps(s: Sys, p: nat)
    requires Inv(s) && p < |s.procs| && s.procs[p].pc.ForkHold? && GoStep(s, p).Some?
    ensures Inv(GoStep(s, p).value)
  {
    var t := GoStep(s, p).value;
    ForkLocks(s, p);
    assert ProcOk(s, p) && ProcOk(s, s.procs[p].pc.c);
    hide LocksOk, Holds;
    forall q | 0 <= q < |t.procs| ensures ProcOk(t, q) {
      assert ProcOk(s, q);
    }
  }

  /** proc_wakeup_one changes another process's state, not where it stands. */
  lemma WokenLocks(s: Sys, p: nat)
    requires Inv(s) && p < |s.procs| && GoStep(s, p).Some? && (s.procs[p].pc.ExitZeroHold? || s.procs[p].pc.ExitWake?)
    ensures Moves(s, GoStep(s, p).value, p) && LocksOk(GoStep(s, p).value)
  {
    hide StateOk, ParentOk, ClearOk, WokeOk, ForkOk;
    assert ProcOk(s, p);
    LockStep(s, GoStep(s, p).value, p, Touched(s, p));
  }

  lemma MoveLocks(s: Sys, p: nat)
    requires Inv(s) && p < |s.procs| && GoStep(s, p).Some? && s.procs[p].pc.ExitMove?
    ensures Moves(s, GoStep(s, p).value, p) && LocksOk(GoStep(s, p).value)
  {
    hide StateOk, ParentOk, ClearOk, WokeOk, ForkOk;
    assert ProcOk(s, p);
    LockStep(s, GoStep(s, p).value, p, s.procs[p].pc.i);
  }

  lemma MarkLocks(s: Sys, p: nat)
    requires Inv(s) && p < |s.procs| && s.procs[p].pc.ExitMark?
    ensures Moves(s, GoStep(s, p).value, p) && LocksOk(GoStep(s, p).value)
  {
    hide StateOk, ParentOk, ClearOk, WokeOk, ForkOk;
    LockStep(s, GoStep(s, p).value, p, p);
  }

  /** Whoever stands in another process's lock, that process itself does not. */
  lemma HeldByOther(s: Sys, p: nat, i: nat)
    requires LocksOk(s) && p < |s.procs| && i < |s.procs| && i != p && Holds(p, s.zero, s.procs[p].pc, i)
    ensures !Own(s.procs[i].pc)
  {
    assert s.plk[i] == Proc(p);
    OwnsItself(s, i);
  }

  lemma WokenKeeps(s: Sys, p: nat)
    requires Inv(s) && p < |s.procs| && (s.procs[p].pc.ExitZeroHold? || s.procs[p].pc.ExitWake?) && GoStep(s, p).Some?
    ensures Inv(GoStep(s, p).value)
  {
    var t := GoStep(s, p).value;
    var i := if s.procs[p].pc.ExitWake? then s.procs[p].pc.par else s.zero;
    WokenLocks(s, p);
    assert ProcOk(s, p);
    if i < |s.procs| && i != p { HeldByOther(s, p, i); }
    hide LocksOk, Holds;
    forall q | 0 <= q < |t.procs| ensures ProcOk(t, q) {
      assert ProcOk(s, q);
      if q != p { WokenOther(s, t, p, i, q); }
    }
  }

  lemma WokenClear(s: Sys, t: Sys, p: nat, i: nat, q: nat)
    requires p < |s.procs| && q < |s.procs| && q != p && |t.procs| == |s.procs| && t.zero == s.zero && t.late == s.late
    requires ProcOk(s, q) && ProcOk(s, p) && (i < |s.procs| && i != p ==> !Own(s.procs[i].pc))
    requires forall j :: 0 <= j < |s.procs| && j != p ==> t.procs[j] == WokenOne(s, i).procs[j]
    requires t.procs[p].state == Running == s.procs[p].state && t.procs[p].parent == s.procs[p].parent
    ensures ClearOk(t, q)
  {
    hide ParentOk, WokeOk, ForkOk, Apart, StateOk;
  }

  lemma WokenOther(s: Sys, t: Sys, p: nat, i: nat, q: nat)
    requires p < |s.procs| && q < |s.procs| && q != p && |t.procs| == |s.procs| && t.zero == s.zero && t.late == s.late
    requires ProcOk(s, q) && ProcOk(s, p) && (i < |s.procs| && i != p ==> !Own(s.procs[i].pc))
    requires forall j :: 0 <= j < |s.procs| && j != p ==> t.procs[j] == WokenOne(s, i).procs[j]
    requires t.procs[p].state == Running == s.procs[p].state && t.procs[p].parent == s.procs[p].parent
    ensures ProcOk(t, q)
  {
    WokenClear(s, t, p, i, q);
    hide ClearOk, Cleared;
  }

  lemma MoveKeeps(s: Sys, p: nat)
    requires Inv(s) && p < |s.procs| && s.procs[p].pc.ExitMove? && GoStep(s, p).Some?
    ensures Inv(GoStep(s, p).value)
  {
    var t := GoStep(s, p).value;
    MoveLocks(s, p);
    assert ProcOk(s, p);
    hide LocksOk, Holds;
    forall q | 0 <= q < |t.procs| ensures ProcOk(t, q) {
      assert ProcOk(s, q);
      HandedOver(s, t, p, q);
    }
  }

  lemma HandedClear(s: Sys, t: Sys, p: nat, q: nat)
    requires p < |s.procs| && q < |s.procs| && |t.procs| == |s.procs| && t.zero == s.zero
    requires ProcOk(s, q) && ProcOk(s, p) && s.procs[p].pc.ExitMove? && s.procs[p].pc.i < |s.procs|
    requires t.late == Later(s, s.procs[p].pc.i)
    requires s.procs[p].pc.i != p
    requires t.procs == s.procs[s.procs[p].pc.i := s.procs[s.procs[p].pc.i].(parent := Some(s.zero))]
                               [p := s.procs[p].(pc := ExitScan(s.procs[p].pc.par, s.procs[p].pc.i + 1))]
    ensures ClearOk(t, q)
  {
    hide ParentOk, WokeOk, ForkOk, Apart, StateOk;
  }

  lemma HandedOver(s: Sys, t: Sys, p: nat, q: nat)
    requires p < |s.procs| && q < |s.procs| && |t.procs| == |s.procs| && t.zero == s.zero
    requires ProcOk(s, q) && ProcOk(s, p) && s.procs[p].pc.ExitMove? && s.procs[p].pc.i < |s.procs|
    requires t.late == Later(s, s.procs[p].pc.i)
    requires s.procs[p].pc.i != p
    requires t.procs == s.procs[s.procs[p].pc.i := s.procs[s.procs[p].pc.i].(parent := Some(s.zero))]
                               [p := s.procs[p].(pc := ExitScan(s.procs[p].pc.par, s.procs[p].pc.i + 1))]
    ensures ProcOk(t, q)
  {
    HandedClear(s, t, p, q);
    hide ClearOk, Cleared;
  }

  /** The step that could lose an exit: p becomes a zombie holding its parent's lock, with that
      parent just woken, so no waiting parent has already looked at p. */
  lemma MarkKeeps(s: Sys, p: nat)
    requires Inv(s) && p < |s.procs| && s.procs[p].pc.ExitMark?
    ensures Inv(GoStep(s, p).value)
  {
    var t := GoStep(s, p).value;
    MarkLocks(s, p);
    assert ProcOk(s, p);
    forall q | 0 <= q < |t.procs| ensures ProcOk(t, q) {
      assert ProcOk(s, q);
      if s.procs[p].parent == Some(q) && (q == s.zero ==> p !in s.late) { NotLooking(s, p, q); }
    }
  }

  lemma NotLooking(s: Sys, p: nat, q: nat)
    requires Inv(s) && p < |s.procs| && q < |s.procs| && s.procs[p].pc.ExitMark? && (q == s.zero ==> p !in s.late)
    requires s.procs[p].parent == Some(q)
    ensures Cleared(s, q) == 0
  {
    assert ProcOk(s, p) && ProcOk(s, q);
    assert ExitParent(Under(s.procs[p].pc)) == Some(s.procs[p].pc.par);
    assert q == s.procs[p].pc.par;
    HeldByOther(s, p, q);
  }

  lemma GoKeeps(s: Sys, p: nat)
    requires Inv(s) && p < |s.procs| && GoStep(s, p).Some?
    ensures Inv(GoStep(s, p).value)
  {
    hide Inv, GoStep;
    match s.procs[p].pc
    case WaitScan(_, _) => WaitScanKeeps(s, p);
    case WaitCheck(_) => WaitCheckKeeps(s, p);
    case ForkHold(_) => ForkKeeps(s, p);
    case ExitZeroHold => WokenKeeps(s, p);
    case ExitWake(_) => WokenKeeps(s, p);
    case ExitMove(_, _) => MoveKeeps(s, p);
    case ExitMark(_) => MarkKeeps(s, p);
    case ExitScan(_, _) => ExitLateKeeps(s, p);
    case ExitTry(_, _) => ExitLateKeeps(s, p);
    case ExitDrop(_) => ExitLateKeeps(s, p);
    case ExitZero => ExitEarlyKeeps(s, p);
    case ExitOwn => ExitEarlyKeeps(s, p);
    case ExitRead => ExitEarlyKeeps(s, p);
    case ExitPar(_) => ExitEarlyKeeps(s, p);
    case ExitSelf(_) => ExitEarlyKeeps(s, p);
    case WaitTake => WaiterKeeps(s, p);
    case WaitTry(_) => WaiterKeeps(s, p);
    case WaitFreed(_) => WaiterKeeps(s, p);
    case WaitDone(_) => WaiterKeeps(s, p);
    case WaitBack => WaiterKeeps(s, p);
    case _ => NoOtherGo(s, p); PlainKeeps(s, p);
  }

  lemma NoOtherGo(s: Sys, p: nat)
    requires p < |s.procs| && GoStep(s, p).Some?
    ensures var pc := s.procs[p].pc;
            !pc.User? && !pc.Dead? && !pc.Yielding? && !pc.Yielded? && !pc.Napping? && !pc.Napped?
            && !pc.WaitPark? && !pc.WaitAsleep? && !pc.WaitLeak? && !pc.ZombiePark?
  {
  }

  lemma BeginLocks(s: Sys, p: nat, call: Call)
    requires Inv(s) && p < |s.procs| == |s.plk| && s.procs[p].pc == User && Start(s, p, call).Some?
    ensures Moves(s, Start(s, p, call).value, p) && LocksOk(Start(s, p, call).value)
  {
    hide ProcOk;
    LockStep(s, Start(s, p, call).value, p, if call.Fork? then call.c else p);
  }

  lemma BeginKeeps(s: Sys, p: nat, call: Call)
    requires Inv(s) && p < |s.procs| == |s.plk| && s.procs[p].pc == User && Start(s, p, call).Some?
    ensures Inv(Start(s, p, call).value)
  {
    hide Holds;
    var t := Start(s, p, call).value;
    assert ProcOk(s, p);
    BeginLocks(s, p, call);
    SoloKeeps(s, t, p);
  }

  lemma HartLocks(s: Sys, e: Step)
    requires |s.procs| == |s.plk| && Inv(s) && !e.Begin? && !e.Go? && Apply(s, e).Some?
    ensures Moves(s, Apply(s, e).value, e.p) && LocksOk(Apply(s, e).value)
  {
    hide ParentOk, ClearOk, WokeOk, ForkOk;
    assert ProcOk(s, e.p);
    LockStep(s, Apply(s, e).value, e.p, e.p);
  }

  lemma HartKeeps(s: Sys, e: Step)
    requires |s.procs| == |s.plk| && Inv(s) && !e.Begin? && !e.Go? && Apply(s, e).Some?
    ensures Inv(Apply(s, e).value)
  {
    hide Holds, GoStep, Start, LocksOk;
    var t := Apply(s, e).value;
    assert ProcOk(s, e.p);
    HartLocks(s, e);
    OwnsItself(s, e.p);
    SoloKeeps(s, t, e.p);
  }

  lemma StepKeeps(s: Sys, e: Step)
    requires |s.procs| == |s.plk| && Inv(s) && Apply(s, e).Some?
    ensures Inv(Apply(s, e).value)
  {
    hide Inv, GoStep, Start;
    match e
    case Begin(p, call) => BeginKeeps(s, p, call);
    case Go(p) => GoKeeps(s, p);
    case _ => HartKeeps(s, e);
  }

  // ----- who is whose parent

  /** The process whose parent field has just been read, to be locked or looked at. */
  function Watched(pc: Pc): Option<nat> {
    match pc
    case WaitTry(i) => Some(i)
    case WaitCheck(i) => Some(i)
    case ExitTry(_, i) => Some(i)
    case ExitMove(_, i) => Some(i)
    case _ => None
  }

  predicate Exiting(pc: Pc) { pc.ExitZero? || pc.ExitZeroHold? || pc.ExitOwn? || pc.ExitRead? || ExitParent(pc).Some? }

  /** An unused slot has no parent; a process read as a child still is one; proczero never exits; and a
      late child has proczero as its parent, but read another one. */
  ghost predicate KinOk(s: Sys, p: nat)
    requires p < |s.procs|
  {
    var me := s.procs[p];
    && (me.state == Unused ==> me.parent == None)
    && (Watched(me.pc).Some? ==> Watched(me.pc).value < |s.procs| && s.procs[Watched(me.pc).value].parent == Some(p))
    && (p == s.zero ==> !Exiting(Under(me.pc)) && me.state != Zombie)
    && (p in s.late ==>
          me.parent == Some(s.zero) && HasRead(me) && (me.state != Zombie ==> ExitParent(Under(me.pc)) != Some(s.zero)))
  }

  ghost predicate Kin(s: Sys) { forall p :: 0 <= p < |s.procs| ==> KinOk(s, p) }

  /** A step of p that changes nobody's parent. */
  lemma KinOther(s: Sys, t: Sys, p: nat, q: nat)
    requires |t.procs| == |s.procs| && t.zero == s.zero && t.late == s.late && p < |s.procs| && q < |s.procs| && q != p
    requires KinOk(s, q) && t.procs[q].pc == s.procs[q].pc
    requires forall j :: 0 <= j < |s.procs| ==> t.procs[j].parent == s.procs[j].parent
    requires Bystander(s.procs[q], t.procs[q])
    ensures KinOk(t, q)
  {
  }

  predicate Bystander(me: Process, you: Process) {
    you.state == me.state || (me.state == Sleeping && you.state == Runnable)
  }

  /** A plain step of p: it changes p's place and state, and may make one sleeper ready. */
  ghost predicate Plain(s: Sys, t: Sys, p: nat) {
    && |t.procs| == |s.procs| && t.zero == s.zero && t.late == s.late && p < |s.procs|
    && (forall j :: 0 <= j < |s.procs| ==> t.procs[j].parent == s.procs[j].parent)
    && (forall q :: 0 <= q < |s.procs| && q != p ==> t.procs[q].pc == s.procs[q].pc && Bystander(s.procs[q], t.procs[q]))
    && (t.procs[p].state == Unused ==> s.procs[p].state == Unused)
  }

  lemma KinPlain(s: Sys, t: Sys, p: nat)
    requires Kin(s) && Plain(s, t, p) && KinOk(t, p)
    ensures Kin(t)
  {
    forall q | 0 <= q < |t.procs| ensures KinOk(t, q) {
      if q != p {
        assert KinOk(s, q);
        KinOther(s, t, p, q);
      }
    }
  }

  lemma KinBegin(s: Sys, p: nat, call: Call)
    requires Inv(s) && Kin(s) && p < |s.procs| == |s.plk| && s.procs[p].pc == User && Start(s, p, call).Some?
    ensures Kin(Start(s, p, call).value)
  {
    hide LocksOk, ClearOk, WokeOk, ParentOk, ForkOk;
    assert ProcOk(s, p) && KinOk(s, p);
    KinPlain(s, Start(s, p, call).value, p);
  }

  lemma KinHart(s: Sys, e: Step)
    requires Inv(s) && Kin(s) && |s.procs| == |s.plk| && !e.Begin? && !e.Go? && Apply(s, e).Some?
    ensures Kin(Apply(s, e).value)
  {
    hide LocksOk, ClearOk, WokeOk, ParentOk, ForkOk, GoStep, Start;
    assert ProcOk(s, e.p) && KinOk(s, e.p);
    KinPlain(s, Apply(s, e).value, e.p);
  }

  lemma KinFork(s: Sys, p: nat)
    requires Inv(s) && Kin(s) && p < |s.procs| && s.procs[p].pc.ForkHold? && GoStep(s, p).Some?
    ensures Kin(GoStep(s, p).value)
  {
    var t, c := GoStep(s, p).value, s.procs[p].pc.c;
    hide LocksOk, ClearOk, WokeOk, ParentOk, StateOk;
    assert ProcOk(s, p) && KinOk(s, c) && KinOk(s, p);
    forall q | 0 <= q < |t.procs| ensures KinOk(t, q) { assert KinOk(s, q); }
  }

  lemma KinReap(s: Sys, p: nat)
    requires Inv(s) && Kin(s) && p < |s.procs| && s.procs[p].pc.WaitCheck? && GoStep(s, p).Some?
    ensures Kin(GoStep(s, p).value)
  {
    var t := GoStep(s, p).value;
    hide LocksOk, ClearOk, WokeOk, ParentOk, ForkOk;
    assert ProcOk(s, p) && KinOk(s, p);
    forall q | 0 <= q < |t.procs| ensures KinOk(t, q) { assert KinOk(s, q); }
  }

  /** A hand-over: the child, late or not, and everyone else. */
  lemma KinHanded(s: Sys, p: nat, q: nat)
    requires p < |s.procs| && q < |s.procs| && s.procs[p].pc.ExitMove? && GoStep(s, p).Some? && s.procs[p].pc.i < |s.procs|
    requires KinOk(s, p) && KinOk(s, q) && StateOk(s.procs[q]) && ParentOk(s, q)
    ensures |GoStep(s, p).value.procs| == |s.procs| && KinOk(GoStep(s, p).value, q)
  {
  }

  lemma KinMove(s: Sys, p: nat)
    requires Inv(s) && Kin(s) && p < |s.procs| && s.procs[p].pc.ExitMove? && GoStep(s, p).Some?
    ensures Kin(GoStep(s, p).value)
  {
    hide LocksOk, StateOk, ParentOk, KinOk;
    assert KinOk(s, p);
    forall q | 0 <= q < |s.procs| ensures KinOk(GoStep(s, p).value, q) {
      assert KinOk(s, q) && ProcOk(s, q);
      KinHanded(s, p, q);
    }
  }

  // The plain steps, by the part of the code they are in: what they leave alone, and what holds of p.

  lemma WaitPlain(s: Sys, p: nat)
    requires p < |s.procs| && GoStep(s, p).Some? && KinOk(s, p)
    requires !s.procs[p].pc.ForkHold? && !s.procs[p].pc.WaitCheck? && !Exiting(s.procs[p].pc)
    ensures Plain(s, GoStep(s, p).value, p)
  {
    hide KinOk;
  }

  lemma ReadPlain(s: Sys, p: nat)
    requires p < |s.procs| && GoStep(s, p).Some? && KinOk(s, p)
    requires s.procs[p].pc.ExitZero? || s.procs[p].pc.ExitZeroHold? || s.procs[p].pc.ExitOwn? || s.procs[p].pc.ExitRead?
    ensures Plain(s, GoStep(s, p).value, p)
  {
    hide KinOk;
  }

  lemma ExitPlain(s: Sys, p: nat)
    requires p < |s.procs| && GoStep(s, p).Some? && KinOk(s, p)
    requires ExitParent(s.procs[p].pc).Some? && !s.procs[p].pc.ExitMove?
    ensures Plain(s, GoStep(s, p).value, p)
  {
    hide KinOk;
  }

  lemma WaitKin(s: Sys, p: nat)
    requires p < |s.procs| && GoStep(s, p).Some? && KinOk(s, p) && StateOk(s.procs[p]) && ParentOk(s, p)
    requires !s.procs[p].pc.ForkHold? && !s.procs[p].pc.WaitCheck? && !Exiting(s.procs[p].pc)
    ensures KinOk(GoStep(s, p).value, p)
  {
  }

  lemma ReadKin(s: Sys, p: nat)
    requires p < |s.procs| && GoStep(s, p).Some? && KinOk(s, p) && StateOk(s.procs[p]) && ParentOk(s, p)
    requires s.procs[p].pc.ExitZero? || s.procs[p].pc.ExitZeroHold? || s.procs[p].pc.ExitOwn? || s.procs[p].pc.ExitRead?
    ensures KinOk(GoStep(s, p).value, p)
  {
  }

  /** Where p is after a plain step behind its read of the parent. */
  lemma ExitNext(s: Sys, p: nat)
    requires p < |s.procs| && GoStep(s, p).Some? && StateOk(s.procs[p])
    requires ExitParent(s.procs[p].pc).Some? && !s.procs[p].pc.ExitMove?
    ensures var t, me := GoStep(s, p).value, s.procs[p];
            && p < |t.procs| && (t.procs[p].state == Running || t.procs[p].state == Zombie)
            && (t.procs[p].state == Running ==> me.state == Running && ExitParent(Under(t.procs[p].pc)) == ExitParent(me.pc))
            && (match Watched(t.procs[p].pc)
                case None => true
                case Some(i) => Watched(me.pc) == Some(i) || (i < |s.procs| && s.procs[i].parent == Some(p)))
  {
  }

  lemma ExitKin(s: Sys, p: nat)
    requires p < |s.procs| && GoStep(s, p).Some? && KinOk(s, p) && StateOk(s.procs[p]) && ParentOk(s, p)
    requires ExitParent(s.procs[p].pc).Some? && !s.procs[p].pc.ExitMove?
    ensures KinOk(GoStep(s, p).value, p)
  {
    hide GoStep, ParentOk, StateOk, Watched;
    ExitNext(s, p);
    ExitPlain(s, p);
    assert Under(s.procs[p].pc) == s.procs[p].pc;
  }

  lemma GoPlain(s: Sys, p: nat)
    requires p < |s.procs| && GoStep(s, p).Some? && KinOk(s, p)
    requires !s.procs[p].pc.ForkHold? && !s.procs[p].pc.WaitCheck? && !s.procs[p].pc.ExitMove?
    ensures Plain(s, GoStep(s, p).value, p)
  {
    hide GoStep, KinOk, Plain;
    if !Exiting(s.procs[p].pc) {
      WaitPlain(s, p);
    } else if ExitParent(s.procs[p].pc).Some? {
      ExitPlain(s, p);
    } else {
      ReadPlain(s, p);
    }
  }

  lemma KinGo(s: Sys, p: nat)
    requires Inv(s) && Kin(s) && p < |s.procs| && GoStep(s, p).Some?
    requires !s.procs[p].pc.ForkHold? && !s.procs[p].pc.WaitCheck? && !s.procs[p].pc.ExitMove?
    ensures Kin(GoStep(s, p).value)
  {
    hide LocksOk, GoStep, KinOk, StateOk, ParentOk, Plain;
    assert ProcOk(s, p) && KinOk(s, p);
    GoPlain(s, p);
    if !Exiting(s.procs[p].pc) {
      WaitKin(s, p);
    } else if ExitParent(s.procs[p].pc).Some? {
      ExitKin(s, p);
    } else {
      ReadKin(s, p);
    }
    KinPlain(s, GoStep(s, p).value, p);
  }

  lemma KinKeeps(s: Sys, e: Step)
    requires |s.procs| == |s.plk| && Inv(s) && Kin(s) && Apply(s, e).Some?
    ensures Kin(Apply(s, e).value)
  {
    hide Inv, Kin, GoStep, Start;
    match e
    case Begin(p, call) => KinBegin(s, p, call);
    case Go(p) =>
      match s.procs[p].pc {
       case ForkHold(_) => KinFork(s, p);
       case WaitCheck(_) => KinReap(s, p);
       case ExitMove(_, _) => KinMove(s, p);
       case _ => KinGo(s, p);
      }
    case _ => KinHart(s, e);
  }

  // ----- whole runs

  ghost predicate IsRun(run: seq<Sys>) {
    && |run| > 0 && Init(run[0])
    && (forall k :: 0 <= k < |run| - 1 ==>
          |run[k].procs| == |run[k].plk| && exists e :: Apply(run[k], e) == Some(run[k + 1]))
  }

  lemma {:induction false} RunInv(run: seq<Sys>, k: nat)
    requires IsRun(run) && k < |run|
    ensures Inv(run[k])
  {
    hide Inv, Apply;
    if k == 0 {
      InitInv(run[0]);
    } else {
      RunInv(run, k - 1);
      var j := k - 1;
      assert |run[j].procs| == |run[j].plk| && exists e :: Apply(run[j], e) == Some(run[j + 1]);
      var e :| Apply(run[j], e) == Some(run[j + 1]);
      StepKeeps(run[j], e);
    }
  }

  lemma {:induction false} RunKin(run: seq<Sys>, k: nat)
    requires IsRun(run) && k < |run|
    ensures Kin(run[k])
  {
    hide Inv, Apply, Kin;
    if k == 0 {
      InitKin(run[0]);
    } else {
      RunKin(run, k - 1);
      var j := k - 1;
      RunInv(run, j);
      assert |run[j].procs| == |run[j].plk| && exists e :: Apply(run[j], e) == Some(run[j + 1]);
      var e :| Apply(run[j], e) == Some(run[j + 1]);
      KinKeeps(run[j], e);
    }
  }

  lemma InitKin(s: Sys)
    requires Init(s)
    ensures Kin(s)
  {
  }

  /** Lost exits are late ones: while a process is asleep in proc_wait, none of its children is a zombie,
      except that proczero may sleep over children handed to it after they had read their parent. */
  lemma NoLostExit(run: seq<Sys>, k: nat, p: nat, child: nat)
    requires IsRun(run) && k < |run| && p < |run[k].procs| && child < |run[k].procs|
    requires run[k].procs[p].state == Sleeping && run[k].procs[p].chan == OnSelf
    requires run[k].procs[child].parent == Some(p)
    ensures run[k].procs[child].state == Zombie ==> p == run[k].zero && child in run[k].late
  {
    RunInv(run, k);
    assert ProcOk(run[k], p);
  }

  /** From the read of its parent until it is a zombie, the process an exiting child is going to wake,
      and at ExitMark has just woken, is its parent if and only if the child was not handed over late. */
  lemma WakesItsParent(run: seq<Sys>, k: nat, child: nat, par: nat)
    requires IsRun(run) && k < |run| && child < |run[k].procs|
    requires ExitParent(Under(run[k].procs[child].pc)) == Some(par) && run[k].procs[child].state != Zombie
    ensures run[k].procs[child].parent == Some(par) <==> child !in run[k].late
    ensures child in run[k].late ==> run[k].procs[child].parent == Some(run[k].zero) && par != run[k].zero
  {
    RunInv(run, k);
    RunKin(run, k);
    assert ProcOk(run[k], child) && KinOk(run[k], child);
  }

  /** The step hands a child over that has read its parent already. */
  predicate HandsLate(s: Sys, e: Step, child: nat) {
    && e.Go? && e.p < |s.procs| && child < |s.procs|
    && s.procs[e.p].pc.ExitMove? && s.procs[e.p].pc.i == child && HasRead(s.procs[child])
  }

  /** What `late` records: in every state of a run, a child is late after a step exactly when that step
      hands it over late, or it was late and has not been reaped. */
  lemma LateBy(s: Sys, e: Step, child: nat)
    requires |s.procs| == |s.plk| && Inv(s) && Kin(s) && Apply(s, e).Some? && child < |s.procs|
    ensures var t := Apply(s, e).value;
            child < |t.procs| && (child in t.late <==> HandsLate(s, e, child) || (child in s.late && t.procs[child].state != Unused))
  {
    hide Inv, Kin, GoStep;
    LateFacts(s, child);
    if e.Go? {
      LateFacts(s, e.p);
      LateGo(s, e.p, child);
    }
  }

  lemma LateFacts(s: Sys, p: nat)
    requires Inv(s) && Kin(s) && p < |s.procs|
    ensures ForkOk(s, p) && KinOk(s, p)
  {
    assert ProcOk(s, p) && KinOk(s, p);
  }

  lemma LateGo(s: Sys, p: nat, child: nat)
    requires p < |s.procs| && child < |s.procs| && GoStep(s, p).Some? && ForkOk(s, p) && KinOk(s, child) && KinOk(s, p)
    ensures var t := GoStep(s, p).value;
            child < |t.procs| && (child in t.late <==> HandsLate(s, Go(p), child) || (child in s.late && t.procs[child].state != Unused))
  {
    if s.procs[p].pc.ForkHold? || s.procs[p].pc.WaitCheck? || s.procs[p].pc.ExitMove? {
      LateSpecial(s, p, child);
    } else {
      hide GoStep;
      GoPlain(s, p);
    }
  }

  /** The steps that change a parent field. */
  lemma LateSpecial(s: Sys, p: nat, child: nat)
    requires p < |s.procs| && child < |s.procs| && GoStep(s, p).Some? && ForkOk(s, p) && KinOk(s, child)
    requires s.procs[p].pc.ForkHold? || s.procs[p].pc.WaitCheck? || s.procs[p].pc.ExitMove?
    ensures var t := GoStep(s, p).value;
            child < |t.procs| && (child in t.late <==> HandsLate(s, Go(p), child) || (child in s.late && t.procs[child].state != Unused))
  {
  }

  /** In a run without a late hand-over nothing is ever late, so that no exit is lost at all. */
  lemma {:induction false} NoLateHandOver(run: seq<Sys>, k: nat)
    requires IsRun(run) && k < |run|
    requires forall j, e, c: nat :: 0 <= j < k ==> !HandsLate(run[j], e, c)
    ensures run[k].late == {}
  {
    if k > 0 {
      NoLateHandOver(run, k - 1);
      var j := k - 1;
      assert |run[j].procs| == |run[j].plk| && exists e :: Apply(run[j], e) == Some(run[j + 1]);
      var e :| Apply(run[j], e) == Some(run[j + 1]);
      LateOnly(run[j], e);
    }
  }

  lemma LateOnly(s: Sys, e: Step)
    requires |s.procs| == |s.plk| && Apply(s, e).Some?
    ensures forall c: nat :: c in Apply(s, e).value.late ==> c in s.late || HandsLate(s, e, c)
  {
  }

  // ----- proczero can sleep past the exit of a child handed over late

  ghost predicate Steps(run: seq<Sys>) {
    forall k :: 0 <= k < |run| - 1 ==> Enabled(run[k], run[k + 1])
  }

  ghost predicate Enabled(s: Sys, t: Sys) {
    |s.procs| == |s.plk| && exists e :: Apply(s, e) == Some(t)
  }

  ghost predicate Reaches(s: Sys, t: Sys) {
    exists run: seq<Sys> :: |run| > 0 && run[0] == s && run[|run| - 1] == t && Steps(run)
  }

  lemma Stay(s: Sys)
    ensures Reaches(s, s)
  {
    var run := [s];
    assert |run| > 0 && run[0] == s && run[|run| - 1] == s && Steps(run);
  }

  lemma OneMore(s: Sys, t: Sys, u: Sys)
    requires Reaches(s, t) && Enabled(t, u)
    ensures Reaches(s, u)
  {
    hide Enabled;
    var run: seq<Sys> :| |run| > 0 && run[0] == s && run[|run| - 1] == t && Steps(run);
    var longer := run + [u];
    forall k | 0 <= k < |longer| - 1 ensures Enabled(longer[k], longer[k + 1]) {
      if k < |run| - 1 { assert longer[k] == run[k] && longer[k + 1] == run[k + 1]; }
    }
    assert |longer| > 0 && longer[0] == s && longer[|longer| - 1] == u && Steps(longer);
  }

  predicate Same(t: Sys, u: Sys) { t.procs == u.procs && t.plk == u.plk && t.zero == u.zero && t.late == u.late }

  /** Four processes: 0 is proczero, 3 its child, 1 a child of 3, and 2 a child of 1 until 1 exits. */
  function World(zero: Process, one: Process, two: Process, locks: seq<Owner>): Sys {
    Sys([zero, one, two, Process(Running, Some(0), NoChan, User)], locks, 0, if two.parent == Some(0) then {2} else {})
  }

  const FREE: seq<Owner> := [Free, Free, Free, Free]

  function Zero(pc: Pc): Process {
    if pc.WaitPark? || pc.WaitAsleep? then Process(Sleeping, None, OnSelf, pc) else Process(Running, None, NoChan, pc)
  }

  predicate Gone(pc: Pc) { pc.ExitDrop? || pc.ZombiePark? || pc.Dead? }

  function One(pc: Pc): Process { Process(if Gone(pc) then Zombie else Running, Some(3), NoChan, pc) }

  function Two(parent: nat, pc: Pc): Process { Process(if Gone(pc) then Zombie else Running, Some(parent), NoChan, pc) }

  const START: Sys := World(Zero(User), One(User), Two(1, User), FREE)

  /** Some run from START leads here. */
  ghost predicate Occurs(t: Sys) { Reaches(START, t) }

  lemma AtStart()
    ensures Occurs(World(Zero(User), One(User), Two(1, User), FREE))
  {
    Stay(START);
  }

  lemma Then(t: Sys, e: Step, u: Sys)
    requires Occurs(t) && |t.procs| == |t.plk| && Apply(t, e) == Some(u)
    ensures Occurs(u)
  {
    assert Enabled(t, u);
    OneMore(START, t, u);
  }

  // The stretches of code the two runs are made of, for any state in which no lock is in the way.

  predicate At(s: Sys, p: nat, pc: Pc) {
    |s.procs| == |s.plk| && s.zero < |s.procs| && p < |s.procs| && s.procs[p].pc == pc
  }

  predicate LockFree(s: Sys, i: nat) { i < |s.plk| && s.plk[i] == Free }

  /** s with one more lock taken by p. */
  function Taking(s: Sys, i: nat, p: nat): Sys
    requires i < |s.plk|
  {
    s.(plk := s.plk[i := Proc(p)])
  }

  function Dropping(s: Sys, i: nat): Sys
    requires i < |s.plk|
  {
    s.(plk := s.plk[i := Free])
  }

  lemma ExitBegins(s: Sys, p: nat, u: Sys)
    requires Occurs(s) && At(s, p, User) && p != s.zero && LockFree(s, s.zero) && s.procs[s.zero].state == Running
    requires Same(u, SetPc(s, p, ExitOwn))
    ensures Occurs(u)
  {
    hide Occurs;
    var s1 := SetPc(s, p, ExitZero);
    Then(s, Begin(p, Exit), s1);
    var s2 := SetPc(Taking(s1, s.zero, p), p, ExitZeroHold);
    Then(s1, Go(p), s2);
    assert Apply(s2, Go(p)).value == u;
    Then(s2, Go(p), u);
  }

  lemma ExitReads(s: Sys, p: nat, par: nat, u: Sys)
    requires Occurs(s) && At(s, p, ExitOwn) && LockFree(s, p) && s.procs[p].parent == Some(par)
    requires Same(u, SetPc(s, p, ExitPar(par)))
    ensures Occurs(u)
  {
    hide Occurs;
    var s1 := SetPc(Taking(s, p, p), p, ExitRead);
    Then(s, Go(p), s1);
    assert Apply(s1, Go(p)).value == u;
    Then(s1, Go(p), u);
  }

  lemma ExitLocks(s: Sys, p: nat, par: nat, u: Sys)
    requires Occurs(s) && At(s, p, ExitPar(par)) && LockFree(s, p) && LockFree(s, par) && par != p
    requires Same(u, SetPc(Taking(Taking(s, par, p), p, p), p, ExitScan(par, 0)))
    ensures Occurs(u)
  {
    hide Occurs;
    var s1 := SetPc(Taking(s, par, p), p, ExitSelf(par));
    Then(s, Go(p), s1);
    assert Apply(s1, Go(p)).value == u;
    Then(s1, Go(p), u);
  }

  lemma {:induction false} ExitScans(s: Sys, p: nat, par: nat, i: nat, j: nat, u: Sys)
    requires Occurs(s) && At(s, p, ExitScan(par, i)) && i <= j <= |s.procs|
    requires forall k :: i <= k < j ==> s.procs[k].parent != Some(p)
    requires Same(u, SetPc(s, p, ExitScan(par, j)))
    ensures Occurs(u)
    decreases j - i
  {
    hide Occurs;
    if i < j {
      var s1 := SetPc(s, p, ExitScan(par, i + 1));
      Then(s, Go(p), s1);
      assert SetPc(s1, p, ExitScan(par, j)).procs == u.procs;
      ExitScans(s1, p, par, i + 1, j, u);
    } else {
      assert s == u;
    }
  }

  function Handed(s: Sys, i: nat): Sys
    requires i < |s.procs|
  {
    s.(procs := s.procs[i := s.procs[i].(parent := Some(s.zero))], late := Later(s, i))
  }

  lemma ExitTakes(s: Sys, p: nat, par: nat, i: nat, u: Sys)
    requires Occurs(s) && At(s, p, ExitScan(par, i)) && i < |s.procs| && i != p && s.procs[i].parent == Some(p) && LockFree(s, i)
    requires Same(u, SetPc(Taking(s, i, p), p, ExitMove(par, i)))
    ensures Occurs(u)
  {
    hide Occurs;
    var s1 := SetPc(s, p, ExitTry(par, i));
    Then(s, Go(p), s1);
    assert Apply(s1, Go(p)).value == u;
    Then(s1, Go(p), u);
  }

  lemma ExitHands(s: Sys, p: nat, par: nat, i: nat, u: Sys)
    requires Occurs(s) && At(s, p, ExitScan(par, i)) && i < |s.procs| && i != p && s.procs[i].parent == Some(p) && LockFree(s, i)
    requires Same(u, SetPc(Handed(s, i), p, ExitScan(par, i + 1)))
    ensures Occurs(u)
  {
    hide Occurs;
    var s1 := SetPc(Taking(s, i, p), p, ExitMove(par, i));
    ExitTakes(s, p, par, i, s1);
    assert Apply(s1, Go(p)).value == u;
    Then(s1, Go(p), u);
  }

  lemma ExitWakes(s: Sys, p: nat, par: nat, u: Sys)
    requires Occurs(s) && At(s, p, ExitScan(par, |s.procs|)) && par < |s.procs| && par != p && !AwaitingSelf(s.procs[par])
    requires Same(u, SetPc(s, p, ExitMark(par)))
    ensures Occurs(u)
  {
    hide Occurs;
    var s1 := SetPc(s, p, ExitWake(par));
    Then(s, Go(p), s1);
    assert Apply(s1, Go(p)).value == u;
    Then(s1, Go(p), u);
  }

  lemma ExitMarks(s: Sys, p: nat, par: nat, u: Sys)
    requires Occurs(s) && At(s, p, ExitScan(par, |s.procs|)) && par < |s.procs| && par != p && !AwaitingSelf(s.procs[par])
    requires Same(u, s.(procs := s.procs[p := s.procs[p].(state := Zombie, pc := ExitDrop(par))]))
    ensures Occurs(u)
  {
    hide Occurs;
    var s1 := SetPc(s, p, ExitMark(par));
    ExitWakes(s, p, par, s1);
    assert Apply(s1, Go(p)).value == u;
    Then(s1, Go(p), u);
  }

  lemma ExitEnds(s: Sys, p: nat, par: nat, u: Sys)
    requires Occurs(s) && At(s, p, ExitDrop(par)) && par < |s.procs|
    requires Same(u, SetPc(Dropping(Dropping(s, par), p), p, Dead))
    ensures Occurs(u)
  {
    hide Occurs;
    var s1 := SetPc(Dropping(s, par), p, ZombiePark);
    Then(s, Go(p), s1);
    assert Apply(s1, SwitchOut(p)).value == u;
    Then(s1, SwitchOut(p), u);
  }

  lemma WaitBegins(s: Sys, p: nat, u: Sys)
    requires Occurs(s) && At(s, p, User) && LockFree(s, p)
    requires Same(u, SetPc(Taking(s, p, p), p, WaitScan(0, false)))
    ensures Occurs(u)
  {
    hide Occurs;
    var s1 := SetPc(s, p, WaitTake);
    Then(s, Begin(p, Wait), s1);
    assert Apply(s1, Go(p)).value == u;
    Then(s1, Go(p), u);
  }

  lemma {:induction false} WaitScans(s: Sys, p: nat, i: nat, kids: bool, j: nat, u: Sys)
    requires Occurs(s) && At(s, p, WaitScan(i, kids)) && i <= j <= |s.procs|
    requires forall k :: i <= k < j ==> s.procs[k].parent != Some(p)
    requires Same(u, SetPc(s, p, WaitScan(j, kids)))
    ensures Occurs(u)
    decreases j - i
  {
    hide Occurs;
    if i < j {
      var s1 := SetPc(s, p, WaitScan(i + 1, kids));
      Then(s, Go(p), s1);
      assert SetPc(s1, p, WaitScan(j, kids)).procs == u.procs;
      WaitScans(s1, p, i + 1, kids, j, u);
    } else {
      assert s == u;
    }
  }

  lemma WaitSees(s: Sys, p: nat, i: nat, kids: bool, u: Sys)
    requires Occurs(s) && At(s, p, WaitScan(i, kids)) && i < |s.procs| && i != p && s.procs[i].parent == Some(p)
    requires s.procs[i].state != Zombie && LockFree(s, i)
    requires Same(u, SetPc(s, p, WaitScan(i + 1, true)))
    ensures Occurs(u)
  {
    hide Occurs;
    var s1 := SetPc(s, p, WaitTry(i));
    Then(s, Go(p), s1);
    var s2 := SetPc(Taking(s1, i, p), p, WaitCheck(i));
    Then(s1, Go(p), s2);
    assert Apply(s2, Go(p)).value == u;
    Then(s2, Go(p), u);
  }

  lemma WaitSleeps(s: Sys, p: nat, u: Sys)
    requires Occurs(s) && At(s, p, WaitScan(|s.procs|, true))
    requires Same(u, Dropping(s, p).(procs := s.procs[p := s.procs[p].(state := Sleeping, chan := OnSelf, pc := WaitAsleep)]))
    ensures Occurs(u)
  {
    hide Occurs;
    var s1 := s.(procs := s.procs[p := s.procs[p].(state := Sleeping, chan := OnSelf, pc := WaitPark)]);
    Then(s, Go(p), s1);
    assert Apply(s1, SwitchOut(p)).value == u;
    Then(s1, SwitchOut(p), u);
  }

  lemma OrphanReads()
    ensures Occurs(World(Zero(User), One(User), Two(1, ExitPar(1)), FREE))
  {
    AtStart();
    hide Occurs;
    var s0 := World(Zero(User), One(User), Two(1, User), FREE);
    var s1 := World(Zero(User), One(User), Two(1, ExitOwn), FREE);
    ExitBegins(s0, 2, s1);
    var s2 := World(Zero(User), One(User), Two(1, ExitPar(1)), FREE);
    ExitReads(s1, 2, 1, s2);
  }

  lemma ParentReadsLater()
    ensures Occurs(World(Zero(User), One(ExitPar(3)), Two(1, ExitPar(1)), FREE))
  {
    OrphanReads();
    hide Occurs;
    var s0 := World(Zero(User), One(User), Two(1, ExitPar(1)), FREE);
    var s1 := World(Zero(User), One(ExitOwn), Two(1, ExitPar(1)), FREE);
    ExitBegins(s0, 1, s1);
    var s2 := World(Zero(User), One(ExitPar(3)), Two(1, ExitPar(1)), FREE);
    ExitReads(s1, 1, 3, s2);
  }

  lemma ParentDies()
    ensures Occurs(World(Zero(User), One(Dead), Two(0, ExitPar(1)), FREE))
  {
    ParentReadsLater();
    hide Occurs;
    var s0 := World(Zero(User), One(ExitPar(3)), Two(1, ExitPar(1)), FREE);
    var s1 := World(Zero(User), One(ExitScan(3, 0)), Two(1, ExitPar(1)), FREE[1 := Proc(1)][3 := Proc(1)]);
    ExitLocks(s0, 1, 3, s1);
    var s2 := World(Zero(User), One(ExitScan(3, 2)), Two(1, ExitPar(1)), FREE[1 := Proc(1)][3 := Proc(1)]);
    ExitScans(s1, 1, 3, 0, 2, s2);
    var s3 := World(Zero(User), One(ExitScan(3, 3)), Two(0, ExitPar(1)), FREE[1 := Proc(1)][3 := Proc(1)]);
    ExitHands(s2, 1, 3, 2, s3);
    var s4 := World(Zero(User), One(ExitScan(3, 4)), Two(0, ExitPar(1)), FREE[1 := Proc(1)][3 := Proc(1)]);
    ExitScans(s3, 1, 3, 3, 4, s4);
    var s5 := World(Zero(User), One(ExitDrop(3)), Two(0, ExitPar(1)), FREE[1 := Proc(1)][3 := Proc(1)]);
    ExitMarks(s4, 1, 3, s5);
    var s6 := World(Zero(User), One(Dead), Two(0, ExitPar(1)), FREE);
    ExitEnds(s5, 1, 3, s6);
  }

  lemma ZeroLooks()
    ensures Occurs(World(Zero(WaitScan(4, true)), One(Dead), Two(0, ExitPar(1)), FREE[0 := Proc(0)]))
  {
    ParentDies();
    hide Occurs;
    var s0 := World(Zero(User), One(Dead), Two(0, ExitPar(1)), FREE);
    var s1 := World(Zero(WaitScan(0, false)), One(Dead), Two(0, ExitPar(1)), FREE[0 := Proc(0)]);
    WaitBegins(s0, 0, s1);
    var s2 := World(Zero(WaitScan(2, false)), One(Dead), Two(0, ExitPar(1)), FREE[0 := Proc(0)]);
    WaitScans(s1, 0, 0, false, 2, s2);
    var s3 := World(Zero(WaitScan(3, true)), One(Dead), Two(0, ExitPar(1)), FREE[0 := Proc(0)]);
    WaitSees(s2, 0, 2, false, s3);
    var s4 := World(Zero(WaitScan(4, true)), One(Dead), Two(0, ExitPar(1)), FREE[0 := Proc(0)]);
    WaitSees(s3, 0, 3, true, s4);
  }

  lemma OrphanWakesOldParent()
    ensures Occurs(World(Zero(WaitAsleep), One(Dead), Two(0, ExitDrop(1)), FREE[1 := Proc(2)][2 := Proc(2)]))
  {
    ZeroLooks();
    hide Occurs;
    var s0 := World(Zero(WaitScan(4, true)), One(Dead), Two(0, ExitPar(1)), FREE[0 := Proc(0)]);
    var s1 := World(Zero(WaitAsleep), One(Dead), Two(0, ExitPar(1)), FREE);
    WaitSleeps(s0, 0, s1);
    var s2 := World(Zero(WaitAsleep), One(Dead), Two(0, ExitScan(1, 0)), FREE[1 := Proc(2)][2 := Proc(2)]);
    ExitLocks(s1, 2, 1, s2);
    var s3 := World(Zero(WaitAsleep), One(Dead), Two(0, ExitScan(1, 4)), FREE[1 := Proc(2)][2 := Proc(2)]);
    ExitScans(s2, 2, 1, 0, 4, s3);
    var s4 := World(Zero(WaitAsleep), One(Dead), Two(0, ExitDrop(1)), FREE[1 := Proc(2)][2 := Proc(2)]);
    ExitMarks(s3, 2, 1, s4);
  }

  lemma ChildDies()
    ensures Occurs(World(Zero(User), One(User), Two(1, Dead), FREE))
  {
    OrphanReads();
    hide Occurs;
    var s0 := World(Zero(User), One(User), Two(1, ExitPar(1)), FREE);
    var s1 := World(Zero(User), One(User), Two(1, ExitScan(1, 0)), FREE[1 := Proc(2)][2 := Proc(2)]);
    ExitLocks(s0, 2, 1, s1);
    var s2 := World(Zero(User), One(User), Two(1, ExitScan(1, 4)), FREE[1 := Proc(2)][2 := Proc(2)]);
    ExitScans(s1, 2, 1, 0, 4, s2);
    var s3 := World(Zero(User), One(User), Two(1, ExitDrop(1)), FREE[1 := Proc(2)][2 := Proc(2)]);
    ExitMarks(s2, 2, 1, s3);
    var s4 := World(Zero(User), One(User), Two(1, Dead), FREE);
    ExitEnds(s3, 2, 1, s4);
  }

  lemma ZeroSeesThree()
    ensures Occurs(World(Zero(WaitScan(4, true)), One(ExitOwn), Two(1, Dead), FREE[0 := Proc(0)]))
  {
    ChildDies();
    hide Occurs;
    var s0 := World(Zero(User), One(User), Two(1, Dead), FREE);
    var s1 := World(Zero(User), One(ExitOwn), Two(1, Dead), FREE);
    ExitBegins(s0, 1, s1);
    var s2 := World(Zero(WaitScan(0, false)), One(ExitOwn), Two(1, Dead), FREE[0 := Proc(0)]);
    WaitBegins(s1, 0, s2);
    var s3 := World(Zero(WaitScan(3, false)), One(ExitOwn), Two(1, Dead), FREE[0 := Proc(0)]);
    WaitScans(s2, 0, 0, false, 3, s3);
    var s4 := World(Zero(WaitScan(4, true)), One(ExitOwn), Two(1, Dead), FREE[0 := Proc(0)]);
    WaitSees(s3, 0, 3, false, s4);
  }

  lemma ParentReads()
    ensures Occurs(World(Zero(WaitAsleep), One(ExitPar(3)), Two(1, Dead), FREE))
  {
    ZeroSeesThree();
    hide Occurs;
    var s0 := World(Zero(WaitScan(4, true)), One(ExitOwn), Two(1, Dead), FREE[0 := Proc(0)]);
    var s1 := World(Zero(WaitAsleep), One(ExitOwn), Two(1, Dead), FREE);
    WaitSleeps(s0, 0, s1);
    var s2 := World(Zero(WaitAsleep), One(ExitPar(3)), Two(1, Dead), FREE);
    ExitReads(s1, 1, 3, s2);
  }

  lemma ParentHandsZombie()
    ensures Occurs(World(Zero(WaitAsleep), One(ExitScan(3, 3)), Two(0, Dead), FREE[1 := Proc(1)][3 := Proc(1)]))
  {
    ParentReads();
    hide Occurs;
    var s0 := World(Zero(WaitAsleep), One(ExitPar(3)), Two(1, Dead), FREE);
    var s1 := World(Zero(WaitAsleep), One(ExitScan(3, 0)), Two(1, Dead), FREE[1 := Proc(1)][3 := Proc(1)]);
    ExitLocks(s0, 1, 3, s1);
    var s2 := World(Zero(WaitAsleep), One(ExitScan(3, 2)), Two(1, Dead), FREE[1 := Proc(1)][3 := Proc(1)]);
    ExitScans(s1, 1, 3, 0, 2, s2);
    var s3 := World(Zero(WaitAsleep), One(ExitScan(3, 3)), Two(0, Dead), FREE[1 := Proc(1)][3 := Proc(1)]);
    ExitHands(s2, 1, 3, 2, s3);
  }

  /** Proczero is asleep in proc_wait over a zombie child. */
  predicate Lost(t: Sys) {
    && t.zero < |t.procs| && t.procs[t.zero].state == Sleeping && t.procs[t.zero].chan == OnSelf
    && exists c :: 0 <= c < |t.procs| && t.procs[c].parent == Some(t.zero) && t.procs[c].state == Zombie && c in t.late
  }

  /** The exception is real, and has two causes. First, an orphan that read its parent before being
      handed over wakes the old parent instead of proczero. Second, a child that exited under its own
      parent, and woke it, is handed over as a zombie when that parent exits without having waited. */
  lemma ZeroCanSleepPastExit()
    ensures Init(START)
    ensures exists t :: Reaches(START, t) && Lost(t) && |t.procs| == 4 && t.procs[2].pc == ExitDrop(1) && t.procs[1].pc == Dead
    ensures exists t :: Reaches(START, t) && Lost(t) && |t.procs| == 4 && t.procs[2].pc == Dead && t.procs[1].pc == ExitScan(3, 3)
  {
    OrphanWakesOldParent();
    ParentHandsZombie();
    hide Reaches;
    var t := World(Zero(WaitAsleep), One(Dead), Two(0, ExitDrop(1)), FREE[1 := Proc(2)][2 := Proc(2)]);
    var u := World(Zero(WaitAsleep), One(ExitScan(3, 3)), Two(0, Dead), FREE[1 := Proc(1)][3 := Proc(1)]);
    assert t.procs[2].state == u.procs[2].state == Zombie && t.procs[2].parent == u.procs[2].parent == Some(0);
    assert Lost(t) && Lost(u);
  }
}
