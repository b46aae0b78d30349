/** What fork, wait and exit have done by the time they return, over whole runs of ChildExit and from the
    step that begins them. */
module Families {
  import opened Base
  import opened ChildExit

  /** A run with the steps it takes. */
  ghost predicate Traced(run: seq<Sys>, steps: seq<Step>) {
    && |run| == |steps| + 1 && Init(run[0])
    && forall k :: 0 <= k < |steps| ==> Takes(run[k], steps[k], run[k + 1])
  }

  ghost predicate Takes(s: Sys, e: Step, t: Sys) { |s.procs| == |s.plk| && Apply(s, e) == Some(t) }

  lemma {:induction false} TracedInv(run: seq<Sys>, steps: seq<Step>, k: nat)
    requires Traced(run, steps) && k < |run|
    ensures Inv(run[k]) && Kin(run[k])
  {
    hide Init, Inv, Kin, Apply;
    if k == 0 {
      InitInv(run[0]);
      InitKin(run[0]);
    } else {
      var j := k - 1;
      TracedInv(run, steps, j);
      assert Takes(run[j], steps[j], run[j + 1]);
      StepKeeps(run[j], steps[j]);
      KinKeeps(run[j], steps[j]);
    }
  }

  // ----- what one step can do to families, without looking at the code

  /** In user code, running or preempted there. */
  predicate InUser(pc: Pc) { Under(pc) == User }

  /** The slots that a step turns from zombie children of p into unused ones. */
  function Reaps(s: Sys, t: Sys, p: nat): set<nat> {
    set i | 0 <= i < |s.procs| && i < |t.procs| && s.procs[i].state == Zombie && s.procs[i].parent == Some(p) && t.procs[i].state == Unused
  }

  /** The slots that a step turns from unused ones into ready children of p. */
  function Bears(s: Sys, t: Sys, p: nat): set<nat> {
    set i | 0 <= i < |s.procs| && i < |t.procs| && s.procs[i].state == Unused && t.procs[i].parent == Some(p) && t.procs[i].state == Runnable
  }

  // ----- the place of a process in its call

  /** In proc_wait before it has found anything to return with. */
  predicate Searching(pc: Pc) {
    pc.WaitTake? || pc.WaitScan? || pc.WaitTry? || pc.WaitCheck? || pc.WaitPark? || pc.WaitAsleep? || pc.WaitBack? || pc.WaitLeak?
  }

  predicate Found(pc: Pc) { pc.WaitFreed? || pc.WaitDone? }

  predicate Napper(pc: Pc) { pc.NapMark? || pc.Napping? || pc.Napped? || pc.NapBack? }

  /** Where a process may stand that began `call` last. */
  predicate Fits(call: Option<Call>, pc: Pc) {
    match call
    case None => pc == User || pc == Dead
    case Some(Fork(c)) => pc == User || pc == ForkHold(c)
    case Some(Wait) => pc == User || Searching(pc) || Found(pc)
    case Some(Nap) => pc == User || Napper(pc)
    case Some(Exit) => Exiting(pc) || pc == ZombiePark || pc == Dead
  }

  // ----- one step

  /** Whoever does not take the step stays where it is, unless it is reaped or born by it. */
  ghost predicate OthersStay(s: Sys, t: Sys, p: nat) {
    && |t.procs| == |s.procs|
    && (forall q :: 0 <= q < |s.procs| && q != p && t.procs[q].state != Unused ==>
          Under(t.procs[q].pc) == if s.procs[q].state == Unused then User else Under(s.procs[q].pc))
    && (forall q :: 0 <= q < |s.procs| && q != p && t.procs[q].state == Unused ==>
          s.procs[q].state == Unused || s.procs[q].state == Zombie)
  }

  ghost predicate Barren(s: Sys, t: Sys, p: nat) { Reaps(s, t, p) == {} && Bears(s, t, p) == {} }

  /** A step that changes no parent, kills nobody and brings nobody to life. */
  lemma PlainBarren(s: Sys, t: Sys, p: nat)
    requires Plain(s, t, p) && (s.procs[p].state == Unused ==> t.procs[p].state == Unused)
    ensures OthersStay(s, t, p) && Barren(s, t, p)
  {
    assert forall i :: 0 <= i < |s.procs| && t.procs[i].state == Unused ==> s.procs[i].state == Unused;
  }

  lemma BeginPlain(s: Sys, e: Step)
    requires |s.procs| == |s.plk| && Inv(s) && e.Begin? && Apply(s, e).Some?
    ensures var t := Apply(s, e).value;
            && Plain(s, t, e.p) && Under(s.procs[e.p].pc) == User && s.procs[e.p].state == t.procs[e.p].state == Running
            && Fits(Some(e.call), Under(t.procs[e.p].pc)) && !Found(Under(t.procs[e.p].pc)) && t.procs[e.p].pc != User
            && (e.call.Wait? ==> t.procs[e.p].pc == WaitTake) && (e.call.Exit? ==> t.procs[e.p].pc == ExitZero) && (e.call.Fork? ==> t.procs[e.p].pc == ForkHold(e.call.c))
  {
    hide LocksOk, ParentOk, ClearOk, WokeOk, ForkOk;
    assert ProcOk(s, e.p);
  }

  lemma SwitchPlain(s: Sys, e: Step)
    requires |s.procs| == |s.plk| && Inv(s) && !e.Begin? && !e.Go? && Apply(s, e).Some?
    ensures var t := Apply(s, e).value;
            && Plain(s, t, e.p) && (s.procs[e.p].state == Unused <==> t.procs[e.p].state == Unused)
            && (Under(t.procs[e.p].pc) == Under(s.procs[e.p].pc) || Switched(Under(s.procs[e.p].pc), Under(t.procs[e.p].pc)))
  {
    hide LocksOk, ParentOk, ClearOk, WokeOk, ForkOk, GoStep, Start;
    assert ProcOk(s, e.p);
  }

  /** Switched out, or back in. */
  predicate Switched(a: Pc, b: Pc) {
    || (a == Napping && b == Napped) || (a == Napped && b == NapBack) || (a == WaitPark && b == WaitAsleep)
    || (a == WaitAsleep && b == WaitBack) || (a == ZombiePark && b == Dead)
  }

  /** The last step of fork, and the step of proc_wait that finds a zombie. */
  lemma ForkBears(s: Sys, p: nat)
    requires |s.procs| == |s.plk| && Inv(s) && Kin(s) && p < |s.procs| && s.procs[p].pc.ForkHold? && Apply(s, Go(p)).Some?
    ensures var t, c := Apply(s, Go(p)).value, s.procs[p].pc.c;
            OthersStay(s, t, p) && Reaps(s, t, p) == {} && Bears(s, t, p) == {c} && t.procs[p].pc == User && t.procs[p].state == Running
  {
    hide LocksOk, ParentOk, ClearOk, WokeOk;
    assert ProcOk(s, p) && KinOk(s, p);
    var t := Apply(s, Go(p)).value;
    forall i | 0 <= i < |s.procs| ensures i in Bears(s, t, p) <==> i == s.procs[p].pc.c { assert KinOk(s, i); }
  }

  lemma WaitReaps(s: Sys, p: nat)
    requires |s.procs| == |s.plk| && Inv(s) && Kin(s) && p < |s.procs| && s.procs[p].pc.WaitCheck? && Apply(s, Go(p)).Some?
    ensures var t, i := Apply(s, Go(p)).value, s.procs[p].pc.i;
            && i < |s.procs| && s.procs[i].parent == Some(p) && OthersStay(s, t, p) && Bears(s, t, p) == {} && t.procs[p].state == Running
            && if s.procs[i].state == Zombie then Reaps(s, t, p) == {i} && t.procs[p].pc == WaitFreed(i)
               else Reaps(s, t, p) == {} && t.procs[p].pc == WaitScan(i + 1, true)
  {
    hide LocksOk, ParentOk, ClearOk, WokeOk, ForkOk;
    assert ProcOk(s, p) && KinOk(s, p);
  }

  lemma MoveBarren(s: Sys, p: nat)
    requires |s.procs| == |s.plk| && Inv(s) && Kin(s) && p < |s.procs| && s.procs[p].pc.ExitMove? && Apply(s, Go(p)).Some?
    ensures var t := Apply(s, Go(p)).value;
            OthersStay(s, t, p) && Barren(s, t, p) && Exiting(t.procs[p].pc) && t.procs[p].state == Running
  {
    hide LocksOk, ParentOk, ClearOk, WokeOk, ForkOk;
    assert ProcOk(s, p) && KinOk(s, p);
    var t := Apply(s, Go(p)).value;
    assert forall i :: 0 <= i < |s.procs| ==> t.procs[i].state == s.procs[i].state;
  }

  /** Where a plain piece of code of p leads to. */
  ghost predicate Leads(s: Sys, a: Pc, b: Pc, p: nat)
    requires p < |s.procs|
  {
    match a
    case WaitTake => b == WaitScan(0, false)
    case WaitScan(i, kids) =>
      if i < |s.procs| then b == if s.procs[i].parent == Some(p) then WaitTry(i) else WaitScan(i + 1, kids)
      else b == if kids then WaitPark else WaitLeak
    case WaitTry(i) => b == WaitCheck(i)
    case WaitFreed(i) => b == WaitDone(i)
    case WaitDone(_) => b == User
    case WaitBack => b == WaitScan(0, false)
    case NapMark => b == Napping
    case NapBack => b == User
    case ExitZero => b == ExitZeroHold
    case ExitZeroHold => b == ExitOwn
    case ExitOwn => b == ExitRead
    case ExitRead => b.ExitPar? && s.procs[p].parent == Some(b.par)
    case ExitPar(par) => b == ExitSelf(par) && par < |s.procs|
    case ExitSelf(par) => b == ExitScan(par, 0)
    case ExitScan(par, i) =>
      if i < |s.procs| then b == if s.procs[i].parent == Some(p) then ExitTry(par, i) else ExitScan(par, i + 1)
      else b == ExitWake(par)
    case ExitTry(par, i) => b == ExitMove(par, i)
    case ExitWake(par) => b == ExitMark(par)
    case ExitMark(par) => b == ExitDrop(par)
    case ExitDrop(_) => b == ZombiePark
    case _ => b == a
  }

  ghost predicate Went(s: Sys, a: Pc, b: Pc, p: nat)
    requires p < |s.procs|
  {
    match a
    case YieldMark(back) => b == Yielding(back) && Under(b) == Under(a)
    case YieldBack(back) => b == back && Under(b) == Under(a)
    case _ => Under(a) == a && Under(b) == b && Leads(s, a, b, p)
  }

  lemma GoLeads(s: Sys, p: nat)
    requires |s.procs| == |s.plk| && Inv(s) && Kin(s) && p < |s.procs| && Apply(s, Go(p)).Some?
    requires !s.procs[p].pc.ForkHold? && !s.procs[p].pc.WaitCheck? && !s.procs[p].pc.ExitMove?
    ensures var t := Apply(s, Go(p)).value;
            && Plain(s, t, p) && s.procs[p].state != Unused && t.procs[p].state != Unused
            && Went(s, s.procs[p].pc, t.procs[p].pc, p)
  {
    hide LocksOk, ParentOk, ClearOk, WokeOk, ForkOk, KinOk, Plain;
    assert ProcOk(s, p) && KinOk(s, p);
    GoPlain(s, p);
    if Exiting(s.procs[p].pc) { ExitLeads(s, p); } else { OtherLeads(s, p); }
  }

  lemma ExitLeads(s: Sys, p: nat)
    requires p < |s.procs| == |s.plk| && GoStep(s, p).Some? && StateOk(s.procs[p])
    requires Exiting(s.procs[p].pc) && !s.procs[p].pc.ExitMove?
    ensures var t := GoStep(s, p).value;
            |t.procs| == |s.procs| && t.procs[p].state != Unused && Went(s, s.procs[p].pc, t.procs[p].pc, p)
  {
  }

  lemma OtherLeads(s: Sys, p: nat)
    requires p < |s.procs| && GoStep(s, p).Some? && StateOk(s.procs[p]) && !Exiting(s.procs[p].pc)
    requires !s.procs[p].pc.ForkHold? && !s.procs[p].pc.WaitCheck?
    ensures var t := GoStep(s, p).value;
            |t.procs| == |s.procs| && t.procs[p].state != Unused && Went(s, s.procs[p].pc, t.procs[p].pc, p)
  {
  }

  // ----- the call a process began last, and what it did to families since

  /** The call p began last, since its slot was last unused. */
  function CallOf(run: seq<Sys>, steps: seq<Step>, k: nat, p: nat): Option<Call>
    requires |run| == |steps| + 1 && k <= |steps|
  {
    if k == 0 || (p < |run[k].procs| && run[k].procs[p].state == Unused) then None
    else if steps[k - 1].Begin? && steps[k - 1].p == p then Some(steps[k - 1].call)
    else CallOf(run, steps, k - 1, p)
  }

  /** Behind p's last Begin. */
  function Since(steps: seq<Step>, k: nat, p: nat): (n: nat)
    requires k <= |steps|
    ensures n <= k
  {
    if k == 0 || (steps[k - 1].Begin? && steps[k - 1].p == p) then k else Since(steps, k - 1, p)
  }

  function One(s: set<nat>): seq<set<nat>> { if s == {} then [] else [s] }

  /** The zombie children that became unused by p's hand since its last Begin. */
  function Reaped(run: seq<Sys>, steps: seq<Step>, k: nat, p: nat): seq<set<nat>>
    requires |run| == |steps| + 1 && k <= |steps|
  {
    if k == 0 || (steps[k - 1].Begin? && steps[k - 1].p == p) then []
    else if steps[k - 1] == Go(p) then Reaped(run, steps, k - 1, p) + One(Reaps(run[k - 1], run[k], p))
    else Reaped(run, steps, k - 1, p)
  }

  /** The unused slots that became ready children of p by its hand since its last Begin. */
  function Born(run: seq<Sys>, steps: seq<Step>, k: nat, p: nat): seq<set<nat>>
    requires |run| == |steps| + 1 && k <= |steps|
  {
    if k == 0 || (steps[k - 1].Begin? && steps[k - 1].p == p) then []
    else if steps[k - 1] == Go(p) then Born(run, steps, k - 1, p) + One(Bears(run[k - 1], run[k], p))
    else Born(run, steps, k - 1, p)
  }

  ghost predicate ChildAt(run: seq<Sys>, m: nat, j: nat, p: nat) {
    m < |run| && j < |run[m].procs| && run[m].procs[j].parent == Some(p)
  }

  /** At some time since state b, slot j was not a child of p. */
  ghost predicate Missed(run: seq<Sys>, b: nat, k: nat, j: nat, p: nat) {
    exists m: nat :: b <= m <= k && !ChildAt(run, m, j, p)
  }

  /** At some time since state b, p had a child. */
  ghost predicate Met(run: seq<Sys>, b: nat, k: nat, p: nat) {
    exists m: nat, j: nat :: b <= m <= k && ChildAt(run, m, j, p)
  }

  /** How far the scan of proc_wait has missed or met children. */
  ghost predicate Scanned(run: seq<Sys>, b: nat, k: nat, pc: Pc, p: nat)
    requires k < |run|
  {
    match pc
    case WaitScan(i, kids) => if kids then Met(run, b, k, p) else forall j: nat :: j < i ==> Missed(run, b, k, j, p)
    case WaitTry(_) => Met(run, b, k, p)
    case WaitCheck(_) => Met(run, b, k, p)
    case WaitPark => Met(run, b, k, p)
    case WaitAsleep => Met(run, b, k, p)
    case WaitLeak => forall j: nat :: j < |run[k].procs| ==> Missed(run, b, k, j, p)
    case _ => true
  }

  /** What the call has done, by where p stands. */
  ghost predicate Effect(call: Option<Call>, pc: Pc, reaped: seq<set<nat>>, born: seq<set<nat>>) {
    match call
    case None => true
    case Some(Wait) => born == [] && if Searching(pc) then reaped == [] else exists i :: reaped == [{i}]
    case Some(Fork(c)) => reaped == [] && born == if pc == ForkHold(c) then [] else [{c}]
    case Some(_) => reaped == [] && born == []
  }

  ghost predicate FamilyOk(run: seq<Sys>, steps: seq<Step>, k: nat, p: nat)
    requires |run| == |steps| + 1 && k <= |steps|
  {
    && p < |run[k].procs|
    && var pc, call := Under(run[k].procs[p].pc), CallOf(run, steps, k, p);
       && Fits(call, pc) && Effect(call, pc, Reaped(run, steps, k, p), Born(run, steps, k, p))
       && (call == Some(Wait) ==> Scanned(run, Since(steps, k, p), k, pc, p))
  }

  lemma MissedMore(run: seq<Sys>, b: nat, j: nat, i: nat, p: nat)
    requires Missed(run, b, j, i, p)
    ensures Missed(run, b, j + 1, i, p)
  {
    var m: nat :| b <= m <= j && !ChildAt(run, m, i, p);
    assert b <= m <= j + 1;
  }

  lemma MetMore(run: seq<Sys>, b: nat, j: nat, p: nat)
    requires Met(run, b, j, p)
    ensures Met(run, b, j + 1, p)
  {
    var m: nat, i: nat :| b <= m <= j && ChildAt(run, m, i, p);
    assert b <= m <= j + 1;
  }

  lemma ScannedMore(run: seq<Sys>, b: nat, j: nat, pc: Pc, p: nat)
    requires j + 1 < |run| && Scanned(run, b, j, pc, p) && |run[j + 1].procs| == |run[j].procs|
    ensures Scanned(run, b, j + 1, pc, p)
  {
    hide Missed, Met;
    var k := j + 1;
    match pc
    case WaitScan(i, kids) =>
      if kids {
        MetMore(run, b, j, p);
      } else {
        forall x: nat | x < i ensures Missed(run, b, k, x, p) { MissedMore(run, b, j, x, p); }
      }
    case WaitTry(_) => MetMore(run, b, j, p);
    case WaitCheck(_) => MetMore(run, b, j, p);
    case WaitPark => MetMore(run, b, j, p);
    case WaitAsleep => MetMore(run, b, j, p);
    case WaitLeak =>
      forall x: nat | x < |run[j].procs| ensures Missed(run, b, k, x, p) { MissedMore(run, b, j, x, p); }
    case _ =>
  }

  /** A step of the scan itself. */
  lemma ScannedOn(run: seq<Sys>, b: nat, j: nat, a: Pc, c: Pc, p: nat)
    requires b <= j && j + 1 < |run| && Scanned(run, b, j, a, p) && |run[j + 1].procs| == |run[j].procs|
    requires p < |run[j].procs| && Leads(run[j], a, c, p) && Searching(c)
    ensures Scanned(run, b, j + 1, c, p)
  {
    ScannedMore(run, b, j, a, p);
    match a {
      case WaitScan(i, kids) =>
        if i < |run[j].procs| {
          assert ChildAt(run, j, i, p) <==> run[j].procs[i].parent == Some(p);
          if ChildAt(run, j, i, p) {
            assert b <= j <= j + 1 && Met(run, b, j + 1, p);
          } else {
            assert b <= j <= j + 1 && Missed(run, b, j + 1, i, p);
          }
        }
      case _ =>
    }
  }

  lemma FamilyOther(run: seq<Sys>, steps: seq<Step>, j: nat, p: nat)
    requires |run| == |steps| + 1 && j < |steps| && FamilyOk(run, steps, j, p) && steps[j].p != p
    requires OthersStay(run[j], run[j + 1], steps[j].p) && p < |run[j + 1].procs| && StateOk(run[j + 1].procs[p])
    ensures FamilyOk(run, steps, j + 1, p)
  {
    hide Effect, Fits, Scanned;
    var s, t := run[j], run[j + 1];
    ScannedMore2(run, Since(steps, j, p), j, p);
    if t.procs[p].state == Unused || s.procs[p].state == Unused { NoCall(t.procs[p]); NoEffect(run, steps, j, p); }
  }

  lemma ScannedMore2(run: seq<Sys>, b: nat, j: nat, p: nat)
    requires j + 1 < |run| && |run[j + 1].procs| == |run[j].procs|
    ensures forall pc :: Scanned(run, b, j, pc, p) ==> Scanned(run, b, j + 1, pc, p)
  {
    forall pc | Scanned(run, b, j, pc, p) ensures Scanned(run, b, j + 1, pc, p) { ScannedMore(run, b, j, pc, p); }
  }

  lemma NoCall(me: Process)
    requires StateOk(me)
    ensures me.state == Unused ==> Fits(None, Under(me.pc))
    ensures Under(me.pc) == User ==> Fits(None, Under(me.pc))
  {
  }

  lemma NoEffect(run: seq<Sys>, steps: seq<Step>, j: nat, p: nat)
    requires |run| == |steps| + 1 && j < |steps|
    ensures forall pc, a, b :: Effect(None, pc, a, b)
  {
  }

  lemma FamilyBegin(run: seq<Sys>, steps: seq<Step>, j: nat, p: nat)
    requires |run| == |steps| + 1 && j < |steps| && Takes(run[j], steps[j], run[j + 1]) && Inv(run[j])
    requires steps[j].Begin? && steps[j].p == p
    ensures FamilyOk(run, steps, j + 1, p)
  {
    hide Inv, Apply, Plain;
    assert p < |run[j].procs| by { assert Inv(run[j]); Some3(run[j], steps[j]); }
    BeginPlain(run[j], steps[j]);
    assert |run[j + 1].procs| == |run[j].procs| by { PlainSize(run[j], run[j + 1], p); }
  }

  lemma Some3(s: Sys, e: Step)
    requires |s.procs| == |s.plk| && Apply(s, e).Some?
    ensures e.p < |s.procs|
  {
  }

  lemma PlainSize(s: Sys, t: Sys, p: nat)
    requires Plain(s, t, p)
    ensures |t.procs| == |s.procs|
  {
  }

  lemma FamilyFork(run: seq<Sys>, steps: seq<Step>, j: nat, p: nat)
    requires |run| == |steps| + 1 && j < |steps| && Takes(run[j], steps[j], run[j + 1]) && Inv(run[j]) && Kin(run[j])
    requires steps[j] == Go(p) && FamilyOk(run, steps, j, p) && run[j].procs[p].pc.ForkHold?
    ensures FamilyOk(run, steps, j + 1, p)
  {
    hide Inv, Kin, Apply, Bears, Reaps, Scanned, OthersStay;
    SizeKept(run[j], steps[j]);
    ForkBears(run[j], p);
  }

  lemma FamilyCheck(run: seq<Sys>, steps: seq<Step>, j: nat, p: nat)
    requires |run| == |steps| + 1 && j < |steps| && Takes(run[j], steps[j], run[j + 1]) && Inv(run[j]) && Kin(run[j])
    requires steps[j] == Go(p) && FamilyOk(run, steps, j, p) && run[j].procs[p].pc.WaitCheck?
    ensures FamilyOk(run, steps, j + 1, p)
  {
    hide Inv, Kin, Apply, Bears, Reaps, Missed, Met, OthersStay;
    WaitReaps(run[j], p);
    SizeKept(run[j], steps[j]);
    MetMore(run, Since(steps, j, p), j, p);
  }

  lemma FamilyMove(run: seq<Sys>, steps: seq<Step>, j: nat, p: nat)
    requires |run| == |steps| + 1 && j < |steps| && Takes(run[j], steps[j], run[j + 1]) && Inv(run[j]) && Kin(run[j])
    requires steps[j] == Go(p) && FamilyOk(run, steps, j, p) && run[j].procs[p].pc.ExitMove?
    ensures FamilyOk(run, steps, j + 1, p)
  {
    hide Inv, Kin, Apply, Bears, Reaps, Scanned;
    MoveBarren(run[j], p);
  }

  /** Where a step leads to fits the call, and its effect is still right. */
  lemma LeadsFits(s: Sys, call: Option<Call>, a: Pc, b: Pc, p: nat, reaped: seq<set<nat>>, born: seq<set<nat>>)
    requires p < |s.procs| && Fits(call, a) && Effect(call, a, reaped, born) && Leads(s, a, b, p)
    requires !a.ForkHold? && !a.WaitCheck? && !a.ExitMove?
    ensures Fits(call, b) && Effect(call, b, reaped, born) && (call == Some(Wait) && Searching(b) ==> Searching(a))
  {
    if Exiting(a) {
      assert Exiting(b) || b == ZombiePark by { LeadsExit(s, a, b, p); }
    } else if call == Some(Wait) {
      LeadsWait(s, a, b, p, reaped, born);
    } else {
      LeadsNap(s, call, a, b, p);
    }
  }

  lemma LeadsExit(s: Sys, a: Pc, b: Pc, p: nat)
    requires p < |s.procs| && Leads(s, a, b, p) && Exiting(a) && !a.ExitMove?
    ensures Exiting(b) || b == ZombiePark
  {
    if ExitParent(a).Some? { LeadsExitLate(s, a, b, p); }
  }

  lemma LeadsExitLate(s: Sys, a: Pc, b: Pc, p: nat)
    requires p < |s.procs| && Leads(s, a, b, p) && ExitParent(a).Some? && !a.ExitMove?
    ensures ExitParent(b).Some? || b == ZombiePark
  {
  }

  lemma LeadsWait(s: Sys, a: Pc, b: Pc, p: nat, reaped: seq<set<nat>>, born: seq<set<nat>>)
    requires p < |s.procs| && Fits(Some(Wait), a) && Effect(Some(Wait), a, reaped, born) && Leads(s, a, b, p) && !a.WaitCheck?
    ensures Fits(Some(Wait), b) && Effect(Some(Wait), b, reaped, born) && (Searching(b) ==> Searching(a))
  {
    hide Leads, Searching, Found;
    if Searching(a) { LeadsSearch(s, a, b, p); } else { LeadsFound(s, a, b, p); }
  }

  lemma LeadsSearch(s: Sys, a: Pc, b: Pc, p: nat)
    requires p < |s.procs| && Searching(a) && !a.WaitCheck? && Leads(s, a, b, p)
    ensures Searching(b)
  {
  }

  lemma LeadsFound(s: Sys, a: Pc, b: Pc, p: nat)
    requires p < |s.procs| && (a == User || Found(a)) && Leads(s, a, b, p)
    ensures (b == User || Found(b)) && !Searching(b)
  {
  }

  lemma LeadsNap(s: Sys, call: Option<Call>, a: Pc, b: Pc, p: nat)
    requires p < |s.procs| && call != Some(Wait) && Fits(call, a) && Leads(s, a, b, p) && !a.ForkHold? && !Exiting(a)
    ensures Fits(call, b) && !b.ForkHold?
  {
  }

  lemma FamilyGo(run: seq<Sys>, steps: seq<Step>, j: nat, p: nat)
    requires |run| == |steps| + 1 && j < |steps| && Takes(run[j], steps[j], run[j + 1]) && Inv(run[j]) && Kin(run[j])
    requires steps[j] == Go(p) && FamilyOk(run, steps, j, p)
    requires var pc := run[j].procs[p].pc; !pc.ForkHold? && !pc.WaitCheck? && !pc.ExitMove?
    ensures FamilyOk(run, steps, j + 1, p)
  {
    hide Inv, Kin, Apply, Bears, Reaps, Scanned, Leads, Effect, Fits, Plain, OthersStay, Searching;
    var s, t := run[j], run[j + 1];
    GoLeads(s, p);
    PlainSize(s, t, p);
    PlainBarren(s, t, p);
    var a, b := s.procs[p].pc, t.procs[p].pc;
    var since, call := Since(steps, j, p), CallOf(run, steps, j, p);
    assert Reaped(run, steps, j + 1, p) == Reaped(run, steps, j, p) && Born(run, steps, j + 1, p) == Born(run, steps, j, p);
    if a.YieldMark? || a.YieldBack? {
      if call == Some(Wait) { ScannedMore(run, since, j, Under(a), p); }
    } else {
      LeadsFits(s, call, a, b, p, Reaped(run, steps, j, p), Born(run, steps, j, p));
      if call == Some(Wait) {
        if Searching(b) { ScannedOn(run, since, j, a, b, p); } else { NoScan(run, since, j + 1, b, p); }
      }
    }
  }

  lemma NoScan(run: seq<Sys>, b: nat, k: nat, pc: Pc, p: nat)
    requires k < |run| && !Searching(pc)
    ensures Scanned(run, b, k, pc, p)
  {
  }

  lemma FamilySwitch(run: seq<Sys>, steps: seq<Step>, j: nat, p: nat)
    requires |run| == |steps| + 1 && j < |steps| && Takes(run[j], steps[j], run[j + 1]) && Inv(run[j])
    requires !steps[j].Go? && !steps[j].Begin? && steps[j].p == p && FamilyOk(run, steps, j, p)
    ensures FamilyOk(run, steps, j + 1, p)
  {
    hide Inv, Apply, Bears, Reaps, Scanned, Plain, OthersStay;
    var s, t := run[j], run[j + 1];
    SwitchPlain(s, steps[j]);
    PlainSize(s, t, p);
    var since, a, b := Since(steps, j, p), Under(s.procs[p].pc), Under(t.procs[p].pc);
    if CallOf(run, steps, j, p) == Some(Wait) {
      ScannedMore(run, since, j, a, p);
      if a != b { SwitchScanned(run, since, j, a, b, p); }
    }
  }

  lemma SwitchScanned(run: seq<Sys>, b: nat, j: nat, a: Pc, c: Pc, p: nat)
    requires j + 1 < |run| && Scanned(run, b, j + 1, a, p) && Switched(a, c)
    ensures Scanned(run, b, j + 1, c, p)
  {
  }

  lemma FamilyStep(run: seq<Sys>, steps: seq<Step>, j: nat, p: nat)
    requires |run| == |steps| + 1 && j < |steps| && Takes(run[j], steps[j], run[j + 1]) && Inv(run[j]) && Kin(run[j])
    requires FamilyOk(run, steps, j, p)
    ensures FamilyOk(run, steps, j + 1, p)
  {
    hide Inv, Kin, Apply, FamilyOk;
    var s, e := run[j], steps[j];
    assert p < |s.procs| by { OkIn(run, steps, j, p); }
    if e.p != p {
      StepOthers(s, e);
      StepKeeps(s, e);
      assert StateOk(run[j + 1].procs[p]) by { InvState(run[j + 1], p); }
      FamilyOther(run, steps, j, p);
    } else if e.Begin? {
      FamilyBegin(run, steps, j, p);
    } else if !e.Go? {
      FamilySwitch(run, steps, j, p);
    } else {
      match s.procs[p].pc
      case ForkHold(_) => FamilyFork(run, steps, j, p);
      case WaitCheck(_) => FamilyCheck(run, steps, j, p);
      case ExitMove(_, _) => FamilyMove(run, steps, j, p);
      case _ => FamilyGo(run, steps, j, p);
    }
  }

  lemma OkIn(run: seq<Sys>, steps: seq<Step>, j: nat, p: nat)
    requires |run| == |steps| + 1 && j <= |steps| && FamilyOk(run, steps, j, p)
    ensures p < |run[j].procs|
  {
  }

  lemma InvState(s: Sys, p: nat)
    requires Inv(s) && p < |s.procs|
    ensures StateOk(s.procs[p])
  {
    assert ProcOk(s, p);
  }

  lemma StepOthers(s: Sys, e: Step)
    requires |s.procs| == |s.plk| && Inv(s) && Kin(s) && Apply(s, e).Some?
    ensures e.p < |s.procs| && OthersStay(s, Apply(s, e).value, e.p)
  {
    hide Inv, Kin, Apply, Plain, OthersStay, Went;
    Some3(s, e);
    var t := Apply(s, e).value;
    if e.Begin? {
      BeginPlain(s, e);
      PlainBarren(s, t, e.p);
    } else if !e.Go? {
      SwitchPlain(s, e);
      PlainBarren(s, t, e.p);
    } else {
      match s.procs[e.p].pc
      case ForkHold(_) => ForkBears(s, e.p);
      case WaitCheck(_) => WaitReaps(s, e.p);
      case ExitMove(_, _) => MoveBarren(s, e.p);
      case _ =>
        GoLeads(s, e.p);
        PlainBarren(s, t, e.p);
    }
  }

  lemma {:induction false} FamilyRun(run: seq<Sys>, steps: seq<Step>, k: nat, p: nat)
    requires Traced(run, steps) && k <= |steps| && p < |run[k].procs|
    ensures FamilyOk(run, steps, k, p)
  {
    hide Init, Inv, Kin, Apply, FamilyOk;
    if k == 0 {
      FamilyInit(run, steps, p);
    } else {
      var j := k - 1;
      TracedInv(run, steps, j);
      assert Takes(run[j], steps[j], run[j + 1]);
      StepOthers(run[j], steps[j]);
      FamilyRun(run, steps, j, p);
      FamilyStep(run, steps, j, p);
    }
  }

  lemma FamilyInit(run: seq<Sys>, steps: seq<Step>, p: nat)
    requires |run| == |steps| + 1 && Init(run[0]) && p < |run[0].procs|
    ensures FamilyOk(run, steps, 0, p)
  {
    assert Fresh(run[0].procs[p]);
  }

  // ----- who can be whose parent

  /** What step e does to the parent of j, if anything: p has borne j, reaped it, or hands it over as it exits. */
  ghost predicate Rehomes(s: Sys, e: Step, t: Sys, j: nat) {
    && e.Go? && e.p < |s.procs| && j < |s.procs| && j < |t.procs|
    && (|| (s.procs[j].parent == None && j in Bears(s, t, e.p))
        || (t.procs[j].parent == None && j in Reaps(s, t, e.p))
        || (s.procs[j].parent == Some(e.p) && t.procs[j].parent == Some(s.zero) && Exiting(s.procs[e.p].pc)))
  }

  lemma ParentKept(s: Sys, e: Step, j: nat)
    requires |s.procs| == |s.plk| && Inv(s) && Kin(s) && Apply(s, e).Some? && j < |s.procs|
    ensures var t := Apply(s, e).value;
            |t.procs| == |s.procs| && t.zero == s.zero && (t.procs[j].parent == s.procs[j].parent || Rehomes(s, e, t, j))
  {
    hide Inv, Kin, Apply, Went, Fits, Rehomes;
    Some3(s, e);
    if e.Begin? {
      BeginPlain(s, e);
    } else if !e.Go? {
      SwitchPlain(s, e);
    } else {
      match s.procs[e.p].pc
      case ForkHold(_) => ParentGo(s, e.p, j);
      case WaitCheck(_) => ParentGo(s, e.p, j);
      case ExitMove(_, _) => ParentGo(s, e.p, j);
      case _ => GoLeads(s, e.p);
    }
  }

  lemma ParentGo(s: Sys, p: nat, j: nat)
    requires |s.procs| == |s.plk| && Inv(s) && Kin(s) && p < |s.procs| && Apply(s, Go(p)).Some? && j < |s.procs|
    requires s.procs[p].pc.ForkHold? || s.procs[p].pc.WaitCheck? || s.procs[p].pc.ExitMove?
    ensures var t := Apply(s, Go(p)).value;
            |t.procs| == |s.procs| && t.zero == s.zero && (t.procs[j].parent == s.procs[j].parent || Rehomes(s, Go(p), t, j))
  {
    hide LocksOk, ParentOk, ClearOk, WokeOk, StateOk;
    assert ProcOk(s, p) && KinOk(s, p) && KinOk(s, j);
  }

  /** Step n of the run takes j away from p: p reaps it, or hands it over to proczero in proc_exit. */
  ghost predicate LosesChild(run: seq<Sys>, steps: seq<Step>, n: nat, j: nat, p: nat)
    requires |run| == |steps| + 1
  {
    && n < |steps| && steps[n] == Go(p) && j < |run[n + 1].procs|
    && (|| j in Reaps(run[n], run[n + 1], p)
        || (CallOf(run, steps, n, p) == Some(Exit) && run[n + 1].procs[j].parent == Some(run[0].zero)))
  }

  lemma {:induction false} ZeroStays(run: seq<Sys>, steps: seq<Step>, k: nat)
    requires Traced(run, steps) && k <= |steps|
    ensures run[k].zero == run[0].zero && |run[k].procs| == |run[0].procs| && run[k].zero < |run[k].procs|
  {
    hide Inv, Kin, Apply, Rehomes;
    if k > 0 {
      var j := k - 1;
      ZeroStays(run, steps, j);
      TracedInv(run, steps, j);
      assert Takes(run[j], steps[j], run[j + 1]);
      ParentKept(run[j], steps[j], run[j].zero);
    }
  }

  /** A child stays its parent's child until the parent reaps it or, exiting, hands it over. */
  lemma {:induction false} ChildUntil(run: seq<Sys>, steps: seq<Step>, a: nat, k: nat, j: nat, p: nat)
    requires Traced(run, steps) && a <= k <= |steps| && ChildAt(run, a, j, p) && p < |run[0].procs|
    ensures ChildAt(run, k, j, p) || exists n :: a <= n < k && LosesChild(run, steps, n, j, p)
  {
    hide Init, Inv, Kin, Apply, Bears, Reaps, LosesChild;
    if a < k {
      var n := k - 1;
      ChildUntil(run, steps, a, n, j, p);
      if ChildAt(run, n, j, p) && !ChildAt(run, k, j, p) { Lost1(run, steps, n, j, p); }
    }
  }

  lemma Lost1(run: seq<Sys>, steps: seq<Step>, n: nat, j: nat, p: nat)
    requires Traced(run, steps) && n < |steps| && ChildAt(run, n, j, p) && !ChildAt(run, n + 1, j, p) && p < |run[0].procs|
    ensures LosesChild(run, steps, n, j, p)
  {
    hide Init, Inv, Kin, Apply;
    TracedInv(run, steps, n);
    ZeroStays(run, steps, n);
    assert Takes(run[n], steps[n], run[n + 1]);
    ParentKept(run[n], steps[n], j);
    FamilyRun(run, steps, n, p);
  }

  // ----- children seen by proc_wait

  /** No step but p's own gives p a child or takes one away, unless p is proczero. */
  lemma ChildStill(run: seq<Sys>, steps: seq<Step>, n: nat, j: nat, p: nat)
    requires Traced(run, steps) && n < |steps| && p < |run[0].procs| && p != run[0].zero
    requires steps[n] == Go(p) ==> Barren(run[n], run[n + 1], p) && !Exiting(run[n].procs[p].pc)
    ensures ChildAt(run, n, j, p) <==> ChildAt(run, n + 1, j, p)
  {
    hide Init, Inv, Kin, Apply;
    TracedInv(run, steps, n);
    ZeroStays(run, steps, n);
    assert Takes(run[n], steps[n], run[n + 1]);
    if j < |run[n].procs| { ParentKept(run[n], steps[n], j); } else { ZeroStays(run, steps, n + 1); }
  }

  lemma SearchBack(run: seq<Sys>, steps: seq<Step>, n: nat, p: nat)
    requires Traced(run, steps) && n < |steps| && p < |run[n].procs| && p < |run[n + 1].procs|
    requires !(steps[n].Begin? && steps[n].p == p)
    requires CallOf(run, steps, n + 1, p) == Some(Wait) && Searching(Under(run[n + 1].procs[p].pc))
    ensures CallOf(run, steps, n, p) == Some(Wait) && Searching(Under(run[n].procs[p].pc))
    ensures steps[n] == Go(p) ==> Barren(run[n], run[n + 1], p) && !Exiting(run[n].procs[p].pc)
  {
    hide Traced, Bears, Reaps, Scanned;
    FamilyRun(run, steps, n, p);
    FamilyRun(run, steps, n + 1, p);
  }

  /** While p searches, its children stay the same, unless it is proczero. */
  lemma {:induction false} SearchStill(run: seq<Sys>, steps: seq<Step>, m: nat, k: nat, j: nat, p: nat)
    requires Traced(run, steps) && m <= k <= |steps| && Since(steps, k, p) <= m && p < |run[k].procs| && p != run[0].zero
    requires CallOf(run, steps, k, p) == Some(Wait) && Searching(Under(run[k].procs[p].pc))
    ensures ChildAt(run, m, j, p) <==> ChildAt(run, k, j, p)
  {
    hide Traced, ChildAt, Barren, Searching, Under;
    if m < k {
      var n := k - 1;
      ZeroStays(run, steps, n);
      ZeroStays(run, steps, k);
      SearchBack(run, steps, n, p);
      SearchStill(run, steps, m, n, j, p);
      ChildStill(run, steps, n, j, p);
    }
  }

  // ----- what a caller gets

  /** proc_wait returns with exactly one zombie child reaped, in all its time, and none born. */
  lemma {:induction false} WaitReturns(run: seq<Sys>, steps: seq<Step>, k: nat, p: nat)
    requires Traced(run, steps) && k <= |steps| && p < |run[k].procs|
    requires CallOf(run, steps, k, p) == Some(Wait) && InUser(run[k].procs[p].pc)
    ensures exists i :: Reaped(run, steps, k, p) == [{i}]
    ensures Born(run, steps, k, p) == []
  {
    hide Traced, Scanned;
    FamilyRun(run, steps, k, p);
  }

  /** proc_wait gives up exactly when it has found no child: it has missed every slot at some time since
      it began, and a process other than proczero had no child in all that time. */
  lemma {:induction false} GivesUpWithoutChild(run: seq<Sys>, steps: seq<Step>, k: nat, p: nat)
    requires Traced(run, steps) && k <= |steps| && p < |run[k].procs| && run[k].procs[p].pc.WaitLeak?
    ensures CallOf(run, steps, k, p) == Some(Wait) && Reaped(run, steps, k, p) == []
    ensures forall j: nat :: Missed(run, Since(steps, k, p), k, j, p)
    ensures p != run[0].zero ==> forall m: nat, j: nat :: Since(steps, k, p) <= m <= k ==> !ChildAt(run, m, j, p)
  {
    hide Init, Apply, CallOf, Since;
    FamilyRun(run, steps, k, p);
    var b := Since(steps, k, p);
    forall j: nat ensures Missed(run, b, k, j, p) {
      if j >= |run[k].procs| { assert b <= k && !ChildAt(run, k, j, p); }
    }
    if p != run[0].zero {
      forall m: nat, j: nat | b <= m <= k ensures !ChildAt(run, m, j, p) {
        assert Missed(run, b, k, j, p);
        var l: nat :| b <= l <= k && !ChildAt(run, l, j, p);
        SearchStill(run, steps, l, k, j, p);
        SearchStill(run, steps, m, k, j, p);
      }
    }
  }

  /** proc_wait goes to sleep only over a child: one met since it began and, for a process other than
      proczero, one that is still there. */
  lemma {:induction false} SleepsOverChild(run: seq<Sys>, steps: seq<Step>, k: nat, p: nat)
    requires Traced(run, steps) && k <= |steps| && p < |run[k].procs|
    requires run[k].procs[p].pc.WaitPark? || run[k].procs[p].pc.WaitAsleep?
    ensures CallOf(run, steps, k, p) == Some(Wait) && Met(run, Since(steps, k, p), k, p)
    ensures p != run[0].zero ==> exists j: nat :: ChildAt(run, k, j, p)
  {
    hide Init, Apply, CallOf, Since, ChildAt;
    FamilyRun(run, steps, k, p);
    var b := Since(steps, k, p);
    var m: nat, j: nat :| b <= m <= k && ChildAt(run, m, j, p);
    if p != run[0].zero { SearchStill(run, steps, m, k, j, p); }
  }

  /** proc_fork returns with exactly one slot brought to life, the one it took, and none reaped. */
  lemma {:induction false} ForkReturns(run: seq<Sys>, steps: seq<Step>, k: nat, p: nat, c: nat)
    requires Traced(run, steps) && k <= |steps| && p < |run[k].procs|
    requires CallOf(run, steps, k, p) == Some(Fork(c)) && InUser(run[k].procs[p].pc)
    ensures Born(run, steps, k, p) == [{c}] && Reaped(run, steps, k, p) == []
  {
    hide Traced, Scanned;
    FamilyRun(run, steps, k, p);
  }

  /** proc_exit never returns, and neither reaps nor bears. */
  lemma {:induction false} ExitStays(run: seq<Sys>, steps: seq<Step>, k: nat, p: nat)
    requires Traced(run, steps) && k <= |steps| && p < |run[k].procs| && CallOf(run, steps, k, p) == Some(Exit)
    ensures !InUser(run[k].procs[p].pc) && Born(run, steps, k, p) == [] && Reaped(run, steps, k, p) == []
  {
    hide Traced, Scanned;
    FamilyRun(run, steps, k, p);
  }

  // ----- nobody is left without a parent

  /** How many slots an exiting process has passed in its search for children. */
  function Passed(n: nat, pc: Pc): nat {
    match Under(pc)
    case ExitScan(_, i) => i
    case ExitTry(_, i) => i
    case ExitMove(_, i) => i
    case ExitWake(_) => n
    case ExitMark(_) => n
    case ExitDrop(_) => n
    case ZombiePark => n
    case Dead => n
    case _ => 0
  }

  /** Every parent is a process in use that is not a zombie; proczero may be any slot. */
  ghost predicate Housed(s: Sys) {
    forall c :: 0 <= c < |s.procs| && s.procs[c].parent.Some? && s.procs[c].parent != Some(s.zero) ==> Living(s, s.procs[c].parent.value)
  }

  predicate Living(s: Sys, q: nat) { q < |s.procs| && s.procs[q].state != Unused && s.procs[q].state != Zombie }

  ghost predicate Swept(s: Sys, q: nat)
    requires q < |s.procs|
  {
    q != s.zero ==> forall j :: 0 <= j < |s.procs| && j < Passed(|s.procs|, s.procs[q].pc) ==> s.procs[j].parent != Some(q)
  }

  ghost predicate Homed(s: Sys) {
    && (forall c :: 0 <= c < |s.procs| && s.procs[c].parent.Some? ==> s.procs[c].parent.value < |s.procs|)
    && forall q :: 0 <= q < |s.procs| ==> Swept(s, q)
  }

  lemma PassedOther(s: Sys, t: Sys, e: Step, q: nat)
    requires |s.procs| == |s.plk| && Inv(s) && Kin(s) && Apply(s, e) == Some(t) && q < |s.procs| && q != e.p
    ensures |t.procs| == |s.procs| && Passed(|t.procs|, t.procs[q].pc) <= Passed(|s.procs|, s.procs[q].pc)
  {
    hide Inv, Kin, Apply;
    StepOthers(s, e);
    StepKeeps(s, e);
    InvState(s, q);
    InvState(t, q);
  }

  lemma PassedWent(s: Sys, a: Pc, b: Pc, p: nat, j: nat)
    requires p < |s.procs| && j < |s.procs| && Went(s, a, b, p)
    requires j < Passed(|s.procs|, a) ==> s.procs[j].parent != Some(p)
    ensures j < Passed(|s.procs|, b) ==> s.procs[j].parent != Some(p)
  {
    hide Leads, Passed;
    if a.YieldMark? || a.YieldBack? {
      SamePassed(|s.procs|, a, b);
    } else if Exiting(a) || a == ZombiePark || a == Dead {
      PassedExit(s, a, b, p, j);
    } else {
      PassedOut(s, a, b, p);
    }
  }

  lemma SamePassed(n: nat, a: Pc, b: Pc)
    requires Under(a) == Under(b)
    ensures Passed(n, a) == Passed(n, b)
  {
  }

  lemma PassedExit(s: Sys, a: Pc, b: Pc, p: nat, j: nat)
    requires p < |s.procs| && j < |s.procs| && Leads(s, a, b, p) && (Exiting(a) || a == ZombiePark || a == Dead)
    requires j < Passed(|s.procs|, a) ==> s.procs[j].parent != Some(p)
    ensures j < Passed(|s.procs|, b) ==> s.procs[j].parent != Some(p)
  {
  }

  lemma PassedOut(s: Sys, a: Pc, b: Pc, p: nat)
    requires p < |s.procs| && Leads(s, a, b, p) && Under(a) == a && !Exiting(a) && a != ZombiePark && a != Dead
    ensures Passed(|s.procs|, b) == 0
  {
  }

  lemma BeginPassed(n: nat, call: Call, pc: Pc)
    requires Fits(Some(call), Under(pc)) && (call.Exit? ==> pc == ExitZero)
    ensures Passed(n, pc) == 0
  {
  }

  lemma PassedOwn(s: Sys, t: Sys, e: Step, j: nat)
    requires |s.procs| == |s.plk| && Inv(s) && Kin(s) && Apply(s, e) == Some(t) && !(e.Go? && e.p < |s.procs| && s.procs[e.p].pc.ExitMove?)
    requires j < |s.procs| && (e.p < |s.procs| ==> Swept(s, e.p))
    ensures e.p < |s.procs| == |t.procs| && (e.p != s.zero && j < Passed(|s.procs|, t.procs[e.p].pc) ==> s.procs[j].parent != Some(e.p))
  {
    hide Inv, Kin, Apply, Plain, Went, OthersStay, Fits, Bears, Reaps;
    Some3(s, e);
    var p := e.p;
    if e.Begin? {
      BeginPlain(s, e);
      PlainSize(s, t, p);
      BeginPassed(|s.procs|, e.call, t.procs[p].pc);
    } else if !e.Go? {
      SwitchPlain(s, e);
      PlainSize(s, t, p);
    } else if s.procs[p].pc.ForkHold? {
      ForkBears(s, p);
      assert |t.procs| == |s.procs| by { SizeKept(s, e); }
    } else if s.procs[p].pc.WaitCheck? {
      WaitReaps(s, p);
      assert |t.procs| == |s.procs| by { SizeKept(s, e); }
    } else {
      GoLeads(s, p);
      PlainSize(s, t, p);
      if p != s.zero { PassedWent(s, s.procs[p].pc, t.procs[p].pc, p, j); }
    }
  }

  lemma SizeKept(s: Sys, e: Step)
    requires |s.procs| == |s.plk| && Inv(s) && Kin(s) && Apply(s, e).Some?
    ensures |Apply(s, e).value.procs| == |s.procs|
  {
    hide Inv, Kin, Apply;
    StepOthers(s, e);
  }

  lemma SweptOther(s: Sys, t: Sys, e: Step, q: nat)
    requires |s.procs| == |s.plk| && Inv(s) && Kin(s) && Apply(s, e) == Some(t) && q < |s.procs| && q != e.p && Swept(s, q)
    ensures |t.procs| == |s.procs| && Swept(t, q)
  {
    hide Inv, Kin, Apply, Passed, Bears, Reaps;
    PassedOther(s, t, e, q);
    forall j | q != t.zero && 0 <= j < |t.procs| && j < Passed(|t.procs|, t.procs[q].pc) ensures t.procs[j].parent != Some(q) {
      ParentKept(s, e, j);
      if j in Bears(s, t, e.p) { BornTo(s, t, e.p, j); }
    }
  }

  lemma BornTo(s: Sys, t: Sys, p: nat, j: nat)
    requires j < |t.procs| && j in Bears(s, t, p)
    ensures t.procs[j].parent == Some(p)
  {
  }

  lemma SweptMove(s: Sys, t: Sys, p: nat)
    requires |s.procs| == |s.plk| && Inv(s) && Kin(s) && Apply(s, Go(p)) == Some(t) && p < |s.procs| && s.procs[p].pc.ExitMove? && Swept(s, p)
    ensures |t.procs| == |s.procs| && Swept(t, p)
  {
    hide LocksOk, ParentOk, ClearOk, WokeOk, ForkOk, StateOk;
    assert ProcOk(s, p) && KinOk(s, p);
  }

  lemma SweptOwn(s: Sys, t: Sys, e: Step)
    requires |s.procs| == |s.plk| && Inv(s) && Kin(s) && Apply(s, e) == Some(t) && (e.p < |s.procs| ==> Swept(s, e.p))
    ensures |t.procs| == |s.procs| && e.p < |s.procs| && Swept(t, e.p)
  {
    hide Inv, Kin, Apply, Passed, Bears, Reaps;
    Some3(s, e);
    SizeKept(s, e);
    if e.Go? && s.procs[e.p].pc.ExitMove? {
      SweptMove(s, t, e.p);
    } else {
      forall j | e.p != t.zero && 0 <= j < |t.procs| && j < Passed(|t.procs|, t.procs[e.p].pc) ensures t.procs[j].parent != Some(e.p) {
        PassedOwn(s, t, e, j);
        ParentKept(s, e, j);
        if s.procs[j].parent != t.procs[j].parent && j in Bears(s, t, e.p) { BearerAt(s, t, e, j); }
      }
    }
  }

  lemma BearerAt(s: Sys, t: Sys, e: Step, j: nat)
    requires |s.procs| == |s.plk| && Inv(s) && Kin(s) && Apply(s, e) == Some(t) && j < |s.procs| && j in Bears(s, t, e.p) && e.Go?
    requires j < |t.procs| && s.procs[j].parent != t.procs[j].parent && e.p < |t.procs|
    ensures Passed(|t.procs|, t.procs[e.p].pc) == 0
  {
    hide Inv, Kin, Apply, Went, OthersStay;
    Some3(s, e);
    match s.procs[e.p].pc
    case ForkHold(_) => ForkBears(s, e.p);
    case WaitCheck(_) => WaitReaps(s, e.p);
    case ExitMove(_, _) => MoveBarren(s, e.p);
    case _ => GoLeads(s, e.p);
  }

  lemma HomedStep(s: Sys, e: Step)
    requires |s.procs| == |s.plk| && Inv(s) && Kin(s) && Apply(s, e).Some? && Homed(s) && s.zero < |s.procs|
    ensures Homed(Apply(s, e).value)
  {
    hide Inv, Kin, Apply, Swept, Bears, Reaps;
    var t := Apply(s, e).value;
    SweptOwn(s, t, e);
    forall q | 0 <= q < |t.procs| ensures Swept(t, q) {
      if q != e.p { SweptOther(s, t, e, q); }
    }
    forall c | 0 <= c < |t.procs| && t.procs[c].parent.Some? ensures t.procs[c].parent.value < |t.procs| {
      ParentKept(s, e, c);
      if c in Bears(s, t, e.p) { BornTo(s, t, e.p, c); }
    }
  }

  lemma HomedInit(s: Sys)
    requires Init(s) && Housed(s)
    ensures Homed(s)
  {
    forall q | 0 <= q < |s.procs| ensures Swept(s, q) { assert Fresh(s.procs[q]); }
  }

  lemma {:induction false} HomedRun(run: seq<Sys>, steps: seq<Step>, k: nat)
    requires Traced(run, steps) && k <= |steps| && Housed(run[0])
    ensures Homed(run[k])
  {
    hide Init, Inv, Kin, Apply, Homed;
    if k == 0 {
      HomedInit(run[0]);
    } else {
      var j := k - 1;
      HomedRun(run, steps, j);
      TracedInv(run, steps, j);
      ZeroStays(run, steps, j);
      assert Takes(run[j], steps[j], run[j + 1]);
      HomedStep(run[j], steps[j]);
    }
  }

  /** No orphans: if every parent was in use at the start, then at all times nobody's parent, other than
      proczero, is an unused slot or a zombie. */
  lemma NoOrphans(run: seq<Sys>, steps: seq<Step>, k: nat)
    requires Traced(run, steps) && k <= |steps| && Housed(run[0])
    ensures Housed(run[k])
  {
    hide Init, Inv, Apply;
    HomedRun(run, steps, k);
    TracedInv(run, steps, k);
    forall c | 0 <= c < |run[k].procs| && run[k].procs[c].parent.Some? && run[k].procs[c].parent != Some(run[k].zero)
      ensures Living(run[k], run[k].procs[c].parent.value)
    {
      var q := run[k].procs[c].parent.value;
      assert Swept(run[k], q);
      InvState(run[k], q);
    }
  }

  // ----- the first wake-up of proczero

  lemma RouseStep(s: Sys, t: Sys, p: nat)
    requires |s.procs| == |s.plk| && p < |s.procs| && s.procs[p].pc.ExitZeroHold? && Apply(s, Go(p)) == Some(t) && s.zero < |s.procs|
    ensures t.zero < |t.procs| && !AwaitingSelf(t.procs[t.zero])
  {
  }

  predicate BeforeRouse(pc: Pc) { Under(pc) == ExitZero || Under(pc) == ExitZeroHold }

  lemma LeavesRouse(s: Sys, t: Sys, e: Step, p: nat)
    requires |s.procs| == |s.plk| && Inv(s) && Kin(s) && Apply(s, e) == Some(t) && p < |s.procs| && BeforeRouse(s.procs[p].pc)
    requires p < |t.procs| && !BeforeRouse(t.procs[p].pc) && t.procs[p].state != Unused && s.procs[p].state != Unused
    ensures e == Go(p) && s.procs[p].pc.ExitZeroHold?
  {
    hide Inv, Kin, Apply, Plain;
    Some3(s, e);
    if e.p != p {
      StepOthers(s, e);
    } else if e.Begin? {
      BeginPlain(s, e);
    } else if !e.Go? {
      SwitchPlain(s, e);
    } else {
      GoLeads(s, p);
    }
  }

  lemma CallBack(run: seq<Sys>, steps: seq<Step>, n: nat, p: nat)
    requires |run| == |steps| + 1 && n < |steps| && p < |run[n].procs| && p < |run[n + 1].procs| && !(steps[n].Begin? && steps[n].p == p)
    requires CallOf(run, steps, n + 1, p).Some?
    ensures CallOf(run, steps, n, p) == CallOf(run, steps, n + 1, p) && Since(steps, n, p) == Since(steps, n + 1, p)
    ensures run[n].procs[p].state != Unused && run[n + 1].procs[p].state != Unused
  {
  }

  /** An exiting process looks at its parent only after proczero has been out of proc_wait's sleep. */
  lemma {:induction false} ZeroRoused(run: seq<Sys>, steps: seq<Step>, k: nat, p: nat)
    requires Traced(run, steps) && k <= |steps| && p < |run[k].procs|
    requires CallOf(run, steps, k, p) == Some(Exit) && !BeforeRouse(run[k].procs[p].pc)
    ensures exists m :: Since(steps, k, p) <= m <= k && run[m].zero < |run[m].procs| && !AwaitingSelf(run[m].procs[run[m].zero])
  {
    hide Init, Inv, Kin, Apply, CallOf, Since, BeforeRouse, AwaitingSelf;
    if k == 0 {
      assert CallOf(run, steps, k, p) == None by { NoCallYet(run, steps, p); }
    } else {
      var n := k - 1;
      TracedInv(run, steps, n);
      ZeroStays(run, steps, n);
      ZeroStays(run, steps, k);
      assert Takes(run[n], steps[n], run[n + 1]);
      if steps[n].Begin? && steps[n].p == p {
        BeginsBefore(run, steps, n, p);
      } else {
        CallBack(run, steps, n, p);
        if BeforeRouse(run[n].procs[p].pc) {
          LeavesRouse(run[n], run[k], steps[n], p);
          RouseStep(run[n], run[k], p);
          assert Since(steps, k, p) <= k;
        } else {
          ZeroRoused(run, steps, n, p);
        }
      }
    }
  }

  lemma {:induction false} NoCallYet(run: seq<Sys>, steps: seq<Step>, p: nat)
    requires |run| == |steps| + 1
    ensures CallOf(run, steps, 0, p) == None
  {
  }

  lemma BeginsBefore(run: seq<Sys>, steps: seq<Step>, n: nat, p: nat)
    requires |run| == |steps| + 1 && n < |steps| && Takes(run[n], steps[n], run[n + 1]) && Inv(run[n])
    requires steps[n].Begin? && steps[n].p == p && CallOf(run, steps, n + 1, p) == Some(Exit)
    ensures p < |run[n + 1].procs| && BeforeRouse(run[n + 1].procs[p].pc)
  {
    hide Inv, Apply, Fits;
    Some3(run[n], steps[n]);
    BeginPlain(run[n], steps[n]);
  }

  // ----- every process can go on, or is waiting for a lock that is taken, the scheduler or its user

  predicate InRange(n: nat, pc: Pc) {
    match pc
    case WaitFreed(i) => i < n
    case WaitDone(i) => i < n
    case ExitPar(_) => true
    case _ => ExitParent(pc).Some? ==> ExitParent(pc).value < n
  }

  ghost predicate Placed(s: Sys) {
    forall p :: 0 <= p < |s.procs| ==> InRange(|s.procs|, Under(s.procs[p].pc))
  }

  lemma InRangeLeads(s: Sys, a: Pc, b: Pc, p: nat)
    requires p < |s.procs| && Leads(s, a, b, p) && InRange(|s.procs|, a) && !a.ExitMove?
    ensures InRange(|s.procs|, b)
  {
  }

  lemma InRangeBegins(n: nat, call: Call, pc: Pc)
    requires Fits(Some(call), pc) && !Found(pc) && (call.Exit? ==> pc == ExitZero)
    ensures InRange(n, pc)
  {
  }

  lemma InRangeSwitched(n: nat, a: Pc, b: Pc)
    requires Switched(a, b)
    ensures InRange(n, b)
  {
  }

  lemma InRangeMoved(s: Sys, t: Sys, p: nat)
    requires |s.procs| == |s.plk| && p < |s.procs| && s.procs[p].pc.ExitMove? && Apply(s, Go(p)) == Some(t)
    ensures p < |t.procs| && (InRange(|s.procs|, s.procs[p].pc) ==> InRange(|s.procs|, Under(t.procs[p].pc)))
  {
  }

  lemma PlacedOwn(s: Sys, t: Sys, e: Step)
    requires |s.procs| == |s.plk| && Inv(s) && Kin(s) && Apply(s, e) == Some(t)
    requires e.p < |s.procs| == |t.procs| && InRange(|s.procs|, Under(s.procs[e.p].pc))
    ensures InRange(|t.procs|, Under(t.procs[e.p].pc))
  {
    hide Inv, Kin, Apply, Plain, OthersStay, Leads, Fits, InRange, Bears, Reaps;
    var p := e.p;
    if e.Begin? {
      BeginPlain(s, e);
      InRangeBegins(|s.procs|, e.call, Under(t.procs[p].pc));
    } else if !e.Go? {
      SwitchPlain(s, e);
      if Under(t.procs[p].pc) != Under(s.procs[p].pc) { InRangeSwitched(|s.procs|, Under(s.procs[p].pc), Under(t.procs[p].pc)); }
    } else if s.procs[p].pc.ForkHold? {
      ForkBears(s, p);
      assert InRange(|s.procs|, User) by { InRangePlain(|s.procs|, User); }
    } else if s.procs[p].pc.WaitCheck? {
      WaitReaps(s, p);
      InRangeScan(|s.procs|, s.procs[p].pc.i);
    } else if s.procs[p].pc.ExitMove? {
      InRangeMoved(s, t, p);
    } else {
      GoLeads(s, p);
      if !(s.procs[p].pc.YieldMark? || s.procs[p].pc.YieldBack?) { InRangeLeads(s, s.procs[p].pc, t.procs[p].pc, p); }
    }
  }

  lemma InRangePlain(n: nat, pc: Pc)
    requires pc == User || pc == Dead
    ensures InRange(n, pc)
  {
  }

  lemma InRangeScan(n: nat, i: nat)
    ensures InRange(n, WaitScan(i + 1, true)) && (i < n ==> InRange(n, WaitFreed(i)))
  {
  }

  lemma PlacedStep(s: Sys, e: Step)
    requires |s.procs| == |s.plk| && Inv(s) && Kin(s) && Apply(s, e).Some? && Placed(s)
    ensures Placed(Apply(s, e).value)
  {
    hide Inv, Kin, Apply, InRange;
    var t := Apply(s, e).value;
    StepOthers(s, e);
    StepKeeps(s, e);
    forall p | 0 <= p < |t.procs| ensures InRange(|t.procs|, Under(t.procs[p].pc)) {
      assert InRange(|s.procs|, Under(s.procs[p].pc));
      if p == e.p {
        PlacedOwn(s, t, e);
      } else {
        InvState(t, p);
        InRangePlain(|t.procs|, User);
        InRangePlain(|t.procs|, Dead);
      }
    }
  }

  lemma {:induction false} PlacedRun(run: seq<Sys>, steps: seq<Step>, k: nat)
    requires Traced(run, steps) && k <= |steps|
    ensures Placed(run[k])
  {
    hide Inv, Kin, Apply;
    if k == 0 {
      forall p | 0 <= p < |run[0].procs| ensures InRange(|run[0].procs|, Under(run[0].procs[p].pc)) { assert Fresh(run[0].procs[p]); }
    } else {
      var j := k - 1;
      PlacedRun(run, steps, j);
      TracedInv(run, steps, j);
      assert Takes(run[j], steps[j], run[j + 1]);
      PlacedStep(run[j], steps[j]);
    }
  }

  /** The process lock that p is about to take. */
  function Wants(s: Sys, p: nat): Option<nat>
    requires p < |s.procs|
  {
    match s.procs[p].pc
    case WaitTake => Some(p)
    case WaitTry(i) => Some(i)
    case ExitZero => Some(s.zero)
    case ExitOwn => Some(p)
    case ExitPar(par) => Some(par)
    case ExitSelf(_) => Some(p)
    case ExitTry(_, i) => Some(i)
    case _ => None
  }

  predicate Parked(pc: Pc) { pc.Yielding? || pc.Napping? || pc.WaitPark? || pc.ZombiePark? }

  predicate SwitchedOut(pc: Pc) { pc.Yielded? || pc.Napped? || pc.WaitAsleep? }

  /** Nothing is stuck for good but what the code leaves stuck: a process has a step unless it wants a lock
      that is taken, is in the scheduler's hands, is in its user's hands or at its end, stands behind the lock
      that proc_wait has leaked, or has no parent to look at. */
  lemma NothingStuck(run: seq<Sys>, steps: seq<Step>, k: nat, p: nat)
    requires Traced(run, steps) && k <= |steps| && p < |run[k].procs| && |run[k].plk| == |run[k].procs|
    ensures var s, pc := run[k], run[k].procs[p].pc;
            Apply(s, Go(p)).None? <==>
              || pc == User || pc == Dead || pc == WaitLeak || Parked(pc) || SwitchedOut(pc)
              || (Wants(s, p).Some? && (Wants(s, p).value >= |s.plk| || s.plk[Wants(s, p).value] != Free))
              || (pc.ExitRead? && s.procs[p].parent == None)
    ensures Apply(run[k], Go(p)).Some? ==>
              p < |Apply(run[k], Go(p)).value.procs| && Apply(run[k], Go(p)).value.procs[p].pc != run[k].procs[p].pc
    ensures Parked(run[k].procs[p].pc) ==> Apply(run[k], SwitchOut(p)).Some?
    ensures SwitchedOut(run[k].procs[p].pc) && run[k].procs[p].state == Runnable && run[k].plk[p] == Hart ==> Apply(run[k], Dispatch(p)).Some?
    ensures run[k].plk[p] == Free ==> Apply(run[k], HartTake(p)).Some?
  {
    TracedInv(run, steps, k);
    PlacedRun(run, steps, k);
    ZeroStays(run, steps, k);
    GoStuck(run[k], p);
    if Apply(run[k], Go(p)).Some? { GoMoves(run[k], p); }
  }

  lemma GoMoves(s: Sys, p: nat)
    requires Inv(s) && p < |s.procs| == |s.plk| && Apply(s, Go(p)).Some?
    ensures p < |Apply(s, Go(p)).value.procs| && Apply(s, Go(p)).value.procs[p].pc != s.procs[p].pc
  {
    hide LocksOk, ParentOk, ClearOk, WokeOk;
    assert ProcOk(s, p);
  }

  lemma GoStuck(s: Sys, p: nat)
    requires Inv(s) && Kin(s) && Placed(s) && p < |s.procs| == |s.plk| && s.zero < |s.procs|
    ensures var pc := s.procs[p].pc;
            Apply(s, Go(p)).None? <==>
              || pc == User || pc == Dead || pc == WaitLeak || Parked(pc) || SwitchedOut(pc)
              || (Wants(s, p).Some? && (Wants(s, p).value >= |s.plk| || s.plk[Wants(s, p).value] != Free))
              || (pc.ExitRead? && s.procs[p].parent == None)
  {
    hide LocksOk, ParentOk, ClearOk, WokeOk;
    assert ProcOk(s, p) && KinOk(s, p) && InRange(|s.procs|, Under(s.procs[p].pc));
  }

  /** From user code a process can begin a wait at any time, an exit unless it is proczero, a fork on any
      unused slot whose lock is free, and a sleep when its own lock is free. */
  lemma BeginsIff(s: Sys, p: nat, call: Call)
    requires |s.procs| == |s.plk|
    ensures Apply(s, Begin(p, call)).Some? <==>
              && p < |s.procs| && s.procs[p].pc == User
              && match call
                 case Wait => true
                 case Exit => p != s.zero
                 case Fork(c) => c != p && c < |s.procs| && s.procs[c].state == Unused && s.plk[c] == Free
                 case Nap => s.plk[p] == Free
  {
  }

  // ----- sleep_space

  /** A process has a sleep_space exactly from where it marks itself asleep to where it is back. */
  predicate SpaceOk(me: Process) {
    match me.pc
    case Napping => me.chan == Elsewhere
    case Napped => me.chan == Elsewhere
    case NapBack => me.chan == Elsewhere
    case WaitPark => me.chan == OnSelf
    case WaitAsleep => me.chan == OnSelf
    case WaitBack => me.chan == OnSelf
    case _ => me.chan == NoChan
  }

  lemma SpaceGo(s: Sys, p: nat, q: nat)
    requires p < |s.procs| && q < |s.procs| && GoStep(s, p).Some? && SpaceOk(s.procs[q]) && SpaceOk(s.procs[p])
    requires StateOk(s.procs[p])
    ensures var t := GoStep(s, p).value; |t.procs| == |s.procs| && SpaceOk(t.procs[q])
  {
    hide GoStep, SpaceOk, StateOk, Exiting;
    if q != p {
      if Exiting(s.procs[p].pc) { SpaceByExit(s, p, q); } else { SpaceByOther(s, p, q); }
    } else if Exiting(s.procs[p].pc) {
      SpaceExit(s, p);
    } else {
      SpaceOwn(s, p);
    }
  }

  lemma SpaceByExit(s: Sys, p: nat, q: nat)
    requires p < |s.procs| && q < |s.procs| && q != p && GoStep(s, p).Some? && SpaceOk(s.procs[q]) && Exiting(s.procs[p].pc)
    ensures var t := GoStep(s, p).value; |t.procs| == |s.procs| && SpaceOk(t.procs[q])
  {
    hide SpaceOk;
    var t := GoStep(s, p).value;
    assert t.procs[q].pc == s.procs[q].pc && t.procs[q].chan == s.procs[q].chan;
    SameSpace(s.procs[q], t.procs[q]);
  }

  lemma SameSpace(a: Process, b: Process)
    requires SpaceOk(a) && a.pc == b.pc && a.chan == b.chan
    ensures SpaceOk(b)
  {
  }

  lemma SpaceByOther(s: Sys, p: nat, q: nat)
    requires p < |s.procs| && q < |s.procs| && q != p && GoStep(s, p).Some? && SpaceOk(s.procs[q]) && !Exiting(s.procs[p].pc)
    ensures var t := GoStep(s, p).value; |t.procs| == |s.procs| && SpaceOk(t.procs[q])
  {
    hide SpaceOk;
    var t := GoStep(s, p).value;
    if t.procs[q] == s.procs[q] {
    } else {
      assert t.procs[q] == Process(Runnable, Some(p), NoChan, Yielded(User)) || t.procs[q] == Process(Unused, None, NoChan, Dead);
      assert SpaceOk(t.procs[q]) by { NoSpace(t.procs[q]); }
    }
  }

  lemma NoSpace(me: Process)
    requires me.chan == NoChan && (me.pc == Yielded(User) || me.pc == Dead)
    ensures SpaceOk(me)
  {
  }

  lemma SpaceExit(s: Sys, p: nat)
    requires p < |s.procs| && GoStep(s, p).Some? && SpaceOk(s.procs[p]) && Exiting(s.procs[p].pc)
    ensures var t := GoStep(s, p).value; |t.procs| == |s.procs| && SpaceOk(t.procs[p])
  {
  }

  lemma SpaceOwn(s: Sys, p: nat)
    requires p < |s.procs| && GoStep(s, p).Some? && SpaceOk(s.procs[p]) && StateOk(s.procs[p]) && !Exiting(s.procs[p].pc)
    ensures var t := GoStep(s, p).value; |t.procs| == |s.procs| && SpaceOk(t.procs[p])
  {
  }

  lemma SpaceRest(s: Sys, e: Step, q: nat)
    requires |s.procs| == |s.plk| && q < |s.procs| && Apply(s, e).Some? && !e.Go? && SpaceOk(s.procs[q])
    ensures var t := Apply(s, e).value; |t.procs| == |s.procs| && SpaceOk(t.procs[q])
  {
    hide GoStep;
  }

  /** In every reachable state sleep_space names what a process sleeps on while it sleeps, is still there
      until the process runs again, and is empty at all other times. */
  lemma {:induction false} SpaceRun(run: seq<Sys>, steps: seq<Step>, k: nat, q: nat)
    requires Traced(run, steps) && k <= |steps| && q < |run[k].procs|
    ensures SpaceOk(run[k].procs[q])
    decreases k
  {
    hide Inv, Kin, Apply, SpaceOk;
    if k == 0 {
      assert SpaceOk(run[0].procs[q]) by { SpaceStart(run[0], q); }
    } else {
      var j := k - 1;
      var s, e := run[j], steps[j];
      TracedInv(run, steps, j);
      assert Takes(s, e, run[k]);
      SizeKept(s, e);
      SpaceRun(run, steps, j, q);
      if e.Go? {
        Some3(s, e);
        SpaceRun(run, steps, j, e.p);
        InvState(s, e.p);
        GoIs(s, e.p);
        SpaceGo(s, e.p, q);
      } else {
        SpaceRest(s, e, q);
      }
    }
  }

  lemma GoIs(s: Sys, p: nat)
    requires |s.procs| == |s.plk| && p < |s.procs|
    ensures Apply(s, Go(p)) == GoStep(s, p)
  {
    hide GoStep;
  }

  lemma SpaceStart(s: Sys, q: nat)
    requires Init(s) && q < |s.procs|
    ensures SpaceOk(s.procs[q])
  {
    assert Fresh(s.procs[q]);
  }

  /** The scheduler takes a free lock and can give it back as if nothing had happened; holding it, it runs a
      ready process that was switched out, which then holds its own lock. */
  lemma SchedulerServes(s: Sys, p: nat)
    requires |s.procs| == |s.plk| && p < |s.procs| && s.plk[p] == Free
    ensures Apply(s, HartTake(p)).Some?
    ensures var a := Apply(s, HartTake(p)).value;
            && |a.procs| == |a.plk| && Apply(a, HartDrop(p)) == Some(s)
            && (SwitchedOut(s.procs[p].pc) && s.procs[p].state == Runnable ==>
                  Apply(a, Dispatch(p)).Some? && var b := Apply(a, Dispatch(p)).value;
                    b.procs == s.procs[p := b.procs[p]] && b.procs[p].state == Running && b.plk == s.plk[p := Proc(p)])
  {
    assert s.plk[p := Hart][p := Free] == s.plk;
    assert s.plk[p := Hart][p := Proc(p)] == s.plk[p := Proc(p)];
  }

  /** Sleepers on anything but themselves, and only they, are woken by proc_wakeup calls for other addresses. */
  lemma OthersWake(s: Sys, p: nat)
    requires |s.procs| == |s.plk| && p < |s.procs|
    ensures Apply(s, WakeNap(p)).Some? <==> s.plk[p] == Free && s.procs[p].state == Sleeping && s.procs[p].chan == Elsewhere
    ensures Apply(s, WakeNap(p)).Some? ==>
              var t := Apply(s, WakeNap(p)).value;
              t.plk == s.plk && t.procs[..p] == s.procs[..p] && t.procs[p..] == [s.procs[p].(state := Runnable)] + s.procs[p + 1..]
  {
  }
}
