/** The highest-response-ratio-next scheduler of kernel/proc/proc.c: the accounting, the scan that
    hands a lock along, and why nobody starves. All times are uint64. */
module Scheduler {
  import opened Base

  datatype State = Unused | Runnable | Running | Sleeping | Zombie

  datatype Slot = Slot(state: State, beginRunnable: nat, beginRunning: nat, wait: nat, exec: nat)

  function Add64(x: int, y: int): nat { (x + y) % U64 }

  /** get_weight: UINT64_MAX for a process that has never been charged. */
  function Weight(p: Slot): nat {
    if p.exec == 0 then U64 - 1 else Add64(p.exec, p.wait) * 256 % U64 / p.exec
  }

  /** What the scan does to one slot before weighing it. */
  function Charged(p: Slot, ticks: nat): Slot {
    if p.state != Runnable then p
    else p.(wait := Add64(p.wait, ticks - p.beginRunnable), beginRunnable := ticks)
  }

  function ChargedAll(ps: seq<Slot>, ticks: nat): (r: seq<Slot>)
    ensures |r| == |ps| && forall i :: 0 <= i < |ps| ==> r[i] == Charged(ps[i], ticks)
  {
    seq(|ps|, i requires 0 <= i < |ps| => Charged(ps[i], ticks))
  }

  /** The lowest-index runnable slot of maximal weight. */
  ghost predicate IsBest(ps: seq<Slot>, k: int) {
    && 0 <= k < |ps| && ps[k].state == Runnable
    && (forall i :: 0 <= i < |ps| && ps[i].state == Runnable ==> Weight(ps[i]) <= Weight(ps[k]))
    && (forall i :: 0 <= i < k && ps[i].state == Runnable ==> Weight(ps[i]) < Weight(ps[k]))
  }

  ghost predicate SomeRunnable(ps: seq<Slot>) {
    exists i :: 0 <= i < |ps| && ps[i].state == Runnable
  }

  /** Below 2^56 the shift cannot overflow, and every ratio is at least one, that is 256. */
  lemma WeightFloor(p: Slot)
    requires p.exec + p.wait < U64 / 256
    ensures p.exec > 0 ==> Weight(p) == (p.exec + p.wait) * 256 / p.exec < U64 - 1
    ensures p.exec == 0 ==> Weight(p) == 0xFFFF_FFFF_FFFF_FFFF
    ensures Weight(p) >= 256
  {
    if p.exec > 0 {
      hide Weight;
      var n := (p.exec + p.wait) * 256;
      assert Weight(p) == n / p.exec by { NoWrap(p); }
      DivBounds(n, p.exec, 256);
    }
  }

  lemma NoWrap(p: Slot)
    requires 0 < p.exec && p.exec + p.wait < U64 / 256
    ensures Weight(p) == (p.exec + p.wait) * 256 / p.exec
  {
    assert Add64(p.exec, p.wait) == p.exec + p.wait;
    assert (p.exec + p.wait) * 256 % U64 == (p.exec + p.wait) * 256;
  }

  lemma DivBounds(n: nat, d: nat, q: nat)
    requires d > 0 && n >= q * d
    ensures q <= n / d <= n
  {
    var k := n / d;
    assert n == k * d + n % d;
    MulMono(k, 1, d);
    if k < q { MulMono(d, k + 1, q); }
  }

  /** The ratio's wrapped-around numerator is below the charged time. */
  predicate Vanishes(p: Slot) {
    p.exec > 0 && 256 * ((p.exec + p.wait) % (U64 / 256)) < p.exec
  }

  /** Without the bound of WeightFloor a weight is 0 exactly when that happens: the shift keeps only
      the sum modulo 2^56. */
  lemma WeightZeroIff(p: Slot)
    ensures Weight(p) == 0 <==> Vanishes(p)
  {
    if p.exec > 0 {
      var n := Add64(p.exec, p.wait) * 256 % U64;
      ShiftWraps(p.exec + p.wait);
      QuotientZero(n, p.exec);
    }
  }

  lemma ShiftWraps(sum: nat)
    ensures sum % U64 * 256 % U64 == 256 * (sum % (U64 / 256))
  {
    var q, r := sum / 0x100_0000_0000_0000, sum % 0x100_0000_0000_0000;
    var u, v := q / 256, q % 256;
    assert sum == u * U64 + (v * 0x100_0000_0000_0000 + r);
    Remainder(sum, u, v * 0x100_0000_0000_0000 + r);
    Remainder(sum % U64 * 256, v, r * 256);
  }

  lemma Remainder(x: nat, u: nat, k: nat)
    requires x == u * U64 + k && k < U64
    ensures x % U64 == k
  {
  }

  lemma QuotientZero(n: nat, d: nat)
    requires d > 0
    ensures n / d == 0 <==> n < d
  {
    QuotientBounds(n, d);
    if n >= d { DivBounds(n, d, 1); }
  }

  /** The process table and the locks this hart holds during its scan. */
  class Table {
    const procs: array<Slot>
    const held: array<bool>

    ghost predicate Valid() reads this {
      procs.Length == held.Length
    }

    constructor (n: nat)
      ensures Valid() && procs.Length == n && fresh(procs) && fresh(held)
      ensures forall i :: 0 <= i < n ==> procs[i] == Slot(Unused, 0, 0, 0, 0) && !held[i]
    {
      procs := new Slot[n](_ => Slot(Unused, 0, 0, 0, 0));
      held := new bool[n](_ => false);
    }

    /** One pass of proc_scheduler's for loop. `next` is -1 for NULL. It ends holding the lock of
        the chosen slot and no other; nothing is chosen only if every weight is zero. */
    method Scan(ticks: nat) returns (found: bool, next: int)
      requires Valid() && forall i :: 0 <= i < held.Length ==> !held[i]
      modifies procs, held
      ensures procs[..] == ChargedAll(old(procs[..]), ticks)
      ensures found <==> SomeRunnable(procs[..])
      ensures -1 <= next < procs.Length
      ensures forall i :: 0 <= i < held.Length ==> (held[i] <==> i == next)
      ensures next >= 0 ==> IsBest(procs[..], next) && Weight(procs[next]) > 0
      ensures next == -1 <==> forall i :: 0 <= i < procs.Length && procs[i].state == Runnable ==> Weight(procs[i]) == 0
    {
      found, next := false, -1;
      var maxWeight := 0;
      for idx := 0 to procs.Length
        invariant -1 <= next < idx
        invariant forall i :: 0 <= i < procs.Length ==> procs[i] == if i < idx then Charged(old(procs[i]), ticks) else old(procs[i])
        invariant forall i :: 0 <= i < held.Length ==> (held[i] <==> i == next)
        invariant found <==> exists i :: 0 <= i < idx && procs[i].state == Runnable
        invariant maxWeight == if next == -1 then 0 else Weight(procs[next])
        invariant next >= 0 ==> procs[next].state == Runnable && maxWeight > 0
        invariant forall i :: 0 <= i < idx && procs[i].state == Runnable ==> Weight(procs[i]) <= maxWeight
        invariant forall i :: 0 <= i < next && procs[i].state == Runnable ==> Weight(procs[i]) < maxWeight
      {
        held[idx] := true;
        if procs[idx].state == Runnable {
          procs[idx] := procs[idx].(wait := Add64(procs[idx].wait, ticks - procs[idx].beginRunnable), beginRunnable := ticks);
          if maxWeight < Weight(procs[idx]) {
            if next != -1 { held[next] := false; }
            maxWeight := Weight(procs[idx]);
            next := idx;
          }
          found := true;
        }
        if next != idx { held[idx] := false; }
      }
    }
  }

  /** `found` without a choice, on which the kernel dereferences NULL, happens exactly when something
      is runnable and every runnable weight vanishes. `next` and `found` are what Scan returns. */
  lemma NullChoiceIff(ps: seq<Slot>, found: bool, next: int)
    requires found <==> SomeRunnable(ps)
    requires next == -1 <==> forall i :: 0 <= i < |ps| && ps[i].state == Runnable ==> Weight(ps[i]) == 0
    ensures found && next == -1 <==>
            SomeRunnable(ps) && forall i :: 0 <= i < |ps| && ps[i].state == Runnable ==> Vanishes(ps[i])
  {
    forall i | 0 <= i < |ps| ensures Weight(ps[i]) == 0 <==> Vanishes(ps[i]) { WeightZeroIff(ps[i]); }
  }

  /** It cannot happen while some runnable slot's charged and waiting time stay below 2^56. */
  lemma FoundMeansChosen(ps: seq<Slot>, next: int, k: nat)
    requires k < |ps| && ps[k].state == Runnable && ps[k].exec + ps[k].wait < U64 / 256
    requires next == -1 <==> forall i :: 0 <= i < |ps| && ps[i].state == Runnable ==> Weight(ps[i]) == 0
    ensures next != -1
  {
    WeightFloor(ps[k]);
  }

  /** A table on which it does: one slot that has run for a tick and waited 2^56 - 1. */
  method NullChoice() returns (found: bool, next: int)
    ensures found && next == -1
  {
    var table := new Table(1);
    table.procs[0] := Slot(Runnable, 0, 0, U64 / 256 - 1, 1);
    ghost var ps := ChargedAll(table.procs[..], 0);
    assert ps[0] == Slot(Runnable, 0, 0, U64 / 256 - 1, 1);
    WeightZeroIff(ps[0]);
    found, next := table.Scan(0);
    assert table.procs[0] == ps[0];
  }

  // ----- whole runs on one hart

  function Started(p: Slot, ticks: nat): Slot { p.(state := Running, beginRunning := ticks) }

  /** proc_yield, from the timer interrupt. */
  function Yielded(p: Slot, ticks: nat): Slot {
    p.(state := Runnable, exec := Add64(p.exec, ticks - p.beginRunning), beginRunnable := ticks)
  }

  /** The scheduler after the switch back: the same stretch is charged a second time. */
  function Settled(p: Slot, ticks: nat): Slot {
    p.(exec := Add64(p.exec, ticks - p.beginRunning), beginRunnable := ticks)
  }

  /** One dispatch: the table and tick at its scan, the slot picked, the tick at which it yields. */
  datatype Round = Round(ps: seq<Slot>, now: nat, pick: nat, back: nat)

  function AfterRound(r: Round): seq<Slot>
    requires r.pick < |r.ps|
  {
    var cs := ChargedAll(r.ps, r.now);
    cs[r.pick := Settled(Yielded(Started(cs[r.pick], r.now), r.back), r.back)]
  }

  /** Waiting time is never more than the tick at which it was last brought up to date. */
  ghost predicate Sane(ps: seq<Slot>, now: nat) {
    forall i :: 0 <= i < |ps| && ps[i].state == Runnable ==> ps[i].wait <= ps[i].beginRunnable <= now
  }

  ghost predicate NoOverflow(ps: seq<Slot>) {
    forall i :: 0 <= i < |ps| ==> ps[i].exec + ps[i].wait < U64 / 256
  }

  ghost predicate RoundOk(r: Round) {
    && IsBest(ChargedAll(r.ps, r.now), r.pick)
    && r.now < r.back < U64
    && NoOverflow(r.ps) && NoOverflow(ChargedAll(r.ps, r.now)) && NoOverflow(AfterRound(r))
    && ChargedAll(r.ps, r.now)[r.pick].exec + 2 * (r.back - r.now) < U64
  }

  /** Consecutive dispatches; the next scan is at or after the tick that ended the last one. */
  ghost predicate IsRun(run: seq<Round>) {
    && (forall j :: 0 <= j < |run| ==> RoundOk(run[j]))
    && (forall j :: 0 <= j < |run| - 1 ==> run[j + 1].ps == AfterRound(run[j]) && run[j].back <= run[j + 1].now)
    && (|run| > 0 ==> Sane(run[0].ps, run[0].now))
  }

  /** What a round that does not pick p does to p and to the picked slot. */
  lemma RoundFacts(r: Round, p: nat)
    requires RoundOk(r) && Sane(r.ps, r.now) && p < |r.ps| && r.ps[p].state == Runnable && r.pick != p
    ensures var qs := AfterRound(r);
            && |qs| == |r.ps| && Sane(qs, r.back)
            && (forall i :: 0 <= i < |qs| ==> qs[i].state == r.ps[i].state)
            && (forall i :: 0 <= i < |qs| && i != r.pick ==> qs[i].exec == r.ps[i].exec)
            && qs[r.pick].exec == r.ps[r.pick].exec + 2 * (r.back - r.now)
            && qs[p].wait == r.ps[p].wait + (r.now - r.ps[p].beginRunnable)
            && qs[p].beginRunnable == r.now
  {
    var cs := ChargedAll(r.ps, r.now);
    forall i | 0 <= i < |r.ps| && r.ps[i].state == Runnable
      ensures cs[i].wait == r.ps[i].wait + (r.now - r.ps[i].beginRunnable) <= r.now == cs[i].beginRunnable
    {
      ChargedExact(r.ps[i], r.now);
    }
    RanTwice(cs[r.pick], r.now, r.back);
  }

  lemma ChargedExact(p: Slot, now: nat)
    requires p.state == Runnable && p.wait <= p.beginRunnable <= now < U64
    ensures Charged(p, now).wait == p.wait + (now - p.beginRunnable) <= now
  {
  }

  /** The double charge: a dispatch of n ticks adds 2n to the execution time. */
  lemma RanTwice(c: Slot, now: nat, back: nat)
    requires c.state == Runnable && now < back && c.exec + 2 * (back - now) < U64
    ensures var d := Settled(Yielded(Started(c, now), back), back);
            d == c.(exec := c.exec + 2 * (back - now), beginRunnable := back, beginRunning := now)
  {
  }

  /** If q's ratio still beats p's after p has waited for d, with d at least the tick the wait began
      at and p's own charged time, then q has been charged at most three times as much as p. */
  lemma BeatenBy(q: Slot, p: Slot, d: nat)
    requires q.exec + q.wait < U64 / 256 && p.exec + p.wait < U64 / 256
    requires Weight(q) >= Weight(p)
    requires q.wait <= 2 * d && d <= p.wait && p.exec <= d
    ensures q.exec <= 3 * p.exec
  {
    WeightFloor(q);
    WeightFloor(p);
    if q.exec > 3 * p.exec && p.exec > 0 {
      RatioGap(q.exec, q.wait, p.exec, p.wait, d, Weight(q), Weight(p));
    }
  }

  lemma RatioGap(eq: nat, wq: nat, ep: nat, wp: nat, d: nat, a: nat, b: nat)
    requires 0 < ep && 3 * ep < eq && wq <= 2 * d && d <= wp && ep <= d
    requires a == (eq + wq) * 256 / eq && b == (ep + wp) * 256 / ep
    ensures a < b
  {
    QuotientBounds((ep + wp) * 256, ep);
    QuotientBounds((eq + wq) * 256, eq);
    ExcessGap(eq, wq, ep, wp, d, a, b);
  }

  lemma QuotientBounds(n: nat, d: nat)
    requires d > 0
    ensures (n / d) * d <= n < (n / d) * d + d
  {
    assert n == (n / d) * d + n % d;
  }

  lemma ExcessGap(eq: nat, wq: nat, ep: nat, wp: nat, d: nat, a: nat, b: nat)
    requires 0 < ep && 3 * ep < eq && wq <= 2 * d && d <= wp && ep <= d
    requires a * eq <= (eq + wq) * 256 && (ep + wp) * 256 < b * ep + ep
    ensures a < b
  {
    var x := b - 256;
    Distribute(b, 256, ep);
    Distribute(b, 256, eq);
    if x <= 0 { NegMul(x, ep); }
    MulMono(x, 3 * ep, eq);
    Triple(x, ep);
    if a >= b { MulMono(eq, b, a); }
  }

  lemma Distribute(b: int, c: int, e: int)
    ensures (b - c) * e == b * e - c * e
  {
  }

  lemma Triple(x: int, e: int)
    ensures x * (3 * e) == 3 * (x * e)
  {
  }

  lemma NegMul(x: int, y: nat)
    requires x <= 0
    ensures x * y <= 0
  {
  }

  lemma MulMono(x: nat, y: nat, z: nat)
    requires y <= z
    ensures x * y <= x * z
  {
  }

  /** How many more times each other slot can be picked before its charge exceeds 3e. */
  function Budget(ps: seq<Slot>, p: nat, e: nat): nat
  {
    if ps == [] then 0
    else Budget(ps[..|ps| - 1], p, e) + Credit(ps[|ps| - 1].exec, |ps| - 1 == p, e)
  }

  function Credit(exec: nat, self: bool, e: nat): nat {
    if self || exec > 3 * e then 0 else (3 * e - exec) / 2 + 1
  }

  /** The most a slot can cost: one more than half of 3e. */
  function Cap(e: nat): nat { 3 * e / 2 + 1 }

  lemma {:induction false} BudgetBound(ps: seq<Slot>, p: nat, e: nat)
    ensures Budget(ps, p, e) <= (if p < |ps| then |ps| - 1 else |ps|) * Cap(e)
  {
    if ps != [] {
      BudgetBound(ps[..|ps| - 1], p, e);
      assert Credit(ps[|ps| - 1].exec, |ps| - 1 == p, e) <= Cap(e);
      hide Cap, Credit;
      Distribute(|ps|, 1, Cap(e));
      Distribute(|ps| - 1, 1, Cap(e));
    }
  }

  lemma {:induction false} BudgetDrops(ps: seq<Slot>, qs: seq<Slot>, p: nat, e: nat, k: nat)
    requires |qs| == |ps| && k < |ps| && k != p
    requires forall i :: 0 <= i < |ps| && i != k ==> qs[i].exec == ps[i].exec
    requires ps[k].exec <= 3 * e && qs[k].exec >= ps[k].exec + 2
    ensures Budget(qs, p, e) < Budget(ps, p, e)
  {
    var n := |ps| - 1;
    if k == n {
      BudgetSame(ps[..n], qs[..n], p, e);
    } else {
      BudgetDrops(ps[..n], qs[..n], p, e, k);
    }
  }

  lemma {:induction false} BudgetSame(ps: seq<Slot>, qs: seq<Slot>, p: nat, e: nat)
    requires |qs| == |ps| && forall i :: 0 <= i < |ps| ==> qs[i].exec == ps[i].exec
    ensures Budget(qs, p, e) == Budget(ps, p, e)
  {
    if ps != [] { BudgetSame(ps[..|ps| - 1], qs[..|qs| - 1], p, e); }
  }

  /** What is true of p at round j of a run that has not picked it. */
  ghost predicate Waiting(run: seq<Round>, p: nat, j: nat)
    requires |run| > 0 && p < |run[0].ps| && j < |run|
  {
    var r, r0 := run[j], run[0];
    && |r.ps| == |r0.ps| && r.ps[p].state == Runnable && Sane(r.ps, r.now)
    && r.ps[p].exec == r0.ps[p].exec
    && r.now >= r0.now + j
    && r.ps[p].wait + (r.now - r.ps[p].beginRunnable) >= r.now - r0.now
  }

  lemma {:induction false} StillWaiting(run: seq<Round>, p: nat, j: nat)
    requires IsRun(run) && j < |run| && p < |run[0].ps| && run[0].ps[p].state == Runnable
    requires forall i :: 0 <= i < |run| ==> run[i].pick != p
    ensures Waiting(run, p, j)
  {
    if j > 0 {
      var i := j - 1;
      StillWaiting(run, p, i);
      assert RoundOk(run[i]) && run[i].pick != p && run[i + 1].ps == AfterRound(run[i]) && run[i].back <= run[i + 1].now;
      RoundFacts(run[i], p);
    }
  }

  /** Once the wait is long enough, every further dispatch of someone else uses up budget. */
  lemma {:induction false} BudgetLeft(run: seq<Round>, p: nat, j: nat, k0: nat)
    requires IsRun(run) && j < |run| && p < |run[0].ps| && run[0].ps[p].state == Runnable
    requires forall i :: 0 <= i < |run| ==> run[i].pick != p
    requires run[0].now <= k0 && run[0].ps[p].exec <= k0 <= j
    ensures |run| - j <= Budget(run[j].ps, p, run[0].ps[p].exec)
    decreases |run| - j
  {
    var e := run[0].ps[p].exec;
    var r := run[j];
    StillWaiting(run, p, j);
    assert RoundOk(r) && r.pick != p;
    RoundFacts(r, p);
    var cs := ChargedAll(r.ps, r.now);
    assert cs[p].state == Runnable && cs[r.pick].state == Runnable;
    ChargedExact(r.ps[p], r.now);
    ChargedExact(r.ps[r.pick], r.now);
    BeatenBy(cs[r.pick], cs[p], r.now - run[0].now);
    BudgetDrops(r.ps, AfterRound(r), p, e, r.pick);
    if j + 1 < |run| {
      assert run[j + 1].ps == AfterRound(run[j]);
      BudgetLeft(run, p, j + 1, k0);
    }
  }

  /** Dispatches of others a runnable process may have to wait out: a function of the current tick,
      its own charged time and the size of the table. */
  function StarveBound(n: nat, now: nat, exec: nat): nat {
    LongEnough(now, exec) + n * Cap(exec)
  }

  /** The wait after which BeatenBy applies. */
  function LongEnough(now: nat, exec: nat): nat { if now <= exec then exec else now }

  /** In a run of more dispatches than that, the process is picked. */
  lemma NoStarvation(run: seq<Round>, p: nat)
    requires IsRun(run) && |run| > 0 && p < |run[0].ps| && run[0].ps[p].state == Runnable
    requires |run| > StarveBound(|run[0].ps| - 1, run[0].now, run[0].ps[p].exec)
    ensures exists j :: 0 <= j < |run| && run[j].pick == p
  {
    if forall j :: 0 <= j < |run| ==> run[j].pick != p {
      NeverPicked(run, p);
    }
  }

  lemma NeverPicked(run: seq<Round>, p: nat)
    requires IsRun(run) && |run| > 0 && p < |run[0].ps| && run[0].ps[p].state == Runnable
    requires forall j :: 0 <= j < |run| ==> run[j].pick != p
    ensures |run| <= StarveBound(|run[0].ps| - 1, run[0].now, run[0].ps[p].exec)
  {
    var now, e, n := run[0].now, run[0].ps[p].exec, |run[0].ps| - 1;
    var k0 := LongEnough(now, e);
    MulMono(n, 0, Cap(e));
    if k0 < |run| {
      BudgetLeft(run, p, k0, k0);
      StillWaiting(run, p, k0);
      BudgetBound(run[k0].ps, p, e);
      assert |run| - k0 <= n * Cap(e);
    }
  }
}
