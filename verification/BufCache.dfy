/** The block buffer cache of kernel/fs/buf.c: 64 buffers on one circular doubly linked list that is
    kept in least-recently-released order, in front of a disk. */
module BufCache {
  import opened Base

  const N_BUF: nat := 64
  const HEAD: nat := 64                 // the list's own node, head_buf
  const NULL: nat := 65
  const UNUSED: nat := 0xFFFF_FFFF      // BLOCK_NUM_UNUSED

  type Data = seq<byte>

  datatype Link = Link(next: nat, prev: nat)

  /** A buffer: the block it caches, its references, its contents, and who holds its sleep lock. */
  datatype Buf = Buf(block: nat, ref: nat, data: Data, holder: Option<nat>)

  // ----- the circular list

  /** The node at position k; the list's own node lies before the first and after the last. */
  function At(c: seq<nat>, k: int): nat { if 0 <= k < |c| then c[k] else HEAD }

  /** The nodes at positions k - 1 and k point at each other. */
  ghost predicate Joined(ls: seq<Link>, c: seq<nat>, k: int) {
    && At(c, k - 1) < |ls| && At(c, k) < |ls|
    && ls[At(c, k - 1)].next == At(c, k) && ls[At(c, k)].prev == At(c, k - 1)
  }

  ghost predicate Circle(ls: seq<Link>, c: seq<nat>) {
    && |ls| == N_BUF + 1 && NoDup(c) && (forall k :: 0 <= k < |c| ==> c[k] < N_BUF)
    && forall k: nat :: k <= |c| ==> Joined(ls, c, k)
  }

  function SetNext(ls: seq<Link>, n: nat, v: nat): seq<Link> {
    if n < |ls| then ls[n := ls[n].(next := v)] else ls
  }

  function SetPrev(ls: seq<Link>, n: nat, v: nat): seq<Link> {
    if n < |ls| then ls[n := ls[n].(prev := v)] else ls
  }

  /** The first two assignments of insert_head. */
  function Detached(ls: seq<Link>, n: nat): seq<Link>
    requires n < |ls|
  {
    var ms := SetPrev(ls, ls[n].next, ls[n].prev);
    SetNext(ms, ms[n].prev, ms[n].next)
  }

  /** The four assignments that put n first, or last. */
  function First(ls: seq<Link>, n: nat): seq<Link>
    requires |ls| == N_BUF + 1 && n < N_BUF
  {
    var ms := ls[n := Link(ls[HEAD].next, HEAD)];
    SetNext(SetPrev(ms, ms[HEAD].next, n), HEAD, n)
  }

  function Last(ls: seq<Link>, n: nat): seq<Link>
    requires |ls| == N_BUF + 1 && n < N_BUF
  {
    var ms := ls[n := Link(HEAD, ls[HEAD].prev)];
    SetPrev(SetNext(ms, ms[HEAD].prev, n), HEAD, n)
  }

  lemma EmptyCircle(ls: seq<Link>)
    requires |ls| == N_BUF + 1 && ls[HEAD] == Link(HEAD, HEAD)
    ensures Circle(ls, [])
  {
    assert Joined(ls, [], 0);
  }

  lemma InRange(ls: seq<Link>, c: seq<nat>)
    requires Circle(ls, c)
    ensures ls[HEAD].next < |ls| && ls[HEAD].prev < |ls|
    ensures forall k :: 0 <= k < |c| ==> ls[c[k]].next < |ls| && ls[c[k]].prev < |ls|
  {
    assert Joined(ls, c, 0) && Joined(ls, c, |c|);
    forall k | 0 <= k < |c| ensures ls[c[k]].next < |ls| && ls[c[k]].prev < |ls| {
      assert Joined(ls, c, k) && Joined(ls, c, k + 1);
    }
  }

  lemma DetachKeeps(ls: seq<Link>, c: seq<nat>, k: nat)
    requires Circle(ls, c) && k < |c|
    ensures Circle(Detached(ls, c[k]), Without(c, k)) && c[k] !in Without(c, k)
  {
    var ms, d := Detached(ls, c[k]), Without(c, k);
    forall l: nat | l <= |d| ensures Joined(ms, d, l) { DetachJoins(ls, c, k, l); }
  }

  lemma DetachJoins(ls: seq<Link>, c: seq<nat>, k: nat, l: nat)
    requires |ls| == N_BUF + 1 && NoDup(c) && (forall k :: 0 <= k < |c| ==> c[k] < N_BUF) && k < |c| && l < |c|
    requires Joined(ls, c, k) && Joined(ls, c, k + 1) && Joined(ls, c, if l <= k then l else l + 1)
    ensures Joined(Detached(ls, c[k]), Without(c, k), l)
  {
    hide Without;
    var d := Without(c, k);
    WithoutAt(c, k, l);
    WithoutAt(c, k, l - 1);
  }

  lemma WithoutAt(c: seq<nat>, k: nat, l: int)
    requires k < |c|
    ensures l < |c| ==> At(Without(c, k), l) == At(c, if l < k then l else l + 1)
  {
  }

  lemma FirstKeeps(ls: seq<Link>, c: seq<nat>, n: nat)
    requires Circle(ls, c) && n < N_BUF && n !in c
    ensures Circle(First(ls, n), [n] + c)
    ensures forall m :: 0 <= m < N_BUF && m != n && m !in c ==> First(ls, n)[m] == ls[m]
  {
    assert Joined(ls, c, 0);
    var ms, d := First(ls, n), [n] + c;
    forall l: nat | l <= |d| ensures Joined(ms, d, l) {
      if l > 0 { assert Joined(ls, c, l - 1); }
    }
  }

  lemma LastKeeps(ls: seq<Link>, c: seq<nat>, n: nat)
    requires Circle(ls, c) && n < N_BUF && n !in c
    ensures Circle(Last(ls, n), c + [n])
  {
    assert Joined(ls, c, |c|);
    var ms, d := Last(ls, n), c + [n];
    forall l: nat | l <= |d| ensures Joined(ms, d, l) {
      if l <= |c| { assert Joined(ls, c, l); }
    }
  }

  // ----- what the list says about the buffers

  /** Every buffer is on the list, the first `busy` of them referenced and the rest free. */
  ghost predicate Split(bs: seq<Buf>, c: seq<nat>, busy: nat) {
    && |bs| == N_BUF && |c| == N_BUF && busy <= N_BUF && NoDup(c)
    && (forall b: nat :: b in c <==> b < N_BUF)
    && forall k :: 0 <= k < N_BUF ==> c[k] < N_BUF && (bs[c[k]].ref > 0 <==> k < busy)
  }

  /** Free buffers come in the order in which they were released. */
  ghost predicate Aged(c: seq<nat>, busy: nat, released: seq<nat>, clock: nat) {
    && |released| == N_BUF && (forall b :: 0 <= b < N_BUF ==> released[b] < clock)
    && (forall k :: 0 <= k < |c| ==> c[k] < N_BUF)
    && forall k, l :: busy <= k < l < |c| ==> released[c[k]] < released[c[l]]
  }

  /** No block is cached twice. */
  ghost predicate Single(bs: seq<Buf>) {
    forall a, b :: 0 <= a < b < |bs| && bs[a].block == bs[b].block ==> bs[a].block == UNUSED
  }

  /** References are the processes waiting for the buffer's lock, those that have given it up and not
      yet dropped their reference, and its holder. */
  ghost predicate Counted(bs: seq<Buf>, waiting: seq<nat>, leaving: seq<nat>) {
    && |waiting| == |leaving| == |bs|
    && forall b :: 0 <= b < |bs| ==> bs[b].ref == waiting[b] + leaving[b] + if bs[b].holder.Some? then 1 else 0
  }

  /** Referenced buffers have a block, and a buffer nobody has locked holds what the disk holds. */
  ghost predicate Coherent(bs: seq<Buf>, disk: map<nat, Data>) {
    && (forall b :: 0 <= b < |bs| && bs[b].ref > 0 ==> bs[b].block != UNUSED)
    && (forall b :: 0 <= b < |bs| && bs[b].block != UNUSED ==>
          bs[b].block in disk && (bs[b].holder == None ==> bs[b].data == disk[bs[b].block]))
  }

  lemma SplitFacts(bs: seq<Buf>, c: seq<nat>, busy: nat)
    requires Split(bs, c, busy)
    ensures |bs| == |c| == N_BUF && busy <= N_BUF && NoDup(c)
    ensures forall k :: 0 <= k < N_BUF ==> c[k] < N_BUF && c[k] in c && (bs[c[k]].ref > 0 <==> k < busy)
  {
  }

  lemma AgedFacts(c: seq<nat>, busy: nat, released: seq<nat>, clock: nat)
    requires Aged(c, busy, released, clock)
    ensures |released| == N_BUF
  {
  }

  lemma CountedFacts(bs: seq<Buf>, waiting: seq<nat>, leaving: seq<nat>)
    requires Counted(bs, waiting, leaving)
    ensures |waiting| == |leaving| == |bs|
  {
  }

  lemma OthersSame(bs: seq<Buf>, n: nat, b: Buf)
    requires n < |bs|
    ensures forall m :: 0 <= m < |bs| && m != n ==> bs[n := b][m].ref == bs[m].ref
    ensures bs[n := b][n] == b && |bs[n := b]| == |bs|
  {
  }

  lemma FrontIs(c: seq<nat>, k: nat)
    requires k < |c|
    ensures Front(c, k) == [c[k]] + Without(c, k)
  {
  }

  lemma MovedToFront(bs: seq<Buf>, ms: seq<Buf>, c: seq<nat>, k: nat, busy: nat, released: seq<nat>, clock: nat)
    requires Split(bs, c, busy) && Aged(c, busy, released, clock) && k < N_BUF
    requires |ms| == N_BUF && ms[c[k]].ref > 0 && forall b :: 0 <= b < N_BUF && b != c[k] ==> ms[b].ref == bs[b].ref
    ensures var busy' := if k < busy then busy else busy + 1;
            busy' <= N_BUF && Split(ms, Front(c, k), busy') && Aged(Front(c, k), busy', released, clock)
  {
    FrontSplit(bs, ms, c, k, busy);
    FrontAged(c, k, busy, if k < busy then busy else busy + 1, released, clock);
  }

  function Front(c: seq<nat>, k: nat): (d: seq<nat>)
    requires k < |c|
    ensures |d| == |c| && d[0] == c[k] && forall l :: 0 < l < |d| ==> d[l] == if l <= k then c[l - 1] else c[l]
    ensures forall n :: n in c <==> n in d
  {
    var d := [c[k]] + Without(c, k);
    assert forall n :: n in d <==> n == c[k] || n in Without(c, k);
    d
  }

  lemma FrontSplit(bs: seq<Buf>, ms: seq<Buf>, c: seq<nat>, k: nat, busy: nat)
    requires Split(bs, c, busy) && k < N_BUF
    requires |ms| == N_BUF && ms[c[k]].ref > 0 && forall b :: 0 <= b < N_BUF && b != c[k] ==> ms[b].ref == bs[b].ref
    ensures Split(ms, Front(c, k), if k < busy then busy else busy + 1)
  {
    var d := Front(c, k);
    assert forall l :: 0 <= l < |c| && l != k ==> c[l] != c[k];
    FrontNoDup(c, k);
    hide NoDup;
    forall l: nat | l < N_BUF ensures d[l] < N_BUF && (ms[d[l]].ref > 0 <==> l < if k < busy then busy else busy + 1) {
      assert d[l] == if l == 0 then c[k] else if l <= k then c[l - 1] else c[l];
    }
  }

  lemma FrontNoDup(c: seq<nat>, k: nat)
    requires NoDup(c) && k < |c|
    ensures NoDup(Front(c, k))
  {
    var d := Front(c, k);
    forall l, m | 0 <= l < m < |d| ensures d[l] != d[m] {
      var l', m' := if l == 0 then k else if l <= k then l - 1 else l, if m <= k then m - 1 else m;
      assert d[l] == c[l'] && d[m] == c[m'] && l' != m';
    }
  }

  lemma FrontAged(c: seq<nat>, k: nat, busy: nat, busy': nat, released: seq<nat>, clock: nat)
    requires Aged(c, busy, released, clock) && k < |c| && busy' == if k < busy then busy else busy + 1
    ensures Aged(Front(c, k), busy', released, clock)
  {
  }

  lemma MovedToBack(bs: seq<Buf>, ms: seq<Buf>, c: seq<nat>, k: nat, busy: nat, released: seq<nat>, clock: nat)
    requires Split(bs, c, busy) && Aged(c, busy, released, clock) && k < busy
    requires |ms| == N_BUF && ms[c[k]].ref == 0 && forall b :: 0 <= b < N_BUF && b != c[k] ==> ms[b].ref == bs[b].ref
    ensures Split(ms, Back(c, k), busy - 1) && Aged(Back(c, k), busy - 1, released[c[k] := clock], clock + 1)
  {
    BackSplit(bs, ms, c, k, busy);
    BackAged(c, k, busy, released, clock);
  }

  function Back(c: seq<nat>, k: nat): (d: seq<nat>)
    requires k < |c|
    ensures |d| == |c| && d[|c| - 1] == c[k] && forall l :: 0 <= l < |c| - 1 ==> d[l] == if l < k then c[l] else c[l + 1]
    ensures forall n :: n in c <==> n in d
  {
    var d := Without(c, k) + [c[k]];
    assert forall n :: n in d <==> n == c[k] || n in Without(c, k);
    d
  }

  lemma BackSplit(bs: seq<Buf>, ms: seq<Buf>, c: seq<nat>, k: nat, busy: nat)
    requires Split(bs, c, busy) && k < busy
    requires |ms| == N_BUF && ms[c[k]].ref == 0 && forall b :: 0 <= b < N_BUF && b != c[k] ==> ms[b].ref == bs[b].ref
    ensures Split(ms, Back(c, k), busy - 1)
  {
    var d := Back(c, k);
    assert forall l :: 0 <= l < |c| && l != k ==> c[l] != c[k];
    BackNoDup(c, k);
    hide NoDup;
    forall l: nat | l < N_BUF ensures d[l] < N_BUF && (ms[d[l]].ref > 0 <==> l < busy - 1) {
      assert d[l] == if l == N_BUF - 1 then c[k] else if l < k then c[l] else c[l + 1];
    }
  }

  lemma BackNoDup(c: seq<nat>, k: nat)
    requires NoDup(c) && k < |c|
    ensures NoDup(Back(c, k))
  {
    var d := Back(c, k);
    forall l, m | 0 <= l < m < |d| ensures d[l] != d[m] {
      var l', m' := if l < k then l else l + 1, if m == |c| - 1 then k else if m < k then m else m + 1;
      assert d[l] == c[l'] && d[m] == c[m'] && l' != m';
    }
  }

  lemma BackAged(c: seq<nat>, k: nat, busy: nat, released: seq<nat>, clock: nat)
    requires Aged(c, busy, released, clock) && NoDup(c) && k < busy <= |c|
    ensures Aged(Back(c, k), busy - 1, released[c[k] := clock], clock + 1)
  {
    var d, rel := Back(c, k), released[c[k] := clock];
    assert forall l :: 0 <= l < |c| && l != k ==> rel[c[l]] == released[c[l]];
  }

  /** What a reader has after the atomic part of buf_read: the buffer locked, a reference to it while
      someone else has it locked, or no buffer (the panic). */
  datatype Reading = Locked(buf: nat) | Waiting(buf: nat) | NoBuffer

  class Cache {
    const links: array<Link>
    const bufs: array<Buf>
    var disk: map<nat, Data>
    ghost var order: seq<nat>       // the list, from head_buf.next
    ghost var busy: nat             // how many on it are referenced
    ghost var released: seq<nat>    // when each buffer was last released
    ghost var clock: nat
    ghost var waiting: seq<nat>     // how many processes wait for each buffer's lock
    ghost var leaving: seq<nat>     // how many are between the two halves of buf_release

    ghost predicate Shaped() reads this, links, bufs {
      links.Length == N_BUF + 1 && bufs.Length == N_BUF && Circle(links[..], order) && Split(bufs[..], order, busy)
    }

    ghost predicate Valid() reads this, links, bufs {
      && Shaped() && Aged(order, busy, released, clock)
      && Single(bufs[..]) && Counted(bufs[..], waiting, leaving) && Coherent(bufs[..], disk)
    }

    /** buf_init: each buffer goes in at the front, so they end up in reverse. */
    constructor (image: map<nat, Data>)
      ensures Valid() && disk == image && busy == 0 && order == seq(N_BUF, i => N_BUF - 1 - i)
      ensures forall b :: 0 <= b < N_BUF ==> bufs[b] == Buf(UNUSED, 0, [], None)
      ensures fresh(links) && fresh(bufs)
    {
      links := new Link[N_BUF + 1](i => if i == HEAD then Link(HEAD, HEAD) else Link(NULL, NULL));
      bufs := new Buf[N_BUF](i => Buf(UNUSED, 0, [], None));
      disk := image;
      busy, clock := 0, N_BUF;
      order := [];
      new;
      hide Circle, Split, Aged, Single, Counted, Coherent;
      LinkAll();
      released, waiting := Downward(), Zeros();
      leaving := waiting;
      FreshOk(bufs[..], order, image);
      assert order == seq(N_BUF, i => N_BUF - 1 - i);
    }

    /** The loop of buf_init. */
    method LinkAll()
      requires links.Length == N_BUF + 1 && order == [] && links[HEAD] == Link(HEAD, HEAD)
      requires forall b :: 0 <= b < N_BUF ==> links[b] == Link(NULL, NULL)
      modifies links, `order
      ensures Circle(links[..], order) && |order| == N_BUF
      ensures forall k :: 0 <= k < N_BUF ==> order[k] == N_BUF - 1 - k
    {
      hide Circle, Without;
      var node := 0;
      EmptyCircle(links[..]);
      while node < N_BUF
        invariant node <= N_BUF && Circle(links[..], order) && |order| == node
        invariant forall k :: 0 <= k < node ==> order[k] == node - 1 - k
        invariant forall b :: node <= b < N_BUF ==> links[b] == Link(NULL, NULL)
      {
        InsertHead(node, true, 0);
        node := node + 1;
      }
    }

    /** insert_head: off the list if it was on it, at position k, then first or last. */
    method InsertHead(n: nat, headNext: bool, ghost k: nat)
      requires links.Length == N_BUF + 1 && Circle(links[..], order) && n < N_BUF
      requires if n in order then k < |order| && order[k] == n else links[n] == Link(NULL, NULL)
      modifies links, `order
      ensures Circle(links[..], order)
      ensures var rest := if n in old(order) then Without(old(order), k) else old(order);
              order == (if headNext then [n] + rest else rest + [n])
      ensures headNext && n !in old(order) ==>
        forall m :: 0 <= m < N_BUF && m != n && m !in old(order) ==> links[m] == old(links[m])
    {
      hide Circle, Detached, First, Last, Without;
      InRange(links[..], order);
      if links[n].next != NULL && links[n].prev != NULL {
        DetachKeeps(links[..], order, k);
        Unlink(n);
        order := Without(order, k);
        InRange(links[..], order);
      }
      if headNext {
        FirstKeeps(links[..], order, n);
        PutFirst(n);
        order := [n] + order;
      } else {
        LastKeeps(links[..], order, n);
        PutLast(n);
        order := order + [n];
      }
    }

    method Unlink(n: nat)
      requires links.Length == N_BUF + 1 && n < N_BUF && links[n].next <= N_BUF && links[n].prev <= N_BUF
      modifies links
      ensures links[..] == Detached(old(links[..]), n)
    {
      links[links[n].next] := links[links[n].next].(prev := links[n].prev);
      links[links[n].prev] := links[links[n].prev].(next := links[n].next);
    }

    method PutFirst(n: nat)
      requires links.Length == N_BUF + 1 && n < N_BUF && links[HEAD].next <= N_BUF
      modifies links
      ensures links[..] == First(old(links[..]), n)
    {
      links[n] := Link(links[HEAD].next, HEAD);
      links[links[HEAD].next] := links[links[HEAD].next].(prev := n);
      links[HEAD] := links[HEAD].(next := n);
    }

    method PutLast(n: nat)
      requires links.Length == N_BUF + 1 && n < N_BUF && links[HEAD].prev <= N_BUF
      modifies links
      ensures links[..] == Last(old(links[..]), n)
    {
      links[n] := Link(HEAD, links[HEAD].prev);
      links[links[HEAD].prev] := links[links[HEAD].prev].(next := n);
      links[HEAD] := links[HEAD].(prev := n);
    }

    // ----- buf_read, as one atomic step up to the lock of a buffer someone else holds

    /** The first loop: from the tail over the free buffers. `hit` is HEAD when there is none. */
    method SearchFree(block: nat) returns (hit: nat, oldest: nat, ghost k: nat, ghost seen: seq<nat>)
      requires Shaped()
      ensures hit != HEAD ==> busy <= k < N_BUF && hit == order[k] && bufs[hit].block == block
      ensures hit == HEAD ==> oldest == At(order, busy) && (forall j :: busy <= j < N_BUF ==> bufs[order[j]].block != block)
      ensures k <= N_BUF && seen == BackTo(order, k) && (hit == HEAD ==> k == busy)
    {
      var node := links[HEAD].prev;
      assert Joined(links[..], order, N_BUF);
      ghost var i: int := N_BUF - 1;
      seen := [];
      while node != HEAD && bufs[node].ref == 0
        invariant busy - 1 <= i < N_BUF && node == At(order, i)
        invariant forall j :: i < j < N_BUF ==> bufs[order[j]].block != block
        invariant seen == BackTo(order, i + 1)
        decreases i
      {
        seen := seen + [node];
        if bufs[node].block == block {
          return node, HEAD, i, seen;
        }
        assert Joined(links[..], order, i);
        node := links[node].prev;
        i := i - 1;
      }
      assert Joined(links[..], order, i + 1);
      hit, oldest, k := HEAD, links[node].next, busy;
    }

    /** The second loop: from the front up to the oldest free buffer. */
    method SearchBusy(block: nat, oldest: nat) returns (hit: nat, ghost k: nat, ghost seen: seq<nat>)
      requires Shaped() && oldest == At(order, busy)
      ensures hit != HEAD ==> k < busy && hit == order[k] && bufs[hit].block == block
      ensures hit == HEAD ==> forall j :: 0 <= j < busy ==> bufs[order[j]].block != block
      ensures k <= busy && seen == order[..k] + (if hit != HEAD then [hit] else [])
    {
      var node := links[HEAD].next;
      assert Joined(links[..], order, 0);
      k, seen := 0, [];
      while node != oldest
        invariant 0 <= k <= busy && node == At(order, k)
        invariant forall j :: 0 <= j < k ==> bufs[order[j]].block != block
        invariant seen == order[..k]
        decreases busy - k
      {
        seen := seen + [node];
        if bufs[node].block == block {
          return node, k, seen;
        }
        assert Joined(links[..], order, k + 1);
        node := links[node].next;
        k := k + 1;
      }
      hit := HEAD;
    }

    /** A listed node moves to the front. */
    method ToFront(n: nat, ghost k: nat)
      requires links.Length == N_BUF + 1 && Circle(links[..], order) && k < |order| && n == order[k]
      modifies links, `order
      ensures Circle(links[..], order) && order == Front(old(order), k)
    {
      assert n in order;
      FrontIs(order, k);
      InsertHead(n, true, k);
    }

    /** Another reference to a cached block: it moves to the front. */
    method Claim(pid: nat, n: nat, ghost k: nat) returns (r: Reading)
      requires Valid() && k < N_BUF && n == order[k] && bufs[n].block != UNUSED
      modifies links, bufs, `order, `busy, `waiting
      ensures Valid()
      ensures order == Front(old(order), k) && busy == old(busy) + if old(bufs[n]).ref == 0 then 1 else 0
      ensures r == if old(bufs[n]).holder == None then Locked(n) else Waiting(n)
      ensures bufs[..] == old(bufs[..])[n := Claimed(old(bufs[n]), pid)]
      ensures waiting == if r.Waiting? then old(waiting)[n := old(waiting[n]) + 1] else old(waiting)
    {
      hide Circle, Split, Aged, Single, Counted, Coherent, Front, Without;
      ghost var bs := bufs[..];
      SplitFacts(bs, order, busy);
      CountedFacts(bs, waiting, leaving);
      ClaimKeeps(bs, n, pid, waiting, leaving, disk);
      OthersSame(bs, n, Claimed(bs[n], pid));
      MovedToFront(bs, bs[n := Claimed(bs[n], pid)], order, k, busy, released, clock);
      ToFront(n, k);
      bufs[n] := bufs[n].(ref := bufs[n].ref + 1);
      if bufs[n].holder == None {
        bufs[n] := bufs[n].(holder := Some(pid));
        r := Locked(n);
      } else {
        r := Waiting(n);
      }
      assert bufs[..] == bs[n := Claimed(bs[n], pid)];
      busy := if k < busy then busy else busy + 1;
      waiting := if r.Waiting? then waiting[n := waiting[n] + 1] else waiting;
      assert Shaped() && Aged(order, busy, released, clock);
      assert Single(bufs[..]) && Counted(bufs[..], waiting, leaving) && Coherent(bufs[..], disk);
    }

    /** The oldest free buffer takes on a block that is not cached, and is loaded. */
    method Evict(pid: nat, n: nat, block: nat)
      requires Valid() && busy < N_BUF && n == order[busy] && block != UNUSED && block in disk
      requires forall b :: 0 <= b < N_BUF ==> bufs[b].block != block
      modifies bufs, `busy
      ensures Valid() && busy == old(busy) + 1
      ensures bufs[..] == old(bufs[..])[n := Buf(block, 1, disk[block], Some(pid))]
    {
      hide Circle, Split, Aged, Single, Counted, Coherent;
      ghost var bs := bufs[..];
      SplitFacts(bs, order, busy);
      EvictKeeps(bs, n, pid, block, waiting, leaving, disk);
      NextBusy(bs, bs[n := Buf(block, 1, disk[block], Some(pid))], order, busy, released, clock);
      bufs[n] := bufs[n].(ref := 1, block := block);
      bufs[n] := bufs[n].(holder := Some(pid), data := disk[block]);
      assert bufs[..] == bs[n := Buf(block, 1, disk[block], Some(pid))];
      busy := busy + 1;
    }

    /** buf_read. A cached block is claimed; else the least recently released free buffer is evicted;
        with no free buffer either, the kernel panics. Together the loops look at no node twice. */
    method BufRead(pid: nat, block: nat) returns (r: Reading, ghost seen: seq<nat>)
      requires Valid() && block != UNUSED && block in disk
      modifies links, bufs, `order, `busy, `waiting
      ensures Valid() && NoDup(seen)
      ensures r == NoBuffer <==> old(busy) == N_BUF && forall b :: 0 <= b < N_BUF ==> old(bufs[b]).block != block
      ensures r == NoBuffer ==> bufs[..] == old(bufs[..]) && order == old(order)
      ensures r != NoBuffer ==> r.buf < N_BUF && bufs[r.buf].block == block && bufs[r.buf].ref == old(bufs[r.buf]).ref + 1
      ensures r != NoBuffer ==> forall b :: 0 <= b < N_BUF && b != r.buf ==> bufs[b] == old(bufs[b])
      ensures r.Locked? ==> bufs[r.buf].holder == Some(pid) && bufs[r.buf].data == disk[block]
      ensures r.Waiting? ==> bufs[r.buf].holder == old(bufs[r.buf]).holder != None && waiting[r.buf] == old(waiting[r.buf]) + 1
      ensures r != NoBuffer && old(bufs[r.buf]).block == block ==> Raised(old(order), order, r.buf)
      ensures r != NoBuffer && old(bufs[r.buf]).block != block ==>
        && (forall b :: 0 <= b < N_BUF ==> old(bufs[b]).block != block)
        && order == old(order) && old(bufs[r.buf]).ref == 0
        && forall b :: 0 <= b < N_BUF && old(bufs[b]).ref == 0 ==> released[r.buf] <= released[b]
    {
      hide Circle, Split, Aged, Single, Counted, Coherent, Front;
      SplitFacts(bufs[..], order, busy);
      CountedFacts(bufs[..], waiting, leaving);
      CachedIs(bufs[..], disk, block);
      var hit, oldest;
      ghost var k;
      hit, oldest, k, seen := Search(block);
      if hit != HEAD {
        FrontRaises(order, k);
        r := Claim(pid, hit, k);
      } else if oldest != HEAD {
        OldestIs(bufs[..], order, busy, released, clock);
        Evict(pid, oldest, block);
        r := Locked(oldest);
      } else {
        r := NoBuffer;
      }
    }

    /** The two loops of buf_read, free buffers first. */
    method Search(block: nat) returns (hit: nat, oldest: nat, ghost k: nat, ghost seen: seq<nat>)
      requires Shaped()
      ensures NoDup(seen)
      ensures hit != HEAD ==> k < N_BUF && hit == order[k] && bufs[hit].block == block
      ensures hit == HEAD ==> oldest == At(order, busy) && forall b :: 0 <= b < N_BUF ==> bufs[b].block != block
    {
      hide Circle, Split;
      SplitFacts(bufs[..], order, busy);
      hit, oldest, k, seen := SearchFree(block);
      SeenOnce(order, k, 0);
      if hit == HEAD {
        ghost var more;
        hit, k, more := SearchBusy(block, oldest);
        SeenOnce(order, busy, if hit != HEAD then k + 1 else k);
        assert more == order[..if hit != HEAD then k + 1 else k];
        seen := seen + more;
        if hit == HEAD { NotCached(bufs[..], order, busy, block); }
      }
    }

    /** A waiting reader gets the lock of its buffer and finds the disk's current contents in it. */
    method Acquire(pid: nat, b: nat)
      requires Valid() && b < N_BUF && b < |waiting| && waiting[b] > 0 && bufs[b].holder == None
      modifies bufs, `waiting
      ensures Valid() && waiting == old(waiting)[b := old(waiting[b]) - 1]
      ensures bufs[..] == old(bufs[..])[b := old(bufs[b]).(holder := Some(pid))]
      ensures bufs[b].block in disk && bufs[b].data == disk[bufs[b].block]
    {
      hide Circle, Split, Aged, Single, Counted, Coherent;
      ghost var bs := bufs[..];
      CountedFacts(bs, waiting, leaving);
      LockKeeps(bs, b, pid, waiting, leaving, disk);
      SameRefs(bs, bs[b := bs[b].(holder := Some(pid))], order, busy);
      bufs[b] := bufs[b].(holder := Some(pid));
      assert bufs[..] == bs[b := bs[b].(holder := Some(pid))];
      var left: nat := waiting[b] - 1;
      waiting := waiting[b := left];
    }

    /** The holder changes the data it has locked. */
    method Store(pid: nat, b: nat, data: Data)
      requires Valid() && b < N_BUF && bufs[b].holder == Some(pid)
      modifies bufs
      ensures Valid() && bufs[..] == old(bufs[..])[b := old(bufs[b]).(data := data)]
    {
      hide Circle, Split, Aged, Single, Counted, Coherent;
      ghost var bs := bufs[..];
      StoreKeeps(bs, b, data, waiting, leaving, disk);
      SameRefs(bs, bs[b := bs[b].(data := data)], order, busy);
      bufs[b] := bufs[b].(data := data);
      assert bufs[..] == bs[b := bs[b].(data := data)];
    }

    /** buf_write; false for the failed assertion that the caller holds the lock. */
    method BufWrite(pid: nat, b: nat) returns (ok: bool)
      requires Valid() && b < N_BUF
      modifies `disk
      ensures Valid() && (ok <==> bufs[b].holder == Some(pid))
      ensures disk == if ok then old(disk)[bufs[b].block := bufs[b].data] else old(disk)
    {
      if bufs[b].holder != Some(pid) { return false; }
      hide Circle, Split, Aged, Single, Counted, Coherent;
      WriteKeeps(bufs[..], b, waiting, leaving, disk);
      disk := disk[bufs[b].block := bufs[b].data];
      ok := true;
    }

    /** All that holds whatever the holders wrote. */
    ghost predicate Sound() reads this, links, bufs {
      Shaped() && Aged(order, busy, released, clock) && Single(bufs[..]) && Counted(bufs[..], waiting, leaving)
    }

    /** The first half of buf_release, up to the end of sleeplock_release; false for the failed
        assertion. The cache still agrees with the disk exactly when the holder had written its
        changes. */
    method Unlock(pid: nat, b: nat) returns (ok: bool)
      requires Valid() && b < N_BUF
      modifies bufs, `leaving
      ensures Sound() && (ok <==> old(bufs[b]).holder == Some(pid))
      ensures !ok ==> Valid() && bufs[..] == old(bufs[..]) && leaving == old(leaving)
      ensures ok ==> bufs[b].block in disk && bufs[b].block != UNUSED && (Valid() <==> bufs[b].data == disk[bufs[b].block])
      ensures ok ==> bufs[..] == old(bufs[..])[b := old(bufs[b]).(holder := None)]
      ensures b < |leaving| == |old(leaving)| && (ok ==> leaving == old(leaving)[b := old(leaving)[b] + 1])
    {
      if bufs[b].holder != Some(pid) {
        CountedFacts(bufs[..], waiting, leaving);
        return false;
      }
      hide Circle, Split, Aged, Single, Counted, Coherent;
      ghost var bs := bufs[..];
      CountedFacts(bs, waiting, leaving);
      UnlockKeeps(bs, b, waiting, leaving, disk);
      SameRefs(bs, bs[b := bs[b].(holder := None)], order, busy);
      bufs[b] := bufs[b].(holder := None);
      assert bufs[..] == bs[b := bs[b].(holder := None)];
      leaving := leaving[b := leaving[b] + 1];
      ok := true;
    }

    /** The second half: the reference goes, and with the last one the buffer goes to the tail. Others
        may have locked, changed or claimed the buffer in between. */
    method Deref(b: nat)
      requires Sound() && b < N_BUF && b < |leaving| && leaving[b] > 0
      modifies links, bufs, `order, `busy, `released, `clock, `leaving
      ensures Sound() && (old(Valid()) ==> Valid()) && (old(bufs[b]).block != UNUSED && Valid() ==> old(Valid()))
      ensures old(bufs[b].ref) > 0 && bufs[..] == old(bufs[..])[b := old(bufs[b]).(ref := old(bufs[b].ref) - 1)]
      ensures leaving == old(leaving)[b := old(leaving[b]) - 1]
      ensures bufs[b].ref > 0 ==> order == old(order) && released == old(released)
      ensures bufs[b].ref == 0 ==> Sunk(old(order), order, b) && released == old(released)[b := old(clock)] && clock == old(clock) + 1
    {
      hide Circle, Split, Aged, Single, Counted, Coherent, Back, Sunk;
      ghost var bs := bufs[..];
      ghost var k := PositionOf(bs, order, busy, b);
      DerefKeeps(bs, b, waiting, leaving, disk);
      ghost var ms := bs[b := Dropped(bs[b])];
      bufs[b] := bufs[b].(ref := bufs[b].ref - 1);
      assert bufs[..] == ms;
      ghost var left: nat := leaving[b] - 1;
      leaving := leaving[b := left];
      if bufs[b].ref == 0 {
        MovedToBack(bs, ms, order, k, busy, released, clock);
        assert |released| == N_BUF by { AgedFacts(order, busy, released, clock); }
        ToBack(b, k);
        busy, released, clock := busy - 1, released[b := clock], clock + 1;
      } else {
        SameRefs(bs, ms, order, busy);
      }
    }

    /** buf_release with nothing in between. */
    method BufRelease(pid: nat, b: nat) returns (ok: bool)
      requires Valid() && b < N_BUF
      modifies links, bufs, `order, `busy, `released, `clock, `leaving
      ensures Sound() && (ok <==> old(bufs[b]).holder == Some(pid))
      ensures !ok ==> Valid() && bufs[..] == old(bufs[..]) && order == old(order)
      ensures ok ==> bufs[b].block in disk && (Valid() <==> bufs[b].data == disk[bufs[b].block])
      ensures ok ==> old(bufs[b].ref) > 0 && bufs[..] == old(bufs[..])[b := Dropped(old(bufs[b])).(holder := None)]
      ensures ok && bufs[b].ref > 0 ==> order == old(order)
      ensures ok && bufs[b].ref == 0 ==> Sunk(old(order), order, b)
    {
      hide Circle, Split, Aged, Single, Counted, Coherent, Sunk;
      ok := Unlock(pid, b);
      if ok { Deref(b); }
    }

    /** A listed node moves to the back. */
    method ToBack(n: nat, ghost k: nat)
      requires links.Length == N_BUF + 1 && Circle(links[..], order) && k < |order| && n == order[k]
      modifies links, `order
      ensures Circle(links[..], order) && order == Back(old(order), k) && Sunk(old(order), order, n)
    {
      assert n in order;
      assert Back(order, k) == Without(order, k) + [n];
      InsertHead(n, false, k);
      assert Sunk(old(order), order, n);
    }
  }

  function Dropped(b: Buf): Buf
    requires b.ref > 0
  {
    b.(ref := b.ref - 1)
  }

  /** d is c with n moved to the back. */
  ghost predicate Sunk(c: seq<nat>, d: seq<nat>, n: nat) {
    exists k :: 0 <= k < |c| && c[k] == n && d == Back(c, k)
  }

  lemma PositionOf(bs: seq<Buf>, c: seq<nat>, busy: nat, b: nat) returns (k: nat)
    requires Split(bs, c, busy) && b < N_BUF
    ensures k < |c| == |bs| == N_BUF && c[k] == b && (bs[b].ref > 0 <==> k < busy) && busy <= N_BUF
  {
    assert b in c;
    k :| 0 <= k < |c| && c[k] == b;
  }

  lemma SameRefs(bs: seq<Buf>, ms: seq<Buf>, c: seq<nat>, busy: nat)
    requires Split(bs, c, busy) && |ms| == |bs| && forall b :: 0 <= b < |bs| ==> (ms[b].ref > 0 <==> bs[b].ref > 0)
    ensures Split(ms, c, busy)
  {
  }

  lemma LockKeeps(bs: seq<Buf>, b: nat, pid: nat, waiting: seq<nat>, leaving: seq<nat>, disk: map<nat, Data>)
    requires b < |bs| && Single(bs) && Counted(bs, waiting, leaving) && Coherent(bs, disk) && b < |waiting| && waiting[b] > 0 && bs[b].holder == None
    ensures var ms := bs[b := bs[b].(holder := Some(pid))];
            var left: nat := waiting[b] - 1;
            Single(ms) && Counted(ms, waiting[b := left], leaving) && Coherent(ms, disk)
    ensures bs[b].block in disk && bs[b].data == disk[bs[b].block]
  {
  }

  lemma StoreKeeps(bs: seq<Buf>, b: nat, data: Data, waiting: seq<nat>, leaving: seq<nat>, disk: map<nat, Data>)
    requires b < |bs| && Single(bs) && Counted(bs, waiting, leaving) && Coherent(bs, disk) && bs[b].holder.Some?
    ensures var ms := bs[b := bs[b].(data := data)];
            Single(ms) && Counted(ms, waiting, leaving) && Coherent(ms, disk)
  {
  }

  lemma WriteKeeps(bs: seq<Buf>, b: nat, waiting: seq<nat>, leaving: seq<nat>, disk: map<nat, Data>)
    requires b < |bs| && Single(bs) && Counted(bs, waiting, leaving) && Coherent(bs, disk) && bs[b].holder.Some?
    ensures Coherent(bs, disk[bs[b].block := bs[b].data])
  {
  }

  lemma UnlockKeeps(bs: seq<Buf>, b: nat, waiting: seq<nat>, leaving: seq<nat>, disk: map<nat, Data>)
    requires b < |bs| && Single(bs) && Counted(bs, waiting, leaving) && Coherent(bs, disk) && bs[b].holder.Some?
    ensures bs[b].block in disk && bs[b].block != UNUSED
    ensures var ms := bs[b := bs[b].(holder := None)];
            && Single(ms) && Counted(ms, waiting, leaving[b := leaving[b] + 1])
            && (Coherent(ms, disk) <==> bs[b].data == disk[bs[b].block])
  {
  }

  lemma DerefKeeps(bs: seq<Buf>, b: nat, waiting: seq<nat>, leaving: seq<nat>, disk: map<nat, Data>)
    requires b < |bs| && Single(bs) && Counted(bs, waiting, leaving) && b < |leaving| && leaving[b] > 0
    ensures bs[b].ref > 0
    ensures var ms := bs[b := Dropped(bs[b])];
            var left: nat := leaving[b] - 1;
            && Single(ms) && Counted(ms, waiting, leaving[b := left])
            && (Coherent(bs, disk) ==> Coherent(ms, disk)) && (bs[b].block != UNUSED && Coherent(ms, disk) ==> Coherent(bs, disk))
            && forall a :: 0 <= a < |bs| && a != b ==> ms[a].ref == bs[a].ref
  {
  }

  /** d is c with n moved to the front. */
  ghost predicate Raised(c: seq<nat>, d: seq<nat>, n: nat) {
    exists k :: 0 <= k < |c| && c[k] == n && d == Front(c, k)
  }

  lemma FrontRaises(c: seq<nat>, k: nat)
    requires k < |c|
    ensures Raised(c, Front(c, k), c[k])
  {
  }

  lemma {:induction false} SeenOnce(c: seq<nat>, k: nat, m: nat)
    requires NoDup(c) && m <= k <= |c|
    ensures NoDup(BackTo(c, k) + c[..m])
    ensures m == 0 ==> BackTo(c, k) + c[..m] == BackTo(c, k)
  {
    var d := BackTo(c, k) + c[..m];
    forall i, j | 0 <= i < j < |d| ensures d[i] != d[j] {
      var i' := if i < |c| - k then |c| - 1 - i else i - (|c| - k);
      var j' := if j < |c| - k then |c| - 1 - j else j - (|c| - k);
      assert d[i] == c[i'] && d[j] == c[j'] && i' != j';
    }
  }

  lemma CachedIs(bs: seq<Buf>, disk: map<nat, Data>, block: nat)
    requires Coherent(bs, disk) && block != UNUSED && block in disk
    ensures forall b :: 0 <= b < |bs| && bs[b].block == block && bs[b].holder == None ==> bs[b].data == disk[block]
  {
  }

  lemma NotCached(bs: seq<Buf>, c: seq<nat>, busy: nat, block: nat)
    requires Split(bs, c, busy)
    requires forall j :: 0 <= j < busy ==> bs[c[j]].block != block
    requires forall j :: busy <= j < N_BUF ==> bs[c[j]].block != block
    ensures forall b :: 0 <= b < N_BUF ==> bs[b].block != block
  {
    forall b | 0 <= b < N_BUF ensures bs[b].block != block {
      assert b in c;
      var j :| 0 <= j < |c| && c[j] == b;
    }
  }

  lemma OldestIs(bs: seq<Buf>, c: seq<nat>, busy: nat, released: seq<nat>, clock: nat)
    requires Split(bs, c, busy) && Aged(c, busy, released, clock) && busy < N_BUF
    ensures bs[c[busy]].ref == 0
    ensures forall b :: 0 <= b < N_BUF && bs[b].ref == 0 ==> released[c[busy]] <= released[b]
  {
    forall b | 0 <= b < N_BUF && bs[b].ref == 0 ensures released[c[busy]] <= released[b] {
      assert b in c;
      var j :| 0 <= j < |c| && c[j] == b;
    }
  }

  lemma NextBusy(bs: seq<Buf>, ms: seq<Buf>, c: seq<nat>, busy: nat, released: seq<nat>, clock: nat)
    requires Split(bs, c, busy) && Aged(c, busy, released, clock) && busy < N_BUF
    requires |ms| == N_BUF && ms[c[busy]].ref > 0 && forall b :: 0 <= b < N_BUF && b != c[busy] ==> ms[b].ref == bs[b].ref
    ensures Split(ms, c, busy + 1) && Aged(c, busy + 1, released, clock)
  {
    assert forall l :: 0 <= l < |c| && l != busy ==> c[l] != c[busy];
  }

  lemma EvictKeeps(bs: seq<Buf>, n: nat, pid: nat, block: nat, waiting: seq<nat>, leaving: seq<nat>, disk: map<nat, Data>)
    requires n < |bs| && Single(bs) && Counted(bs, waiting, leaving) && Coherent(bs, disk)
    requires bs[n].ref == 0 && block != UNUSED && block in disk
    requires forall b :: 0 <= b < |bs| ==> bs[b].block != block
    ensures var ms := bs[n := Buf(block, 1, disk[block], Some(pid))];
            Single(ms) && Counted(ms, waiting, leaving) && Coherent(ms, disk)
            && forall b :: 0 <= b < |bs| && b != n ==> ms[b].ref == bs[b].ref
  {
  }

  function Downward(): (r: seq<nat>)
    ensures |r| == N_BUF && forall i :: 0 <= i < N_BUF ==> r[i] == N_BUF - 1 - i
  {
    seq(N_BUF, i => if 0 <= i < N_BUF then N_BUF - 1 - i else 0)
  }

  function Zeros(): (r: seq<nat>)
    ensures |r| == N_BUF && forall i :: 0 <= i < N_BUF ==> r[i] == 0
  {
    seq(N_BUF, i => 0)
  }

  lemma FreshOk(bs: seq<Buf>, c: seq<nat>, disk: map<nat, Data>)
    requires |bs| == |c| == N_BUF && forall b :: 0 <= b < N_BUF ==> bs[b] == Buf(UNUSED, 0, [], None)
    requires forall k :: 0 <= k < N_BUF ==> c[k] == N_BUF - 1 - k
    ensures Split(bs, c, 0) && Aged(c, 0, Downward(), N_BUF)
    ensures Single(bs) && Counted(bs, Zeros(), Zeros()) && Coherent(bs, disk)
  {
    forall b: nat ensures b in c <==> b < N_BUF {
      if b < N_BUF { assert c[N_BUF - 1 - b] == b; }
    }
  }

  function Claimed(b: Buf, pid: nat): Buf {
    b.(ref := b.ref + 1, holder := if b.holder == None then Some(pid) else b.holder)
  }

  lemma ClaimKeeps(bs: seq<Buf>, n: nat, pid: nat, waiting: seq<nat>, leaving: seq<nat>, disk: map<nat, Data>)
    requires n < |bs| && Single(bs) && Counted(bs, waiting, leaving) && Coherent(bs, disk) && bs[n].block != UNUSED
    ensures var ms := bs[n := Claimed(bs[n], pid)];
            && Single(ms) && Coherent(ms, disk)
            && Counted(ms, if bs[n].holder == None then waiting else waiting[n := waiting[n] + 1], leaving)
  {
  }

  /** The nodes from the last down to position k. */
  function BackTo(c: seq<nat>, k: nat): (d: seq<nat>)
    ensures k <= |c| ==> |d| == |c| - k && forall l :: 0 <= l < |d| ==> d[l] == c[|c| - 1 - l]
    decreases |c| - k
  {
    if k >= |c| then [] else BackTo(c, k + 1) + [c[k]]
  }
}
