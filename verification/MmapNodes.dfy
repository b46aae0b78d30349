/** The region nodes of kernel/mem/mmap.c, shared by all processes, and the in-place operations on
    them: the pool of free nodes, uvm_mmap and uvm_munmap of kernel/mem/uvm.c, sys_mmap of
    kernel/syscall/sysproc.c, and the chain set-up, copy and release of kernel/proc/proc.c. */
module MmapNodes {
  import opened Base
  import opened RegionChain

  const N_MMAP: nat := 256
  const NULL: int := -1

  datatype Node = Node(begin: nat, npages: nat, next: int, poolNext: int)

  /** Who has a node: node 0 stays list_head for ever; a node is Held between leaving the pool and
      being linked into a chain, or the other way round. */
  datatype Owner = Head | InPool | InChain(p: nat) | Held

  // ----- lists threaded through the nodes

  ghost predicate InRange(c: seq<nat>) { forall k :: 0 <= k < |c| ==> 0 < c[k] < N_MMAP }

  function At(c: seq<nat>, k: nat): int { if k < |c| then c[k] else NULL }

  ghost predicate PoolNext(ns: seq<Node>, free: seq<nat>, k: nat) {
    k < |free| && free[k] < |ns| && ns[free[k]].poolNext == At(free, k + 1)
  }

  ghost predicate RegionNext(ns: seq<Node>, c: seq<nat>, k: nat) {
    k < |c| && c[k] < |ns| && ns[c[k]].next == At(c, k + 1)
  }

  /** The pool hangs off list_head, linked by the nodes' own `next`. */
  ghost predicate PoolLinked(ns: seq<Node>, free: seq<nat>) {
    && |ns| == N_MMAP && InRange(free)
    && ns[0].poolNext == At(free, 0)
    && forall k: nat :: k < |free| ==> PoolNext(ns, free, k)
  }

  /** A process's chain: the special empty region, then the free regions; [] when there is none. */
  ghost predicate ChainLinked(ns: seq<Node>, c: seq<nat>) {
    && |ns| == N_MMAP && InRange(c)
    && (c != [] ==> ns[c[0]].begin == FIRST && ns[c[0]].npages == 0)
    && forall k: nat :: k < |c| ==> RegionNext(ns, c, k)
  }

  function RegionOf(n: Node): Region { Region(n.begin, n.npages) }

  /** The regions a chain's nodes hold, the special one left out. */
  function Regions(ns: seq<Node>, c: seq<nat>): (r: seq<Region>)
    requires |ns| == N_MMAP && forall k :: 0 <= k < |c| ==> 0 < c[k] < N_MMAP
    ensures |r| == if c == [] then 0 else |c| - 1
    ensures forall k :: 0 <= k < |r| ==> r[k] == RegionOf(ns[c[k + 1]])
  {
    if |c| <= 1 then [] else Regions(ns, c[..|c| - 1]) + [RegionOf(ns[c[|c| - 1]])]
  }

  predicate SameRegion(m: Node, n: Node) { m.begin == n.begin && m.npages == n.npages && m.next == n.next }

  lemma {:induction false} ListFrame(ns: seq<Node>, ms: seq<Node>, c: seq<nat>)
    requires ChainLinked(ns, c) && |ms| == N_MMAP && forall k :: 0 <= k < |c| ==> SameRegion(ms[c[k]], ns[c[k]])
    ensures ChainLinked(ms, c) && Regions(ms, c) == Regions(ns, c)
  {
    forall k: nat | k < |c| ensures RegionNext(ms, c, k) { assert RegionNext(ns, c, k); }
  }

  lemma PoolFrame(ns: seq<Node>, ms: seq<Node>, free: seq<nat>)
    requires PoolLinked(ns, free) && |ms| == N_MMAP && forall k :: 0 <= k < N_MMAP ==> ms[k].poolNext == ns[k].poolNext
    ensures PoolLinked(ms, free)
  {
    forall k: nat | k < |free| ensures PoolNext(ms, free, k) { assert PoolNext(ns, free, k); }
  }

  lemma PoolPop(ns: seq<Node>, free: seq<nat>)
    requires PoolLinked(ns, free) && NoDup(free) && free != []
    ensures PoolLinked(ns[0 := ns[0].(poolNext := ns[free[0]].poolNext)], free[1..])
  {
    var ms := ns[0 := ns[0].(poolNext := ns[free[0]].poolNext)];
    assert PoolNext(ns, free, 0);
    forall k: nat | k < |free[1..]| ensures PoolNext(ms, free[1..], k) { assert PoolNext(ns, free, k + 1); }
  }

  lemma PoolPush(ns: seq<Node>, free: seq<nat>, n: nat)
    requires PoolLinked(ns, free) && 0 < n < N_MMAP && n !in free
    ensures PoolLinked(ns[n := ns[n].(poolNext := ns[0].poolNext)][0 := ns[0].(poolNext := n)], [n] + free)
  {
    var ms := ns[n := ns[n].(poolNext := ns[0].poolNext)][0 := ns[0].(poolNext := n)];
    forall k: nat | k < |[n] + free| ensures PoolNext(ms, [n] + free, k) {
      if k > 0 {
        assert PoolNext(ns, free, k - 1) && free[k - 1] in free;
      }
    }
  }

  // ----- what each link change does to a chain

  /** New bounds for the region at position k. */
  lemma ChainSet(ns: seq<Node>, c: seq<nat>, k: nat, r: Region)
    requires ChainLinked(ns, c) && NoDup(c) && 0 < k < |c|
    ensures var ms := ns[c[k] := ns[c[k]].(begin := r.begin, npages := r.npages)];
            ChainLinked(ms, c) && Regions(ms, c) == Regions(ns, c)[k - 1 := r]
  {
    var ms := ns[c[k] := ns[c[k]].(begin := r.begin, npages := r.npages)];
    assert forall l :: 0 <= l < |c| && l != k ==> ms[c[l]] == ns[c[l]];
    forall l: nat | l < |c| ensures RegionNext(ms, c, l) { assert RegionNext(ns, c, l); }
  }

  function With(c: seq<nat>, k: nat, n: nat): (d: seq<nat>)
    requires k <= |c|
    ensures |d| == |c| + 1 && forall l :: 0 <= l < |d| ==> d[l] == if l < k then c[l] else if l == k then n else c[l - 1]
  {
    c[..k] + [n] + c[k..]
  }

  /** Unlinking the node at position k. */
  lemma ChainDrop(ns: seq<Node>, c: seq<nat>, k: nat)
    requires ChainLinked(ns, c) && NoDup(c) && 0 < k < |c|
    ensures var ms := ns[c[k - 1] := ns[c[k - 1]].(next := ns[c[k]].next)];
            && ChainLinked(ms, Without(c, k)) && NoDup(Without(c, k))
            && Regions(ms, Without(c, k)) == Regions(ns, c)[..k - 1] + Regions(ns, c)[k..]
  {
    hide NoDup, Regions;
    var ms := ns[c[k - 1] := ns[c[k - 1]].(next := ns[c[k]].next)];
    var d := Without(c, k);
    NoDupWithout(c, k);
    assert RegionNext(ns, c, k);
    forall l: nat | l < |d| ensures RegionNext(ms, d, l) {
      assert RegionNext(ns, c, if l < k then l else l + 1);
    }
    RegionsDrop(ns, ms, c, k);
  }

  lemma NoDupWithout(c: seq<nat>, k: nat)
    requires NoDup(c) && 0 < k < |c|
    ensures NoDup(Without(c, k))
    ensures forall l :: 0 <= l < |c| && l != k - 1 ==> c[l] != c[k - 1]
  {
  }

  lemma {:induction false} RegionsDrop(ns: seq<Node>, ms: seq<Node>, c: seq<nat>, k: nat)
    requires |ns| == |ms| == N_MMAP && InRange(c) && 0 < k < |c|
    requires forall n :: 0 <= n < N_MMAP ==> RegionOf(ms[n]) == RegionOf(ns[n])
    ensures Regions(ms, Without(c, k)) == Regions(ns, c)[..k - 1] + Regions(ns, c)[k..]
  {
    var d := Without(c, k);
    var r, q := Regions(ms, d), Regions(ns, c);
    hide RegionOf;
    forall l: nat | l < |r| ensures r[l] == if l < k - 1 then q[l] else q[l + 1] {
      assert d[l + 1] == if l + 1 < k then c[l + 1] else c[l + 2];
    }
    assert r == q[..k - 1] + q[k..];
  }

  /** Linking node n in at position k. */
  lemma ChainInsert(ns: seq<Node>, c: seq<nat>, k: nat, n: nat)
    requires ChainLinked(ns, c) && NoDup(c) && 0 < k <= |c| && 0 < n < N_MMAP && n !in c
    requires ns[n].next == At(c, k)
    ensures var ms := ns[c[k - 1] := ns[c[k - 1]].(next := n)];
            && ChainLinked(ms, With(c, k, n)) && NoDup(With(c, k, n))
            && Regions(ms, With(c, k, n)) == Regions(ns, c)[..k - 1] + [RegionOf(ns[n])] + Regions(ns, c)[k - 1..]
  {
    hide NoDup, Regions, RegionNext, RegionOf;
    var ms := ns[c[k - 1] := ns[c[k - 1]].(next := n)];
    NoDupWith(c, k, n);
    InsertLinks(ns, c, k, n);
    InsertSame(ns, c, k, n);
    RegionsInsert(ns, ms, c, k, n);
  }

  lemma InsertSame(ns: seq<Node>, c: seq<nat>, k: nat, n: nat)
    requires |ns| == N_MMAP && InRange(c) && 0 < k <= |c|
    ensures forall m :: 0 <= m < N_MMAP ==> RegionOf(ns[c[k - 1] := ns[c[k - 1]].(next := n)][m]) == RegionOf(ns[m])
  {
  }

  lemma InsertLinks(ns: seq<Node>, c: seq<nat>, k: nat, n: nat)
    requires ChainLinked(ns, c) && 0 < k <= |c| && 0 < n < N_MMAP && n !in c && ns[n].next == At(c, k)
    requires forall l :: 0 <= l < |c| && l != k - 1 ==> c[l] != c[k - 1]
    ensures ChainLinked(ns[c[k - 1] := ns[c[k - 1]].(next := n)], With(c, k, n))
  {
    hide RegionNext;
    var ms, d := ns[c[k - 1] := ns[c[k - 1]].(next := n)], With(c, k, n);
    forall l: nat | l < |d| ensures RegionNext(ms, d, l) {
      InsertNext(ns, c, k, n, l);
    }
  }

  lemma InsertNext(ns: seq<Node>, c: seq<nat>, k: nat, n: nat, l: nat)
    requires |ns| == N_MMAP && InRange(c) && 0 < k <= |c| && 0 < n < N_MMAP && n !in c && ns[n].next == At(c, k) && l <= |c|
    requires l != k ==> RegionNext(ns, c, if l < k then l else l - 1)
    requires forall j :: 0 <= j < |c| && j != k - 1 ==> c[j] != c[k - 1]
    ensures RegionNext(ns[c[k - 1] := ns[c[k - 1]].(next := n)], With(c, k, n), l)
  {
    WithAt(c, k, n, l);
    WithAt(c, k, n, l + 1);
    assert c[k - 1] in c && (l < k ==> c[l] in c) && (l > k ==> c[l - 1] in c);
    hide With;
  }

  lemma WithAt(c: seq<nat>, k: nat, n: nat, l: nat)
    requires k <= |c|
    ensures |With(c, k, n)| == |c| + 1
    ensures At(With(c, k, n), l) == if l < k then At(c, l) else if l == k then n else At(c, l - 1)
  {
  }

  lemma WithoutAt(c: seq<nat>, k: nat)
    requires 0 < k < |c|
    ensures |Without(c, k)| == |c| - 1 && At(Without(c, k), 0) == At(c, 0)
  {
  }

  lemma NoDupWith(c: seq<nat>, k: nat, n: nat)
    requires NoDup(c) && k <= |c| && n !in c
    ensures NoDup(With(c, k, n))
    ensures forall l :: 0 <= l < |c| && l != k - 1 && 0 < k ==> c[l] != c[k - 1]
  {
  }

  lemma {:induction false} RegionsInsert(ns: seq<Node>, ms: seq<Node>, c: seq<nat>, k: nat, n: nat)
    requires |ns| == |ms| == N_MMAP && InRange(c) && 0 < k <= |c| && 0 < n < N_MMAP
    requires forall m :: 0 <= m < N_MMAP ==> RegionOf(ms[m]) == RegionOf(ns[m])
    ensures Regions(ms, With(c, k, n)) == Regions(ns, c)[..k - 1] + [RegionOf(ns[n])] + Regions(ns, c)[k - 1..]
  {
    var d := With(c, k, n);
    var r, q := Regions(ms, d), Regions(ns, c);
    hide RegionOf;
    forall l: nat | l < |r| ensures r[l] == if l < k - 1 then q[l] else if l == k - 1 then RegionOf(ns[n]) else q[l - 1] {
      assert d[l + 1] == if l + 1 < k then c[l + 1] else if l + 1 == k then n else c[l];
    }
    assert r == q[..k - 1] + [RegionOf(ns[n])] + q[k - 1..];
  }

  // ----- who has which node

  /** Every node but list_head is in exactly one of the pool, one chain, or nobody's list. */
  ghost predicate Exclusive(free: seq<nat>, chains: seq<seq<nat>>, owner: seq<Owner>) {
    && |owner| == N_MMAP && (forall n :: 0 <= n < N_MMAP ==> (owner[n] == Head <==> n == 0))
    && NoDup(free) && (forall p :: 0 <= p < |chains| ==> NoDup(chains[p]))
    && (forall n: nat :: n in free <==> n < N_MMAP && owner[n] == InPool)
    && (forall p: nat :: p < |chains| ==> Mine(owner, p, chains[p]))
    && (forall n, p: nat :: 0 <= n < N_MMAP && owner[n] == InChain(p) ==> p < |chains|)
  }

  /** The nodes in nobody's list are the same: none was lost and none turned up. */
  ghost predicate SameHeld(a: seq<Owner>, b: seq<Owner>) {
    |a| == |b| == N_MMAP && forall n :: 0 <= n < N_MMAP ==> (a[n] == Held <==> b[n] == Held)
  }

  ghost predicate Mine(owner: seq<Owner>, p: nat, c: seq<nat>) {
    forall n: nat :: n in c <==> n < |owner| && owner[n] == InChain(p)
  }

  lemma OwnedPop(free: seq<nat>, chains: seq<seq<nat>>, owner: seq<Owner>)
    requires Exclusive(free, chains, owner) && free != []
    ensures free[0] < N_MMAP && Exclusive(free[1..], chains, owner[free[0] := Held])
  {
    assert free[0] in free;
    assert free == [free[0]] + free[1..];
    assert forall n: nat :: n in free[1..] ==> n != free[0];
    assert forall n: nat :: n in free <==> n == free[0] || n in free[1..];
    assert forall n :: 0 <= n < N_MMAP && n != free[0] ==> owner[free[0] := Held][n] == owner[n];
    forall p: nat | p < |chains| ensures Mine(owner[free[0] := Held], p, chains[p]) { assert Mine(owner, p, chains[p]); }
  }

  lemma OwnedPush(free: seq<nat>, chains: seq<seq<nat>>, owner: seq<Owner>, n: nat)
    ensures Exclusive(free, chains, owner) && n < N_MMAP && owner[n] == Held ==> Exclusive([n] + free, chains, owner[n := InPool])
  {
    if Exclusive(free, chains, owner) && n < N_MMAP && owner[n] == Held {
      forall p: nat | p < |chains| ensures Mine(owner[n := InPool], p, chains[p]) { assert Mine(owner, p, chains[p]); }
    }
  }

  lemma OwnedIn(free: seq<nat>, chains: seq<seq<nat>>, owner: seq<Owner>, p: nat, k: nat, n: nat)
    requires Exclusive(free, chains, owner) && p < |chains| && k <= |chains[p]| && n < N_MMAP && owner[n] == Held
    ensures n !in chains[p] && n != 0
    ensures Exclusive(free, chains[p := With(chains[p], k, n)], owner[n := InChain(p)])
  {
    var c, d := chains[p], With(chains[p], k, n);
    assert Mine(owner, p, c);
    assert d == c[..k] + [n] + c[k..] && c == c[..k] + c[k..];
    assert forall m: nat :: m in d <==> m == n || m in c;
    var chains', owner' := chains[p := d], owner[n := InChain(p)];
    forall q: nat | q < |chains| ensures Mine(owner', q, chains'[q]) { assert Mine(owner, q, chains[q]); }
  }

  lemma OwnedOut(free: seq<nat>, chains: seq<seq<nat>>, owner: seq<Owner>, p: nat, k: nat)
    requires Exclusive(free, chains, owner) && p < |chains| && k < |chains[p]|
    ensures chains[p][k] < N_MMAP && Exclusive(free, chains[p := Without(chains[p], k)], owner[chains[p][k] := Held])
  {
    var c, d := chains[p], Without(chains[p], k);
    var n := c[k];
    assert Mine(owner, p, c) && n in c;
    assert d == c[..k] + c[k + 1..] && c == c[..k] + [n] + c[k + 1..];
    assert forall m: nat :: m in c <==> m == n || m in d;
    assert n !in d;
    var chains', owner' := chains[p := d], owner[n := Held];
    forall q: nat | q < |chains| ensures Mine(owner', q, chains'[q]) { assert Mine(owner, q, chains[q]); }
  }

  /** Writing nodes of chain p, or nodes in nobody's list, leaves the other chains alone. */
  lemma {:induction false} OtherChains(ns: seq<Node>, ms: seq<Node>, free: seq<nat>, chains: seq<seq<nat>>, owner: seq<Owner>, p: nat)
    requires Exclusive(free, chains, owner) && |ns| == |ms| == N_MMAP
    requires forall q :: 0 <= q < |chains| ==> ChainLinked(ns, chains[q])
    requires forall m :: 0 <= m < N_MMAP && owner[m] != Held && owner[m] != InChain(p) ==> ms[m] == ns[m]
    ensures forall q :: 0 <= q < |chains| && q != p ==> ChainLinked(ms, chains[q]) && Regions(ms, chains[q]) == Regions(ns, chains[q])
  {
    forall q: nat | q < |chains| && q != p ensures ChainLinked(ms, chains[q]) && Regions(ms, chains[q]) == Regions(ns, chains[q]) {
      assert Mine(owner, q, chains[q]);
      forall k | 0 <= k < |chains[q]| ensures SameRegion(ms[chains[q][k]], ns[chains[q][k]]) {
        assert chains[q][k] in chains[q];
      }
      ListFrame(ns, ms, chains[q]);
    }
  }

  datatype Outcome = Done | Misaligned | OutOfRange | NoNode | Panic(why: Mapping)

  class Nodes {
    const nodes: array<Node>
    var heads: seq<int>               // p->mmap of each process
    ghost var free: seq<nat>          // the pool behind list_head, in order
    ghost var chains: seq<seq<nat>>   // the nodes of each process's chain, in order
    ghost var owner: seq<Owner>

    /** The links agree with the lists. */
    ghost predicate Linked() reads this, nodes {
      && nodes.Length == N_MMAP && |heads| == |chains|
      && PoolLinked(nodes[..], free)
      && (forall p :: 0 <= p < |chains| ==> ChainLinked(nodes[..], chains[p]) && heads[p] == At(chains[p], 0))
    }

    ghost predicate Owned() reads this { |owner| == N_MMAP && Exclusive(free, chains, owner) }

    ghost function Chain(p: nat): seq<Region> reads this, nodes
      requires Linked() && p < |chains|
    {
      Regions(nodes[..], chains[p])
    }

    ghost predicate Ordered() reads this, nodes
      requires Linked()
    {
      forall p :: 0 <= p < |chains| ==> ChainOk(Chain(p))
    }

    ghost predicate Valid() reads this, nodes { Linked() && Owned() && Ordered() }

    /** mmap_init. */
    constructor ()
      ensures Valid() && |free| == N_MMAP - 1 && chains == [] && fresh(nodes)
    {
      nodes := new Node[N_MMAP](i => Node(FIRST, 0, NULL, if i == N_MMAP - 1 then NULL else i + 1));
      heads, chains := [], [];
      new;
      free := seq(N_MMAP - 1, i => i + 1);
      owner := seq(N_MMAP, i => if i == 0 then Head else InPool);
      forall k: nat | k < |free| ensures PoolNext(nodes[..], free, k) {}
      forall n: nat ensures n in free <==> 0 < n < N_MMAP {
        if 0 < n < N_MMAP { assert free[n - 1] == n; }
      }
    }

    /** mmap_region_alloc. */
    method RegionAlloc(init: bool) returns (r: Option<nat>)
      requires Valid()
      modifies nodes, `free, `owner
      ensures Valid() && chains == old(chains)
      ensures forall p :: 0 <= p < |chains| ==> Chain(p) == old(Chain(p))
      ensures r == None <==> old(free) == []
      ensures r == None ==> free == old(free) && owner == old(owner) && nodes[..] == old(nodes[..])
      ensures r.Some? ==> 0 < r.value < N_MMAP && r.value == old(free)[0] && old(owner)[r.value] == InPool
      ensures r.Some? ==> free == old(free)[1..] && owner == old(owner)[r.value := Held]
      ensures r.Some? && init ==> nodes[r.value].begin == FIRST && nodes[r.value].npages == LAST - FIRST && nodes[r.value].next == NULL
      ensures forall n :: 0 <= n < N_MMAP && Some(n) != r ==> SameRegion(nodes[n], old(nodes[n]))
    {
      var region := nodes[0].poolNext;
      if region == NULL { return None; }
      var n: nat := region;
      assert n == free[0] && n in free;
      ghost var ns := nodes[..];
      if init {
        nodes[n] := nodes[n].(begin := FIRST, npages := LAST - FIRST, next := NULL);
      }
      ghost var mid := nodes[..];
      PoolFrame(ns, mid, free);
      PoolPop(mid, free);
      nodes[0] := nodes[0].(poolNext := nodes[n].poolNext);
      ghost var ms := nodes[..];
      assert ms == mid[0 := mid[0].(poolNext := mid[n].poolNext)];
      OwnedPop(free, chains, owner);
      free := free[1..];
      owner := owner[n := Held];
      r := Some(n);
      forall p | 0 <= p < |chains| ensures ChainLinked(ms, chains[p]) && Regions(ms, chains[p]) == Regions(ns, chains[p]) {
        forall k | 0 <= k < |chains[p]| ensures SameRegion(ms[chains[p][k]], ns[chains[p][k]]) {
          assert chains[p][k] in chains[p];
        }
        ListFrame(ns, ms, chains[p]);
      }
      forall p | 0 <= p < |chains| ensures ChainOk(Chain(p)) { assert old(Chain(p)) == Chain(p); }
    }

    /** mmap_region_free: nothing here checks that the node is out of every chain. */
    method RegionFree(n: nat)
      requires Linked() && 0 < n < N_MMAP && |owner| == N_MMAP && n !in free
      modifies nodes, `free, `owner
      ensures Linked() && chains == old(chains)
      ensures forall p :: 0 <= p < |chains| ==> Chain(p) == old(Chain(p))
      ensures free == [n] + old(free) && owner == old(owner)[n := InPool]
      ensures old(Owned()) && old(owner)[n] == Held ==> Owned()
      ensures forall m :: 0 <= m < N_MMAP ==> SameRegion(nodes[m], old(nodes[m]))
    {
      nodes[n] := nodes[n].(poolNext := nodes[0].poolNext);
      nodes[0] := nodes[0].(poolNext := n);
      ghost var ns, ms := old(nodes[..]), nodes[..];
      assert ms == ns[n := ns[n].(poolNext := ns[0].poolNext)][0 := ns[0].(poolNext := n)];
      PoolPush(ns, free, n);
      OwnedPush(free, chains, owner, n);
      free := [n] + free;
      owner := owner[n := InPool];
      forall p | 0 <= p < |chains| ensures ChainLinked(ms, chains[p]) && Regions(ms, chains[p]) == Regions(ns, chains[p]) {
        ListFrame(ns, ms, chains[p]);
      }
    }

    /** Filling in a node that is in nobody's list. */
    method FillHeld(n: nat, begin: nat, npages: nat, next: int)
      requires Linked() && Owned() && n < N_MMAP && owner[n] == Held
      modifies nodes
      ensures Linked() && Owned() && forall q :: 0 <= q < |chains| ==> Chain(q) == old(Chain(q))
      ensures nodes[..] == old(nodes[..])[n := old(nodes[n]).(begin := begin, npages := npages, next := next)]
    {
      ghost var ns := nodes[..];
      nodes[n] := nodes[n].(begin := begin, npages := npages, next := next);
      PoolFrame(ns, nodes[..], free);
      OtherChains(ns, nodes[..], free, chains, owner, |chains|);
    }

    // The three kinds of assignment the operations make to a chain. `k` is a position in chain p.

    /** Giving the region at position k new bounds. */
    method SetRegion(p: nat, ghost k: nat, n: nat, begin: nat, npages: nat)
      requires Linked() && Owned() && p < |chains| && 0 < k < |chains[p]| && n == chains[p][k]
      modifies nodes
      ensures Linked() && Owned()
      ensures Chain(p) == old(Chain(p))[k - 1 := Region(begin, npages)]
      ensures forall q :: 0 <= q < |chains| && q != p ==> Chain(q) == old(Chain(q))
      ensures nodes[..] == old(nodes[..])[n := old(nodes[n]).(begin := begin, npages := npages)]
    {
      ghost var ns := nodes[..];
      nodes[n] := nodes[n].(begin := begin, npages := npages);
      assert Mine(owner, p, chains[p]) && n in chains[p];
      ChainSet(ns, chains[p], k, Region(begin, npages));
      PoolFrame(ns, nodes[..], free);
      OtherChains(ns, nodes[..], free, chains, owner, p);
    }

    /** `prev->next = n`, where n's own link already points at what followed prev. */
    method LinkIn(p: nat, ghost k: nat, prev: nat, n: nat)
      requires Linked() && Owned() && p < |chains| && 0 < k <= |chains[p]| && prev == chains[p][k - 1]
      requires n < N_MMAP && owner[n] == Held && nodes[n].next == At(chains[p], k)
      modifies nodes, `chains, `owner
      ensures Linked() && Owned() && chains == old(chains)[p := With(old(chains)[p], k, n)] && owner == old(owner)[n := InChain(p)]
      ensures Chain(p) == old(Chain(p))[..k - 1] + [RegionOf(nodes[n])] + old(Chain(p))[k - 1..]
      ensures forall q :: 0 <= q < |chains| && q != p ==> Chain(q) == old(Chain(q))
      ensures nodes[..] == old(nodes[..])[prev := old(nodes[prev]).(next := n)]
    {
      hide Exclusive, PoolLinked, ChainLinked, Mine, NoDup, With, Regions;
      ghost var ns := nodes[..];
      ChainMine(free, chains, owner, p, k - 1);
      nodes[prev] := nodes[prev].(next := n);
      assert nodes[..] == ns[prev := ns[prev].(next := n)];
      OwnedIn(free, chains, owner, p, k, n);
      WithAt(chains[p], k, n, 0);
      ChainInsert(ns, chains[p], k, n);
      PoolFrame(ns, nodes[..], free);
      OtherChains(ns, nodes[..], free, chains, owner, p);
      chains, owner := chains[p := With(chains[p], k, n)], owner[n := InChain(p)];
    }

    /** `prev->next = n->next`. */
    method LinkOut(p: nat, ghost k: nat, prev: nat, n: nat)
      requires Linked() && Owned() && p < |chains| && 0 < k < |chains[p]| && prev == chains[p][k - 1] && n == chains[p][k]
      modifies nodes, `chains, `owner
      ensures Linked() && Owned() && chains == old(chains)[p := Without(old(chains)[p], k)] && owner == old(owner)[n := Held]
      ensures old(owner)[n] == InChain(p) && n !in free && free == old(free)
      ensures Chain(p) == old(Chain(p))[..k - 1] + old(Chain(p))[k..]
      ensures forall q :: 0 <= q < |chains| && q != p ==> Chain(q) == old(Chain(q))
      ensures nodes[..] == old(nodes[..])[prev := old(nodes[prev]).(next := old(nodes[n]).next)]
    {
      hide Exclusive, PoolLinked, ChainLinked, Mine, NoDup, Without, Regions;
      ghost var ns := nodes[..];
      ChainMine(free, chains, owner, p, k - 1);
      ChainMine(free, chains, owner, p, k);
      nodes[prev] := nodes[prev].(next := nodes[n].next);
      assert nodes[..] == ns[prev := ns[prev].(next := ns[n].next)];
      OwnedOut(free, chains, owner, p, k);
      WithoutAt(chains[p], k);
      ChainDrop(ns, chains[p], k);
      PoolFrame(ns, nodes[..], free);
      OtherChains(ns, nodes[..], free, chains, owner, p);
      chains, owner := chains[p := Without(chains[p], k)], owner[n := Held];
    }

    // ----- uvm_mmap

    /** The pages are in the area, and the arithmetic of `begin + npages * PGSIZE` is 64-bit. */
    static predicate BadRange(addr: nat, npages: nat) {
      addr < FIRST * PGSIZE || (addr + npages * PGSIZE) % U64 > LAST * PGSIZE
    }

    /** The mapping would leave one region more than there was. */
    static predicate Grows(c: seq<Region>, begin: nat, n: nat) {
      var m := Mmap(c, begin, n);
      m.Mapped? && |m.chain| == |c| + 1
    }

    /** uvm_mmap, up to the page-table part. */
    method UvmMmap(p: nat, addr: nat, npages: nat) returns (r: Outcome, at: nat)
      requires Valid() && p < |chains| && chains[p] != [] && addr < U64 && npages < U32 / PGSIZE
      modifies this, nodes
      ensures Linked() && |chains| == |old(chains)| && chains[p] != []
      ensures npages == 0 ==> r == Done && Chain(p) == old(Chain(p))
      ensures npages > 0 ==> (r == Misaligned <==> addr % PGSIZE != 0)
      ensures npages > 0 ==> (r == OutOfRange <==> addr % PGSIZE == 0 && addr != 0 && BadRange(addr, npages))
      ensures r.Panic? ==> npages > 0 && r.why == Mmap(old(Chain(p)), addr / PGSIZE, npages) && !r.why.Mapped?
      ensures npages > 0 && r == Done ==>
              var m := Mmap(old(Chain(p)), addr / PGSIZE, npages);
              m.Mapped? && Chain(p) == m.chain && at == m.at
      ensures r == NoNode ==> old(free) == []
      ensures r == NoNode ==> npages > 0 && Grows(old(Chain(p)), addr / PGSIZE, npages)
      ensures r != Done ==> Chain(p) == old(Chain(p))
      ensures Valid() && |free| >= |old(free)| - 1
      ensures forall q :: 0 <= q < |chains| && q != p ==> Chain(q) == old(Chain(q))
      ensures SameHeld(old(owner), owner)
    {
      hide Mmap, Exclusive, PoolLinked, ChainOk, Without, With, Mine, Pick, Regions, BadRange;
      at := addr / PGSIZE;
      if npages == 0 { return Done, at; }
      if addr % PGSIZE != 0 { return Misaligned, at; }
      if addr != 0 && BadRange(addr, npages) { return OutOfRange, at; }
      var begin := addr / PGSIZE;
      ghost var c := Chain(p);
      ghost var list := chains[p];
      assert RegionNext(nodes[..], list, 0);
      var prev: nat := heads[p];
      var region := nodes[prev].next;
      ghost var k: nat := 1;
      while region != NULL
        invariant 0 < k <= |list| && prev == list[k - 1] && region == At(list, k)
        invariant forall j :: 0 <= j < k - 1 ==> !Takes(c[j], begin, npages)
        decreases |list| - k
      {
        var cur: nat := region;
        assert c[k - 1] == RegionOf(nodes[cur]);
        if Takes(Region(nodes[cur].begin, nodes[cur].npages), begin, npages) {
          PickIs(c, begin, npages, k - 1);
          at := if begin == 0 then nodes[cur].begin else begin;
          r := TakeFrom(p, k, prev, cur, at, npages);
          if r == Done { MmapKeeps(c, begin, npages); }
          assert ChainOk(Chain(p));
          assert forall q :: 0 <= q < |chains| ==> ChainOk(Chain(q));
          return;
        }
        assert RegionNext(nodes[..], list, k);
        prev := cur;
        region := nodes[cur].next;
        k := k + 1;
      }
      PickIs(c, begin, npages, |c|);
      r := Panic(NotFound);
    }

    /** The body of uvm_mmap's loop once the region is found. */
    method TakeFrom(p: nat, ghost k: nat, prev: nat, region: nat, begin: nat, npages: nat) returns (r: Outcome)
      requires Valid() && p < |chains| && 0 < k < |chains[p]| && prev == chains[p][k - 1] && region == chains[p][k]
      requires nodes[region].begin <= begin && npages > 0
      modifies this, nodes
      ensures Linked() && Owned() && |chains| == |old(chains)| && chains[p] != []
      ensures |free| >= |old(free)| - 1
      ensures r in {Done, NoNode, Panic(Insufficient)}
      ensures r == Panic(Insufficient) <==> old(Chain(p)[k - 1].End()) < begin + npages
      ensures r == Done ==> Chain(p) == Cut(old(Chain(p)), k - 1, begin, npages)
      ensures r == NoNode ==> old(free) == [] && |Cut(old(Chain(p)), k - 1, begin, npages)| == |old(Chain(p))| + 1
      ensures r != Done ==> Chain(p) == old(Chain(p))
      ensures forall q :: 0 <= q < |chains| && q != p ==> Chain(q) == old(Chain(q))
      ensures SameHeld(old(owner), owner)
    {
      hide Cut, Exclusive, PoolLinked, ChainOk, Without, With, Mine;
      ghost var c := Chain(p);
      assert c[k - 1] == RegionOf(nodes[region]);
      var regionEnd := nodes[region].begin + nodes[region].npages;
      var end := begin + npages;
      var prevNpages := begin - nodes[region].begin;
      var nextNpages := regionEnd - end;
      if nextNpages < 0 { return Panic(Insufficient); }
      CutForms(c, k - 1, begin, npages);
      if prevNpages != 0 && nextNpages != 0 {
        r := SplitRegion(p, k, region, end, prevNpages, nextNpages);
      } else if prevNpages == 0 && nextNpages != 0 {
        SetRegion(p, k, region, end, nextNpages);
        r := Done;
      } else if prevNpages != 0 {
        SetRegion(p, k, region, nodes[region].begin, prevNpages);
        r := Done;
      } else {
        LinkOut(p, k, prev, region);
        RegionFree(region);
        r := Done;
      }
    }

    /** A request in the middle of a region leaves two: a new node manages the rear part. */
    method SplitRegion(p: nat, ghost k: nat, region: nat, end: nat, prevNpages: nat, nextNpages: nat) returns (r: Outcome)
      requires Valid() && p < |chains| && 0 < k < |chains[p]| && region == chains[p][k]
      modifies this, nodes
      ensures Linked() && Owned() && |chains| == |old(chains)| && chains[p] != [] && r in {Done, NoNode}
      ensures |free| >= |old(free)| - 1
      ensures r == Done ==> var c := old(Chain(p));
              Chain(p) == c[..k - 1] + [Region(c[k - 1].begin, prevNpages), Region(end, nextNpages)] + c[k..]
      ensures r == NoNode ==> old(free) == [] && Chain(p) == old(Chain(p))
      ensures forall q :: 0 <= q < |chains| && q != p ==> Chain(q) == old(Chain(q))
      ensures SameHeld(old(owner), owner)
    {
      hide Exclusive, PoolLinked, ChainOk, Without, With, Mine;
      ghost var c := Chain(p);
      assert c[k - 1] == RegionOf(nodes[region]);
      var got := RegionAlloc(false);
      if got == None { return NoNode; }
      var newRegion := got.value;
      assert chains[p][k] != newRegion by { NotHeld(free, chains, owner, p, k, newRegion); }
      SetRegion(p, k, region, nodes[region].begin, prevNpages);
      FillHeld(newRegion, end, nextNpages, nodes[region].next);
      assert RegionNext(nodes[..], chains[p], k);
      LinkIn(p, k + 1, region, newRegion);
      r := Done;
    }

    // ----- uvm_munmap

    /** uvm_munmap, up to the page-table part, which then panics if a page was not mapped. */
    method UvmMunmap(p: nat, addr: nat, npages: nat) returns (r: Outcome)
      requires Valid() && p < |chains| && chains[p] != [] && addr < U64 && npages < U32 / PGSIZE
      modifies this, nodes
      ensures Linked() && |chains| == |old(chains)| && chains[p] != []
      ensures npages == 0 ==> r == Done
      ensures npages > 0 ==> (r == Misaligned <==> addr % PGSIZE != 0)
      ensures npages > 0 ==> (r == OutOfRange <==> addr % PGSIZE == 0 && BadRange(addr, npages))
      ensures npages > 0 && addr % PGSIZE == 0 && !BadRange(addr, npages) ==> (r == NoNode <==> old(free) == [])
      ensures r in {Done, Misaligned, OutOfRange, NoNode}
      ensures r != Done || npages == 0 ==> Valid() && Chain(p) == old(Chain(p))
      ensures r == Done && npages > 0 ==> Chain(p) == Munmap(old(Chain(p)), addr / PGSIZE, npages)
      ensures r == Done && npages > 0 ==> (Owned() <==> !TailMerge(old(Chain(p)), addr / PGSIZE, npages))
      ensures r == Done && npages > 0 && NoneFree(old(Chain(p)), addr / PGSIZE, npages) ==>
        (Valid() <==> !TailMerge(old(Chain(p)), addr / PGSIZE, npages) && addr + npages * PGSIZE < U64)
      ensures r == Done && npages > 0 && TailMerge(old(Chain(p)), addr / PGSIZE, npages) ==>
        free != [] && free[0] == old(chains[p][|chains[p]| - 1]) && free[0] in chains[p]
      ensures forall q :: 0 <= q < |chains| && q != p ==> Chain(q) == old(Chain(q))
      ensures Owned() ==> SameHeld(old(owner), owner)
    {
      hide Munmap, TailMerge, Exclusive, PoolLinked, ChainOk, Mine, NoneFree;
      if npages == 0 { return Done; }
      if addr % PGSIZE != 0 { return Misaligned; }
      if BadRange(addr, npages) { return OutOfRange; }
      var begin := addr / PGSIZE;
      RangeEnds(addr, npages);
      ghost var c := Chain(p);
      r := GiveBack(p, begin, npages);
      assert forall q :: 0 <= q < |chains| && q != p ==> ChainOk(Chain(q));
      if NoneFree(c, begin, npages) { MunmapKeeps(c, begin, npages); }
    }

    /** The part of uvm_munmap after its checks. */
    method GiveBack(p: nat, begin: nat, npages: nat) returns (r: Outcome)
      requires Valid() && p < |chains| && chains[p] != [] && npages > 0
      requires FIRST <= begin < PAGE_WRAP && npages < U32 / PGSIZE
      modifies this, nodes
      ensures Linked() && |chains| == |old(chains)| && chains[p] != []
      ensures r == (if old(free) == [] then NoNode else Done)
      ensures r == NoNode ==> Valid() && Chain(p) == old(Chain(p)) && owner == old(owner)
      ensures r == Done ==> Chain(p) == Munmap(old(Chain(p)), begin, npages)
      ensures r == Done ==> (Owned() <==> !TailMerge(old(Chain(p)), begin, npages))
      ensures r == Done && TailMerge(old(Chain(p)), begin, npages) ==>
        free != [] && free[0] == old(chains[p][|chains[p]| - 1]) && free[0] in chains[p]
      ensures forall q :: 0 <= q < |chains| && q != p ==> Chain(q) == old(Chain(q))
      ensures Owned() ==> SameHeld(old(owner), owner)
    {
      hide Munmap, MunmapAt, TailMerge, Gap, Exclusive, PoolLinked, ChainOk, Without, With, Mine, EndAt, Regions;
      var got := NewRegion(begin, npages);
      if got == None { return NoNode; }
      var newRegion := got.value;
      ghost var k;
      var prev, next;
      prev, next, k := FindGap(p, begin, npages);
      Place(p, k, prev, next, newRegion, begin, npages);
      r := Done;
    }

    /** Linking the new region in where the search stopped. */
    method Place(p: nat, ghost k: nat, prev: nat, next: int, newRegion: nat, begin: nat, npages: nat)
      requires Valid() && p < |chains| && 0 < k <= |chains[p]| && prev == chains[p][k - 1] && next == At(chains[p], k)
      requires newRegion < N_MMAP && owner[newRegion] == Held && nodes[newRegion] == Node(begin, npages, NULL, nodes[newRegion].poolNext)
      requires begin < PAGE_WRAP && npages < U32 / PGSIZE
      requires next != NULL ==> EndAt(Chain(p), k - 1) <= begin && EndPage(begin, npages) <= Chain(p)[k - 1].begin
      modifies this, nodes
      ensures Linked() && |chains| == |old(chains)| && chains[p] != []
      ensures Chain(p) == MunmapAt(old(Chain(p)), begin, npages, k - 1)
      ensures Owned() <==> next != NULL || begin != EndAt(old(Chain(p)), |old(Chain(p))|)
      ensures !Owned() ==> free == [prev] + old(free) && chains[p] == old(chains[p]) + [newRegion]
      ensures forall q :: 0 <= q < |chains| && q != p ==> Chain(q) == old(Chain(q))
      ensures Owned() ==> forall n :: 0 <= n < N_MMAP && n != newRegion ==> (owner[n] == Held <==> old(owner)[n] == Held)
      ensures Owned() ==> owner[newRegion] != Held
    {
      hide Exclusive, PoolLinked, ChainOk, Without, With, Mine, MunmapAt, EndAt;
      if next != NULL {
        InsertBefore(p, k, prev, next, newRegion, begin, npages);
      } else {
        Append(p, prev, newRegion, begin, npages);
      }
    }

    /** A node for the region [begin, begin + npages), linked nowhere yet. */
    method NewRegion(begin: nat, npages: nat) returns (r: Option<nat>)
      requires Valid()
      modifies this, nodes
      ensures Valid() && chains == old(chains) && forall q :: 0 <= q < |chains| ==> Chain(q) == old(Chain(q))
      ensures r == None <==> old(free) == []
      ensures r == None ==> owner == old(owner)
      ensures r.Some? ==> r.value < N_MMAP && old(owner)[r.value] != Held && owner == old(owner)[r.value := Held]
      ensures r.Some? ==> free == old(free)[1..]
      ensures r.Some? ==> nodes[r.value] == Node(begin, npages, NULL, nodes[r.value].poolNext)
    {
      hide Exclusive, PoolLinked, ChainOk, Mine;
      r := RegionAlloc(false);
      if r.Some? {
        FillHeld(r.value, begin, npages, NULL);
        assert forall q :: 0 <= q < |chains| ==> ChainOk(Chain(q));
      }
    }

    /** uvm_munmap's search: the two neighbours of the new region. */
    method FindGap(p: nat, begin: nat, npages: nat) returns (prev: nat, next: int, ghost k: nat)
      requires Linked() && p < |chains| && chains[p] != []
      ensures 0 < k <= |chains[p]| == |Chain(p)| + 1 && prev == chains[p][k - 1] && next == At(chains[p], k)
      ensures Gap(Chain(p), begin, npages, 0) == k - 1
      ensures next != NULL ==> EndAt(Chain(p), k - 1) <= begin && EndPage(begin, npages) <= Chain(p)[k - 1].begin
      ensures Munmap(Chain(p), begin, npages) == MunmapAt(Chain(p), begin, npages, k - 1)
      ensures TailMerge(Chain(p), begin, npages) <==> k - 1 == |Chain(p)| && begin == EndAt(Chain(p), |Chain(p)|)
    {
      hide Munmap, TailMerge, Gap, PoolLinked, ChainOk, MunmapAt, Regions, EndAt;
      ghost var c, list := Chain(p), chains[p];
      assert RegionNext(nodes[..], list, 0);
      prev := heads[p];
      next := nodes[prev].next;
      k := 1;
      while next != NULL
        invariant 0 < k <= |list| && prev == list[k - 1] && next == At(list, k)
        invariant forall j :: 0 <= j < k - 1 ==> !(EndAt(c, j) <= begin && EndPage(begin, npages) <= c[j].begin)
        decreases |list| - k
      {
        var prevEnd := nodes[prev].begin + nodes[prev].npages;
        EndOf(nodes[..], list, k);
        if begin >= prevEnd && EndPage(begin, npages) <= nodes[next].begin { break; }
        assert RegionNext(nodes[..], list, k);
        prev := next;
        next := nodes[next].next;
        k := k + 1;
      }
      GapAt(c, begin, npages, k - 1);
    }

    /** Between two regions: merge with those it touches, or link it in. */
    method InsertBefore(p: nat, ghost k: nat, prev: nat, next: nat, newRegion: nat, begin: nat, npages: nat)
      requires Valid() && p < |chains| && 0 < k < |chains[p]| && prev == chains[p][k - 1] && next == chains[p][k]
      requires newRegion < N_MMAP && owner[newRegion] == Held && nodes[newRegion].begin == begin && nodes[newRegion].npages == npages
      requires EndAt(Chain(p), k - 1) <= begin < PAGE_WRAP && npages < U32 / PGSIZE && EndPage(begin, npages) <= Chain(p)[k - 1].begin
      modifies this, nodes
      ensures Linked() && Owned() && |chains| == |old(chains)| && chains[p] != []
      ensures Chain(p) == MunmapAt(old(Chain(p)), begin, npages, k - 1)
      ensures forall q :: 0 <= q < |chains| && q != p ==> Chain(q) == old(Chain(q))
      ensures forall n :: 0 <= n < N_MMAP && n != newRegion ==> (owner[n] == Held <==> old(owner)[n] == Held)
      ensures owner[newRegion] != Held
    {
      hide Exclusive, PoolLinked, ChainOk, Without, With, Mine, MunmapAt, Regions, ChainLinked, NoDup;
      EndOf(nodes[..], chains[p], k);
      ChainMine(free, chains, owner, p, k - 1);
      ChainMine(free, chains, owner, p, k);
      NotFree(free, chains, owner, newRegion);
      var end := EndPage(begin, npages);
      var prevEnd := nodes[prev].begin + nodes[prev].npages;
      if begin == prevEnd && nodes[prev].npages != 0 {
        MergeLeft(p, k, prev, next, newRegion, begin, npages);
      } else if end == nodes[next].begin {
        InsertForms(Chain(p), begin, npages, k - 1);
        BackFromEnd(begin, npages);
        SetRegion(p, k, next, BackFrom(nodes[next].begin, npages), nodes[next].npages + npages);
        RegionFree(newRegion);
      } else {
        InsertForms(Chain(p), begin, npages, k - 1);
        FillHeld(newRegion, begin, npages, next);
        LinkIn(p, k, prev, newRegion);
      }
    }

    /** The new region continues the one before it, and may close the gap to the next. */
    method MergeLeft(p: nat, ghost k: nat, prev: nat, next: nat, newRegion: nat, begin: nat, npages: nat)
      requires Valid() && p < |chains| && 1 < k < |chains[p]| && prev == chains[p][k - 1] && next == chains[p][k]
      requires newRegion < N_MMAP && owner[newRegion] == Held && newRegion !in free && newRegion != 0
      requires begin == Chain(p)[k - 2].End() && EndPage(begin, npages) <= Chain(p)[k - 1].begin
      modifies this, nodes
      ensures Linked() && Owned() && |chains| == |old(chains)| && chains[p] != []
      ensures Chain(p) == MunmapAt(old(Chain(p)), begin, npages, k - 1)
      ensures forall q :: 0 <= q < |chains| && q != p ==> Chain(q) == old(Chain(q))
      ensures forall n :: 0 <= n < N_MMAP && n != newRegion ==> (owner[n] == Held <==> old(owner)[n] == Held)
      ensures owner[newRegion] != Held
    {
      hide Exclusive, PoolLinked, ChainOk, Without, With, Mine, MunmapAt;
      MergeForms(Chain(p), begin, npages, k - 1);
      EndOf(nodes[..], chains[p], k);
      SetRegion(p, k - 1, prev, nodes[prev].begin, nodes[prev].npages + npages);
      RegionFree(newRegion);
      if EndPage(begin, npages) == nodes[next].begin { MergeNext(p, k, prev, next); }
    }

    /** The second merge of a new region that closes a gap: the node after it goes back to the pool. */
    method MergeNext(p: nat, ghost k: nat, prev: nat, next: nat)
      requires Linked() && Owned() && p < |chains| && 1 < k < |chains[p]| && prev == chains[p][k - 1] && next == chains[p][k]
      modifies this, nodes
      ensures Linked() && Owned() && |chains| == |old(chains)| && chains[p] != []
      ensures var c := old(Chain(p));
              Chain(p) == (c[..k - 1] + c[k..])[k - 2 := Region(c[k - 2].begin, c[k - 2].npages + c[k - 1].npages)]
      ensures forall q :: 0 <= q < |chains| && q != p ==> Chain(q) == old(Chain(q))
      ensures forall n :: 0 <= n < N_MMAP ==> (owner[n] == Held <==> old(owner)[n] == Held)
    {
      hide Exclusive, PoolLinked, ChainOk, Mine, Regions, ChainLinked;
      EndOf(nodes[..], chains[p], k);
      ChainMine(free, chains, owner, p, k - 1);
      ChainMine(free, chains, owner, p, k);
      var more := nodes[next].npages;
      LinkOut(p, k, prev, next);
      SetRegion(p, k - 1, prev, nodes[prev].begin, nodes[prev].npages + more);
      RegionFree(next);
    }

    /** After the last region: link it in, and "merge" it with a last region it touches. */
    method Append(p: nat, prev: nat, newRegion: nat, begin: nat, npages: nat)
      requires Valid() && p < |chains| && chains[p] != [] && prev == chains[p][|chains[p]| - 1]
      requires newRegion < N_MMAP && owner[newRegion] == Held && nodes[newRegion] == Node(begin, npages, NULL, nodes[newRegion].poolNext)
      modifies this, nodes
      ensures Linked() && |chains| == |old(chains)| && chains[p] == old(chains[p]) + [newRegion]
      ensures Chain(p) == MunmapAt(old(Chain(p)), begin, npages, |old(Chain(p))|)
      ensures forall q :: 0 <= q < |chains| && q != p ==> Chain(q) == old(Chain(q))
      ensures Owned() <==> begin != EndAt(old(Chain(p)), |old(Chain(p))|)
      ensures begin == EndAt(old(Chain(p)), |old(Chain(p))|) ==> free == [prev] + old(free)
      ensures Owned() ==> forall n :: 0 <= n < N_MMAP && n != newRegion ==> (owner[n] == Held <==> old(owner)[n] == Held)
      ensures Owned() ==> owner[newRegion] != Held
    {
      hide Exclusive, PoolLinked, ChainOk, Mine, MunmapAt, With, Regions, ChainLinked, NoDup;
      AppendForms(Chain(p), begin, npages);
      ghost var k := |chains[p]|;
      EndOf(nodes[..], chains[p], k);
      ChainMine(free, chains, owner, p, k - 1);
      WithLast(chains[p], newRegion);
      LinkIn(p, k, prev, newRegion);
      var prevEnd := nodes[prev].begin + nodes[prev].npages;
      if begin == prevEnd {
        SetRegion(p, k, newRegion, begin - nodes[prev].npages, npages + nodes[prev].npages);
        ChainNotFree(free, chains, owner, p, k - 1);
        RegionFree(prev);
        TwicePlaced(free, chains, owner, p, k - 1);
      }
    }

    // ----- sys_mmap

    /** sys_mmap picks the address it will return by its own scan, before uvm_mmap scans again. */
    method SysMmap(p: nat, addr: nat, len: nat) returns (ret: int, r: Outcome)
      requires Valid() && p < |chains| && chains[p] != [] && addr < U64 && len < U32
      modifies this, nodes
      ensures Valid() && |chains| == |old(chains)|
      ensures len % PGSIZE != 0 ==> ret == -1 && Chain(p) == old(Chain(p))
      ensures ret == -1 ==> r == Done && Chain(p) == old(Chain(p))
      ensures addr != 0 && len % PGSIZE == 0 ==> ret == addr
      ensures addr == 0 && len % PGSIZE == 0 && len > 0 ==>
        (ret == -1 <==> Mmap(old(Chain(p)), 0, len / PGSIZE) == NotFound) && r in {Done, NoNode}
      ensures len > 0 && ret != -1 && r == Done ==>
        (var m := Mmap(old(Chain(p)), addr / PGSIZE, len / PGSIZE);
         m.Mapped? && Chain(p) == m.chain && ret == m.at * PGSIZE)
      ensures forall q :: 0 <= q < |chains| && q != p ==> Chain(q) == old(Chain(q))
      ensures SameHeld(old(owner), owner)
    {
      hide Mmap, Exclusive, PoolLinked, ChainOk, Mine, Pick, BadRange;
      ret := addr;
      r := Done;
      if len % PGSIZE != 0 { return -1, Done; }
      ghost var c := Chain(p);
      if addr == 0 {
        ret := ScanFor(p, len);
        if ret == -1 { return; }
      }
      var at;
      r, at := UvmMmap(p, addr, len / PGSIZE);
      if addr != 0 && len > 0 { MmapPlace(c, addr / PGSIZE, len / PGSIZE); }
    }

    /** The scan of sys_mmap. */
    method ScanFor(p: nat, len: nat) returns (ret: int)
      requires Valid() && p < |chains| && chains[p] != [] && len % PGSIZE == 0
      ensures ret == -1 || ret >= 0
      ensures len > 0 ==> (ret == -1 <==> Mmap(Chain(p), 0, len / PGSIZE) == NotFound)
      ensures len > 0 && ret != -1 ==> Mmap(Chain(p), 0, len / PGSIZE).Mapped? && ret == Mmap(Chain(p), 0, len / PGSIZE).at * PGSIZE
    {
      hide Mmap, Exclusive, PoolLinked, ChainOk, Mine, Pick;
      ghost var c, list := Chain(p), chains[p];
      assert RegionNext(nodes[..], list, 0);
      var node := nodes[heads[p]].next;
      ghost var k: nat := 1;
      while true
        invariant 0 < k <= |list| && node == At(list, k)
        invariant forall j :: 0 <= j < k - 1 ==> c[j].npages * PGSIZE < len
        decreases |list| - k
      {
        if node == NULL {
          if len > 0 { ScanIs(c, len, k - 1); }
          return -1;
        }
        assert c[k - 1] == RegionOf(nodes[node]);
        if nodes[node].npages * PGSIZE >= len {
          if len > 0 { ScanIs(c, len, k - 1); }
          return nodes[node].begin * PGSIZE;
        }
        assert RegionNext(nodes[..], list, k);
        node := nodes[node].next;
        k := k + 1;
      }
    }

    // ----- making, copying and releasing chains

    /** A new process's chain with only the special region in it. */
    method NewHead() returns (r: Option<nat>)
      requires Valid()
      modifies this, nodes
      ensures Valid()
      ensures r == None <==> old(free) == []
      ensures r == None ==> chains == old(chains) && owner == old(owner) && forall q :: 0 <= q < |chains| ==> Chain(q) == old(Chain(q))
      ensures r.Some? ==> chains == old(chains) + [[r.value]] && free == old(free)[1..] && Chain(|chains| - 1) == []
      ensures r.Some? ==> forall q :: 0 <= q < |chains| - 1 ==> Chain(q) == old(Chain(q))
      ensures SameHeld(old(owner), owner)
    {
      hide PoolLinked, ChainOk, Mine;
      r := NewRegion(FIRST, 0);
      if r == None { return; }
      OwnedNew(free, chains, owner, r.value);
      heads := heads + [r.value];
      chains := chains + [[r.value]];
      owner := owner[r.value := InChain(|chains| - 1)];
      forall q | 0 <= q < |chains| ensures ChainLinked(nodes[..], chains[q]) {
        if q == |chains| - 1 { assert chains[q] == [r.value]; }
      }
      forall q | 0 <= q < |chains| - 1 ensures Chain(q) == old(Chain(q)) { assert chains[q] == old(chains)[q]; }
      EmptyOk(nodes[..], chains[|chains| - 1]);
      assert forall q :: 0 <= q < |chains| ==> ChainOk(Chain(q));
    }

    /** The first process's chain: the special region and one region for the whole area. */
    method FirstChain() returns (ok: bool)
      requires Valid()
      modifies this, nodes
      ensures ok <==> |old(free)| >= 2
      ensures ok ==> Valid() && |chains| == |old(chains)| + 1 && chains[|chains| - 1] != []
      ensures ok ==> free == old(free)[2..] && SameHeld(old(owner), owner)
      ensures ok ==> Chain(|chains| - 1) == [Region(FIRST, LAST - FIRST)] && forall q :: 0 <= q < |old(chains)| ==> Chain(q) == old(Chain(q))
    {
      hide Exclusive, PoolLinked, Mine, ChainLinked, Regions, ChainOk;
      var s := NewHead();
      if s == None { return false; }
      ok := LinkWhole(|heads| - 1, s.value);
    }

    /** mmap_region_alloc(true), linked in behind the special region. */
    method LinkWhole(p: nat, s: nat) returns (ok: bool)
      requires Valid() && p < |chains| && chains[p] == [s] && Chain(p) == []
      modifies nodes, `free, `chains, `owner
      ensures ok <==> old(free) != []
      ensures ok ==> Valid() && |chains| == |old(chains)| && chains[p] != [] && free == old(free)[1..] && SameHeld(old(owner), owner)
      ensures ok ==> Chain(p) == [Region(FIRST, LAST - FIRST)]
      ensures ok ==> forall q :: 0 <= q < |chains| && q != p ==> Chain(q) == old(Chain(q))
    {
      hide Exclusive, PoolLinked, Mine, ChainLinked, Regions, ChainOk;
      var region := RegionAlloc(true);
      if region == None { return false; }
      NotHeld(free, chains, owner, p, 0, region.value);
      LinkIn(p, 1, s, region.value);
      WholeOk();
      assert Chain(p) == [Region(FIRST, LAST - FIRST)];
      assert forall q :: 0 <= q < |chains| ==> ChainOk(Chain(q));
      ok := true;
    }

    /** proc_fork's copy of the parent's chain, node by node. */
    method CopyChain(p: nat) returns (ok: bool)
      requires Valid() && p < |chains| && chains[p] != []
      modifies this, nodes
      ensures ok <==> |old(free)| >= |old(chains)[p]|
      ensures ok ==> Valid() && |chains| == |old(chains)| + 1 && |chains[|chains| - 1]| == |old(chains)[p]|
      ensures ok ==> Chain(|chains| - 1) == old(Chain(p)) && forall q :: 0 <= q < |old(chains)| ==> Chain(q) == old(Chain(q))
      ensures ok ==> free == old(free)[|old(chains)[p]|..] && SameHeld(old(owner), owner)
    {
      hide Exclusive, PoolLinked, ChainOk, Mine, Regions;
      ghost var list, c, free0 := chains[p], Chain(p), free;
      var child := |heads|;
      assert RegionNext(nodes[..], list, 0);
      var region := nodes[heads[p]].next;
      var head := NewHead();
      if head == None { return false; }
      var last := head.value;
      ghost var k: nat := 1;
      while region != NULL
        invariant Valid() && |chains| == child + 1 && |chains[child]| == k && last == chains[child][k - 1]
        invariant 0 < k <= |list| && region == At(list, k) && k <= |free0| && free == free0[k..]
        invariant SameHeld(old(owner), owner)
        invariant chains[p] == list && Chain(child) == c[..k - 1]
        invariant forall q :: 0 <= q < child ==> Chain(q) == old(Chain(q))
        decreases |list| - k
      {
        assert RegionNext(nodes[..], list, k) && RegionNext(nodes[..], chains[child], k - 1);
        assert Chain(p)[k - 1] == RegionOf(nodes[region]);
        var begin, npages := nodes[region].begin, nodes[region].npages;
        region := nodes[region].next;
        var got := NewRegion(begin, npages);
        if got == None { return false; }
        CopyLink(child, k, last, got.value, c);
        last := got.value;
        k := k + 1;
      }
      assert c[..|c|] == c;
      ok := true;
    }

    /** Linking a copied region in behind the last one copied. */
    method CopyLink(child: nat, ghost k: nat, last: nat, n: nat, ghost c: seq<Region>)
      requires Valid() && child < |chains| && |chains[child]| == k > 0 && last == chains[child][k - 1]
      requires n < N_MMAP && owner[n] == Held && nodes[n].next == NULL
      requires ChainOk(c) && k <= |c| && Chain(child) == c[..k - 1] && RegionOf(nodes[n]) == c[k - 1]
      modifies nodes, `chains, `owner
      ensures Valid() && |chains| == |old(chains)| && chains[child] == old(chains)[child] + [n]
      ensures owner == old(owner)[n := InChain(child)]
      ensures Chain(child) == c[..k]
      ensures forall q :: 0 <= q < |chains| && q != child ==> Chain(q) == old(Chain(q)) && chains[q] == old(chains)[q]
    {
      hide Exclusive, PoolLinked, ChainOk, Mine, ChainLinked;
      LinkIn(child, k, last, n);
      WithLast(old(chains)[child], n);
      assert c[..k - 1] + [c[k - 1]] == c[..k];
      Unglue(c, k, k);
      assert Chain(child) == c[..k];
      assert forall q :: 0 <= q < |chains| && q != child ==> ChainOk(Chain(q));
      assert forall q :: 0 <= q < |chains| ==> ChainOk(Chain(q));
    }

    /** proc_free's release of a chain: every node of it goes back to the pool. */
    method FreeChain(p: nat)
      requires Valid() && p < |chains|
      modifies this, nodes
      ensures Valid() && chains == old(chains)[p := []] && |free| == |old(free)| + |old(chains)[p]|
      ensures forall n :: n in old(chains)[p] ==> n in free
      ensures SameHeld(old(owner), owner)
      ensures forall q :: 0 <= q < |chains| && q != p ==> Chain(q) == old(Chain(q))
    {
      hide Exclusive, PoolLinked, ChainOk, Mine, Regions, ChainLinked, Releasing;
      ghost var list := chains[p];
      var region := heads[p];
      Forget(p);
      ghost var free0, k: nat := |free|, 0;
      while region != NULL
        invariant Linked() && Owned() && chains == old(chains)[p := []] && k <= |list| && region == At(list, k)
        invariant Releasing(nodes[..], free, free0, old(owner), owner, list, k)
        invariant forall q :: 0 <= q < |chains| && q != p ==> Chain(q) == old(Chain(q))
        decreases |list| - k
      {
        ghost var ns := nodes[..];
        var prev := region;
        ReleaseNext(ns, free, free0, old(owner), owner, list, k);
        region := nodes[region].next;
        NotFree(free, chains, owner, prev);
        ReleaseStep(ns, free, free0, old(owner), owner, list, k);
        RegionFree(prev);
        ReleaseFrame(ns, nodes[..], free, free0, old(owner), owner, list, k + 1);
        k := k + 1;
      }
      Released(nodes[..], free, free0, old(owner), owner, list, k);
      assert forall q :: 0 <= q < |chains| && q != p ==> ChainOk(Chain(q));
      EmptyChainOk(nodes[..]);
    }

    /** p->mmap = NULL: the chain's nodes are in nobody's list for now. */
    method Forget(p: nat)
      requires Valid() && p < |chains|
      modifies `heads, `chains, `owner
      ensures Linked() && Owned() && chains == old(chains)[p := []]
      ensures Releasing(nodes[..], free, |free|, old(owner), owner, old(chains)[p], 0)
      ensures forall q :: 0 <= q < |chains| && q != p ==> Chain(q) == old(Chain(q))
    {
      hide Exclusive, PoolLinked, ChainOk, Mine, Regions;
      OwnedGone(free, chains, owner, p);
      ChainRange(free, chains, owner, p);
      assert chains[p][0..] == chains[p];
      heads := heads[p := NULL];
      chains, owner := chains[p := []], Gone(owner, p);
      assert forall q :: 0 <= q < |chains| && q != p ==> chains[q] == old(chains)[q];
    }
  }

  /** Held in `b` are those held in `a` and those listed. */
  ghost predicate HeldAlso(a: seq<Owner>, b: seq<Owner>, c: seq<nat>) {
    |a| == |b| == N_MMAP && forall n :: 0 <= n < N_MMAP ==> (b[n] == Held <==> a[n] == Held || n in c)
  }

  /** A chain being released: the first k of its nodes are in the pool again, the others are still
      linked to each other and in nobody's list. `was` is who had which node before. */
  ghost predicate Releasing(ns: seq<Node>, free: seq<nat>, free0: nat, was: seq<Owner>, owner: seq<Owner>, list: seq<nat>, k: nat) {
    && k <= |list| && NoDup(list) && |free| == free0 + k && HeldAlso(was, owner, list[k..])
    && (forall j :: 0 <= j < k ==> list[j] in free)
    && (forall j: nat :: k <= j < |list| ==> RegionNext(ns, list, j) && list[j] < N_MMAP && owner[list[j]] == Held && was[list[j]] != Held)
  }

  lemma ReleaseNext(ns: seq<Node>, free: seq<nat>, free0: nat, was: seq<Owner>, owner: seq<Owner>, list: seq<nat>, k: nat)
    requires Releasing(ns, free, free0, was, owner, list, k) && k < |list|
    ensures list[k] < N_MMAP == |owner| && RegionNext(ns, list, k) && owner[list[k]] == Held
  {
  }

  lemma HeldLess(a: seq<Owner>, b: seq<Owner>, list: seq<nat>, k: nat)
    requires k < |list| && HeldAlso(a, b, list[k..]) && NoDup(list) && list[k] < N_MMAP && a[list[k]] != Held
    ensures HeldAlso(a, b[list[k] := InPool], list[k + 1..])
  {
    var rest := list[k + 1..];
    assert list[k..] == [list[k]] + rest;
    assert forall j :: 0 <= j < |rest| ==> rest[j] == list[k + 1 + j] && rest[j] != list[k];
    forall n | 0 <= n < N_MMAP ensures b[list[k] := InPool][n] == Held <==> a[n] == Held || n in rest {
      assert n in list[k..] <==> n == list[k] || n in rest;
    }
  }

  lemma ReleaseStep(ns: seq<Node>, free: seq<nat>, free0: nat, was: seq<Owner>, owner: seq<Owner>, list: seq<nat>, k: nat)
    requires Releasing(ns, free, free0, was, owner, list, k) && k < |list|
    ensures list[k] < N_MMAP == |owner| && Releasing(ns, [list[k]] + free, free0, was, owner[list[k] := InPool], list, k + 1)
  {
    hide HeldAlso, RegionNext;
    HeldSizes(was, owner, list[k..]);
    HeldLess(was, owner, list, k);
  }

  lemma HeldSizes(a: seq<Owner>, b: seq<Owner>, c: seq<nat>)
    requires HeldAlso(a, b, c)
    ensures |a| == |b| == N_MMAP
  {
  }

  lemma ReleaseFrame(ns: seq<Node>, ms: seq<Node>, free: seq<nat>, free0: nat, was: seq<Owner>, owner: seq<Owner>, list: seq<nat>, k: nat)
    requires Releasing(ns, free, free0, was, owner, list, k) && |ns| == |ms| && forall n :: 0 <= n < |ns| ==> ms[n].next == ns[n].next
    ensures Releasing(ms, free, free0, was, owner, list, k)
  {
    forall j: nat | k <= j < |list| ensures RegionNext(ms, list, j) { assert RegionNext(ns, list, j); }
  }

  lemma Released(ns: seq<Node>, free: seq<nat>, free0: nat, was: seq<Owner>, owner: seq<Owner>, list: seq<nat>, k: nat)
    requires Releasing(ns, free, free0, was, owner, list, k) && k == |list|
    ensures |free| == free0 + |list| && SameHeld(was, owner) && forall n :: n in list ==> n in free
  {
  }

  lemma WithLast(c: seq<nat>, n: nat)
    ensures With(c, |c|, n) == c + [n]
  {
  }

  function Gone(owner: seq<Owner>, p: nat): (r: seq<Owner>)
    ensures |r| == |owner| && forall n :: 0 <= n < |owner| ==> r[n] == if owner[n] == InChain(p) then Held else owner[n]
  {
    if owner == [] then []
    else Gone(owner[..|owner| - 1], p) + [if owner[|owner| - 1] == InChain(p) then Held else owner[|owner| - 1]]
  }

  lemma {:induction false} OwnedGone(free: seq<nat>, chains: seq<seq<nat>>, owner: seq<Owner>, p: nat)
    requires Exclusive(free, chains, owner) && p < |chains|
    ensures Exclusive(free, chains[p := []], Gone(owner, p))
    ensures forall n :: n in chains[p] ==> n < N_MMAP && Gone(owner, p)[n] == Held && owner[n] == InChain(p)
    ensures HeldAlso(owner, Gone(owner, p), chains[p])
  {
    var chains', owner' := chains[p := []], Gone(owner, p);
    assert Mine(owner, p, chains[p]);
    forall q: nat | q < |chains'| ensures Mine(owner', q, chains'[q]) { assert Mine(owner, q, chains[q]); }
  }

  lemma ChainRange(free: seq<nat>, chains: seq<seq<nat>>, owner: seq<Owner>, p: nat)
    requires Exclusive(free, chains, owner) && p < |chains|
    ensures NoDup(chains[p]) && forall j :: 0 <= j < |chains[p]| ==> chains[p][j] in chains[p]
  {
  }

  lemma {:induction false} EmptyChainOk(ns: seq<Node>)
    requires |ns| == N_MMAP
    ensures Regions(ns, []) == [] && ChainOk(Regions(ns, []))
  {
  }

  /** What the checks of uvm_munmap say in page numbers. */
  lemma RangeEnds(addr: nat, npages: nat)
    requires addr < U64 && addr % PGSIZE == 0 && npages < U32 / PGSIZE && !Nodes.BadRange(addr, npages)
    ensures FIRST <= addr / PGSIZE < PAGE_WRAP && EndPage(addr / PGSIZE, npages) <= LAST
    ensures addr + npages * PGSIZE < U64 <==> addr / PGSIZE + npages < PAGE_WRAP
  {
    EndAddress(addr, npages);
  }

  lemma WholeOk()
    ensures ChainOk([Region(FIRST, LAST - FIRST)])
  {
  }

  lemma TailAddress()
    ensures (LAST - 2) * PGSIZE / PGSIZE == LAST - 2 && (LAST - 2) * PGSIZE % PGSIZE == 0
    ensures (LAST - 2) * PGSIZE < U64 && !Nodes.BadRange((LAST - 2) * PGSIZE, 2)
  {
  }

  /** A run that takes the tail branch: the last two pages of a fresh area are mapped and unmapped.
      The next node the pool will hand out is still linked in the chain. */
  method TailMergeRun() returns (pool: Nodes)
    ensures pool.Linked() && !pool.Owned() && |pool.chains| == 1
    ensures pool.free != [] && pool.free[0] in pool.chains[0]
    ensures pool.Chain(0) == [Region(FIRST, 8094), Region(FIRST, 8096)]
  {
    hide Mmap, Munmap, TailMerge, NoneFree, ChainOk, Nodes.BadRange, Exclusive, PoolLinked, ChainLinked, Mine;
    pool := new Nodes();
    TailAddress();
    var ok := pool.FirstChain();
    TailMergeOverlaps();
    var addr := (LAST - 2) * PGSIZE;
    var r, at := pool.UvmMmap(0, addr, 2);
    r := pool.UvmMunmap(0, addr, 2);
  }

  lemma MmapPlace(c: seq<Region>, begin: nat, n: nat)
    ensures begin != 0 && Mmap(c, begin, n).Mapped? ==> Mmap(c, begin, n).at == begin
  {
  }

  lemma {:induction false} EmptyOk(ns: seq<Node>, c: seq<nat>)
    requires |ns| == N_MMAP && InRange(c) && |c| == 1
    ensures Regions(ns, c) == [] && ChainOk(Regions(ns, c))
  {
  }

  lemma OwnedNew(free: seq<nat>, chains: seq<seq<nat>>, owner: seq<Owner>, n: nat)
    requires Exclusive(free, chains, owner) && n < N_MMAP && owner[n] == Held
    ensures Exclusive(free, chains + [[n]], owner[n := InChain(|chains|)])
  {
    var chains', owner' := chains + [[n]], owner[n := InChain(|chains|)];
    forall q: nat | q < |chains'| ensures Mine(owner', q, chains'[q]) {
      if q < |chains| { assert Mine(owner, q, chains[q]); }
    }
  }

  lemma ScanIs(c: seq<Region>, len: nat, i: nat)
    requires len > 0 && len % PGSIZE == 0 && i <= |c| && ChainOk(c)
    requires forall j :: 0 <= j < i ==> c[j].npages * PGSIZE < len
    requires i < |c| ==> c[i].npages * PGSIZE >= len
    ensures if i == |c| then Mmap(c, 0, len / PGSIZE) == NotFound
            else Mmap(c, 0, len / PGSIZE).Mapped? && Mmap(c, 0, len / PGSIZE).at == c[i].begin
  {
    var n := len / PGSIZE;
    assert len == n * PGSIZE;
    assert forall j :: 0 <= j < i ==> !Takes(c[j], 0, n);
    PickIs(c, 0, n, i);
  }

  /** A node both in a chain and marked as in the pool breaks exclusive ownership. */
  lemma TwicePlaced(free: seq<nat>, chains: seq<seq<nat>>, owner: seq<Owner>, p: nat, k: nat)
    requires p < |chains| && k < |chains[p]| && chains[p][k] < |owner| && owner[chains[p][k]] == InPool
    ensures !Exclusive(free, chains, owner)
  {
    assert chains[p][k] in chains[p];
    assert !Mine(owner, p, chains[p]);
  }

  lemma ChainNotFree(free: seq<nat>, chains: seq<seq<nat>>, owner: seq<Owner>, p: nat, k: nat)
    requires Exclusive(free, chains, owner) && p < |chains| && k < |chains[p]|
    ensures chains[p][k] !in free && 0 < chains[p][k] < N_MMAP
  {
    assert Mine(owner, p, chains[p]) && chains[p][k] in chains[p];
  }

  lemma ChainMine(free: seq<nat>, chains: seq<seq<nat>>, owner: seq<Owner>, p: nat, k: nat)
    requires Exclusive(free, chains, owner) && p < |chains| && k < |chains[p]|
    ensures NoDup(chains[p]) && 0 < chains[p][k] < N_MMAP == |owner| && owner[chains[p][k]] == InChain(p) && chains[p][k] !in free
  {
    assert Mine(owner, p, chains[p]) && chains[p][k] in chains[p];
  }

  lemma NotFree(free: seq<nat>, chains: seq<seq<nat>>, owner: seq<Owner>, n: nat)
    requires Exclusive(free, chains, owner) && n < N_MMAP && owner[n] == Held
    ensures n !in free && n != 0
  {
  }

  /** The end of the node before position k is the end of the region before it. */
  lemma {:induction false} EndOf(ns: seq<Node>, c: seq<nat>, k: nat)
    requires ChainLinked(ns, c) && 0 < k <= |c|
    ensures ns[c[k - 1]].begin + ns[c[k - 1]].npages == EndAt(Regions(ns, c), k - 1)
    ensures ns[c[k - 1]].npages == 0 && ChainOk(Regions(ns, c)) ==> k == 1
    ensures k == 1 ==> ns[c[k - 1]].npages == 0
    ensures k > 1 ==> RegionOf(ns[c[k - 1]]) == Regions(ns, c)[k - 2]
    ensures k < |c| ==> RegionOf(ns[c[k]]) == Regions(ns, c)[k - 1]
  {
  }

  /** MunmapAt, case by case, as updates of the chain: merging with the region before, which may close
      the gap to the next one. */
  lemma MergeForms(c: seq<Region>, begin: nat, n: nat, i: nat)
    requires 0 < i < |c| && EndPage(begin, n) <= c[i].begin && begin == c[i - 1].End()
    ensures EndPage(begin, n) != c[i].begin ==>
            MunmapAt(c, begin, n, i) == c[i - 1 := Region(c[i - 1].begin, c[i - 1].npages + n)]
    ensures EndPage(begin, n) == c[i].begin ==>
            var d := c[i - 1 := Region(c[i - 1].begin, c[i - 1].npages + n)];
            MunmapAt(c, begin, n, i) == (d[..i] + d[i + 1..])[i - 1 := Region(c[i - 1].begin, c[i - 1].npages + n + c[i].npages)]
  {
  }

  /** Not merging with the region before. */
  lemma InsertForms(c: seq<Region>, begin: nat, n: nat, i: nat)
    requires i < |c| && EndPage(begin, n) <= c[i].begin && (i == 0 || begin != c[i - 1].End())
    ensures EndPage(begin, n) == c[i].begin ==> MunmapAt(c, begin, n, i) == c[i := Region(begin, c[i].npages + n)]
    ensures EndPage(begin, n) != c[i].begin ==> MunmapAt(c, begin, n, i) == c[..i] + [Region(begin, n)] + c[i..]
  {
  }

  /** After the last region. */
  lemma AppendForms(c: seq<Region>, begin: nat, n: nat)
    ensures c == [] || begin != EndAt(c, |c|) ==> MunmapAt(c, begin, n, |c|) == c + [Region(begin, n)]
    ensures c != [] && begin == EndAt(c, |c|) ==>
            MunmapAt(c, begin, n, |c|) == (c + [Region(begin, n)])[|c| := Region(begin - c[|c| - 1].npages, n + c[|c| - 1].npages)]
  {
  }

  lemma {:induction false} GapAt(c: seq<Region>, begin: nat, n: nat, i: nat)
    requires i <= |c| && (i < |c| ==> EndAt(c, i) <= begin && EndPage(begin, n) <= c[i].begin)
    requires forall j :: 0 <= j < i ==> !(EndAt(c, j) <= begin && EndPage(begin, n) <= c[j].begin)
    ensures Gap(c, begin, n, 0) == i && Munmap(c, begin, n) == MunmapAt(c, begin, n, i)
    ensures TailMerge(c, begin, n) <==> i == |c| && begin == EndAt(c, |c|)
  {
  }

  lemma NotHeld(free: seq<nat>, chains: seq<seq<nat>>, owner: seq<Owner>, p: nat, k: nat, n: nat)
    requires Exclusive(free, chains, owner) && p < |chains| && k < |chains[p]| && n < N_MMAP && owner[n] == Held
    ensures chains[p][k] != n
  {
    assert Mine(owner, p, chains[p]) && chains[p][k] in chains[p];
  }

  lemma CutForms(c: seq<Region>, i: nat, b: nat, n: nat)
    requires i < |c| && c[i].begin <= b && b + n <= c[i].End()
    ensures c[i].begin < b && b + n < c[i].End() ==>
            Cut(c, i, b, n) == c[..i] + [Region(c[i].begin, b - c[i].begin), Region(b + n, c[i].End() - (b + n))] + c[i + 1..]
    ensures c[i].begin == b && b + n < c[i].End() ==> Cut(c, i, b, n) == c[i := Region(b + n, c[i].End() - (b + n))]
    ensures c[i].begin < b && b + n == c[i].End() ==> Cut(c, i, b, n) == c[i := Region(c[i].begin, b - c[i].begin)]
    ensures c[i].begin == b && b + n == c[i].End() ==> Cut(c, i, b, n) == c[..i] + c[i + 1..]
  {
  }

  lemma PickIs(c: seq<Region>, begin: nat, n: nat, i: nat)
    requires i <= |c| && (i < |c| ==> Takes(c[i], begin, n))
    requires forall j :: 0 <= j < i ==> !Takes(c[j], begin, n)
    ensures i == |c| ==> Mmap(c, begin, n) == NotFound
    ensures i < |c| ==>
      var b := if begin == 0 then c[i].begin else begin;
      Mmap(c, begin, n) == if c[i].End() < b + n then Insufficient else Mapped(Cut(c, i, b, n), b)
  {
  }
}
