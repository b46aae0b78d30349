/** The mmap area of one process as a whole: uvm_mmap and uvm_munmap of kernel/mem/uvm.c with both
    their halves, the chain of free regions and the page table, which are kept in step. */
module UserArea {
  import opened Base
  import M = MmapNodes
  import R = RegionChain
  import T = PageTable
  import F = Fork

  /** Each page of the area is either listed as free and not mapped, or not listed and mapped to a leaf. */
  ghost predicate Joined(t: T.Tree, c: seq<R.Region>) {
    forall q: nat :: R.FIRST <= q < R.LAST ==> Entry(t, c, q)
  }

  ghost predicate Entry(t: T.Tree, c: seq<R.Region>, q: nat) {
    if R.Covers(c, q) then !T.IsValid(T.Pte(t, q)) else T.IsLeaf(T.Pte(t, q))
  }

  const FRESH: seq<R.Region> := [R.Region(R.FIRST, R.LAST - R.FIRST)]

  /** A process whose area is all free and none of it mapped. */
  lemma FreshJoined(t: T.Tree)
    requires forall q: nat :: R.FIRST <= q < R.LAST ==> !T.IsValid(T.Pte(t, q))
    ensures Joined(t, FRESH)
  {
    forall q: nat | R.FIRST <= q < R.LAST ensures Entry(t, FRESH, q) { R.CoversBounds(FRESH, q); }
  }

  /** The flat map after the page-table loop of uvm_mmap: n fresh frames from page b. */
  ghost predicate Filled(t: T.Tree, u: T.Tree, b: nat, frames: seq<nat>, perm: nat)
    requires perm < 1024
  {
    forall q: nat :: q < T.PAGES ==>
      T.Pte(u, q) == if b <= q < b + |frames| then T.MakePte(frames[q - b], perm) else T.Pte(t, q)
  }

  ghost predicate Aligned(pages: seq<nat>) { forall k :: 0 <= k < |pages| ==> pages[k] % PGSIZE == 0 }

  lemma FilledJoined(t: T.Tree, u: T.Tree, c: seq<R.Region>, d: seq<R.Region>, b: nat, frames: seq<nat>, perm: nat)
    requires Joined(t, c) && 1 < perm < 1024 && Aligned(frames) && Filled(t, u, b, frames, perm)
    requires forall q: nat :: R.Covers(d, q) <==> R.Covers(c, q) && !(b <= q < b + |frames|)
    ensures Joined(u, d)
  {
    hide R.Covers, T.Pte, T.MakePte;
    forall q: nat | R.FIRST <= q < R.LAST ensures Entry(u, d, q) {
      assert Entry(t, c, q);
      if b <= q < b + |frames| { T.MakePteFacts(frames[q - b], perm); }
    }
  }

  lemma ClearedJoined(t: T.Tree, u: T.Tree, c: seq<R.Region>, d: seq<R.Region>, b: nat, n: nat)
    requires Joined(t, c) && T.Cleared(t, u, b, n)
    requires forall q: nat :: R.Covers(d, q) <==> R.Covers(c, q) || b <= q < b + n
    ensures Joined(u, d)
  {
    hide R.Covers, T.Pte;
    forall q: nat | R.FIRST <= q < R.LAST ensures Entry(u, d, q) { assert Entry(t, c, q); }
  }

  /** A range of the area is mapped throughout exactly when none of it is listed as free. */
  lemma LeavesIff(t: T.Tree, c: seq<R.Region>, b: nat, n: nat)
    requires Joined(t, c) && R.FIRST <= b && b + n <= R.LAST
    ensures T.AllLeaves(t, b, n) <==> R.NoneFree(c, b, n)
  {
    hide R.Covers, T.Pte;
    forall q: nat | b <= q < b + n ensures T.IsLeaf(T.Pte(t, q)) <==> !R.Covers(c, q) { assert Entry(t, c, q); }
  }

  // ----- histories

  /** The chain is what the run of requests leaves of a fresh area. */
  ghost predicate Came(c: seq<R.Region>, run: seq<R.Request>) {
    R.LegalRun(FRESH, run) && c == R.AfterAll(FRESH, run)
  }

  lemma CameMore(c: seq<R.Region>, run: seq<R.Request>, r: R.Request)
    requires Came(c, run) && R.Legal(c, r)
    ensures Came(R.After(c, r), run + [r])
  {
    assert (run + [r])[..|run|] == run;
  }

  /** A page of the area has a valid entry exactly when the run of requests holds it. */
  lemma {:induction false} EntryIffHeld(t: T.Tree, c: seq<R.Region>, run: seq<R.Request>, q: nat)
    requires Joined(t, c) && Came(c, run) && R.FIRST <= q < R.LAST
    ensures T.IsValid(T.Pte(t, q)) <==> R.Held(FRESH, run, q)
    ensures T.IsValid(T.Pte(t, q)) <==> !R.Covers(c, q)
  {
    R.RunKeeps(run);
    assert Entry(t, c, q);
  }

  lemma OnePage(p: nat, q: nat)
    requires p < R.LAST
    ensures T.InRange(p * PGSIZE, PGSIZE, q) <==> q == p
    ensures T.PageCount(p * PGSIZE, PGSIZE) == 1
    ensures T.GoodRange(p * PGSIZE, PGSIZE) && p * PGSIZE < U64
  {
  }

  lemma PageRange(p: nat, n: nat)
    requires 0 < n && p + n <= R.LAST
    ensures T.GoodRange(p * PGSIZE, n * PGSIZE)
    ensures p * PGSIZE / PGSIZE == p && T.PageCount(p * PGSIZE, n * PGSIZE) == n
  {
  }

  lemma NoConflict(t0: T.Tree, t: T.Tree, b: nat, frames: seq<nat>, perm: nat, pa: nat)
    requires perm < 1024 && Filled(t0, t, b, frames, perm) && !T.IsValid(T.Pte(t0, b + |frames|)) && b + |frames| < R.LAST
    ensures forall q: nat :: T.InRange((b + |frames|) * PGSIZE, PGSIZE, q) ==> !T.Conflicts(T.Pte(t, q), pa)
  {
    hide T.Pte;
    forall q: nat | T.InRange((b + |frames|) * PGSIZE, PGSIZE, q) ensures !T.Conflicts(T.Pte(t, q), pa) {
      OnePage(b + |frames|, q);
    }
  }

  lemma FillOne(t0: T.Tree, t: T.Tree, u: T.Tree, b: nat, pages: seq<nat>, i: nat, perm: nat)
    requires perm < 1024 && i < |pages| && b + i < R.LAST && Filled(t0, t, b, pages[..i], perm)
    requires forall q :: 0 <= q < T.PAGES ==> T.Pte(u, q) == T.MapTo((b + i) * PGSIZE, PGSIZE, pages[i], perm, q, T.Pte(t, q))
    ensures Filled(t0, u, b, pages[..i + 1], perm)
  {
    hide T.Pte, T.MakePte;
    forall q: nat | q < T.PAGES
      ensures T.Pte(u, q) == if b <= q < b + i + 1 then T.MakePte(pages[..i + 1][q - b], perm) else T.Pte(t0, q)
    {
      OnePage(b + i, q);
    }
  }

  lemma FreeUnmapped(t: T.Tree, c: seq<R.Region>, b: nat, n: nat)
    requires Joined(t, c) && R.ChainOk(c) && R.AllFree(c, b, n) && n > 0
    ensures R.FIRST <= b && b + n <= R.LAST && forall q: nat :: b <= q < b + n ==> !T.IsValid(T.Pte(t, q))
  {
    hide T.Pte;
    assert R.Covers(c, b) && R.Covers(c, b + n - 1);
    forall q: nat | b <= q < b + n ensures !T.IsValid(T.Pte(t, q)) { assert R.Covers(c, q) && Entry(t, c, q); }
  }

  /** A range whose end wraps lies far above the area, so that none of it is listed as free; and
      vm_unmappages finds no page in it, or stops at its own range check if it ends at 2^64 exactly. */
  lemma WrapPages(c: seq<R.Region>, addr: nat, n: nat)
    requires R.ChainOk(c) && addr < U64 && addr % PGSIZE == 0 && 0 < n < U32 / PGSIZE && addr + n * PGSIZE >= U64
    ensures R.NoneFree(c, addr / PGSIZE, n) && R.PAGE_WRAP <= addr / PGSIZE + n
    ensures T.GoodRange(addr, n * PGSIZE) <==> addr + n * PGSIZE > U64
    ensures addr + n * PGSIZE > U64 ==> T.PageCount(addr, n * PGSIZE) == 0
  {
    if addr + n * PGSIZE > U64 { T.WrappedRange(addr, n * PGSIZE); }
    forall q: nat | addr / PGSIZE <= q ensures !R.Covers(c, q) {}
  }

  /** With no page cleared everything is as before, and the area stays in step however many pages
      outside it are listed. */
  lemma WrapJoined(t: T.Tree, u: T.Tree, c: seq<R.Region>, b: nat, n: nat)
    requires Joined(t, c) && T.Cleared(t, u, b, 0) && b >= R.LAST
    requires forall q: nat :: R.Covers([R.Region(b, n)] + c, q) <==> R.Covers(c, q) || b <= q < b + n
    ensures Joined(u, [R.Region(b, n)] + c)
  {
    hide R.Covers, T.Pte;
    forall q: nat | R.FIRST <= q < R.LAST ensures Entry(u, [R.Region(b, n)] + c, q) { assert Entry(t, c, q); }
  }

  /** The checks of uvm_munmap, and its test for 0 pages, are behind it. */
  predicate Accepted(addr: nat, npages: nat) { npages > 0 && addr % PGSIZE == 0 && !M.Nodes.BadRange(addr, npages) }

  datatype Outcome = Done | Refused(why: M.Outcome) | NoFrame | NoTable | NotMapped | BadUnmap

  class Area {
    const nodes: M.Nodes            // shared by all processes
    const p: nat                    // the process
    const space: T.AddressSpace     // its page table
    var pages: seq<nat>             // what pmem_alloc(false) will hand out, in order
    ghost var run: seq<R.Request>   // the requests carried out so far

    ghost predicate Ready() reads this, nodes, nodes.nodes, space {
      nodes.Valid() && p < |nodes.chains| && nodes.chains[p] != [] && space.Valid() && Aligned(pages)
    }

    ghost predicate InStep() reads this, nodes, nodes.nodes, space
      requires nodes.Linked() && p < |nodes.chains|
    {
      Joined(space.t, nodes.Chain(p))
    }

    ghost predicate Valid() reads this, nodes, nodes.nodes, space {
      Ready() && InStep() && Came(nodes.Chain(p), run)
    }

    /** A process with a first chain and nothing mapped in the area. */
    constructor (nodes: M.Nodes, p: nat, space: T.AddressSpace, pages: seq<nat>)
      requires nodes.Valid() && p < |nodes.chains| && nodes.chains[p] != [] && nodes.Chain(p) == FRESH
      requires space.Valid() && Aligned(pages)
      requires forall q: nat :: R.FIRST <= q < R.LAST ==> !T.IsValid(T.Pte(space.t, q))
      ensures Valid() && this.nodes == nodes && this.p == p && this.space == space && this.pages == pages && run == []
    {
      this.nodes, this.p, this.space, this.pages, run := nodes, p, space, pages, [];
      FreshJoined(space.t);
    }

    /** The page-table loop of uvm_mmap. None of the pages is mapped, so vm_mappages never refuses. */
    method MapFresh(begin: nat, npages: nat, perm: nat) returns (r: Outcome)
      requires space.Valid() && Aligned(pages) && begin + npages <= R.LAST && perm < 1024
      requires forall q: nat :: begin <= q < begin + npages ==> !T.IsValid(T.Pte(space.t, q))
      modifies `pages, space`t, space`pool
      ensures space.Valid() && Aligned(pages) && r in {Done, NoFrame, NoTable}
      ensures r == Done ==> npages <= |old(pages)| && pages == old(pages)[npages..]
      ensures r == Done ==> Filled(old(space.t), space.t, begin, old(pages)[..npages], perm)
      ensures r == NoFrame ==> |old(pages)| < npages
      ensures r == NoTable ==> |old(space.pool)| < 2 * npages
    {
      hide T.TreeOk, T.Pte, T.MakePte, T.InRange, T.GoodRange, T.PageCount, T.IsValid;
      ghost var t0, pages0 := space.t, pages;
      var i := 0;
      while i < npages
        invariant i <= npages && i <= |pages0| && pages == pages0[i..] && space.Valid() && Aligned(pages)
        invariant |space.pool| >= |old(space.pool)| - 2 * i
        invariant Filled(t0, space.t, begin, pages0[..i], perm)
      {
        if pages == [] { return NoFrame; }
        var pa := pages[0];
        pages := pages[1..];
        ghost var before := space.t;
        OnePage(begin + i, begin + i);
        NoConflict(t0, before, begin, pages0[..i], perm, pa);
        var one := space.MapPages((begin + i) * PGSIZE, pa, PGSIZE, perm);
        if one == T.OutOfPages { return NoTable; }
        FillOne(t0, before, space.t, begin, pages0, i, perm);
        i := i + 1;
      }
      r := Done;
    }

    /** uvm_mmap. */
    method Mmap(addr: nat, npages: nat, perm: nat) returns (r: Outcome)
      requires Valid() && addr < U64 && npages < U32 / PGSIZE && 1 < perm < 1024
      modifies this, nodes, nodes.nodes, space
      ensures r in {Done, NoFrame, NoTable} || r.Refused?
      ensures r.Refused? || npages == 0 ==> Valid() && space.t == old(space.t) && run == old(run) && pages == old(pages)
      ensures r == Refused(M.Misaligned) <==> npages > 0 && addr % PGSIZE != 0
      ensures r == Refused(M.OutOfRange) <==> npages > 0 && addr % PGSIZE == 0 && addr != 0 && M.Nodes.BadRange(addr, npages)
      ensures r == Refused(M.NoNode) ==> old(nodes.free) == []
      ensures nodes.Valid() && |nodes.chains| == |old(nodes.chains)|
      ensures forall q :: 0 <= q < |nodes.chains| && q != p ==> nodes.Chain(q) == old(nodes.Chain(q))
      ensures r.Refused? && r.why.Panic? ==> !R.Mmap(old(nodes.Chain(p)), addr / PGSIZE, npages).Mapped?
      ensures r == NoFrame ==> |old(pages)| < npages
      ensures r == NoTable ==> |old(space.pool)| < 2 * npages
      ensures r == Done && npages > 0 ==> Valid() && npages <= |old(pages)| && run == old(run) + [R.Map(addr / PGSIZE, npages)]
      ensures r == Done && npages > 0 ==>
        (var m := R.Mmap(old(nodes.Chain(p)), addr / PGSIZE, npages);
         m.Mapped? && nodes.Chain(p) == m.chain && Filled(old(space.t), space.t, m.at, old(pages)[..npages], perm))
    {
      hide R.Mmap, T.TreeOk, R.ChainOk, R.LegalRun, R.AfterAll, Filled, Joined, M.Nodes.BadRange;
      ghost var c := nodes.Chain(p);
      var why, at := nodes.UvmMmap(p, addr, npages);
      if why != M.Done { return Refused(why); }
      if npages == 0 { return Done; }
      R.MmapKeeps(c, addr / PGSIZE, npages);
      FreeUnmapped(space.t, c, at, npages);
      r := MapFresh(at, npages, perm);
      if r == Done {
        FilledJoined(old(space.t), space.t, c, nodes.Chain(p), at, old(pages)[..npages], perm);
        CameMore(c, run, R.Map(addr / PGSIZE, npages));
        run := run + [R.Map(addr / PGSIZE, npages)];
      }
    }

    /** uvm_munmap. NotMapped and BadUnmap are panics of vm_unmappages, after the chain was changed: for
        a page that is not mapped, and for a range that ends at 2^64. A range that ends behind 2^64 is
        accepted throughout, and no page of it unmapped. */
    method Munmap(addr: nat, npages: nat) returns (r: Outcome)
      requires Valid() && addr < U64 && npages < U32 / PGSIZE
      modifies this, nodes, nodes.nodes, space
      ensures r in {Done, NotMapped, BadUnmap} || (r.Refused? && r.why in {M.Misaligned, M.OutOfRange, M.NoNode})
      ensures r.Refused? || npages == 0 ==> Valid() && space.t == old(space.t) && run == old(run)
      ensures r == Refused(M.Misaligned) <==> npages > 0 && addr % PGSIZE != 0
      ensures r == Refused(M.OutOfRange) <==> npages > 0 && addr % PGSIZE == 0 && M.Nodes.BadRange(addr, npages)
      ensures r == Refused(M.NoNode) <==> Accepted(addr, npages) && old(nodes.free) == []
      ensures r == BadUnmap <==> Accepted(addr, npages) && old(nodes.free) != [] && addr + npages * PGSIZE == U64
      ensures r == NotMapped <==>
        Accepted(addr, npages) && old(nodes.free) != [] && addr + npages * PGSIZE < U64 && !R.NoneFree(old(nodes.Chain(p)), addr / PGSIZE, npages)
      ensures nodes.Linked() && |nodes.chains| == |old(nodes.chains)|
      ensures forall q :: 0 <= q < |nodes.chains| && q != p ==> nodes.Chain(q) == old(nodes.Chain(q))
      ensures r == Done && npages > 0 ==>
        && nodes.Chain(p) == R.Munmap(old(nodes.Chain(p)), addr / PGSIZE, npages) && InStep()
        && (Valid() <==> !R.TailMerge(old(nodes.Chain(p)), addr / PGSIZE, npages) && addr + npages * PGSIZE <= U64)
        && (Valid() ==> run == old(run) + [R.Unmap(addr / PGSIZE, npages)])
      ensures r == Done && npages > 0 && addr + npages * PGSIZE <= U64 ==>
        && T.AllLeaves(old(space.t), addr / PGSIZE, npages) && T.Cleared(old(space.t), space.t, addr / PGSIZE, npages)
        && space.freed == old(space.freed) + T.Frames(old(space.t), addr / PGSIZE, npages)
      ensures r == Done && npages > 0 && addr + npages * PGSIZE > U64 ==>
        && T.Cleared(old(space.t), space.t, addr / PGSIZE, 0) && space.freed == old(space.freed)
        && nodes.Chain(p) == [R.Region(addr / PGSIZE, npages)] + old(nodes.Chain(p)) && !R.ChainOk(nodes.Chain(p))
    {
      hide R.Munmap, R.TailMerge, R.NoneFree, T.TreeOk, R.ChainOk, R.LegalRun, R.AfterAll, Joined, M.Nodes.BadRange, T.AllLeaves, T.Cleared, T.Frames;
      ghost var c := nodes.Chain(p);
      var why := nodes.UvmMunmap(p, addr, npages);
      if why != M.Done { return Refused(why); }
      if npages == 0 { return Done; }
      M.RangeEnds(addr, npages);
      if addr + npages * PGSIZE < U64 {
        r := UnmapPlain(addr, npages, c);
      } else {
        r := UnmapWrapped(addr, npages, c);
      }
    }

    /** The rest of uvm_munmap after the chain was changed. */
    method UnmapPlain(addr: nat, npages: nat, ghost c: seq<R.Region>) returns (r: Outcome)
      requires npages > 0 && nodes.Linked() && p < |nodes.chains| && space.Valid() && Aligned(pages) && Came(c, run) && Joined(space.t, c)
      requires addr % PGSIZE == 0 && R.FIRST <= addr / PGSIZE && addr / PGSIZE + npages <= R.LAST && R.ChainOk(c)
      requires nodes.Chain(p) == R.Munmap(c, addr / PGSIZE, npages) && npages < U32 / PGSIZE && nodes.chains[p] != []
      requires R.NoneFree(c, addr / PGSIZE, npages) ==> (nodes.Valid() <==> !R.TailMerge(c, addr / PGSIZE, npages))
      modifies this`run, space
      ensures r == if R.NoneFree(c, addr / PGSIZE, npages) then Done else NotMapped
      ensures r == Done ==> InStep() && (Valid() <==> !R.TailMerge(c, addr / PGSIZE, npages))
      ensures r == Done && Valid() ==> run == old(run) + [R.Unmap(addr / PGSIZE, npages)]
      ensures r == Done ==>
        && T.AllLeaves(old(space.t), addr / PGSIZE, npages) && T.Cleared(old(space.t), space.t, addr / PGSIZE, npages)
        && space.freed == old(space.freed) + T.Frames(old(space.t), addr / PGSIZE, npages)
    {
      hide R.Munmap, R.TailMerge, R.NoneFree, T.TreeOk, R.ChainOk, R.LegalRun, R.AfterAll, Joined, T.AllLeaves, T.Cleared, T.Frames;
      ghost var t0, begin := space.t, addr / PGSIZE;
      LeavesIff(t0, c, begin, npages);
      PageRange(begin, npages);
      var one := space.UnmapPages(addr, npages * PGSIZE, true);
      if one != T.Done { return NotMapped; }
      R.MunmapKeeps(c, begin, npages);
      ClearedJoined(t0, space.t, c, nodes.Chain(p), begin, npages);
      if !R.TailMerge(c, begin, npages) {
        CameMore(c, run, R.Unmap(begin, npages));
        run := run + [R.Unmap(begin, npages)];
      }
      r := Done;
    }

    /** The same for a range that reaches 2^64. */
    method UnmapWrapped(addr: nat, npages: nat, ghost c: seq<R.Region>) returns (r: Outcome)
      requires nodes.Linked() && p < |nodes.chains| && space.Valid() && Joined(space.t, c) && R.ChainOk(c)
      requires addr < U64 && addr % PGSIZE == 0 && 0 < npages < U32 / PGSIZE && addr + npages * PGSIZE >= U64
      requires nodes.Chain(p) == R.Munmap(c, addr / PGSIZE, npages)
      modifies space
      ensures r == if addr + npages * PGSIZE == U64 then BadUnmap else Done
      ensures !R.TailMerge(c, addr / PGSIZE, npages)
      ensures nodes.Chain(p) == [R.Region(addr / PGSIZE, npages)] + c && !R.ChainOk(nodes.Chain(p))
      ensures r == Done ==> InStep() && T.Cleared(old(space.t), space.t, addr / PGSIZE, 0) && space.freed == old(space.freed)
    {
      hide R.Munmap, R.TailMerge, R.NoneFree, T.TreeOk, R.ChainOk, Joined, T.AllLeaves, T.Cleared, T.Frames;
      ghost var t0, begin := space.t, addr / PGSIZE;
      WrapPages(c, addr, npages);
      R.MunmapWraps(c, begin, npages);
      T.FramesStep(t0, begin, 0);
      T.SpanStep(t0, t0, t0, begin, 0);
      var one := space.UnmapPages(addr, npages * PGSIZE, true);
      if one != T.Done { return BadUnmap; }
      WrapJoined(t0, space.t, c, begin, npages);
      r := Done;
    }
  }

  /** A run that breaks the order of the chain: in a fresh area the two pages around 2^64 are given back.
      The call succeeds, and the pages, which are none, are listed in front of the area. */
  method WrapRun() returns (area: Area, r: Outcome)
    ensures r == Done && area.nodes.Linked() && |area.nodes.chains| == 1 && area.p == 0
    ensures area.nodes.Chain(0) == [R.Region(R.PAGE_WRAP - 1, 2), R.Region(R.FIRST, R.LAST - R.FIRST)]
    ensures !R.ChainOk(area.nodes.Chain(0))
  {
    hide R.Munmap, R.TailMerge, R.NoneFree, T.TreeOk, R.ChainOk, R.LegalRun, R.AfterAll, Joined, T.AllLeaves, T.Cleared, T.Frames;
    var nodes := new M.Nodes();
    var ok := nodes.FirstChain();
    var space := new T.AddressSpace(PGSIZE, []);
    area := new Area(nodes, 0, space, []);
    WrapAddress();
    r := area.Munmap(U64 - PGSIZE, 2);
  }

  lemma WrapAddress()
    ensures (U64 - PGSIZE) / PGSIZE == R.PAGE_WRAP - 1 && Accepted(U64 - PGSIZE, 2)
  {
  }

  // ----- fork

  /** An entry as Fork has it: the number of its frame in the region at `base`, PTE_W and PTE_COW. */
  predicate SameEntry(pte: nat, e: F.Pte, base: nat) {
    T.PteToPa(pte) == base + e.frame * PGSIZE && (e.w <==> pte / 4 % 2 == 1) && (e.cow <==> pte / 256 % 2 == 1)
  }

  /** `pt` is the flat map of the tree, as Fork has it. */
  ghost predicate Mirrors(t: T.Tree, pt: map<nat, F.Pte>, base: nat) {
    forall v: nat :: v < T.PAGES ==> (v in pt <==> T.IsValid(T.Pte(t, v))) && (v in pt ==> SameEntry(T.Pte(t, v), pt[v], base))
  }

  /** The number of the frame a page is mapped to in the tree. */
  function FrameOf(t: T.Tree, v: nat, base: nat): int { (T.PteToPa(T.Pte(t, v)) - base) / PGSIZE }

  /** The pages of the area a run of requests holds. */
  function HeldPages(run: seq<R.Request>): set<nat> {
    set v | R.FIRST <= v < R.LAST && R.Held(FRESH, run, v)
  }

  lemma MirrorInStep(t: T.Tree, pt: map<nat, F.Pte>, base: nat, c: seq<R.Region>, run: seq<R.Request>)
    requires Joined(t, c) && Came(c, run) && Mirrors(t, pt, base)
    ensures R.ChainOk(c) && F.InStep(pt, c) && F.AreaPages(pt) == HeldPages(run)
    ensures forall v :: v in HeldPages(run) ==> v in pt && FrameOf(t, v, base) == pt[v].frame
  {
    R.RunKeeps(run);
    hide R.Covers, R.Held, T.Pte;
    forall v: nat | R.FIRST <= v < R.LAST ensures v in pt <==> !R.Covers(c, v) { assert Entry(t, c, v); }
  }

  lemma CopiedViews(m: F.Mem, u: F.Mem, parent: nat, child: nat, s: set<nat>)
    requires F.Copied(m, u, parent, child, s)
    ensures forall v :: v in s ==> F.View(u, child, v) == F.View(m, parent, v)
  {
  }

  /** proc_fork's copy of a process with a history: the child gets heap, stack, and exactly the pages
      that some uvm_mmap took and no uvm_munmap gave back since, with the bytes of the frames the parent's
      page table maps them to. `base` is where the frames begin. */
  method ForkCopies(area: Area, mem: F.Memory, parent: nat, child: nat, heapTop: nat, ustackPages: nat, c: seq<R.Region>,
                    ghost base: nat)
      returns (r: F.Outcome)
    requires area.Valid() && c == area.nodes.Chain(area.p)
    requires F.Ok(mem.Now()) && parent < |mem.pts| && child < |mem.pts| && parent != child
    requires Mirrors(area.space.t, mem.pts[parent], base) && ustackPages <= F.STACK_BOTTOM
    modifies mem
    ensures r == F.Done ==> F.Copied(old(mem.Now()), mem.Now(), parent, child, F.Segments(heapTop, ustackPages) + HeldPages(area.run))
    ensures r == F.Done ==> forall v :: v in HeldPages(area.run) ==>
      && 0 <= FrameOf(area.space.t, v, base) < |old(mem.frames)|
      && F.View(mem.Now(), child, v) == Some(old(mem.frames)[FrameOf(area.space.t, v, base)])
    ensures r == F.NotMapped ==> exists v :: v in F.Segments(heapTop, ustackPages) && v !in old(mem.pts)[parent]
  {
    hide F.Ok, F.Copied, F.InStep, HeldPages, F.AreaPages, F.Segments, R.ChainOk, Joined, Came;
    MirrorInStep(area.space.t, mem.pts[parent], base, c, area.run);
    ghost var m := mem.Now();
    r := mem.UvmCopyPgtbl(parent, child, heapTop, ustackPages, c);
    if r == F.Done {
      forall v | v in HeldPages(area.run)
        ensures m.pts[parent][v].frame < |m.frames| && F.View(m, parent, v) == Some(m.frames[m.pts[parent][v].frame])
      {
        F.Known(m, parent, v);
      }
      CopiedViews(m, mem.Now(), parent, child, F.Segments(heapTop, ustackPages) + HeldPages(area.run));
    }
  }
}
