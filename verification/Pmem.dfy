/** The physical page allocator of kernel/mem/pmem.c: each region's free list and reference counts
    live inside the pages themselves. */
module Pmem {
  import opened Base

  /** A page: its first eight bytes (the list link while it is free), bytes 8 to 11 (the reference
      count), and the rest. */
  datatype Page = Page(next: nat, refCnt: nat, rest: seq<byte>)

  const REST: nat := 4084

  predicate PageOk(p: Page) { p.next < U64 && p.refCnt < U32 && |p.rest| == REST }

  /** memset(page, b, PGSIZE). */
  function Filled(b: byte): (p: Page)
    ensures PageOk(p) && p.next == 0x0101_0101_0101_0101 * b && p.refCnt == 0x0101_0101 * b
    ensures forall i :: 0 <= i < |p.rest| ==> p.rest[i] == b
  {
    var v: nat := b;
    Page(0x0101_0101_0101_0101 * v, 0x0101_0101 * v, seq(REST, _ => b))
  }

  ghost predicate AllZero(p: Page) {
    p.next == 0 && p.refCnt == 0 && |p.rest| == REST && forall i :: 0 <= i < REST ==> p.rest[i] == 0
  }

  function Address(begin: nat, i: nat): nat { begin + i * PGSIZE }

  /** The address the list has at position k, 0 at its end. */
  function AddressAt(begin: nat, free: seq<nat>, k: nat): nat {
    if k < |free| then Address(begin, free[k]) else 0
  }

  ghost predicate Linked(ps: seq<Page>, begin: nat, free: seq<nat>, k: nat) {
    k < |free| && free[k] < |ps| && ps[free[k]].next == AddressAt(begin, free, k + 1)
  }

  /** The list: in range, without repetition (so it ends), each page pointing at the next. */
  ghost predicate ListOk(ps: seq<Page>, begin: nat, head: nat, free: seq<nat>) {
    && NoDup(free) && (forall k :: 0 <= k < |free| ==> free[k] < |ps|)
    && head == AddressAt(begin, free, 0)
    && forall k: nat :: k < |free| ==> Linked(ps, begin, free, k)
  }

  /** Pages off the list may have anything in them. */
  lemma ListFrame(ps: seq<Page>, qs: seq<Page>, begin: nat, head: nat, free: seq<nat>)
    requires ListOk(ps, begin, head, free) && |qs| == |ps| && forall k :: 0 <= k < |free| ==> qs[free[k]] == ps[free[k]]
    ensures ListOk(qs, begin, head, free)
  {
    forall k: nat | k < |free| ensures Linked(qs, begin, free, k) { assert Linked(ps, begin, free, k); }
  }

  lemma ListRange(ps: seq<Page>, begin: nat, head: nat, free: seq<nat>)
    requires ListOk(ps, begin, head, free)
    ensures forall k :: 0 <= k < |free| ==> free[k] < |ps|
    ensures head == 0 || head < begin + |ps| * PGSIZE
  {
  }

  lemma ListPop(ps: seq<Page>, begin: nat, head: nat, free: seq<nat>)
    requires ListOk(ps, begin, head, free) && free != []
    ensures ListOk(ps, begin, ps[free[0]].next, free[1..])
  {
    assert Linked(ps, begin, free, 0);
    forall k: nat | k < |free[1..]| ensures Linked(ps, begin, free[1..], k) { assert Linked(ps, begin, free, k + 1); }
  }

  lemma ListPush(ps: seq<Page>, begin: nat, head: nat, free: seq<nat>, i: nat, page: Page)
    requires ListOk(ps, begin, head, free) && i < |ps| && i !in free && page.next == head
    ensures ListOk(ps[i := page], begin, Address(begin, i), [i] + free)
  {
    var qs, d := ps[i := page], [i] + free;
    forall k: nat | k < |d| ensures Linked(qs, begin, d, k) {
      if k > 0 { assert Linked(ps, begin, free, k - 1) && free[k - 1] in free; }
    }
  }

  /** Page-aligned addresses in the region are exactly the pages' addresses. */
  lemma PageNumber(begin: nat, a: nat, n: nat)
    requires begin % PGSIZE == 0
    ensures a % PGSIZE == 0 && begin <= a < begin + n * PGSIZE ==> a == Address(begin, (a - begin) / PGSIZE) && (a - begin) / PGSIZE < n
    ensures forall i: nat :: Address(begin, i) % PGSIZE == 0 && (Address(begin, i) - begin) / PGSIZE == i
  {
    forall i: nat ensures Address(begin, i) % PGSIZE == 0 && (Address(begin, i) - begin) / PGSIZE == i {
      assert Address(begin, i) == (begin / PGSIZE + i) * PGSIZE;
    }
    if a % PGSIZE == 0 && begin <= a < begin + n * PGSIZE {
      assert a - begin == (a / PGSIZE - begin / PGSIZE) * PGSIZE;
    }
  }

  datatype Freed = Listed | Kept | BadAddress

  class Region {
    const begin: nat
    const pages: array<Page>
    var allocable: nat
    var head: nat                  // list_head.next: an address, 0 for NULL
    ghost var free: seq<nat>       // the list, as page numbers within the region
    ghost var held: set<nat>       // pages handed out and not freed since
    ghost const surplus: nat       // what pmem_init put into `allocable` beforehand

    ghost predicate Valid() reads this, pages {
      && begin > 0 && begin % PGSIZE == 0 && begin + pages.Length * PGSIZE <= U64
      && ListOk(pages[..], begin, head, free)
      && (forall i :: 0 <= i < pages.Length ==> PageOk(pages[i]))
      && (forall i :: i in held ==> i < pages.Length && i !in free)
      && allocable == surplus + |free|
    }

    /** pmem_init for one region of n pages with any contents: `allocable` starts at `preset`, and
        free_range counts every page in once more. */
    constructor (begin: nat, contents: seq<Page>, preset: nat)
      requires begin > 0 && begin % PGSIZE == 0 && begin + |contents| * PGSIZE <= U64
      requires forall i :: 0 <= i < |contents| ==> PageOk(contents[i])
      ensures Valid() && surplus == preset && this.begin == begin && pages.Length == |contents| && fresh(pages)
      ensures allocable == preset + |contents| && held == {}
      ensures |free| == |contents| && forall k :: 0 <= k < |free| ==> free[k] == |contents| - 1 - k
    {
      this.begin := begin;
      pages := new Page[|contents|](i requires 0 <= i < |contents| => contents[i]);
      allocable, head, surplus := preset, 0, preset;
      free, held := [], {};
      new;
      var i := 0;
      while i < pages.Length
        invariant i <= pages.Length && Valid() && held == {}
        invariant allocable == preset + i && surplus == preset
        invariant |free| == i && forall k :: 0 <= k < i ==> free[k] == i - 1 - k
      {
        CountIn(i);
        i := i + 1;
      }
    }

    /** The body of free_range: a page nobody has is freed with its count set to 1. */
    method CountIn(i: nat)
      requires Valid() && i < pages.Length && i !in free && held == {}
      modifies pages, `allocable, `head, `free, `held
      ensures Valid() && free == [i] + old(free) && held == {}
    {
      ghost var ps := pages[..];
      pages[i] := pages[i].(refCnt := 1);
      ListFrame(ps, pages[..], begin, head, free);
      held := {i};
      PageNumber(begin, begin + i * PGSIZE, pages.Length);
      var r := Free(begin + i * PGSIZE);
    }

    /** pmem_alloc. None stands for either panic: the counter being 0, or the list being empty. */
    method Alloc() returns (r: Option<nat>)
      requires Valid()
      modifies pages, `allocable, `head, `free, `held
      ensures Valid()
      ensures r == None <==> old(free) == []
      ensures r == None ==> free == old(free) && held == old(held) && pages[..] == old(pages[..]) && allocable == old(allocable)
      ensures r.Some? ==> var i := old(free)[0];
        && r.value == Address(begin, i) && i !in old(held) && AllZero(pages[i])
        && free == old(free)[1..] && held == old(held) + {i} && pages[..] == old(pages[..])[i := pages[i]]
    {
      if allocable == 0 { return None; }
      if head == 0 { return None; }
      PageNumber(begin, head, pages.Length);
      ghost var ps := pages[..];
      ListPop(ps, begin, head, free);
      var i := (head - begin) / PGSIZE;
      assert i == free[0];
      r := Some(head);
      head := pages[i].next;
      allocable := allocable - 1;
      pages[i] := pages[i].(refCnt := 1);
      pages[i] := Filled(0);
      free := free[1..];
      held := held + {i};
      ListFrame(ps, pages[..], begin, head, free);
    }

    /** pmem_free of a page the caller holds. The page goes back on the list exactly when its bytes 8
        to 11 read 1; otherwise nobody has it any more. */
    method Free(page: nat) returns (r: Freed)
      requires Valid()
      requires page % PGSIZE == 0 && begin <= page < begin + pages.Length * PGSIZE ==> (page - begin) / PGSIZE in held
      modifies pages, `allocable, `head, `free, `held
      ensures Valid()
      ensures r == BadAddress <==> page % PGSIZE != 0 || page < begin || page >= begin + pages.Length * PGSIZE
      ensures r == BadAddress ==> pages[..] == old(pages[..]) && free == old(free) && held == old(held)
      ensures r != BadAddress ==> var i := (page - begin) / PGSIZE;
        && i < pages.Length && held == old(held) - {i} && pages[..] == old(pages[..])[i := pages[i]]
        && (r == Listed <==> old(pages[i]).refCnt == 1)
        && free == (if r == Listed then [i] + old(free) else old(free))
        && (r == Kept ==> pages[i] == old(pages[i]).(refCnt := (old(pages[i]).refCnt + U32 - 1) % U32))
        && (r == Listed ==> pages[i].refCnt == 0x0101_0101 && |pages[i].rest| == REST && forall b :: 0 <= b < REST ==> pages[i].rest[b] == 1)
    {
      hide ListOk;
      if page % PGSIZE != 0 || page < begin || page >= begin + pages.Length * PGSIZE {
        return BadAddress;
      }
      PageNumber(begin, page, pages.Length);
      var i := (page - begin) / PGSIZE;
      ghost var ps := pages[..];
      ListRange(ps, begin, head, free);
      pages[i] := pages[i].(refCnt := (pages[i].refCnt + U32 - 1) % U32);
      held := held - {i};
      ListFrame(ps, pages[..], begin, head, free);
      if pages[i].refCnt != 0 {
        return Kept;
      }
      ghost var qs := pages[..];
      pages[i] := Filled(1);
      pages[i] := pages[i].(next := head);
      ListPush(qs, begin, head, free, i, pages[i]);
      assert pages[..] == qs[i := pages[i]];
      head := page;
      allocable := allocable + 1;
      free := [i] + free;
      r := Listed;
    }

    /** The holder writes anything into a page it holds, the count included. */
    method Write(i: nat, contents: Page)
      requires Valid() && i in held && PageOk(contents)
      modifies pages
      ensures Valid() && pages[..] == old(pages[..])[i := contents]
    {
      ghost var ps := pages[..];
      pages[i] := contents;
      ListFrame(ps, pages[..], begin, head, free);
    }

    /** pmem_get_ref. */
    method GetRef(page: nat) returns (cnt: nat)
      requires Valid() && page % PGSIZE == 0 && begin <= page < begin + pages.Length * PGSIZE
      ensures (page - begin) / PGSIZE < pages.Length && cnt == pages[(page - begin) / PGSIZE].refCnt < U32
    {
      PageNumber(begin, page, pages.Length);
      cnt := pages[(page - begin) / PGSIZE].refCnt;
    }
  }

  /** A run: a page freed just as it was handed out, all zero, is on no list and in nobody's hands. */
  method AllocFreeLoses(r: Region) returns (i: nat)
    requires r.Valid() && r.free != []
    modifies r, r.pages
    ensures r.Valid() && i == old(r.free)[0] && r.free == old(r.free)[1..] && r.held == old(r.held)
    ensures i !in r.free && i !in r.held && r.allocable == old(r.allocable) - 1
  {
    i := 0;
    var p := r.Alloc();
    PageNumber(r.begin, p.value, r.pages.Length);
    i := (p.value - r.begin) / PGSIZE;
    var f := r.Free(p.value);
  }
}
