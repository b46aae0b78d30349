/** The chain of free mmap regions of kernel/mem/uvm.c as a value: what uvm_mmap and uvm_munmap do
    to it, in page numbers. The special zero-page region at its head is not listed here. */
module RegionChain {
  import opened Base

  const FIRST: nat := LAST - 8096           // page of MMAP_BEGIN
  const LAST: nat := 0x3FF_FFFE - 32        // page of MMAP_END

  datatype Region = Region(begin: nat, npages: nat) {
    function End(): nat { begin + npages }
  }

  /** Sorted, non-empty, inside the area, and no two regions touch. */
  ghost predicate ChainOk(c: seq<Region>) {
    && (forall i :: 0 <= i < |c| ==> c[i].npages > 0 && FIRST <= c[i].begin && c[i].End() <= LAST)
    && (forall i, j :: 0 <= i < j < |c| ==> c[i].End() < c[j].begin)
  }

  /** Page p is free. */
  ghost predicate Covers(c: seq<Region>, p: nat) {
    exists i :: 0 <= i < |c| && c[i].begin <= p < c[i].End()
  }

  ghost predicate AllFree(c: seq<Region>, b: nat, n: nat) {
    forall p :: b <= p < b + n ==> Covers(c, p)
  }

  ghost predicate NoneFree(c: seq<Region>, b: nat, n: nat) {
    forall p :: b <= p < b + n ==> !Covers(c, p)
  }

  /** A run of free pages lies in one region, because touching regions have been merged. */
  lemma {:induction false} RunInOne(c: seq<Region>, b: nat, n: nat) returns (i: nat)
    requires ChainOk(c) && AllFree(c, b, n) && n > 0
    ensures i < |c| && c[i].begin <= b && b + n <= c[i].End()
  {
    if n == 1 {
      assert Covers(c, b);
      i :| i < |c| && c[i].begin <= b < c[i].End();
    } else {
      i := RunInOne(c, b, n - 1);
      assert Covers(c, b + n - 1);
      var j :| 0 <= j < |c| && c[j].begin <= b + n - 1 < c[j].End();
      assert i == j;
    }
  }

  // ----- gluing chains together

  ghost predicate EndsBefore(c: seq<Region>, p: nat) { forall i :: 0 <= i < |c| ==> c[i].End() < p }

  ghost predicate BeginsAfter(c: seq<Region>, p: nat) { forall i :: 0 <= i < |c| ==> p < c[i].begin }

  ghost predicate Within(c: seq<Region>, lo: nat, hi: nat) {
    forall i :: 0 <= i < |c| ==> lo <= c[i].begin && c[i].End() <= hi
  }

  lemma Glue(x: seq<Region>, m: seq<Region>, y: seq<Region>, lo: nat, hi: nat)
    requires ChainOk(x) && ChainOk(m) && ChainOk(y) && lo <= hi
    requires EndsBefore(x, lo) && Within(m, lo, hi) && BeginsAfter(y, hi)
    ensures ChainOk(x + m + y)
  {
  }

  lemma Unglue(c: seq<Region>, i: nat, j: nat)
    requires ChainOk(c) && i <= j <= |c|
    ensures ChainOk(c[..i]) && ChainOk(c[i..j]) && ChainOk(c[j..])
    ensures i < |c| ==> EndsBefore(c[..i], c[i].begin)
    ensures 0 < j ==> BeginsAfter(c[j..], c[j - 1].End())
    ensures c == c[..i] + c[i..j] + c[j..]
  {
  }

  lemma CoversParts(x: seq<Region>, m: seq<Region>, y: seq<Region>, p: nat)
    ensures Covers(x + m + y, p) <==> Covers(x, p) || Covers(m, p) || Covers(y, p)
  {
    var c := x + m + y;
    assert forall i :: 0 <= i < |x| ==> c[i] == x[i];
    assert forall i :: 0 <= i < |m| ==> c[|x| + i] == m[i];
    assert forall i :: 0 <= i < |y| ==> c[|x| + |m| + i] == y[i];
  }

  lemma CoversBounds(c: seq<Region>, p: nat)
    ensures forall q: nat :: EndsBefore(c, q) && Covers(c, p) ==> p < q
    ensures forall q: nat :: BeginsAfter(c, q) && Covers(c, p) ==> q < p
    ensures |c| == 1 ==> (Covers(c, p) <==> c[0].begin <= p < c[0].End())
    ensures c == [] ==> !Covers(c, p)
  {
  }

  // ----- uvm_mmap

  /** The test of the search loop; `begin` 0 asks for any place. */
  predicate Takes(r: Region, begin: nat, n: nat) {
    r.begin <= begin <= r.End() || (begin == 0 && r.npages >= n)
  }

  /** The region the search stops at, |c| when it runs off the end. */
  function Pick(c: seq<Region>, begin: nat, n: nat): (i: nat)
    ensures i <= |c| && (i < |c| ==> Takes(c[i], begin, n))
    ensures forall j :: 0 <= j < i ==> !Takes(c[j], begin, n)
    decreases c
  {
    if c == [] then 0
    else if Takes(c[0], begin, n) then 0
    else
      var i := Pick(c[1..], begin, n);
      assert forall j :: 0 < j < i + 1 ==> c[j] == c[1..][j - 1];
      i + 1
  }

  function HeadLeft(r: Region, b: nat): seq<Region> {
    if b > r.begin then [Region(r.begin, b - r.begin)] else []
  }

  function TailLeft(r: Region, e: nat): seq<Region> {
    if r.End() > e then [Region(e, r.End() - e)] else []
  }

  /** Region i with the pages [b, b + n) cut out: nothing, a head, a tail, or both are left. */
  function Cut(c: seq<Region>, i: nat, b: nat, n: nat): seq<Region>
    requires i < |c|
  {
    c[..i] + (HeadLeft(c[i], b) + TailLeft(c[i], b + n)) + c[i + 1..]
  }

  lemma CutKeeps(c: seq<Region>, i: nat, b: nat, n: nat)
    requires ChainOk(c) && n > 0 && i < |c| && c[i].begin <= b && b + n <= c[i].End()
    ensures ChainOk(Cut(c, i, b, n))
    ensures forall p: nat :: Covers(Cut(c, i, b, n), p) <==> Covers(c, p) && !(b <= p < b + n)
  {
    var head, tail := HeadLeft(c[i], b), TailLeft(c[i], b + n);
    Unglue(c, i, i + 1);
    assert c[i..i + 1] == [c[i]];
    Glue(c[..i], head + tail, c[i + 1..], c[i].begin, c[i].End());
    forall p: nat ensures Covers(Cut(c, i, b, n), p) <==> Covers(c, p) && !(b <= p < b + n) {
      CoversParts(c[..i], [c[i]], c[i + 1..], p);
      CoversParts(c[..i], head + tail, c[i + 1..], p);
      CoversParts(head, tail, [], p);
      assert head + tail + [] == head + tail;
      CoversBounds(c[..i], p);
      CoversBounds(c[i + 1..], p);
      CoversBounds([c[i]], p);
      CoversBounds(head, p);
      CoversBounds(tail, p);
      CoversBounds([], p);
    }
  }

  /** What uvm_mmap does: the chain it leaves and the first page it takes, or the panic. */
  datatype Mapping = Mapped(chain: seq<Region>, at: nat) | Insufficient | NotFound

  function Mmap(c: seq<Region>, begin: nat, n: nat): Mapping {
    var i := Pick(c, begin, n);
    if i == |c| then NotFound
    else
      var b := if begin == 0 then c[i].begin else begin;
      if c[i].End() < b + n then Insufficient else Mapped(Cut(c, i, b, n), b)
  }

  /** A mapping takes exactly the pages asked for, all of them free before, and leaves a chain. */
  lemma MmapKeeps(c: seq<Region>, begin: nat, n: nat)
    requires ChainOk(c) && n > 0 && Mmap(c, begin, n).Mapped?
    ensures var m := Mmap(c, begin, n);
            && ChainOk(m.chain) && AllFree(c, m.at, n) && (begin != 0 ==> m.at == begin)
            && forall p: nat :: Covers(m.chain, p) <==> Covers(c, p) && !(m.at <= p < m.at + n)
  {
    var i := Pick(c, begin, n);
    var b := if begin == 0 then c[i].begin else begin;
    CutKeeps(c, i, b, n);
    forall p | b <= p < b + n ensures Covers(c, p) { assert c[i].begin <= p < c[i].End(); }
  }

  /** A request for a place succeeds exactly when all its pages are free. */
  lemma MmapAtIff(c: seq<Region>, begin: nat, n: nat)
    requires ChainOk(c) && n > 0 && begin >= FIRST
    ensures Mmap(c, begin, n).Mapped? <==> AllFree(c, begin, n)
  {
    if AllFree(c, begin, n) {
      var j := RunInOne(c, begin, n);
      assert Takes(c[j], begin, n);
      var i := Pick(c, begin, n);
      assert i <= j;
    }
    if Mmap(c, begin, n).Mapped? { MmapKeeps(c, begin, n); }
  }

  /** A request for any place gets the lowest address with n free pages in a row, and fails exactly
      when there is none. */
  lemma MmapLowest(c: seq<Region>, n: nat)
    requires ChainOk(c) && n > 0
    ensures Mmap(c, 0, n).Mapped? <==> exists b: nat :: AllFree(c, b, n)
    ensures Mmap(c, 0, n).Mapped? ==> forall b: nat :: AllFree(c, b, n) ==> Mmap(c, 0, n).at <= b
    ensures !Mmap(c, 0, n).Mapped? ==> Mmap(c, 0, n) == NotFound
  {
    var i := Pick(c, 0, n);
    forall b: nat | AllFree(c, b, n) ensures i < |c| && c[i].begin <= b {
      var j := RunInOne(c, b, n);
      assert Takes(c[j], 0, n);
    }
    if Mmap(c, 0, n).Mapped? { MmapKeeps(c, 0, n); }
  }

  // ----- uvm_munmap

  /** Where the region before position i ends; the special region in front ends at FIRST. */
  function EndAt(c: seq<Region>, i: nat): nat
    requires i <= |c|
  {
    if i == 0 then FIRST else c[i - 1].End()
  }

  const PAGE_WRAP: nat := U64 / PGSIZE

  /** The page behind the range: the 64-bit sum `begin + npages * PGSIZE` wraps once at most. */
  function EndPage(begin: nat, n: nat): nat {
    if begin + n < PAGE_WRAP then begin + n else begin + n - PAGE_WRAP
  }

  /** The 64-bit difference `page - npages * PGSIZE`. */
  function BackFrom(page: nat, n: nat): nat
    requires n <= PAGE_WRAP
  {
    if page >= n then page - n else page + PAGE_WRAP - n
  }

  lemma BackFromEnd(begin: nat, n: nat)
    requires begin < PAGE_WRAP && n <= PAGE_WRAP
    ensures BackFrom(EndPage(begin, n), n) == begin
  {
  }

  lemma EndAddress(addr: nat, n: nat)
    requires addr < U64 && addr % PGSIZE == 0 && n < PAGE_WRAP
    ensures (addr + n * PGSIZE) % U64 == EndPage(addr / PGSIZE, n) * PGSIZE
  {
    var b := addr / PGSIZE;
    assert addr == b * PGSIZE && U64 == PAGE_WRAP * PGSIZE;
    assert addr + n * PGSIZE == (b + n) * PGSIZE;
  }

  /** The first gap the new region fits in; |c| stands for "after the last region". */
  function Gap(c: seq<Region>, begin: nat, n: nat, from: nat): (i: nat)
    requires from <= |c|
    ensures from <= i <= |c| && (i < |c| ==> EndAt(c, i) <= begin && EndPage(begin, n) <= c[i].begin)
    ensures forall j :: from <= j < i ==> !(EndAt(c, j) <= begin && EndPage(begin, n) <= c[j].begin)
    decreases |c| - from
  {
    if from == |c| || (EndAt(c, from) <= begin && EndPage(begin, n) <= c[from].begin) then from
    else Gap(c, begin, n, from + 1)
  }

  /** The branch at lines 277-280: the new region goes last and touches the one before it. */
  predicate TailMerge(c: seq<Region>, begin: nat, n: nat) {
    Gap(c, begin, n, 0) == |c| && begin == EndAt(c, |c|)
  }

  /** The chain after uvm_munmap, as its links read. */
  function Munmap(c: seq<Region>, begin: nat, n: nat): seq<Region> {
    MunmapAt(c, begin, n, Gap(c, begin, n, 0))
  }

  function MunmapAt(c: seq<Region>, begin: nat, n: nat, i: nat): seq<Region>
    requires i <= |c| && (i < |c| ==> EndPage(begin, n) <= c[i].begin)
  {
    if i < |c| then
      if i > 0 && begin == c[i - 1].End() then
        if EndPage(begin, n) == c[i].begin then
          c[..i - 1] + [Region(c[i - 1].begin, c[i - 1].npages + n + c[i].npages)] + c[i + 1..]
        else
          c[..i - 1] + [Region(c[i - 1].begin, c[i - 1].npages + n)] + c[i..]
      else if EndPage(begin, n) == c[i].begin then
        c[..i] + [Region(begin, c[i].npages + n)] + c[i + 1..]
      else
        c[..i] + [Region(begin, n)] + c[i..]
    else if c != [] && begin == EndAt(c, |c|) then
      c + [Region(begin - c[|c| - 1].npages, n + c[|c| - 1].npages)]
    else
      c + [Region(begin, n)]
  }

  /** A range none of whose pages is free lies in one gap, or after the last region. */
  lemma {:induction false} GapIs(c: seq<Region>, begin: nat, n: nat, j: nat)
    requires ChainOk(c) && n > 0 && FIRST <= begin && begin + n < PAGE_WRAP && NoneFree(c, begin, n)
    requires j <= |c| && EndAt(c, j) <= begin && (j < |c| ==> begin < c[j].begin)
    ensures Gap(c, begin, n, 0) == j
    ensures j < |c| ==> begin + n <= c[j].begin
  {
    if j < |c| && begin + n > c[j].begin { assert Covers(c, c[j].begin); }
    var g := Gap(c, begin, n, 0);
    assert forall k :: 0 <= k < j ==> c[k].begin < EndAt(c, j);
  }

  lemma {:induction false} GapExists(c: seq<Region>, begin: nat, k: nat) returns (j: nat)
    requires ChainOk(c) && FIRST <= begin && !Covers(c, begin) && k <= |c| && EndAt(c, k) <= begin
    ensures j <= |c| && EndAt(c, j) <= begin && (j < |c| ==> begin < c[j].begin)
    decreases |c| - k
  {
    if k == |c| || begin < c[k].begin {
      j := k;
    } else {
      j := GapExists(c, begin, k + 1);
    }
  }

  /** The tail branch is taken exactly when the range starts where the last region ends. */
  lemma TailMergeIff(c: seq<Region>, begin: nat, n: nat)
    requires ChainOk(c) && n > 0 && FIRST <= begin < PAGE_WRAP && n < U32 / PGSIZE && NoneFree(c, begin, n)
    ensures TailMerge(c, begin, n) <==> begin == EndAt(c, |c|)
  {
    if begin == EndAt(c, |c|) {
      assert begin + n < PAGE_WRAP;
      GapIs(c, begin, n, |c|);
    }
  }

  /** A range whose end wraps goes in front of the whole chain, out of order. */
  lemma {:induction false} MunmapWraps(c: seq<Region>, begin: nat, n: nat)
    requires ChainOk(c) && n < U32 / PGSIZE && begin < PAGE_WRAP <= begin + n
    ensures EndPage(begin, n) < FIRST && Gap(c, begin, n, 0) == 0
    ensures Munmap(c, begin, n) == [Region(begin, n)] + c && !ChainOk([Region(begin, n)] + c)
    ensures forall p: nat :: Covers([Region(begin, n)] + c, p) <==> Covers(c, p) || begin <= p < begin + n
    ensures !TailMerge(c, begin, n)
  {
    assert EndPage(begin, n) == begin + n - PAGE_WRAP;
    assert ([Region(begin, n)] + c)[0].End() > LAST;
    assert [] + [Region(begin, n)] + c == [Region(begin, n)] + c;
    forall p: nat ensures Covers([Region(begin, n)] + c, p) <==> Covers(c, p) || begin <= p < begin + n {
      CoversParts([], [Region(begin, n)], c, p);
      CoversBounds([Region(begin, n)], p);
      CoversBounds([], p);
    }
  }

  /** Giving back pages that are not free, in any range the checks of uvm_munmap accept, adds exactly
      them. It leaves a chain in order unless the end of the range wraps, or the tail branch is taken
      with a real region before it: then the last two regions overlap. */
  lemma MunmapKeeps(c: seq<Region>, begin: nat, n: nat)
    requires ChainOk(c) && 0 < n < U32 / PGSIZE && FIRST <= begin < PAGE_WRAP && EndPage(begin, n) <= LAST && NoneFree(c, begin, n)
    ensures forall p: nat :: Covers(Munmap(c, begin, n), p) <==> Covers(c, p) || begin <= p < begin + n
    ensures ChainOk(Munmap(c, begin, n)) <==> begin + n < PAGE_WRAP && (!TailMerge(c, begin, n) || c == [])
  {
    hide Munmap, TailMerge, Gap, ChainOk, Covers;
    if begin + n < PAGE_WRAP {
      MunmapPlain(c, begin, n);
    } else {
      MunmapWraps(c, begin, n);
    }
  }

  lemma MunmapPlain(c: seq<Region>, begin: nat, n: nat)
    requires ChainOk(c) && n > 0 && FIRST <= begin && begin + n <= LAST && NoneFree(c, begin, n)
    ensures forall p: nat :: Covers(Munmap(c, begin, n), p) <==> Covers(c, p) || begin <= p < begin + n
    ensures ChainOk(Munmap(c, begin, n)) <==> !TailMerge(c, begin, n) || c == []
  {
    assert !Covers(c, begin);
    var i := GapExists(c, begin, 0);
    GapIs(c, begin, n, i);
    if i == |c| {
      MunmapLast(c, begin, n);
    } else {
      var lo := if i > 0 && begin == c[i - 1].End() then i - 1 else i;
      var hi := if begin + n == c[i].begin then i + 1 else i;
      MunmapInside(c, begin, n, i, lo, hi);
    }
  }

  /** The new region merged with the neighbours it touches, which are c[lo..hi]. */
  function Merged(c: seq<Region>, begin: nat, n: nat, i: nat, lo: nat, hi: nat): Region
    requires i < |c| && lo <= i <= hi <= |c|
    requires hi > i ==> c[i].End() >= begin
    requires lo < i ==> c[lo].begin <= begin
  {
    var b := if lo < i then c[lo].begin else begin;
    var e := if i < hi then c[i].End() else begin + n;
    Region(b, e - b)
  }

  predicate Neighbours(c: seq<Region>, begin: nat, n: nat, i: nat, lo: nat, hi: nat) {
    && i < |c| && EndAt(c, i) <= begin && begin + n <= c[i].begin && begin + n < PAGE_WRAP
    && lo == (if i > 0 && begin == c[i - 1].End() then i - 1 else i)
    && hi == (if begin + n == c[i].begin then i + 1 else i)
  }

  lemma MunmapShape(c: seq<Region>, begin: nat, n: nat, i: nat, lo: nat, hi: nat)
    requires Neighbours(c, begin, n, i, lo, hi)
    ensures MunmapAt(c, begin, n, i) == c[..lo] + [Merged(c, begin, n, i, lo, hi)] + c[hi..]
  {
    if lo < i && hi > i {
      assert Merged(c, begin, n, i, lo, hi) == Region(c[i - 1].begin, c[i - 1].npages + n + c[i].npages);
    }
  }

  lemma MergedBounds(c: seq<Region>, begin: nat, n: nat, i: nat, lo: nat, hi: nat)
    requires ChainOk(c) && n > 0 && FIRST <= begin && Neighbours(c, begin, n, i, lo, hi)
    ensures var m := Merged(c, begin, n, i, lo, hi);
            ChainOk([m]) && EndsBefore(c[..lo], m.begin) && BeginsAfter(c[hi..], m.End())
  {
  }

  lemma {:induction false} MunmapInside(c: seq<Region>, begin: nat, n: nat, i: nat, lo: nat, hi: nat)
    requires ChainOk(c) && n > 0 && FIRST <= begin && Neighbours(c, begin, n, i, lo, hi) && Gap(c, begin, n, 0) == i
    ensures forall p: nat :: Covers(Munmap(c, begin, n), p) <==> Covers(c, p) || begin <= p < begin + n
    ensures ChainOk(Munmap(c, begin, n))
  {
    hide MunmapAt, Gap, ChainOk, Covers, EndsBefore, BeginsAfter;
    var m := Merged(c, begin, n, i, lo, hi);
    MunmapShape(c, begin, n, i, lo, hi);
    MergedBounds(c, begin, n, i, lo, hi);
    Unglue(c, lo, hi);
    Glue(c[..lo], [m], c[hi..], m.begin, m.End());
    forall p: nat ensures Covers(c[..lo] + [m] + c[hi..], p) <==> Covers(c, p) || begin <= p < begin + n {
      CoversParts(c[..lo], [m], c[hi..], p);
      CoversParts(c[..lo], c[lo..hi], c[hi..], p);
      CoversBounds([m], p);
      MiddleCovers(c, begin, n, i, lo, hi, p);
    }
  }

  lemma MiddleCovers(c: seq<Region>, begin: nat, n: nat, i: nat, lo: nat, hi: nat, p: nat)
    requires i < |c|
    requires lo == if i > 0 && begin == c[i - 1].End() then i - 1 else i
    requires hi == if begin + n == c[i].begin then i + 1 else i
    ensures Covers(c[lo..hi], p) <==> (lo < i && c[lo].begin <= p < begin) || (i < hi && begin + n <= p < c[i].End())
  {
    if lo < i && c[lo].begin <= p < begin { assert c[lo..hi][0] == c[lo]; }
    if i < hi && begin + n <= p < c[i].End() { assert c[lo..hi][i - lo] == c[i]; }
  }

  /** The region appended after the last one: the new pages, or in the tail branch the last region
      and the new pages. */
  function Appended(c: seq<Region>, begin: nat, n: nat): Region {
    if c != [] && begin == EndAt(c, |c|) then Region(c[|c| - 1].begin, n + c[|c| - 1].npages) else Region(begin, n)
  }

  lemma {:induction false} LastShape(c: seq<Region>, begin: nat, n: nat)
    requires Gap(c, begin, n, 0) == |c|
    ensures Munmap(c, begin, n) == c + [Appended(c, begin, n)] + []
    ensures TailMerge(c, begin, n) <==> begin == EndAt(c, |c|)
  {
  }

  lemma AppendedCovers(c: seq<Region>, begin: nat, n: nat, p: nat)
    ensures Covers(c + [Appended(c, begin, n)] + [], p) <==> Covers(c, p) || begin <= p < begin + n
  {
    var m := Appended(c, begin, n);
    CoversParts(c, [m], [], p);
    CoversBounds([m], p);
    CoversBounds([], p);
    if c != [] && c[|c| - 1].begin <= p < c[|c| - 1].End() { assert Covers(c, p); }
  }

  lemma AppendedOk(c: seq<Region>, begin: nat, n: nat)
    requires ChainOk(c) && n > 0 && FIRST <= begin && begin + n <= LAST && EndAt(c, |c|) <= begin
    ensures ChainOk(c + [Appended(c, begin, n)] + []) <==> begin != EndAt(c, |c|) || c == []
  {
    var m := Appended(c, begin, n);
    var d := c + [m] + [];
    if c != [] && begin == EndAt(c, |c|) {
      assert d[|c| - 1].End() >= d[|c|].begin;
    } else {
      Glue(c, [m], [], begin, begin + n);
    }
  }

  lemma {:induction false} MunmapLast(c: seq<Region>, begin: nat, n: nat)
    requires ChainOk(c) && n > 0 && FIRST <= begin && begin + n <= LAST
    requires Gap(c, begin, n, 0) == |c| && EndAt(c, |c|) <= begin
    ensures forall p: nat :: Covers(Munmap(c, begin, n), p) <==> Covers(c, p) || begin <= p < begin + n
    ensures ChainOk(Munmap(c, begin, n)) <==> !TailMerge(c, begin, n) || c == []
  {
    hide Munmap, TailMerge, ChainOk, Covers, Gap;
    LastShape(c, begin, n);
    AppendedOk(c, begin, n);
    forall p: nat ensures Covers(Munmap(c, begin, n), p) <==> Covers(c, p) || begin <= p < begin + n {
      AppendedCovers(c, begin, n, p);
    }
  }

  /** A short run: take the last two pages of the area and give them back. The last region is
      listed twice over afterwards. */
  lemma TailMergeOverlaps()
    ensures var c0 := [Region(FIRST, 8096)];
            && ChainOk(c0) && Mmap(c0, LAST - 2, 2) == Mapped([Region(FIRST, 8094)], LAST - 2)
            && Munmap([Region(FIRST, 8094)], LAST - 2, 2) == [Region(FIRST, 8094), Region(FIRST, 8096)]
            && NoneFree([Region(FIRST, 8094)], LAST - 2, 2) && TailMerge([Region(FIRST, 8094)], LAST - 2, 2)
            && !ChainOk([Region(FIRST, 8094), Region(FIRST, 8096)])
  {
    var c0 := [Region(FIRST, 8096)];
    assert Pick(c0, LAST - 2, 2) == 0;
    var c1 := [Region(FIRST, 8094)];
    assert Gap(c1, LAST - 2, 2, 0) == 1;
    var c2 := [Region(FIRST, 8094), Region(FIRST, 8096)];
    assert c2[0].End() >= c2[1].begin;
  }

  // ----- runs

  datatype Request = Map(begin: nat, n: nat) | Unmap(begin: nat, n: nat)

  /** What the callers and the tail branch allow: only mapped pages are unmapped. */
  ghost predicate Legal(c: seq<Region>, r: Request) {
    match r
    case Map(begin, n) => n > 0 && Mmap(c, begin, n).Mapped?
    case Unmap(begin, n) =>
      n > 0 && FIRST <= begin && begin + n <= LAST && NoneFree(c, begin, n) && !TailMerge(c, begin, n)
  }

  function After(c: seq<Region>, r: Request): seq<Region> {
    match r
    case Map(begin, n) => if Mmap(c, begin, n).Mapped? then Mmap(c, begin, n).chain else c
    case Unmap(begin, n) => Munmap(c, begin, n)
  }

  function AfterAll(c: seq<Region>, rs: seq<Request>): seq<Region> {
    if rs == [] then c else After(AfterAll(c, rs[..|rs| - 1]), rs[|rs| - 1])
  }

  ghost predicate LegalRun(c: seq<Region>, rs: seq<Request>) {
    rs != [] ==> LegalRun(c, rs[..|rs| - 1]) && Legal(AfterAll(c, rs[..|rs| - 1]), rs[|rs| - 1])
  }

  /** Page p is mapped by the run: some request took it and none gave it back since. */
  predicate Held(c: seq<Region>, rs: seq<Request>, p: nat) {
    if rs == [] then false
    else
      var before := rs[..|rs| - 1];
      match rs[|rs| - 1]
      case Map(begin, n) =>
        var m := Mmap(AfterAll(c, before), begin, n);
        (m.Mapped? && m.at <= p < m.at + n) || Held(c, before, p)
      case Unmap(begin, n) => !(begin <= p < begin + n) && Held(c, before, p)
  }

  /** After any legal run from the fresh area, the chain is in order and its pages are exactly those
      of the area the run does not hold. */
  lemma {:induction false} RunKeeps(rs: seq<Request>)
    requires LegalRun([Region(FIRST, LAST - FIRST)], rs)
    ensures var c := AfterAll([Region(FIRST, LAST - FIRST)], rs);
            ChainOk(c) && forall p: nat :: Covers(c, p) <==> FIRST <= p < LAST && !Held([Region(FIRST, LAST - FIRST)], rs, p)
  {
    var c0 := [Region(FIRST, LAST - FIRST)];
    if rs == [] {
      forall p: nat ensures Covers(c0, p) <==> FIRST <= p < LAST { CoversBounds(c0, p); }
    } else {
      var before := rs[..|rs| - 1];
      RunKeeps(before);
      var c := AfterAll(c0, before);
      match rs[|rs| - 1] {
        case Map(begin, n) => MmapKeeps(c, begin, n);
        case Unmap(begin, n) => MunmapKeeps(c, begin, n);
      }
    }
  }
}
