/** uvm_destroy_pgtbl of kernel/mem/uvm.c: the recursion that gives back a process's page-table
    pages and the frames they map, as a log of the pmem_free calls it makes. */
module Destroy {
  import opened Base
  import opened PageTable

  /** One call pmem_free(page, kernel). */
  datatype Free = Free(page: nat, kernel: bool)

  const TRAMPOLINE: nat := VA_MAX - PGSIZE
  const TRAPFRAME: nat := TRAMPOLINE - PGSIZE

  // ----- the calls, in order

  /** What destroying the (sub)tree at page `a` frees; level 0 is a mapped frame. */
  function FreeLog(t: Tree, a: nat, level: nat): seq<Free>
    decreases t, level, 1, 0
  {
    if level == 0 then [Free(a, false)] else EntryLog(t, a, level, 512) + [Free(a, true)]
  }

  /** What the first n entries of table `a` contribute. */
  function EntryLog(t: Tree, a: nat, level: nat, n: nat): seq<Free>
    requires level > 0
    decreases t, level, 0, n
  {
    if n == 0 then []
    else EntryLog(t, a, level, n - 1) +
         match Child(t, a, n - 1)
         case None => []
         case Some(b) => FreeLog(t, b, level - 1)
  }

  /** The pages given back to one region. */
  function Part(log: seq<Free>, kernel: bool): seq<nat> {
    if log == [] then []
    else Part(log[..|log| - 1], kernel) +
         (if log[|log| - 1].kernel == kernel then [log[|log| - 1].page] else [])
  }

  lemma {:induction false} PartAppend(a: seq<Free>, b: seq<Free>, kernel: bool)
    ensures Part(a + b, kernel) == Part(a, kernel) + Part(b, kernel)
  {
    if b == [] {
      assert a + b == a;
    } else {
      assert (a + b)[..|a + b| - 1] == a + b[..|b| - 1];
      PartAppend(a, b[..|b| - 1], kernel);
    }
  }

  // ----- levels and roles

  function Level(r: Role): nat {
    match r
    case Root => 3
    case Mid(_) => 2
    case Low(_, _) => 1
  }

  /** Role r lies under one of the first n entries of a table with role `top`. */
  predicate BelowEntry(r: Role, top: Role, n: nat) {
    match top
    case Root => !r.Root? && r.i < n
    case Mid(k) => r.Low? && r.i == k && r.j < n
    case Low(_, _) => false
  }

  predicate Under(r: Role, top: Role) { r == top || BelowEntry(r, top, 512) }

  // ----- the frames freed are the mapped ones, in page order

  function Page(i: nat, j: nat, k: nat): nat { i * 262144 + j * 512 + k }

  lemma PageDigits(i: nat, j: nat, k: nat)
    requires i < 512 && j < 512 && k < 512
    ensures D2(Page(i, j, k)) == i && D1(Page(i, j, k)) == j && D0(Page(i, j, k)) == k
    ensures Page(i, j, k) < PAGES
  {
    var p := Page(i, j, k);
    assert p == (i * 512 + j) * 512 + k;
    assert p / 512 == i * 512 + j;
  }

  /** Frames of the mapped pages among the n pages from `first`, in page order. */
  function Mapped(t: Tree, first: nat, n: nat): seq<nat> {
    if n == 0 then []
    else Mapped(t, first, n - 1) +
         (if IsValid(Pte(t, first + n - 1)) then [PteToPa(Pte(t, first + n - 1))] else [])
  }

  lemma {:induction false} MappedSplit(t: Tree, first: nat, m: nat, n: nat)
    ensures Mapped(t, first, m + n) == Mapped(t, first, m) + Mapped(t, first + m, n)
  {
    if n > 0 { MappedSplit(t, first, m, n - 1); }
  }

  lemma {:induction false} MappedNone(t: Tree, first: nat, n: nat)
    requires forall p :: first <= p < first + n ==> Pte(t, p) == 0
    ensures Mapped(t, first, n) == []
  {
    if n > 0 { MappedNone(t, first, n - 1); }
  }

  lemma PageSteps(i: nat, j: nat, k: nat)
    ensures Page(i, j, 0) + k == Page(i, j, k)
    ensures Page(i, 0, 0) + j * 512 == Page(i, j, 0)
    ensures i * 262144 == Page(i, 0, 0)
  {
  }

  /** A missing table at (i, j), or at i, maps nothing. */
  lemma {:induction false} NoLowNoPages(t: Tree, i: nat, j: nat)
    requires i < 512 && j < 512 && LowTable(t, Page(i, j, 0)) == None
    ensures Mapped(t, Page(i, j, 0), 512) == []
  {
    hide D0, D1, D2, Page, Mapped;
    PageDigits(i, j, 0);
    forall p | Page(i, j, 0) <= p < Page(i, j, 0) + 512 ensures Pte(t, p) == 0 {
      PageSteps(i, j, p - Page(i, j, 0));
      PageDigits(i, j, p - Page(i, j, 0));
    }
    MappedNone(t, Page(i, j, 0), 512);
  }

  lemma {:induction false} NoMidNoPages(t: Tree, i: nat, n: nat)
    requires i < 512 && n <= 512 && Child(t, t.root, i) == None
    ensures Mapped(t, Page(i, 0, 0), n * 512) == []
  {
    hide D0, D1, D2, Page;
    if n > 0 {
      NoMidNoPages(t, i, n - 1);
      PageDigits(i, n - 1, 0);
      PageSteps(i, n - 1, 0);
      NoLowNoPages(t, i, n - 1);
      MappedSplit(t, Page(i, 0, 0), (n - 1) * 512, 512);
    }
  }

  /** What entry n - 1 adds to the log of the first n entries. */
  lemma EntryStep(t: Tree, a: nat, level: nat, n: nat, kernel: bool)
    requires level > 0
    ensures n == 0 ==> Part(EntryLog(t, a, level, n), kernel) == []
    ensures n > 0 && Child(t, a, n - 1) == None ==>
            Part(EntryLog(t, a, level, n), kernel) == Part(EntryLog(t, a, level, n - 1), kernel)
    ensures n > 0 && Child(t, a, n - 1).Some? ==>
            Part(EntryLog(t, a, level, n), kernel) ==
            Part(EntryLog(t, a, level, n - 1), kernel) + Part(FreeLog(t, Child(t, a, n - 1).value, level - 1), kernel)
  {
    if n > 0 {
      match Child(t, a, n - 1) {
        case None => assert EntryLog(t, a, level, n) == EntryLog(t, a, level, n - 1);
        case Some(b) => PartAppend(EntryLog(t, a, level, n - 1), FreeLog(t, b, level - 1), kernel);
      }
    }
  }

  lemma {:induction false} FrameLog(t: Tree, a: nat, kernel: bool)
    ensures Part(FreeLog(t, a, 0), kernel) == if kernel then [] else [a]
  {
    assert FreeLog(t, a, 0)[..0] == [];
  }

  /** A table's log is its entries' log and then the table itself. */
  lemma {:induction false} TableLog(t: Tree, a: nat, level: nat)
    requires level > 0
    ensures Part(FreeLog(t, a, level), false) == Part(EntryLog(t, a, level, 512), false)
    ensures Part(FreeLog(t, a, level), true) == Part(EntryLog(t, a, level, 512), true) + [a]
  {
    var last := [Free(a, true)];
    assert last[..0] == [];
    PartAppend(EntryLog(t, a, level, 512), last, false);
    PartAppend(EntryLog(t, a, level, 512), last, true);
  }

  lemma {:induction false} LowLog(t: Tree, a: nat, i: nat, j: nat, n: nat)
    requires TreeOk(t) && i < 512 && j < 512 && n <= 512
    requires LowTable(t, Page(i, j, 0)) == Some(a)
    ensures Part(EntryLog(t, a, 1, n), false) == Mapped(t, Page(i, j, 0), n)
  {
    hide Part, EntryLog, FreeLog, Page, D0, D1, D2, TreeOk;
    EntryStep(t, a, 1, n, false);
    if n > 0 {
      LowLog(t, a, i, j, n - 1);
      LowTableRole(t, Page(i, j, 0));
      PageDigits(i, j, 0);
      PageDigits(i, j, n - 1);
      PageSteps(i, j, n - 1);
      assert Pte(t, Page(i, j, n - 1)) == t.mem[a][n - 1];
      if Child(t, a, n - 1).Some? { FrameLog(t, Child(t, a, n - 1).value, false); }
    }
  }

  lemma {:induction false} MidLog(t: Tree, a: nat, i: nat, n: nat)
    requires TreeOk(t) && i < 512 && n <= 512
    requires Child(t, t.root, i) == Some(a)
    ensures Part(EntryLog(t, a, 2, n), false) == Mapped(t, Page(i, 0, 0), n * 512)
  {
    hide Part, EntryLog, FreeLog, Page, D0, D1, D2, TreeOk, Mapped;
    EntryStep(t, a, 2, n, false);
    MappedNone(t, Page(i, 0, 0), 0);
    if n > 0 {
      MidLog(t, a, i, n - 1);
      PageDigits(i, n - 1, 0);
      PageSteps(i, n - 1, 0);
      MappedSplit(t, Page(i, 0, 0), (n - 1) * 512, 512);
      match Child(t, a, n - 1) {
        case None => NoLowNoPages(t, i, n - 1);
        case Some(low) =>
          LowLog(t, low, i, n - 1, 512);
          TableLog(t, low, 1);
      }
    }
  }

  lemma {:induction false} RootLog(t: Tree, n: nat)
    requires TreeOk(t) && n <= 512
    ensures Part(EntryLog(t, t.root, 3, n), false) == Mapped(t, 0, n * 262144)
  {
    hide Part, EntryLog, FreeLog, Page, D0, D1, D2, TreeOk, Mapped;
    EntryStep(t, t.root, 3, n, false);
    MappedNone(t, 0, 0);
    if n > 0 {
      RootLog(t, n - 1);
      PageSteps(n - 1, 0, 0);
      MappedSplit(t, 0, (n - 1) * 262144, 262144);
      match Child(t, t.root, n - 1) {
        case None => NoMidNoPages(t, n - 1, 512);
        case Some(mid) =>
          MidLog(t, mid, n - 1, 512);
          TableLog(t, mid, 2);
      }
    }
  }

  // ----- the table pages freed are the ones a walk can visit, once each

  lemma NoDupConcat(a: seq<nat>, b: seq<nat>)
    requires NoDup(a) && NoDup(b) && forall x :: x in a ==> x !in b
    ensures NoDup(a + b)
  {
    forall i, j | 0 <= i < j < |a + b| ensures (a + b)[i] != (a + b)[j] {
      if i < |a| <= j { assert a[i] in a && b[j - |a|] in b; }
    }
  }

  lemma {:induction false} TablesOnce(t: Tree, a: nat, level: nat, n: nat)
    requires TreeOk(t) && a in t.mem && level == Level(t.role[a]) && n <= 512
    ensures var k := Part(EntryLog(t, a, level, n), true);
            NoDup(k) && forall x :: x in k ==> x in t.role && BelowEntry(t.role[x], t.role[a], n)
    decreases level, n
  {
    hide Part, EntryLog, FreeLog;
    EntryStep(t, a, level, n, true);
    if n > 0 {
      TablesOnce(t, a, level, n - 1);
      match Child(t, a, n - 1) {
        case None =>
        case Some(b) =>
          if level == 1 {
            FrameLog(t, b, true);
          } else {
            assert EntryOk(t, a, n - 1);
            TablesOnce(t, b, level - 1, 512);
            TableLog(t, b, level - 1);
            NoDupConcat(Part(EntryLog(t, b, level - 1, 512), true), [b]);
            NoDupConcat(Part(EntryLog(t, a, level, n - 1), true), Part(FreeLog(t, b, level - 1), true));
          }
      }
    }
  }

  lemma {:induction false} LowTables(t: Tree, a: nat, n: nat)
    ensures Part(EntryLog(t, a, 1, n), true) == []
  {
    if n > 0 {
      LowTables(t, a, n - 1);
      EntryStep(t, a, 1, n, true);
      if Child(t, a, n - 1).Some? { FrameLog(t, Child(t, a, n - 1).value, true); }
    }
  }

  lemma {:induction false} MidTables(t: Tree, a: nat, n: nat, x: nat)
    ensures x in Part(EntryLog(t, a, 2, n), true) <==> exists j: nat :: j < n && Child(t, a, j) == Some(x)
  {
    hide Part, EntryLog, FreeLog, Child;
    EntryStep(t, a, 2, n, true);
    if n > 0 {
      MidTables(t, a, n - 1, x);
      if Child(t, a, n - 1).Some? {
        LowTables(t, Child(t, a, n - 1).value, 512);
        TableLog(t, Child(t, a, n - 1).value, 1);
      }
    }
  }

  /** Table x is what root entry i points at, or hangs off that. */
  predicate HangsOff(t: Tree, i: nat, x: nat) {
    match Child(t, t.root, i)
    case None => false
    case Some(mid) => x == mid || exists j: nat :: j < 512 && Child(t, mid, j) == Some(x)
  }

  lemma {:induction false} RootTables(t: Tree, n: nat, x: nat)
    ensures x in Part(EntryLog(t, t.root, 3, n), true) <==> exists i: nat :: i < n && HangsOff(t, i, x)
  {
    hide Part, EntryLog, FreeLog, Child;
    EntryStep(t, t.root, 3, n, true);
    if n > 0 {
      RootTables(t, n - 1, x);
      assert HangsOff(t, n - 1, x) <==> Child(t, t.root, n - 1).Some? && x in Part(FreeLog(t, Child(t, t.root, n - 1).value, 2), true) by {
        if Child(t, t.root, n - 1).Some? {
          MidTables(t, Child(t, t.root, n - 1).value, 512, x);
          TableLog(t, Child(t, t.root, n - 1).value, 2);
        }
      }
    }
  }

  /** x is one of the tables a walk for page p goes through. */
  predicate Visits(t: Tree, p: nat, x: nat) {
    x == t.root || Child(t, t.root, D2(p)) == Some(x) || LowTable(t, p) == Some(x)
  }

  lemma HangsOffVisited(t: Tree, x: nat)
    ensures (exists i: nat :: i < 512 && HangsOff(t, i, x)) <==>
            exists p: nat :: p < PAGES && (Child(t, t.root, D2(p)) == Some(x) || LowTable(t, p) == Some(x))
  {
    if i: nat :| i < 512 && HangsOff(t, i, x) {
      var mid := Child(t, t.root, i).value;
      PageDigits(i, 0, 0);
      if x != mid {
        var j: nat :| j < 512 && Child(t, mid, j) == Some(x);
        PageDigits(i, j, 0);
        assert LowTable(t, Page(i, j, 0)) == Some(x);
      } else {
        assert Child(t, t.root, D2(Page(i, 0, 0))) == Some(x);
      }
    }
    forall p: nat | p < PAGES && (Child(t, t.root, D2(p)) == Some(x) || LowTable(t, p) == Some(x))
      ensures HangsOff(t, D2(p), x)
    {
      if Child(t, t.root, D2(p)) != Some(x) { assert Child(t, Child(t, t.root, D2(p)).value, D1(p)) == Some(x); }
    }
  }

  /** Destroying a tree frees the mapped frames in page order to the user region, and each table a
      walk can visit exactly once to the kernel region. */
  lemma {:induction false} FreesExactly(t: Tree)
    requires TreeOk(t)
    ensures Part(FreeLog(t, t.root, 3), false) == Mapped(t, 0, PAGES)
    ensures NoDup(Part(FreeLog(t, t.root, 3), true))
    ensures forall x :: x in Part(FreeLog(t, t.root, 3), true) <==> exists p: nat :: p < PAGES && Visits(t, p, x)
  {
    hide Part, EntryLog, FreeLog, Child, HangsOff, Mapped, LowTable;
    RootLog(t, 512);
    TableLog(t, t.root, 3);
    TablesOnce(t, t.root, 3, 512);
    forall x ensures x in Part(FreeLog(t, t.root, 3), true) <==> exists p: nat :: p < PAGES && Visits(t, p, x) {
      RootTables(t, 512, x);
      HangsOffVisited(t, x);
      if x == t.root {
        assert Visits(t, 0, x);
      } else {
        assert forall p :: Visits(t, p, x) <==> Child(t, t.root, D2(p)) == Some(x) || LowTable(t, p) == Some(x);
      }
    }
  }

  // ----- the recursion itself

  predicate Skipped(p: nat) { p == TRAPFRAME / PGSIZE || p == TRAMPOLINE / PGSIZE }

  /** Mapped frames are distinct pages, and none of them is a table page. */
  ghost predicate FramesApart(t: Tree) {
    && (forall p, q :: 0 <= p < q < PAGES && IsValid(Pte(t, p)) && IsValid(Pte(t, q)) ==> PteToPa(Pte(t, p)) != PteToPa(Pte(t, q)))
    && (forall p :: 0 <= p < PAGES && IsValid(Pte(t, p)) ==> PteToPa(Pte(t, p)) !in t.mem)
  }

  /** Where the recursion finds a page of the given level. */
  ghost predicate Placed(t: Tree, a: nat, level: nat) {
    if level == 0 then a !in t.mem
    else
      && a in t.mem && a in t.role && |t.mem[a]| == 512 && Level(t.role[a]) == level
      && match t.role[a]
         case Root => a == t.root
         case Mid(i) => i < 512 && Child(t, t.root, i) == Some(a)
         case Low(i, j) => i < 512 && j < 512 && LowTable(t, Page(i, j, 0)) == Some(a)
  }

  lemma PlacedChild(t: Tree, a: nat, level: nat, i: nat)
    requires TreeOk(t) && FramesApart(t) && level > 0 && Placed(t, a, level) && i < 512 && IsValid(t.mem[a][i])
    ensures Placed(t, PteToPa(t.mem[a][i]), level - 1)
    ensures level > 1 ==> t.role[PteToPa(t.mem[a][i])] == if t.role[a].Root? then Mid(i) else Low(t.role[a].i, i)
  {
    assert EntryOk(t, a, i);
    if level == 1 {
      var r := t.role[a];
      PageDigits(r.i, r.j, 0);
      PageDigits(r.i, r.j, i);
      assert Pte(t, Page(r.i, r.j, i)) == t.mem[a][i];
    } else if level == 2 {
      PageDigits(t.role[a].i, i, 0);
    }
  }

  /** In `u`, the tables at or under `top`, bar those below its first n entries, are as in `t`. */
  ghost predicate Intact(t: Tree, u: Tree, top: Role, n: nat) {
    && u.mem.Keys == t.mem.Keys == t.role.Keys
    && forall a :: a in t.mem && Under(t.role[a], top) && !BelowEntry(t.role[a], top, n) ==> u.mem[a] == t.mem[a]
  }

  /** Between `u` and `v` only tables at or under `top` changed. */
  ghost predicate Confined(t: Tree, u: Tree, v: Tree, top: Role) {
    && v.mem.Keys == u.mem.Keys == t.mem.Keys == t.role.Keys
    && forall a :: a in t.mem && !Under(t.role[a], top) ==> v.mem[a] == u.mem[a]
  }

  /** Destroying what entry i leads to. */
  lemma EntryDone(t: Tree, before: Tree, now: Tree, later: Tree, page: nat, i: nat, child: Role)
    requires page in t.role && page in t.mem
    requires Intact(t, now, t.role[page], i) && Confined(t, before, now, t.role[page]) && i < 512
    requires Confined(t, now, later, child)
    requires match t.role[page] case Root => child == Mid(i) case Mid(k) => child == Low(k, i) case _ => false
    ensures Intact(t, later, t.role[page], i + 1) && Confined(t, before, later, t.role[page])
  {
  }

  lemma EntryBegins(t: Tree, now: Tree, page: nat, i: nat, child: nat)
    requires page in t.role && page in t.mem && child in t.role && i < 512 && !t.role[page].Low?
    requires Intact(t, now, t.role[page], i)
    requires t.role[child] == if t.role[page].Root? then Mid(i) else Low(t.role[page].i, i)
    ensures Intact(t, now, t.role[child], 0)
  {
  }

  lemma LoopStarts(t: Tree, u: Tree, page: nat)
    requires page in t.role && page in t.mem
    ensures Intact(t, u, t.role[page], 0) ==> Confined(t, u, u, t.role[page])
    ensures u == t && t.mem.Keys == t.role.Keys ==> Intact(t, u, t.role[page], 0)
  {
  }

  lemma Finished(t: Tree, before: Tree, looped: Tree, u: Tree, page: nat)
    requires page in t.role && page in t.mem
    requires Confined(t, before, looped, t.role[page])
    requires u.mem.Keys == looped.mem.Keys && forall a :: a in u.mem && a != page ==> u.mem[a] == looped.mem[a]
    ensures Confined(t, before, u, t.role[page])
  {
  }

  lemma EntrySkipped(t: Tree, before: Tree, now: Tree, later: Tree, top: Role, i: nat)
    requires Intact(t, now, top, i) && Confined(t, before, now, top) && i < 512 && later.mem == now.mem
    ensures Intact(t, later, top, i + 1) && Confined(t, before, later, top)
    ensures forall page :: page in t.mem && t.role[page] == top ==> now.mem[page] == t.mem[page]
  {
  }

  lemma LogSteps(t: Tree, a: nat, level: nat, i: nat)
    ensures FreeLog(t, a, 0) == [Free(a, false)]
    ensures level > 0 ==> FreeLog(t, a, level) == EntryLog(t, a, level, 512) + [Free(a, true)]
    ensures level > 0 ==> EntryLog(t, a, level, 0) == []
    ensures level > 0 && Child(t, a, i) == None ==> EntryLog(t, a, level, i + 1) == EntryLog(t, a, level, i)
    ensures level > 0 && Child(t, a, i).Some? ==>
            EntryLog(t, a, level, i + 1) == EntryLog(t, a, level, i) + FreeLog(t, Child(t, a, i).value, level - 1)
  {
  }

  /** pmem_free may fill the page with junk; only the contents of table pages are kept here. */
  method Release(space: AddressSpace, page: nat)
    modifies space`t
    ensures space.t.mem.Keys == old(space.t.mem.Keys)
    ensures forall a :: a in space.t.mem && a != page ==> space.t.mem[a] == old(space.t.mem[a])
  {
    var junk: seq<nat> := *;
    if page in space.t.mem {
      space.t := space.t.(mem := space.t.mem[page := junk]);
    }
  }

  /** uvm_destroy_pgtbl. `tree` is the tree on entry to the whole destruction; `t` the one its loop
      walks, from which level 3 has already unmapped the trapframe and the trampoline. */
  method Destroy(space: AddressSpace, page: nat, level: nat, ghost tree: Tree)
    returns (r: Outcome, ghost log: seq<Free>, ghost t: Tree)
    requires TreeOk(tree) && FramesApart(tree) && level <= 3 && Placed(tree, page, level)
    requires level == 3 ==> space.Valid() && tree == space.t
    requires 0 < level < 3 ==> Intact(tree, space.t, tree.role[page], 0)
    requires level == 0 ==> space.t.mem.Keys == tree.mem.Keys
    modifies space
    ensures level < 3 ==> r == Done && t == tree
    ensures level == 3 ==> (r == Done <==> IsLeaf(Pte(tree, TRAPFRAME / PGSIZE)) && IsLeaf(Pte(tree, TRAMPOLINE / PGSIZE)))
    ensures level == 3 && r == Done ==> Trimmed(tree, t)
    ensures r == Done ==> log == FreeLog(t, page, level)
    ensures 0 < level < 3 ==> Confined(tree, old(space.t), space.t, tree.role[page])
    ensures level == 0 ==> space.t.mem == old(space.t.mem)
    decreases level
  {
    hide TreeOk, FramesApart, Pte, LowTable, FreeLog, EntryLog, Intact, Confined, Trimmed, IsLeaf;
    log, t := [], tree;
    if level == 3 {
      r := UnmapTop(space);
      if r != Done { return; }
      t := space.t;
      TrimmedApart(tree, t);
    }
    r := Done;
    LogSteps(t, page, level, 0);
    if level == 0 {
      Release(space, page);
      log := [Free(page, false)];
      return;
    }
    ghost var before := space.t;
    LoopStarts(t, before, page);
    var i := 0;
    while i < 512
      invariant i <= 512 && log == EntryLog(t, page, level, i)
      invariant Intact(t, space.t, t.role[page], i) && Confined(t, before, space.t, t.role[page])
    {
      ghost var now := space.t;
      LogSteps(t, page, level, i);
      EntrySkipped(t, before, now, now, t.role[page], i);
      var pte := space.t.mem[page][i];
      if IsValid(pte) {
        PlacedChild(t, page, level, i);
        if level > 1 {
          EntryBegins(t, now, page, i, PteToPa(pte));
        }
        var _, sub, _ := Destroy(space, PteToPa(pte), level - 1, t);
        log := log + sub;
        if level > 1 {
          EntryDone(t, before, now, space.t, page, i, t.role[PteToPa(pte)]);
        } else {
          EntrySkipped(t, before, now, space.t, t.role[page], i);
        }
      }
      i := i + 1;
    }
    ghost var looped := space.t;
    Release(space, page);
    log := log + [Free(page, true)];
    Finished(t, before, looped, space.t, page);
  }

  /** `u` is `t` after the two unmappings at level 3. */
  ghost predicate Trimmed(t: Tree, u: Tree) {
    && TreeOk(u) && SameTables(t, u)
    && forall p :: 0 <= p < PAGES ==> Pte(u, p) == if Skipped(p) then 0 else Pte(t, p)
  }

  lemma TrimmedApart(t: Tree, u: Tree)
    requires FramesApart(t) && Trimmed(t, u)
    ensures FramesApart(u) && TreeOk(u) && u.mem.Keys == u.role.Keys
    ensures forall page :: Placed(t, page, 3) ==> Placed(u, page, 3)
  {
  }

  method UnmapTop(space: AddressSpace) returns (r: Outcome)
    requires space.Valid()
    modifies space
    ensures r == Done <==> IsLeaf(Pte(old(space.t), TRAPFRAME / PGSIZE)) && IsLeaf(Pte(old(space.t), TRAMPOLINE / PGSIZE))
    ensures r == Done ==> space.Valid() && Trimmed(old(space.t), space.t)
  {
    hide TreeOk, Pte, LowTable, IsLeaf, SameTables, Frames;
    ghost var t := space.t;
    r := space.UnmapPages(TRAPFRAME, PGSIZE, false);
    if r != Done { return; }
    ghost var mid := space.t;
    r := space.UnmapPages(TRAMPOLINE, PGSIZE, false);
    SameTablesTransitive(t, mid, space.t);
  }

  /** Frames of the mapped pages other than the trapframe and the trampoline, in page order. */
  function UserFrames(t: Tree, n: nat): seq<nat> {
    if n == 0 then []
    else UserFrames(t, n - 1) +
         (if IsValid(Pte(t, n - 1)) && !Skipped(n - 1) then [PteToPa(Pte(t, n - 1))] else [])
  }

  lemma {:induction false} TrimmedFrames(t: Tree, u: Tree, n: nat)
    requires Trimmed(t, u) && n <= PAGES
    ensures Mapped(u, 0, n) == UserFrames(t, n)
  {
    if n > 0 { TrimmedFrames(t, u, n - 1); }
  }

  lemma TrimmedVisits(t: Tree, u: Tree, p: nat, x: nat)
    requires TreeOk(t) && Trimmed(t, u)
    ensures Visits(u, p, x) <==> Visits(t, p, x)
  {
    SameUpper(t, u, p);
    if Child(t, t.root, D2(p)).Some? { assert EntryOk(t, t.root, D2(p)); }
  }

  lemma {:induction false} UserFramesExact(t: Tree, n: nat)
    requires FramesApart(t) && n <= PAGES
    ensures NoDup(UserFrames(t, n))
    ensures forall x :: x in UserFrames(t, n) <==> exists p: nat :: p < n && FrameOf(t, p, x) && !Skipped(p)
  {
    if n == 0 {
    } else {
      UserFramesExact(t, n - 1);
      if IsValid(Pte(t, n - 1)) && !Skipped(n - 1) {
        assert FrameOf(t, n - 1, PteToPa(Pte(t, n - 1)));
        NoDupConcat(UserFrames(t, n - 1), [PteToPa(Pte(t, n - 1))]);
      }
    }
  }

  predicate FrameOf(t: Tree, p: nat, x: nat) { IsValid(Pte(t, p)) && PteToPa(Pte(t, p)) == x }

  /** Destroying a process's page table frees each mapped frame once to the user region, in page
      order, each table page once to the kernel region, and never the trapframe or trampoline. */
  lemma {:induction false} DestroyExact(t: Tree, u: Tree)
    requires TreeOk(t) && FramesApart(t) && Trimmed(t, u)
    ensures var log := FreeLog(u, t.root, 3);
            && Part(log, false) == UserFrames(t, PAGES)
            && NoDup(Part(log, false)) && NoDup(Part(log, true))
            && (forall x :: x in Part(log, false) <==> exists p: nat :: p < PAGES && FrameOf(t, p, x) && !Skipped(p))
            && (forall x :: x in Part(log, true) <==> exists p: nat :: p < PAGES && Visits(t, p, x))
            && (forall p, x :: Skipped(p) && FrameOf(t, p, x) ==> x !in Part(log, false) && x !in Part(log, true))
  {
    FreesExactly(u);
    TrimmedFrames(t, u, PAGES);
    UserFramesExact(t, PAGES);
    forall p: nat, x ensures Visits(u, p, x) <==> Visits(t, p, x) { TrimmedVisits(t, u, p, x); }
    forall p: nat, x | p < PAGES && Visits(t, p, x) ensures x in t.mem { VisitedTable(t, p, x); }
  }

  lemma VisitedTable(t: Tree, p: nat, x: nat)
    requires TreeOk(t) && Visits(t, p, x)
    ensures x in t.mem
  {
    if LowTable(t, p) == Some(x) { LowTableRole(t, p); }
    if Child(t, t.root, D2(p)) == Some(x) { assert EntryOk(t, t.root, D2(p)); }
  }
}
