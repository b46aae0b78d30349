/** Sv39 page tables: the macros of include/mem/vmem.h, and vm_getpte, vm_mappages and
    vm_unmappages of kernel/mem/kvm.c as a three-level tree that behaves as one flat map from
    page number to page-table entry. */
module PageTable {
  import opened Base

  const VA_MAX: nat := 0x40_0000_0000
  const PAGES: nat := 0x800_0000    // 27 bits of page number
  const PA_MAX: nat := 0x100_0000_0000_0000

  // ----- the macros, on page numbers and page-table entries

  function Vpn(va: nat, level: nat): nat
    requires level <= 2
  {
    va / (if level == 0 then 0x1000 else if level == 1 then 0x20_0000 else 0x4000_0000) % 512
  }

  function PaToPte(pa: nat): nat { pa / 4096 * 1024 }
  function PteToPa(pte: nat): nat { pte / 1024 * 4096 }
  function PteFlags(pte: nat): nat { pte % 1024 }
  predicate IsValid(pte: nat) { pte % 2 == 1 }

  /** `PA_TO_PTE(pa) | perm | PTE_V`: the address bits and the ten flag bits do not overlap. */
  function MakePte(pa: nat, perm: nat): nat
    requires perm < 1024
  {
    PaToPte(pa) + (if perm % 2 == 1 then perm else perm + 1)
  }

  lemma MakePteFacts(pa: nat, perm: nat)
    requires pa % PGSIZE == 0 && perm < 1024
    ensures PteToPa(MakePte(pa, perm)) == pa && IsValid(MakePte(pa, perm))
    ensures PteFlags(MakePte(pa, perm)) == if perm % 2 == 1 then perm else perm + 1
  {
    var q := pa / 4096;
    var f := if perm % 2 == 1 then perm else perm + 1;
    assert pa == q * 4096 && MakePte(pa, perm) == q * 1024 + f && f < 1024;
    Packed(q, f);
  }

  lemma Packed(q: nat, f: nat)
    requires f < 1024
    ensures (q * 1024 + f) / 1024 == q && (q * 1024 + f) % 1024 == f && (q * 1024 + f) % 2 == f % 2
  {
    Parity(512 * q, f);
    assert q * 1024 == 2 * (512 * q);
  }

  lemma Parity(k: nat, f: nat)
    ensures (2 * k + f) % 2 == f % 2
  {
    var h, r := f / 2, f % 2;
    assert 2 * k + f == 2 * (k + h) + r;
  }

  /** The three indices of an address are the base-512 digits of its page number, so they
      determine it. */
  lemma VpnDigits(va: nat)
    ensures Vpn(va, 0) == D0(va / PGSIZE) && Vpn(va, 1) == D1(va / PGSIZE) && Vpn(va, 2) == D2(va / PGSIZE)
  {
    assert va / 0x20_0000 == va / 4096 / 512;
    assert va / 0x4000_0000 == va / 4096 / 262144;
  }

  function D0(p: nat): nat { p % 512 }
  function D1(p: nat): nat { p / 512 % 512 }
  function D2(p: nat): nat { p / 262144 % 512 }

  lemma DigitsInjective(p: nat, q: nat)
    requires p < PAGES && q < PAGES && D0(p) == D0(q) && D1(p) == D1(q) && D2(p) == D2(q)
    ensures p == q
  {
    assert p / 262144 == p / 512 / 512 && q / 262144 == q / 512 / 512;
    assert p / 262144 < 512 && q / 262144 < 512;
    assert p == p / 512 * 512 + p % 512 && q == q / 512 * 512 + q % 512;
  }

  // ----- the tree

  /** What a table page is for; `Mid(i)` hangs off root entry i, `Low(i, j)` off entry j of that. */
  datatype Role = Root | Mid(i: nat) | Low(i: nat, j: nat)

  datatype Tree = Tree(root: nat, mem: map<nat, seq<nat>>, role: map<nat, Role>)

  ghost predicate TreeOk(t: Tree) {
    && t.role.Keys == t.mem.Keys && t.root in t.role && t.role[t.root] == Root
    && (forall a :: a in t.mem ==> |t.mem[a]| == 512 && 0 < a < PA_MAX && a % PGSIZE == 0)
    && (forall a, i :: a in t.mem && 0 <= i < 512 && IsValid(t.mem[a][i]) ==> EntryOk(t, a, i))
  }

  /** A valid entry of an upper table has no flag but PTE_V and points at the table with the matching role. */
  ghost predicate EntryOk(t: Tree, a: nat, i: nat)
    requires a in t.mem && a in t.role && i < |t.mem[a]|
  {
    var next := PteToPa(t.mem[a][i]);
    match t.role[a]
    case Root => PteFlags(t.mem[a][i]) == 1 && next in t.role && t.role[next] == Mid(i)
    case Mid(k) => PteFlags(t.mem[a][i]) == 1 && next in t.role && t.role[next] == Low(k, i)
    case Low(_, _) => true
  }

  /** The table a valid entry leads to, if there is one. */
  function Child(t: Tree, a: nat, i: nat): Option<nat> {
    if a in t.mem && i < |t.mem[a]| && IsValid(t.mem[a][i]) then Some(PteToPa(t.mem[a][i])) else None
  }

  /** The lowest-level table responsible for page p, if it exists. */
  function LowTable(t: Tree, p: nat): Option<nat> {
    match Child(t, t.root, D2(p))
    case None => None
    case Some(mid) => Child(t, mid, D1(p))
  }

  /** The flat map: the entry of page p, 0 where a table is missing. */
  function Pte(t: Tree, p: nat): nat {
    match LowTable(t, p)
    case None => 0
    case Some(low) => if low in t.mem && D0(p) < |t.mem[low]| then t.mem[low][D0(p)] else 0
  }

  lemma LowTableRole(t: Tree, p: nat)
    requires TreeOk(t) && LowTable(t, p).Some?
    ensures var low := LowTable(t, p).value;
            low in t.mem && low in t.role && |t.mem[low]| == 512 && t.role[low] == Low(D2(p), D1(p))
  {
    assert EntryOk(t, t.root, D2(p));
    var mid := Child(t, t.root, D2(p)).value;
    assert EntryOk(t, mid, D1(p));
  }

  /** Distinct pages reach distinct slots. */
  lemma SlotsDistinct(t: Tree, p: nat, q: nat)
    requires TreeOk(t) && p < PAGES && q < PAGES && p != q
    requires LowTable(t, p).Some? && LowTable(t, q).Some?
    ensures LowTable(t, p) != LowTable(t, q) || D0(p) != D0(q)
  {
    LowTableRole(t, p);
    LowTableRole(t, q);
    if D0(p) == D0(q) && D1(p) == D1(q) && D2(p) == D2(q) { DigitsInjective(p, q); }
  }

  function Zeroed(): (r: seq<nat>)
    ensures |r| == 512 && forall i :: 0 <= i < 512 ==> r[i] == 0
  {
    seq(512, _ => 0)
  }

  /** Writing one slot. */
  function Written(t: Tree, a: nat, i: nat, v: nat): Tree
    requires a in t.mem && i < |t.mem[a]|
  {
    var row: seq<nat> := t.mem[a][i := v];
    t.(mem := t.mem[a := row])
  }

  /** Writing the slot of page p changes the flat map at p and nowhere else. */
  lemma WriteLow(t: Tree, p: nat, v: nat)
    requires TreeOk(t) && p < PAGES && LowTable(t, p).Some? && LowTable(t, p).value in t.mem
    requires |t.mem[LowTable(t, p).value]| == 512
    ensures var u := Written(t, LowTable(t, p).value, D0(p), v);
            && TreeOk(u) && Pte(u, p) == v
            && (forall q :: 0 <= q < PAGES && q != p ==> Pte(u, q) == Pte(t, q))
            && (forall q: nat :: LowTable(u, q) == LowTable(t, q))
  {
    LowTableRole(t, p);
    var low := LowTable(t, p).value;
    var u := Written(t, low, D0(p), v);
    assert u.mem.Keys == t.mem.Keys;
    forall a, i | a in u.mem && 0 <= i < 512 && IsValid(u.mem[a][i]) ensures EntryOk(u, a, i) {
      if a != low || i != D0(p) { assert EntryOk(t, a, i); }
    }
    forall q: nat ensures LowTable(u, q) == LowTable(t, q) { SameUpper(t, u, q); }
    forall q: nat | q < PAGES && q != p ensures Pte(u, q) == Pte(t, q) {
      if LowTable(t, q).Some? { SlotsDistinct(t, p, q); }
    }
  }

  /** Upper tables are not the ones written, so the walk goes the same way. */
  lemma SameUpper(t: Tree, u: Tree, q: nat)
    requires TreeOk(t) && u.root == t.root && u.mem.Keys == t.mem.Keys
    requires forall a :: a in t.mem && !t.role[a].Low? ==> u.mem[a] == t.mem[a]
    ensures LowTable(u, q) == LowTable(t, q)
  {
    if Child(t, t.root, D2(q)).Some? { assert EntryOk(t, t.root, D2(q)); }
  }

  /** Hanging a zeroed page under an invalid entry of an upper table: vm_getpte's allocation. */
  function Grown(t: Tree, a: nat, i: nat, page: nat): Tree
    requires a in t.mem && i < |t.mem[a]| && a in t.role && !t.role[a].Low?
  {
    var row: seq<nat> := t.mem[a][i := MakePte(page, 0)];
    Tree(t.root, t.mem[a := row][page := Zeroed()],
         t.role[page := if t.role[a].Root? then Mid(i) else Low(t.role[a].i, i)])
  }

  lemma GrownOk(t: Tree, a: nat, i: nat, page: nat)
    requires TreeOk(t) && a in t.mem && i < 512 && !t.role[a].Low? && !IsValid(t.mem[a][i])
    requires page !in t.mem && 0 < page < PA_MAX && page % PGSIZE == 0
    ensures var u := Grown(t, a, i, page);
            && TreeOk(u) && Child(u, a, i) == Some(page)
            && (forall p :: 0 <= p < PAGES ==> Pte(u, p) == Pte(t, p))
  {
    var u := Grown(t, a, i, page);
    MakePteFacts(page, 0);
    assert u.mem.Keys == t.mem.Keys + {page} && u.role.Keys == t.role.Keys + {page};
    forall b, k | b in u.mem && 0 <= k < 512 && IsValid(u.mem[b][k]) ensures EntryOk(u, b, k) {
      if b != page && (b != a || k != i) { assert EntryOk(t, b, k); }
    }
    forall p: nat | p < PAGES ensures Pte(u, p) == Pte(t, p) { GrownPte(t, a, i, page, p); }
  }

  lemma GrownPte(t: Tree, a: nat, i: nat, page: nat, p: nat)
    requires TreeOk(t) && a in t.mem && i < 512 && !t.role[a].Low? && !IsValid(t.mem[a][i])
    requires page !in t.mem && 0 < page < PA_MAX && page % PGSIZE == 0 && p < PAGES
    ensures Pte(Grown(t, a, i, page), p) == Pte(t, p)
  {
    var u := Grown(t, a, i, page);
    MakePteFacts(page, 0);
    var e := Child(t, t.root, D2(p));
    if e.Some? {
      var mid := e.value;
      assert EntryOk(t, t.root, D2(p));
      assert Child(u, u.root, D2(p)) == e;
      if Child(t, mid, D1(p)).Some? {
        assert EntryOk(t, mid, D1(p));
        assert Child(u, mid, D1(p)) == Child(t, mid, D1(p));
      }
    }
  }

  // ----- what the hardware makes of the tables

  /** A translated address with the ten flag bits of its entry, or a page fault. */
  datatype Hit = Hit(pa: nat, flags: nat) | PageFault

  function Fetch(mem: map<nat, seq<nat>>, a: nat, i: nat): nat {
    if a in mem && i < |mem[a]| then mem[a][i] else 0
  }

  /** V set, and R, W and X clear: the entry points at the next table. */
  predicate Pointer(pte: nat) { pte % 2 == 1 && pte / 2 % 8 == 0 }

  /** V set, and one of R, W and X. */
  predicate Final(pte: nat) { pte % 2 == 1 && pte / 2 % 8 != 0 }

  /** The page an entry names: its 44 bits from bit 10 on. */
  function Target(pte: nat): nat { pte / 1024 % 0x1000_0000_0000 * 4096 }

  /** Sv39 address translation, section 4.4 of the RISC-V Privileged Architecture, without superpages. */
  function Translate(mem: map<nat, seq<nat>>, root: nat, va: nat): Hit {
    var top := Fetch(mem, root, va / 0x4000_0000 % 512);
    if !Pointer(top) then PageFault
    else
      var mid := Fetch(mem, Target(top), va / 0x20_0000 % 512);
      if !Pointer(mid) then PageFault
      else
        var low := Fetch(mem, Target(mid), va / 0x1000 % 512);
        if Final(low) then Hit(Target(low) + va % 4096, low % 1024) else PageFault
  }

  lemma UpperEntry(t: Tree, a: nat, i: nat)
    requires TreeOk(t) && a in t.mem && a in t.role && !t.role[a].Low? && i < 512
    ensures Fetch(t.mem, a, i) == t.mem[a][i]
    ensures Pointer(t.mem[a][i]) <==> Child(t, a, i).Some?
    ensures Child(t, a, i).Some? ==>
      var next := Child(t, a, i).value;
      Target(t.mem[a][i]) == next && next in t.mem && t.role[next] == match t.role[a] case Root => Mid(i) case Mid(k) => Low(k, i)
  {
    var e := t.mem[a][i];
    if IsValid(e) {
      assert EntryOk(t, a, i);
      var next := PteToPa(e);
      assert next in t.mem && next < PA_MAX;
      PointerBits(e);
    }
  }

  lemma PointerBits(e: nat)
    requires e % 1024 == 1 && e / 1024 * 4096 < PA_MAX
    ensures Pointer(e) && Target(e) == e / 1024 * 4096
  {
    assert e == e / 1024 * 1024 + 1;
    assert e / 2 == 8 * (e / 1024 * 64);
  }

  /** The flat map is what the hardware sees: an address is translated by the entry of its page. */
  lemma TranslatesFlat(t: Tree, va: nat)
    requires TreeOk(t) && va / PGSIZE < PAGES
    ensures Translate(t.mem, t.root, va) ==
            var e := Pte(t, va / PGSIZE);
            if Final(e) then Hit(Target(e) + va % 4096, e % 1024) else PageFault
  {
    hide TreeOk, Pointer, Final, Target;
    VpnDigits(va);
    var p := va / PGSIZE;
    RootIn(t);
    UpperEntry(t, t.root, D2(p));
    if Child(t, t.root, D2(p)).Some? {
      var mid := Child(t, t.root, D2(p)).value;
      UpperEntry(t, mid, D1(p));
      if Child(t, mid, D1(p)).Some? { LowTableRole(t, p); }
    }
    assert !Final(0) by { NotFinal(); }
  }

  lemma NotFinal()
    ensures !Final(0)
  {
  }

  lemma RootIn(t: Tree)
    requires TreeOk(t)
    ensures t.root in t.mem && t.root in t.role && t.role[t.root] == Root && t.role.Keys == t.mem.Keys && |t.mem[t.root]| == 512
  {
  }

  datatype Outcome = Done | BadArgument | Remap | OutOfPages | NoEntry | NotMapped | NotLeaf

  class AddressSpace {
    var t: Tree
    var pool: seq<nat>              // what pmem_alloc(true) will hand out, in order
    ghost var freed: seq<nat>       // what was passed to pmem_free

    ghost predicate Valid() reads this {
      && TreeOk(t)
      && (forall k :: 0 <= k < |pool| ==> 0 < pool[k] < PA_MAX && pool[k] % PGSIZE == 0 && pool[k] !in t.mem)
      && (forall k, l :: 0 <= k < l < |pool| ==> pool[k] != pool[l])
    }

    constructor (root: nat, pages: seq<nat>)
      requires 0 < root < PA_MAX && root % PGSIZE == 0
      requires forall k :: 0 <= k < |pages| ==> 0 < pages[k] < PA_MAX && pages[k] % PGSIZE == 0 && pages[k] != root
      requires forall k, l :: 0 <= k < l < |pages| ==> pages[k] != pages[l]
      ensures Valid() && freed == [] && forall p: nat :: Pte(t, p) == 0
    {
      t := Tree(root, map[root := Zeroed()], map[root := Root]);
      pool := pages;
      freed := [];
    }

    /** vm_getpte. `slot` is None for NULL; `panicked` when pmem_alloc finds no page. */
    method GetPte(va: nat, alloc: bool) returns (panicked: bool, slot: Option<(nat, nat)>)
      requires Valid() && va <= VA_MAX
      modifies this`t, this`pool
      ensures Valid() && t.root == old(t.root)
      ensures forall p :: 0 <= p < PAGES ==> Pte(t, p) == Pte(old(t), p)
      ensures slot.Some? ==> !panicked && LowTable(t, va / PGSIZE) == Some(slot.value.0) && slot.value.1 == D0(va / PGSIZE)
      ensures !alloc ==> t == old(t) && pool == old(pool) && !panicked && (slot.Some? <==> LowTable(t, va / PGSIZE).Some?)
      ensures alloc ==> slot.Some? || panicked
      ensures panicked ==> |old(pool)| < 2
      ensures |pool| >= |old(pool)| - 2
    {
      VpnDigits(va);
      var p := va / PGSIZE;
      var current := t.root;
      var level := 2;
      while level > 0
        invariant 0 <= level <= 2 && Valid() && t.root == old(t.root)
        invariant current in t.mem && t.role[current] == (match level case 2 => Root case 1 => Mid(D2(p)) case _ => Low(D2(p), D1(p)))
        invariant level == 2 ==> current == t.root
        invariant level <= 1 ==> Child(t, t.root, D2(p)).Some?
        invariant level == 1 ==> Child(t, t.root, D2(p)).value == current
        invariant level == 0 ==> LowTable(t, p) == Some(current)
        invariant forall q :: 0 <= q < PAGES ==> Pte(t, q) == Pte(old(t), q)
        invariant !alloc ==> t == old(t) && pool == old(pool)
        invariant |pool| >= |old(pool)| - (2 - level)
      {
        var idx := Vpn(va, level);
        assert idx == if level == 2 then D2(p) else D1(p);
        if IsValid(t.mem[current][idx]) {
          assert EntryOk(t, current, idx);
          current := PteToPa(t.mem[current][idx]);
        } else {
          if !alloc { return false, None; }
          if |pool| == 0 { return true, None; }
          var page := pool[0];
          ghost var before := t;
          GrownOk(t, current, idx, page);
          t := Grown(t, current, idx, page);
          pool := pool[1..];
          assert level == 1 ==> Child(t, t.root, D2(p)) == Child(before, before.root, D2(p));
          current := page;
        }
        level := level - 1;
      }
      slot := Some((current, Vpn(va, 0)));
      panicked := false;
    }

    /** The body of vm_mappages's loop. */
    method MapOne(beg: nat, dst: nat, pa: nat, perm: nat) returns (r: Outcome)
      requires Valid() && beg < VA_MAX && perm < 1024
      modifies this`t, this`pool
      ensures Valid() && t.root == old(t.root) && |pool| >= |old(pool)| - 2
      ensures r == Done ==> !Conflicts(Pte(old(t), beg / PGSIZE), pa)
      ensures r == Done ==> forall p :: 0 <= p < PAGES ==> Pte(t, p) == if p == beg / PGSIZE then MakePte(dst, perm) else Pte(old(t), p)
      ensures r == Remap ==> Conflicts(Pte(old(t), beg / PGSIZE), pa)
      ensures r == OutOfPages ==> |old(pool)| < 2
      ensures r in {Done, Remap, OutOfPages}
    {
      var panicked, slot := GetPte(beg, true);
      if panicked { return OutOfPages; }
      var (table, idx) := slot.value;
      LowTableRole(t, beg / PGSIZE);
      var pte := t.mem[table][idx];
      assert pte == Pte(t, beg / PGSIZE);
      if IsValid(pte) && PteToPa(pte) != pa { return Remap; }
      WriteLow(t, beg / PGSIZE, MakePte(dst, perm));
      t := Written(t, table, idx, MakePte(dst, perm));
      r := Done;
    }

    /** The body of vm_unmappages's loop. */
    method UnmapOne(beg: nat, freeit: bool) returns (r: Outcome)
      requires Valid() && beg < VA_MAX
      modifies this`t, this`pool, this`freed
      ensures Valid() && t.root == old(t.root) && pool == old(pool)
      ensures r == Done <==> IsLeaf(Pte(old(t), beg / PGSIZE))
      ensures r in {Done, NoEntry, NotMapped, NotLeaf}
      ensures r == Done ==> forall p :: 0 <= p < PAGES ==> Pte(t, p) == if p == beg / PGSIZE then 0 else Pte(old(t), p)
      ensures r == Done ==> freed == old(freed) + (if freeit then [PteToPa(Pte(old(t), beg / PGSIZE))] else [])
      ensures r != Done ==> t == old(t) && freed == old(freed)
      ensures SameTables(old(t), t)
    {
      var panicked, slot := GetPte(beg, false);
      if slot == None { return NoEntry; }
      var (table, idx) := slot.value;
      LowTableRole(t, beg / PGSIZE);
      var pte := t.mem[table][idx];
      assert pte == Pte(t, beg / PGSIZE);
      if !IsValid(pte) { return NotMapped; }
      if PteFlags(pte) == 1 { return NotLeaf; }
      if freeit { freed := freed + [PteToPa(pte)]; }
      WriteLow(t, beg / PGSIZE, 0);
      t := Written(t, table, idx, 0);
      r := Done;
    }

    /** vm_mappages. A page already mapped is refused unless it is mapped to `pa` itself. */
    method MapPages(va: nat, pa: nat, len: nat, perm: nat) returns (r: Outcome)
      requires Valid() && va < U64 && len < U64 && perm < 1024
      modifies this`t, this`pool
      ensures Valid() && t.root == old(t.root)
      ensures r == BadArgument <==> !GoodRange(va, len) || pa % PGSIZE != 0
      ensures r == BadArgument ==> t == old(t)
      ensures r == Done ==> forall p :: 0 <= p < PAGES ==> Pte(t, p) == MapTo(va, len, pa, perm, p, Pte(old(t), p))
      ensures r == Done ==> forall p :: 0 <= p < PAGES && InRange(va, len, p) ==> !Conflicts(Pte(old(t), p), pa)
      ensures r == Remap ==> exists p :: 0 <= p < PAGES && InRange(va, len, p) && Conflicts(Pte(old(t), p), pa)
      ensures r == OutOfPages ==> |old(pool)| < 2 * PageCount(va, len)
      ensures r == Done ==> |pool| >= |old(pool)| - 2 * PageCount(va, len)
      ensures r in {Done, BadArgument, Remap, OutOfPages}
    {
      hide TreeOk, Pte, LowTable, IsLeaf, Conflicts, MakePte;
      if va % PGSIZE != 0 || pa % PGSIZE != 0 || len == 0 || LastByte(va, len) >= VA_MAX {
        return BadArgument;
      }
      var first, last := va / PGSIZE, LastByte(va, len) / PGSIZE;
      var beg, dst := va, pa;
      ghost var k := 0;
      while beg <= last * PGSIZE
        invariant Valid() && t.root == old(t.root)
        invariant beg == (first + k) * PGSIZE && dst == pa + k * PGSIZE && (k == 0 || first + k <= last + 1)
        invariant |pool| >= |old(pool)| - 2 * k
        invariant forall p :: 0 <= p < PAGES ==>
          Pte(t, p) == if first <= p < first + k then MakePte(pa + (p - first) * PGSIZE, perm) else Pte(old(t), p)
        invariant forall p :: first <= p < first + k ==> !Conflicts(Pte(old(t), p), pa)
        decreases last + 1 - first - k
      {
        assert beg / PGSIZE == first + k;
        var one := MapOne(beg, dst, pa, perm);
        if one != Done { return one; }
        dst := dst + PGSIZE;
        beg := beg + PGSIZE;
        k := k + 1;
      }
      r := Done;
    }

    /** The loop of vm_unmappages, over n pages from page `first`. */
    method UnmapSpan(first: nat, ghost n: nat, last: nat, freeit: bool) returns (r: Outcome)
      requires Valid() && (first + n == last + 1 || (n == 0 && last < first)) && last * PGSIZE < VA_MAX
      modifies this`t, this`pool, this`freed
      ensures Valid() && t.root == old(t.root) && pool == old(pool) && SameTables(old(t), t)
      ensures r in {Done, NoEntry, NotMapped, NotLeaf}
      ensures if r == Done then AllLeaves(old(t), first, n) else !AllLeaves(old(t), first, n)
      ensures r == Done ==> Cleared(old(t), t, first, n)
      ensures r == Done ==> freed == old(freed) + (if freeit then Frames(old(t), first, n) else [])
    {
      hide TreeOk, Pte, LowTable, IsLeaf, Frames, AllLeaves, Cleared, SameTables;
      var beg := first * PGSIZE;
      ghost var k := 0;
      SpanStep(t, t, t, first, 0);
      SameTablesTransitive(t, t, t);
      FramesStep(t, first, 0);
      while beg <= last * PGSIZE
        invariant Valid() && t.root == old(t.root) && pool == old(pool) && SameTables(old(t), t)
        invariant beg == (first + k) * PGSIZE && k <= n
        invariant Cleared(old(t), t, first, k) && AllLeaves(old(t), first, k)
        invariant freed == old(freed) + (if freeit then Frames(old(t), first, k) else [])
        decreases n - k
      {
        ghost var before := t;
        FramesStep(old(t), first, k);
        PageOf(first + k);
        var one := UnmapOne(beg, freeit);
        SpanStep(old(t), before, t, first, k);
        SameTablesTransitive(old(t), before, t);
        if one != Done {
          SpanBreak(old(t), first, k, n);
          return one;
        }
        beg := beg + PGSIZE;
        k := k + 1;
      }
      r := Done;
    }

    /** vm_unmappages, with `freed` recording the frames given back. */
    method UnmapPages(va: nat, len: nat, freeit: bool) returns (r: Outcome)
      requires Valid() && va < U64 && len < U64
      modifies this`t, this`pool, this`freed
      ensures Valid() && t.root == old(t.root) && pool == old(pool) && SameTables(old(t), t)
      ensures r == BadArgument <==> !GoodRange(va, len)
      ensures r == Done <==> GoodRange(va, len) && AllLeaves(old(t), va / PGSIZE, PageCount(va, len))
      ensures r == Done ==> Cleared(old(t), t, va / PGSIZE, PageCount(va, len))
      ensures r == Done ==> freed == old(freed) + (if freeit then Frames(old(t), va / PGSIZE, PageCount(va, len)) else [])
    {
      hide TreeOk, Pte, LowTable, IsLeaf, Frames, AllLeaves, Cleared, SameTables;
      SameTablesTransitive(t, t, t);
      if va % PGSIZE != 0 || len == 0 || LastByte(va, len) >= VA_MAX {
        return BadArgument;
      }
      r := UnmapSpan(va / PGSIZE, PageCount(va, len), LastByte(va, len) / PGSIZE, freeit);
    }

    /** Mapping an empty range and unmapping it leaves the flat map as it was. */
    method MapThenUnmap(va: nat, pa: nat, len: nat, perm: nat)
      requires Valid() && va < U64 && len < U64 && perm < 1024 && perm > 1
      requires GoodRange(va, len) && pa % PGSIZE == 0 && |pool| >= 2 * PageCount(va, len)
      requires forall p :: 0 <= p < PAGES && InRange(va, len, p) ==> Pte(t, p) == 0
      modifies this
      ensures Valid() && forall p :: 0 <= p < PAGES ==> Pte(t, p) == Pte(old(t), p)
      ensures freed == old(freed) + Seq(pa, PageCount(va, len))
    {
      var r := MapPages(va, pa, len, perm);
      assert r == Done;
      ghost var mid := t;
      forall p | 0 <= p < PAGES && InRange(va, len, p)
        ensures IsLeaf(Pte(mid, p)) && PteToPa(Pte(mid, p)) == pa + (p - va / PGSIZE) * PGSIZE
      {
        AlignedStep(pa, p - va / PGSIZE);
        MakePteFacts(pa + (p - va / PGSIZE) * PGSIZE, perm);
      }
      r := UnmapPages(va, len, true);
      FramesAre(mid, va / PGSIZE, PageCount(va, len), pa);
    }
  }

  lemma FinalBits(pa: nat, perm: nat)
    requires pa % PGSIZE == 0 && perm < 1024 && perm / 2 % 8 != 0 && pa < PA_MAX
    ensures Final(MakePte(pa, perm)) && Target(MakePte(pa, perm)) == pa
    ensures MakePte(pa, perm) % 1024 == if perm % 2 == 1 then perm else perm + 1
  {
    MakePteFacts(pa, perm);
    var q := pa / 4096;
    var f := if perm % 2 == 1 then perm else perm + 1;
    assert MakePte(pa, perm) == q * 1024 + f;
    assert (q * 1024 + f) / 2 == 8 * (q * 64) + f / 2;
    assert (8 * (q * 64) + f / 2) % 8 == f / 2 % 8 by { Octal(q * 64, f / 2); }
  }

  lemma Octal(k: nat, f: nat)
    ensures (8 * k + f) % 8 == f % 8
  {
    var h, r := f / 8, f % 8;
    assert 8 * k + f == 8 * (k + h) + r;
  }

  /** Once vm_mappages is done, the hardware takes every address of the range to its place behind `pa`,
      with the permissions asked for and PTE_V, and every other page as before. */
  lemma MappedTranslates(t: Tree, u: Tree, va: nat, len: nat, pa: nat, perm: nat, x: nat)
    requires TreeOk(t) && TreeOk(u) && GoodRange(va, len) && va + len <= VA_MAX && pa % PGSIZE == 0 && pa + len <= PA_MAX
    requires perm < 1024 && perm / 2 % 8 != 0 && x < VA_MAX
    requires forall p :: 0 <= p < PAGES ==> Pte(u, p) == MapTo(va, len, pa, perm, p, Pte(t, p))
    ensures va <= x < va + len ==>
              Translate(u.mem, u.root, x) == Hit(pa + (x - va), if perm % 2 == 1 then perm else perm + 1)
    ensures x < va || x / PGSIZE > (va + len - 1) / PGSIZE ==> Translate(u.mem, u.root, x) == Translate(t.mem, t.root, x)
  {
    hide TreeOk, Pte, Translate, Final, Target, MakePte;
    TranslatesFlat(u, x);
    TranslatesFlat(t, x);
    var p := x / PGSIZE;
    if InRange(va, len, p) {
      AlignedStep(pa, p - va / PGSIZE);
      FinalBits(pa + (p - va / PGSIZE) * PGSIZE, perm);
    }
  }

  /** Once vm_unmappages is done, every address of the range faults, and every other page is as before. */
  lemma ClearedFaults(t: Tree, u: Tree, first: nat, n: nat, x: nat)
    requires TreeOk(t) && TreeOk(u) && Cleared(t, u, first, n) && x < VA_MAX
    ensures first <= x / PGSIZE < first + n ==> Translate(u.mem, u.root, x) == PageFault
    ensures !(first <= x / PGSIZE < first + n) ==> Translate(u.mem, u.root, x) == Translate(t.mem, t.root, x)
  {
    hide TreeOk, Pte, Translate;
    TranslatesFlat(u, x);
    TranslatesFlat(t, x);
  }

  lemma PageOf(p: nat)
    ensures p * PGSIZE / PGSIZE == p
  {
  }

  lemma AlignedStep(pa: nat, k: nat)
    requires pa % PGSIZE == 0
    ensures (pa + k * PGSIZE) % PGSIZE == 0
  {
    var q := pa / PGSIZE;
    assert pa + k * PGSIZE == (q + k) * PGSIZE;
  }

  /** The last byte of the range, `va + len - 1` in 64 bits. */
  function LastByte(va: nat, len: nat): nat
    requires len > 0
  {
    if va + len <= U64 then va + len - 1 else va + len - 1 - U64
  }

  /** The arguments both calls accept; a range whose end wraps may be among them. */
  predicate GoodRange(va: nat, len: nat) {
    va % PGSIZE == 0 && len > 0 && LastByte(va, len) < VA_MAX
  }

  /** How often the loops run: not at all when the end wraps. */
  function PageCount(va: nat, len: nat): nat {
    if len == 0 || LastByte(va, len) / PGSIZE < va / PGSIZE then 0 else LastByte(va, len) / PGSIZE - va / PGSIZE + 1
  }

  /** The pages that cover [va, va + len); none when the end wraps. */
  predicate InRange(va: nat, len: nat, p: nat) {
    len > 0 && va / PGSIZE <= p <= LastByte(va, len) / PGSIZE
  }

  /** A range whose end wraps is accepted exactly when what is behind the wrap ends below VA_MAX, and
      has no page. */
  lemma WrappedRange(va: nat, len: nat)
    requires va < U64 && len < U64 && va % PGSIZE == 0 && va + len > U64 && va >= VA_MAX
    ensures GoodRange(va, len) <==> va + len - U64 <= VA_MAX
    ensures GoodRange(va, len) ==> PageCount(va, len) == 0 && forall p: nat :: !InRange(va, len, p)
  {
  }

  predicate Conflicts(pte: nat, pa: nat) { IsValid(pte) && PteToPa(pte) != pa }

  predicate IsLeaf(pte: nat) { IsValid(pte) && PteFlags(pte) != 1 }

  /** The flat map after vm_mappages: consecutive frames over the range, the rest as before. */
  function MapTo(va: nat, len: nat, pa: nat, perm: nat, p: nat, before: nat): nat
    requires perm < 1024
  {
    if InRange(va, len, p) then MakePte(pa + (p - va / PGSIZE) * PGSIZE, perm) else before
  }

  /** Same tables in the same places; only lowest-level tables may have other contents. */
  ghost predicate SameTables(t: Tree, u: Tree) {
    && u.root == t.root && u.role == t.role && u.mem.Keys == t.mem.Keys
    && forall a :: a in t.mem && a in t.role && !t.role[a].Low? ==> u.mem[a] == t.mem[a]
  }

  lemma SameTablesTransitive(t: Tree, u: Tree, v: Tree)
    ensures SameTables(t, t)
    ensures SameTables(t, u) && SameTables(u, v) ==> SameTables(t, v)
  {
  }

  /** Every one of the n pages from `first` is mapped to a leaf. */
  ghost predicate AllLeaves(t: Tree, first: nat, n: nat) {
    forall p :: first <= p < first + n ==> IsLeaf(Pte(t, p))
  }

  /** `u` is the flat map `t` with the n pages from `first` unmapped. */
  ghost predicate Cleared(t: Tree, u: Tree, first: nat, n: nat) {
    forall p :: 0 <= p < PAGES ==> Pte(u, p) == if first <= p < first + n then 0 else Pte(t, p)
  }

  lemma SpanStep(t: Tree, u: Tree, v: Tree, first: nat, k: nat)
    ensures Cleared(t, t, first, 0) && AllLeaves(t, first, 0)
    ensures Cleared(t, u, first, k) && first + k < PAGES ==> Pte(u, first + k) == Pte(t, first + k)
    ensures Cleared(t, u, first, k) && (forall p :: 0 <= p < PAGES ==> Pte(v, p) == if p == first + k then 0 else Pte(u, p))
      ==> Cleared(t, v, first, k + 1)
    ensures AllLeaves(t, first, k) && IsLeaf(Pte(t, first + k)) ==> AllLeaves(t, first, k + 1)
  {
    hide Pte, IsLeaf;
  }

  lemma SpanBreak(t: Tree, first: nat, k: nat, n: nat)
    requires k < n && !IsLeaf(Pte(t, first + k))
    ensures !AllLeaves(t, first, n)
  {
    hide Pte, IsLeaf;
  }

  function Frames(t: Tree, first: nat, n: nat): seq<nat> {
    if n == 0 then [] else Frames(t, first, n - 1) + [PteToPa(Pte(t, first + n - 1))]
  }

  lemma FramesStep(t: Tree, first: nat, n: nat)
    ensures Frames(t, first, 0) == []
    ensures Frames(t, first, n + 1) == Frames(t, first, n) + [PteToPa(Pte(t, first + n))]
  {
  }

  function Seq(pa: nat, n: nat): seq<nat> {
    if n == 0 then [] else Seq(pa, n - 1) + [pa + (n - 1) * PGSIZE]
  }

  lemma {:induction false} FramesAre(t: Tree, first: nat, n: nat, pa: nat)
    requires forall p :: first <= p < first + n ==> PteToPa(Pte(t, p)) == pa + (p - first) * PGSIZE
    ensures Frames(t, first, n) == Seq(pa, n)
  {
    if n > 0 { FramesAre(t, first, n - 1, pa); }
  }
}
