/** Copying an address space on fork and resolving copy-on-write faults: copy_range and
    uvm_copy_pgtbl of kernel/mem/uvm.c, is_cowpage and handle_cow of kernel/trap/trap_user.c. A page
    table is the flat map from page number to entry that PageTable proves it to be. */
module Fork {
  import opened Base
  import opened Words
  import R = RegionChain

  const STACK_BOTTOM: nat := 0x3FF_FFFE     // page of USER_STACK_BOTTOM
  const VA_MAX_PAGE: nat := 0x400_0000

  type Content = c: seq<byte> | |c| == PGSIZE witness seq(PGSIZE, _ => 0)

  /** A valid page-table entry: frame, PTE_W, PTE_COW, and the other flags. */
  datatype Pte = Pte(frame: nat, w: bool, cow: bool, rest: nat)

  /** Who has a frame: it is spare, mapped at one page of one process, or on nobody's books. */
  datatype Owner = Spare | Mapped(p: nat, v: nat) | Lost

  /** The frames, the list of spare ones, and each process's page table. */
  datatype Mem = Mem(frames: seq<Content>, free: seq<nat>, pts: seq<map<nat, Pte>>, own: seq<Owner>)

  ghost predicate Ok(m: Mem) {
    && |m.own| == |m.frames|
    && (forall k :: 0 <= k < |m.free| ==> m.free[k] < |m.frames| && m.own[m.free[k]] == Spare)
    && (forall k, l :: 0 <= k < l < |m.free| ==> m.free[k] != m.free[l])
    && (forall p: nat :: p < |m.pts| ==> TableOk(m, p))
  }

  ghost predicate TableOk(m: Mem, p: nat)
    requires p < |m.pts|
  {
    forall v :: v in m.pts[p] ==> m.pts[p][v].frame < |m.own| && m.own[m.pts[p][v].frame] == Mapped(p, v)
  }

  /** What process p sees at page v. */
  function View(m: Mem, p: nat, v: nat): Option<Content> {
    if p < |m.pts| && v in m.pts[p] && m.pts[p][v].frame < |m.frames| then Some(m.frames[m.pts[p][v].frame]) else None
  }

  /** The entry of process p for page v. */
  function PteAt(m: Mem, p: nat, v: nat): Option<Pte> {
    if p < |m.pts| && v in m.pts[p] then Some(m.pts[p][v]) else None
  }

  /** What a process may do with a page: store to it, at once or after a copy-on-write fault, and what the
      other flags say. */
  datatype Rights = Rights(store: bool, rest: nat)

  function RightsAt(m: Mem, p: nat, v: nat): Option<Rights> {
    match PteAt(m, p, v)
    case Some(e) => Some(Rights(e.w || e.cow, e.rest))
    case None => None
  }

  /** A store to the page would fault. */
  predicate Faults(m: Mem, p: nat, v: nat) { PteAt(m, p, v).Some? && !PteAt(m, p, v).value.w }

  function SetPte(pts: seq<map<nat, Pte>>, p: nat, v: nat, e: Pte): (r: seq<map<nat, Pte>>)
    requires p < |pts|
    ensures |r| == |pts| && forall q :: 0 <= q < |r| ==> r[q] == if q == p then pts[p][v := e] else pts[q]
  {
    var t: map<nat, Pte> := pts[p][v := e];
    pts[p := t]
  }

  lemma SetSame(pts: seq<map<nat, Pte>>, p: nat, v: nat)
    requires p < |pts| && v in pts[p]
    ensures SetPte(pts, p, v, pts[p][v]) == pts
  {
    assert pts[p][v := pts[p][v]] == pts[p];
  }

  // ----- copying one page

  function Shared(e: Pte): Pte { if e.w then e.(w := false, cow := true) else e }

  /** The body of copy_range's loop: the parent's entry is marked copy-on-write, and yet the child
      gets a frame of its own with the same bytes. */
  function CopyPage(m: Mem, parent: nat, child: nat, v: nat): Mem
    requires parent < |m.pts| && child < |m.pts| && v in m.pts[parent] && m.free != []
    requires m.free[0] < |m.frames| == |m.own| && m.pts[parent][v].frame < |m.frames|
  {
    var e := Shared(m.pts[parent][v]);
    var f := m.free[0];
    Mem(m.frames[f := m.frames[e.frame]], m.free[1..],
        SetPte(SetPte(m.pts, parent, v, e), child, v, e.(frame := f)), m.own[f := Mapped(child, v)])
  }

  lemma CopyPageRights(m: Mem, parent: nat, child: nat, v: nat)
    requires Ok(m) && parent < |m.pts| && child < |m.pts| && parent != child
    requires v in m.pts[parent] && v !in m.pts[child] && m.free != []
    ensures m.free[0] < |m.frames| && m.pts[parent][v].frame < |m.frames|
    ensures var u := CopyPage(m, parent, child, v);
            && (forall q: nat, w: nat :: RightsAt(u, q, w) == if q == child && w == v then RightsAt(m, parent, v) else RightsAt(m, q, w))
            && Faults(u, parent, v) && Faults(u, child, v)
            && (forall q: nat, w: nat :: w != v || (q != parent && q != child) ==> PteAt(u, q, w) == PteAt(m, q, w))
  {
    assert TableOk(m, parent);
  }

  lemma CopyPageViews(m: Mem, parent: nat, child: nat, v: nat)
    requires Ok(m) && parent < |m.pts| && child < |m.pts| && parent != child
    requires v in m.pts[parent] && v !in m.pts[child] && m.free != []
    ensures m.free[0] < |m.frames| && m.pts[parent][v].frame < |m.frames|
    ensures var u := CopyPage(m, parent, child, v);
            && Ok(u) && |u.pts| == |m.pts| && View(m, parent, v).Some?
            && (forall q: nat, w: nat :: View(u, q, w) == if q == child && w == v then View(m, parent, v) else View(m, q, w))
  {
    assert TableOk(m, parent);
    var u := CopyPage(m, parent, child, v);
    var f := m.free[0];
    forall p: nat | p < |u.pts| ensures TableOk(u, p) { assert TableOk(m, p); }
    forall q: nat, w: nat ensures View(u, q, w) == if q == child && w == v then View(m, parent, v) else View(m, q, w) {
      if q < |m.pts| { assert TableOk(m, q); }
    }
  }

  /** All that copying does to what processes see and may do: page v appears in the child, with the same
      bytes and the same rights as in the parent, and both have to fault before they store to it. */
  lemma CopyPageKeeps(m: Mem, parent: nat, child: nat, v: nat)
    requires Ok(m) && parent < |m.pts| && child < |m.pts| && parent != child
    requires v in m.pts[parent] && v !in m.pts[child] && m.free != []
    ensures m.free[0] < |m.frames| && m.pts[parent][v].frame < |m.frames|
    ensures var u := CopyPage(m, parent, child, v);
            && Ok(u) && |u.pts| == |m.pts|
            && (forall q: nat, w: nat :: View(u, q, w) == if q == child && w == v then View(m, parent, v) else View(m, q, w))
            && View(m, parent, v).Some?
            && (forall q: nat, w: nat :: RightsAt(u, q, w) == if q == child && w == v then RightsAt(m, parent, v) else RightsAt(m, q, w))
            && Faults(u, parent, v) && Faults(u, child, v)
            && (forall q: nat, w: nat :: w != v || (q != parent && q != child) ==> PteAt(u, q, w) == PteAt(m, q, w))
  {
    hide CopyPage, Ok, View, RightsAt, Faults, PteAt;
    CopyPageViews(m, parent, child, v);
    CopyPageRights(m, parent, child, v);
  }

  // ----- resolving a copy-on-write fault

  /** pmem_get_ref: bytes 8 to 11 of the page. */
  function Ref(c: Content): nat { Entry(c, 2) }

  function WithRef(c: Content, v: nat): Content {
    var d := SetEntry(c, 2, v);
    d
  }

  /** pmem_free of a frame nobody maps. */
  function FreeFrame(m: Mem, a: nat): Mem
    requires a < |m.frames| == |m.own|
  {
    var r := (Ref(m.frames[a]) + U32 - 1) % U32;
    if r != 0 then m.(frames := m.frames[a := WithRef(m.frames[a], r)], own := m.own[a := Lost])
    else m.(frames := m.frames[a := Junk()], free := [a] + m.free, own := m.own[a := Spare])
  }

  /** What a freed page is filled with; its link to the next spare page is Pmem's business. */
  function Junk(): Content { seq(PGSIZE, _ => 1) }

  function Writable(e: Pte): Pte { e.(w := true, cow := false) }

  /** handle_cow; None when no frame is left. */
  function HandleCow(m: Mem, p: nat, v: nat): Option<Mem>
    requires p < |m.pts| && v in m.pts[p] && m.pts[p][v].frame < |m.frames| == |m.own|
    requires m.free != [] ==> m.free[0] < |m.frames|
  {
    var e := m.pts[p][v];
    if Ref(m.frames[e.frame]) == 1 then Some(m.(pts := SetPte(m.pts, p, v, Writable(e))))
    else if m.free == [] then None
    else
      var f := m.free[0];
      Some(FreeFrame(Mem(m.frames[f := m.frames[e.frame]], m.free[1..], SetPte(m.pts, p, v, Writable(e).(frame := f)),
                         m.own[f := Mapped(p, v)][e.frame := Lost]), e.frame))
  }

  lemma Known(m: Mem, p: nat, v: nat)
    requires Ok(m) && p < |m.pts| && v in m.pts[p]
    ensures m.pts[p][v].frame < |m.frames| == |m.own| && m.own[m.pts[p][v].frame] == Mapped(p, v)
    ensures m.free != [] ==> m.free[0] < |m.frames| && m.own[m.free[0]] == Spare
    ensures View(m, p, v).Some?
  {
    assert TableOk(m, p);
  }

  /** A frame on nobody's books may be freed, whatever that does to its bytes. */
  lemma FreeFrameKeeps(m: Mem, a: nat)
    requires Ok(m) && a < |m.frames| && m.own[a] == Lost
    ensures Ok(FreeFrame(m, a)) && FreeFrame(m, a).pts == m.pts
    ensures forall q: nat, w: nat :: View(FreeFrame(m, a), q, w) == View(m, q, w)
    ensures FreeFrame(m, a).free == if Ref(m.frames[a]) == 1 then [a] + m.free else m.free
  {
    var u := FreeFrame(m, a);
    EntryRange(m.frames[a], 2);
    forall q: nat | q < |u.pts| ensures TableOk(u, q) { assert TableOk(m, q); }
    forall q: nat, w: nat ensures View(u, q, w) == View(m, q, w) {
      if q < |m.pts| { assert TableOk(m, q); }
    }
  }

  /** Moving page v to a spare frame with the same bytes; the old frame is off the books. */
  lemma MoveKeeps(m: Mem, p: nat, v: nat, e: Pte)
    requires Ok(m) && p < |m.pts| && v in m.pts[p] && m.free != []
    requires m.free[0] < |m.frames| && m.pts[p][v].frame < |m.frames| && e.frame == m.free[0]
    ensures var a := m.pts[p][v].frame;
            var u := Mem(m.frames[e.frame := m.frames[a]], m.free[1..], SetPte(m.pts, p, v, e), m.own[e.frame := Mapped(p, v)][a := Lost]);
            Ok(u) && u.frames[a] == m.frames[a] && forall q: nat, w: nat :: View(u, q, w) == View(m, q, w)
  {
    Known(m, p, v);
    var a := m.pts[p][v].frame;
    var u := Mem(m.frames[e.frame := m.frames[a]], m.free[1..], SetPte(m.pts, p, v, e), m.own[e.frame := Mapped(p, v)][a := Lost]);
    forall q: nat | q < |u.pts| ensures TableOk(u, q) { assert TableOk(m, q); }
    forall q: nat, w: nat ensures View(u, q, w) == View(m, q, w) {
      if q < |m.pts| { assert TableOk(m, q); }
    }
  }

  lemma MarkKeeps(m: Mem, p: nat, v: nat, e: Pte)
    requires Ok(m) && p < |m.pts| && v in m.pts[p] && e.frame == m.pts[p][v].frame
    ensures var u := m.(pts := SetPte(m.pts, p, v, e));
            Ok(u) && forall q: nat, w: nat :: View(u, q, w) == View(m, q, w)
  {
    var u := m.(pts := SetPte(m.pts, p, v, e));
    forall q: nat | q < |u.pts| ensures TableOk(u, q) { assert TableOk(m, q); }
  }

  /** A resolved fault makes the page writable and changes nobody's view, the faulting process's own
      included. The page copied from is never put back on the list. */
  lemma HandleCowKeeps(m: Mem, p: nat, v: nat)
    requires Ok(m) && p < |m.pts| && v in m.pts[p]
    ensures m.pts[p][v].frame < |m.frames| == |m.own| && (m.free != [] ==> m.free[0] < |m.frames|)
    ensures HandleCow(m, p, v).Some? <==> m.free != [] || Ref(m.frames[m.pts[p][v].frame]) == 1
    ensures HandleCow(m, p, v).Some? ==> var u := HandleCow(m, p, v).value;
            && Ok(u) && |u.pts| == |m.pts| && v in u.pts[p] && u.pts[p][v].w && !u.pts[p][v].cow
            && (forall q: nat, w: nat :: View(u, q, w) == View(m, q, w))
            && u.free == (if Ref(m.frames[m.pts[p][v].frame]) == 1 then m.free else m.free[1..])
            && (Ref(m.frames[m.pts[p][v].frame]) != 1 ==> u.own[m.pts[p][v].frame] == Lost)
            && u.pts[p][v].rest == m.pts[p][v].rest && (forall q: nat, w: nat :: q != p || w != v ==> PteAt(u, q, w) == PteAt(m, q, w))
  {
    Known(m, p, v);
    var e := m.pts[p][v];
    if Ref(m.frames[e.frame]) == 1 {
      MarkKeeps(m, p, v, Writable(e));
    } else if m.free != [] {
      var f := m.free[0];
      MoveKeeps(m, p, v, Writable(e).(frame := f));
      var moved := Mem(m.frames[f := m.frames[e.frame]], m.free[1..], SetPte(m.pts, p, v, Writable(e).(frame := f)),
                       m.own[f := Mapped(p, v)][e.frame := Lost]);
      FreeFrameKeeps(moved, e.frame);
    }
  }

  // ----- runs of stores and faults

  /** A one-byte store by process p at byte i of page v, or a fault on a copy-on-write page. */
  datatype Event = Store(p: nat, v: nat, i: nat, b: byte) | Fault(p: nat, v: nat)

  predicate Sane(m: Mem, p: nat, v: nat) {
    && p < |m.pts| && v in m.pts[p] && m.pts[p][v].frame < |m.frames| == |m.own|
    && (m.free != [] ==> m.free[0] < |m.frames|)
  }

  /** The event does not end in a panic. */
  predicate Goes(m: Mem, e: Event) {
    && Sane(m, e.p, e.v) && (e.Store? ==> e.i < PGSIZE)
    && ((e.Store? && m.pts[e.p][e.v].w) || (m.pts[e.p][e.v].cow && HandleCow(m, e.p, e.v).Some?))
  }

  /** Page v of process p made ready for the event: a store to a page that may not be written faults. */
  function Ready(m: Mem, e: Event): Mem
    requires Goes(m, e)
  {
    if e.Store? && m.pts[e.p][e.v].w then m else HandleCow(m, e.p, e.v).value
  }

  function After(m: Mem, e: Event): Mem {
    if !Goes(m, e) then m
    else
      var u := Ready(m, e);
      if e.Store? && Sane(u, e.p, e.v) then Poke(u, u.pts[e.p][e.v].frame, e.i, e.b) else u
  }

  function Poke(m: Mem, f: nat, i: nat, b: byte): Mem
    requires f < |m.frames| && i < PGSIZE
  {
    var c: Content := m.frames[f][i := b];
    m.(frames := m.frames[f := c])
  }

  function AfterAll(m: Mem, es: seq<Event>): Mem {
    if es == [] then m else After(AfterAll(m, es[..|es| - 1]), es[|es| - 1])
  }

  predicate AllGo(m: Mem, es: seq<Event>) {
    es != [] ==> AllGo(m, es[..|es| - 1]) && Goes(AfterAll(m, es[..|es| - 1]), es[|es| - 1])
  }

  /** A page as if it were private memory: only its own process's stores to it count. */
  function Replay(c: Option<Content>, es: seq<Event>, p: nat, v: nat): Option<Content> {
    if es == [] then c else Stored(Replay(c, es[..|es| - 1], p, v), es[|es| - 1], p, v)
  }

  function Stored(c: Option<Content>, e: Event, p: nat, v: nat): Option<Content> {
    if c.Some? && e.Store? && e.p == p && e.v == v && e.i < PGSIZE then
      var d: Content := c.value[e.i := e.b];
      Some(d)
    else c
  }

  lemma StepIsolated(m: Mem, e: Event)
    requires Ok(m) && Goes(m, e)
    ensures Ok(After(m, e)) && |After(m, e).pts| == |m.pts|
    ensures forall q: nat, w: nat :: View(After(m, e), q, w) == Stored(View(m, q, w), e, q, w)
  {
    HandleCowKeeps(m, e.p, e.v);
    var u := Ready(m, e);
    Known(u, e.p, e.v);
    PokeKeeps(u, e.p, e.v, if e.Store? then e.i else 0, if e.Store? then e.b else 0);
  }

  /** No event gives a process a right or takes one away; the page it is about ends up open to stores, and
      every other entry is as it was. */
  lemma RightsKept(m: Mem, e: Event)
    requires Ok(m) && Goes(m, e)
    ensures forall q: nat, w: nat :: RightsAt(After(m, e), q, w) == RightsAt(m, q, w)
    ensures !Faults(After(m, e), e.p, e.v)
    ensures forall q: nat, w: nat :: q != e.p || w != e.v ==> PteAt(After(m, e), q, w) == PteAt(m, q, w)
  {
    hide Ok, View, HandleCow;
    HandleCowKeeps(m, e.p, e.v);
    var u := Ready(m, e);
    Known(u, e.p, e.v);
    assert After(m, e).pts == u.pts;
  }

  /** Exactly when a store does not end in a panic: the page is mapped, may be stored to, and if it has to
      fault first there is a spare frame or the page's count reads 1. */
  lemma StoreGoesIff(m: Mem, p: nat, v: nat, i: nat, b: byte)
    requires Ok(m) && i < PGSIZE
    ensures RightsAt(m, p, v).Some? ==> p < |m.pts| && v in m.pts[p] && m.pts[p][v].frame < |m.frames|
    ensures Goes(m, Store(p, v, i, b)) <==>
              && RightsAt(m, p, v).Some? && RightsAt(m, p, v).value.store
              && (Faults(m, p, v) ==> m.free != [] || Ref(m.frames[m.pts[p][v].frame]) == 1)
  {
    hide Ok, View, HandleCow;
    if p < |m.pts| && v in m.pts[p] {
      Known(m, p, v);
      HandleCowKeeps(m, p, v);
    }
  }

  lemma PokeKeeps(m: Mem, p: nat, v: nat, i: nat, b: byte)
    requires Ok(m) && p < |m.pts| && v in m.pts[p] && i < PGSIZE
    ensures m.pts[p][v].frame < |m.frames|
    ensures var u := Poke(m, m.pts[p][v].frame, i, b);
            Ok(u) && forall q: nat, w: nat :: View(u, q, w) == Stored(View(m, q, w), Store(p, v, i, b), q, w)
  {
    Known(m, p, v);
    var u := Poke(m, m.pts[p][v].frame, i, b);
    forall q: nat | q < |u.pts| ensures TableOk(u, q) { assert TableOk(m, q); }
    forall q: nat, w: nat ensures View(u, q, w) == Stored(View(m, q, w), Store(p, v, i, b), q, w) {
      if q < |m.pts| { assert TableOk(m, q); }
    }
  }

  /** In every run of stores and faults, each page of each process reads as private memory would: no
      process ever sees another's stores, and every process sees all of its own. */
  lemma {:induction false} RunIsolated(m: Mem, es: seq<Event>, p: nat, v: nat)
    requires Ok(m) && AllGo(m, es)
    ensures Ok(AfterAll(m, es)) && View(AfterAll(m, es), p, v) == Replay(View(m, p, v), es, p, v)
  {
    if es == [] {
    } else {
      RunIsolated(m, es[..|es| - 1], p, v);
      StepIsolated(AfterAll(m, es[..|es| - 1]), es[|es| - 1]);
    }
  }

  /** A frame on nobody's books, as every page copied away from is, is never put on the list again. */
  lemma {:induction false} LostStays(m: Mem, es: seq<Event>, f: nat)
    requires Ok(m) && AllGo(m, es) && f < |m.own| && m.own[f] == Lost
    ensures var u := AfterAll(m, es);
            Ok(u) && f < |u.own| && u.own[f] == Lost && f !in u.free
  {
    if es == [] {
    } else {
      var before := es[..|es| - 1];
      LostStays(m, before, f);
      LostStep(AfterAll(m, before), es[|es| - 1], f);
    }
  }

  lemma LostStep(m: Mem, e: Event, f: nat)
    requires Ok(m) && Goes(m, e) && f < |m.own| && m.own[f] == Lost
    ensures Ok(After(m, e)) && f < |After(m, e).own| && After(m, e).own[f] == Lost
  {
    StepIsolated(m, e);
    Known(m, e.p, e.v);
    EntryRange(m.frames[m.pts[e.p][e.v].frame], 2);
  }

  // ----- copying an address space

  datatype Outcome = Done | NotMapped | NoFrame | Remap

  /** The pages [first, last). */
  function Span(first: nat, last: nat): (s: set<nat>)
    ensures forall v: nat :: v in s <==> first <= v < last
    decreases last - first
  {
    if last <= first then {} else Span(first, last - 1) + {last - 1}
  }

  /** In `u` the pages of S have appeared in the child, with the parent's bytes and the parent's rights,
      and both have to fault before they store to them; nothing else differs in what processes see and may
      do, nor in any other entry. */
  ghost predicate Copied(m: Mem, u: Mem, parent: nat, child: nat, s: set<nat>) {
    && Ok(u) && |u.pts| == |m.pts|
    && (forall v :: v in s ==> View(m, child, v) == None && View(m, parent, v).Some? && View(u, child, v) == View(m, parent, v))
    && (forall q: nat, v: nat :: !(q == child && v in s) ==> View(u, q, v) == View(m, q, v))
    && (forall q: nat, v: nat :: RightsAt(u, q, v) == if q == child && v in s then RightsAt(m, parent, v) else RightsAt(m, q, v))
    && (forall v :: v in s ==> Faults(u, parent, v) && Faults(u, child, v))
    && (forall q: nat, v: nat :: v !in s || (q != parent && q != child) ==> PteAt(u, q, v) == PteAt(m, q, v))
  }

  lemma CopiedNone(m: Mem, parent: nat, child: nat)
    requires Ok(m)
    ensures Copied(m, m, parent, child, {})
  {
  }

  lemma CopiedMore(m: Mem, u: Mem, w: Mem, parent: nat, child: nat, s: set<nat>, t: set<nat>)
    requires Copied(m, u, parent, child, s) && Copied(u, w, parent, child, t) && parent != child
    ensures Copied(m, w, parent, child, s + t)
  {
  }

  /** The pages between the end of region i - 1 (the start of the area for i = 0) and region i (the
      end of the area after the last): what uvm_copy_pgtbl copies for one node of the chain. */
  function GapFrom(c: seq<R.Region>, i: nat): nat
    requires i <= |c|
  {
    R.EndAt(c, i)
  }

  function GapTo(c: seq<R.Region>, i: nat): nat
    requires i <= |c|
  {
    if i == |c| then R.LAST else c[i].begin
  }

  function Gaps(c: seq<R.Region>, n: nat): set<nat>
    requires n <= |c| + 1
  {
    if n == 0 then {} else Gaps(c, n - 1) + Span(GapFrom(c, n - 1), GapTo(c, n - 1))
  }

  /** The first n gaps hold exactly the pages of the area before region n - 1 that are not free. */
  lemma {:induction false} GapsBelow(c: seq<R.Region>, n: nat, p: nat)
    requires R.ChainOk(c) && n <= |c| + 1
    ensures p in Gaps(c, n) <==> n > 0 && R.FIRST <= p < GapTo(c, n - 1) && !R.Covers(c, p)
  {
    if n > 0 {
      GapsBelow(c, n - 1, p);
      GapFree(c, n - 1, p);
      if n > 1 && c[n - 2].begin <= p < c[n - 2].End() { assert R.Covers(c, p); }
    }
  }

  lemma GapFree(c: seq<R.Region>, i: nat, p: nat)
    requires R.ChainOk(c) && i <= |c|
    ensures GapFrom(c, i) <= p < GapTo(c, i) ==> !R.Covers(c, p) && R.FIRST <= p < R.LAST
  {
  }

  /** The page table and the chain of free regions are in step: a page of the area is mapped exactly
      when it is not listed as free. UserArea proves that uvm_mmap and uvm_munmap keep it so. */
  ghost predicate InStep(pt: map<nat, Pte>, c: seq<R.Region>) {
    forall v: nat :: R.FIRST <= v < R.LAST ==> (v in pt <==> !R.Covers(c, v))
  }

  /** The pages of the mmap area mapped in a page table. */
  function AreaPages(pt: map<nat, Pte>): set<nat> { set v | v in pt && R.FIRST <= v < R.LAST }

  /** The gaps walked are exactly the pages of the area mapped in the parent. */
  lemma {:induction false} GapsAreMapped(pt: map<nat, Pte>, c: seq<R.Region>)
    requires R.ChainOk(c) && InStep(pt, c)
    ensures Gaps(c, |c| + 1) == AreaPages(pt)
  {
    forall p: nat ensures p in Gaps(c, |c| + 1) <==> p in AreaPages(pt) { GapsBelow(c, |c| + 1, p); }
  }

  /** Heap and stack of a process. */
  function Segments(heapTop: nat, ustackPages: nat): set<nat>
    requires ustackPages <= STACK_BOTTOM
  {
    Span(1, (heapTop + PGSIZE - 1) / PGSIZE) + Span(STACK_BOTTOM - ustackPages, STACK_BOTTOM)
  }

  /** The heap from its second page to the page of its last byte, and the pages below the top of the stack. */
  lemma SegmentsAre(heapTop: nat, ustackPages: nat, v: nat)
    requires ustackPages <= STACK_BOTTOM
    ensures v in Segments(heapTop, ustackPages) <==>
              (1 <= v && v * 4096 < heapTop) || 0x3FF_FFFE - ustackPages <= v < 0x3FF_FFFE
  {
  }

  /** Every page of a process: its heap, its stack and the mmap pages mapped in its page table. */
  function UserPages(heapTop: nat, ustackPages: nat, pt: map<nat, Pte>): set<nat>
    requires ustackPages <= STACK_BOTTOM
  {
    Segments(heapTop, ustackPages) + AreaPages(pt)
  }

  /** A page the copy reaches twice: in heap and stack, or in one of them and mapped in the area. */
  predicate Twice(heapTop: nat, ustackPages: nat, pt: map<nat, Pte>, v: nat)
    requires ustackPages <= STACK_BOTTOM
  {
    || (v in Span(1, (heapTop + PGSIZE - 1) / PGSIZE) && v in Span(STACK_BOTTOM - ustackPages, STACK_BOTTOM))
    || (v in Segments(heapTop, ustackPages) && v in AreaPages(pt))
  }

  /** A page that stops the copy: the child has it already, or the copy reaches it twice. */
  predicate Blocks(heapTop: nat, ustackPages: nat, pt: map<nat, Pte>, childPt: map<nat, Pte>, v: nat)
    requires ustackPages <= STACK_BOTTOM
  {
    v in UserPages(heapTop, ustackPages, pt) && (v in childPt || Twice(heapTop, ustackPages, pt, v))
  }

  /** The pages of gap i are mapped in the parent, and not pages of an earlier gap. */
  lemma {:induction false} GapPages(pt: map<nat, Pte>, c: seq<R.Region>, i: nat)
    requires R.ChainOk(c) && InStep(pt, c) && i <= |c|
    ensures forall v: nat :: GapFrom(c, i) <= v < GapTo(c, i) ==> v in pt && v in AreaPages(pt) && v !in Gaps(c, i)
  {
    forall v: nat | GapFrom(c, i) <= v < GapTo(c, i) ensures v in pt && v in AreaPages(pt) && v !in Gaps(c, i) {
      GapFree(c, i, v);
      GapsBelow(c, i, v);
    }
  }

  lemma {:induction false} NoGaps(c: seq<R.Region>)
    ensures Gaps(c, 0) == {}
  {
  }

  lemma MoreGaps(c: seq<R.Region>, i: nat)
    requires i <= |c|
    ensures Gaps(c, i + 1) == Gaps(c, i) + Span(GapFrom(c, i), GapTo(c, i))
  {
  }

  lemma {:induction false} InSpan(first: nat, last: nat)
    ensures forall v: nat :: first <= v < last ==> v in Span(first, last)
  {
  }

  lemma CopiedOk(m: Mem, u: Mem, parent: nat, child: nat, s: set<nat>)
    requires Copied(m, u, parent, child, s)
    ensures Ok(u) && |u.pts| == |m.pts|
  {
  }

  /** What the assertions of copy_range, failing midway, say about the start of the copy. */
  lemma FailedCopy(m: Mem, u: Mem, parent: nat, child: nat, s: set<nat>)
    requires Ok(m) && Copied(m, u, parent, child, s) && parent < |m.pts| && child < |m.pts| && parent != child
    ensures forall v: nat :: View(u, parent, v) == None ==> v !in m.pts[parent]
    ensures forall v: nat :: View(u, child, v).Some? ==> v in s || v in m.pts[child]
  {
    forall v: nat | View(u, parent, v) == None ensures v !in m.pts[parent] {
      if v in m.pts[parent] { Known(m, parent, v); }
    }
  }

  lemma InArea(pt: map<nat, Pte>)
    ensures forall v: nat :: R.FIRST <= v < R.LAST && v in pt ==> v in AreaPages(pt)
  {
  }

  /** A child that had nothing in the area is in step with the parent's chain after the copy. */
  lemma ChildInStep(m: Mem, u: Mem, parent: nat, child: nat, s: set<nat>, c: seq<R.Region>)
    requires Ok(m) && parent < |m.pts| && child < |m.pts| && Copied(m, u, parent, child, s) && InStep(m.pts[parent], c)
    requires AreaPages(m.pts[child]) == {} && AreaPages(m.pts[parent]) <= s
    ensures child < |u.pts| && InStep(u.pts[child], c)
  {
    InArea(m.pts[child]);
    InArea(m.pts[parent]);
    forall v: nat | R.FIRST <= v < R.LAST ensures v in u.pts[child] <==> v in m.pts[parent] {
      if v in u.pts[child] { Known(u, child, v); }
      if v in s { assert View(u, child, v) == View(m, parent, v); }
    }
  }

  class Memory {
    var frames: seq<Content>
    var free: seq<nat>
    var pts: seq<map<nat, Pte>>
    ghost var own: seq<Owner>

    ghost function Now(): Mem reads this { Mem(frames, free, pts, own) }

    /** copy_range over the pages [first, last). */
    method CopyRange(parent: nat, child: nat, first: nat, last: nat) returns (r: Outcome)
      requires Ok(Now()) && parent < |pts| && child < |pts| && parent != child
      modifies this
      ensures Ok(Now()) && |pts| == |old(pts)|
      ensures r == Done ==> Copied(old(Now()), Now(), parent, child, Span(first, last))
      ensures r == NotMapped ==> exists v: nat :: first <= v < last && View(old(Now()), parent, v) == None
      ensures r == Remap ==> exists v: nat :: first <= v < last && View(old(Now()), child, v).Some?
      ensures r == NoFrame ==> free == []
    {
      ghost var m := Now();
      CopiedNone(m, parent, child);
      var v := first;
      assert Span(first, first) == {};
      while v < last
        invariant first <= v && (v <= last || v == first) && |pts| == |m.pts|
        invariant Ok(Now()) && Copied(m, Now(), parent, child, Span(first, v))
        decreases last - v
      {
        ghost var u := Now();
        assert View(u, parent, v) == View(m, parent, v);
        if v !in pts[parent] { return NotMapped; }
        Known(u, parent, v);
        if free == [] { return NoFrame; }
        if v in pts[child] { Known(u, child, v); return Remap; }
        CopyOne(parent, child, v);
        CopiedMore(m, u, Now(), parent, child, Span(first, v), {v});
        assert Span(first, v) + {v} == Span(first, v + 1);
        v := v + 1;
      }
      if last < first { assert Span(first, last) == Span(first, first); }
      r := Done;
    }

    /** The body of copy_range's loop, past its assertions. */
    method CopyOne(parent: nat, child: nat, v: nat)
      requires Ok(Now()) && parent < |pts| && child < |pts| && parent != child
      requires v in pts[parent] && v !in pts[child] && free != []
      modifies this
      ensures Copied(old(Now()), Now(), parent, child, {v}) && |pts| == |old(pts)|
    {
      ghost var m := Now();
      Known(m, parent, v);
      CopyPageKeeps(m, parent, child, v);
      var e := pts[parent][v];
      SetSame(pts, parent, v);
      if e.w {
        e := e.(w := false, cow := true);
        pts := SetPte(pts, parent, v, e);
      }
      var page := free[0];
      free := free[1..];
      frames := frames[page := frames[e.frame]];
      pts := SetPte(pts, child, v, e.(frame := page));
      own := own[page := Mapped(child, v)];
      assert pts == CopyPage(m, parent, child, v).pts;
      assert Now() == CopyPage(m, parent, child, v);
    }

    /** uvm_copy_pgtbl: heap, stack, and the gaps of the chain of free regions. With page table and
        chain in step these are all the pages mapped in the area, and no copy of them can fail for a
        page that is missing in the parent. */
    method UvmCopyPgtbl(parent: nat, child: nat, heapTop: nat, ustackPages: nat, c: seq<R.Region>) returns (r: Outcome)
      requires Ok(Now()) && parent < |pts| && child < |pts| && parent != child
      requires R.ChainOk(c) && ustackPages <= STACK_BOTTOM && InStep(pts[parent], c)
      modifies this
      ensures Ok(Now()) && |pts| == |old(pts)|
      ensures r == Done ==> Copied(old(Now()), Now(), parent, child, UserPages(heapTop, ustackPages, old(pts)[parent]))
      ensures r == Done && AreaPages(old(pts)[child]) == {} ==> InStep(pts[child], c)
      ensures r == NotMapped ==> exists v :: v in Segments(heapTop, ustackPages) && v !in old(pts)[parent]
      ensures r == Remap ==> exists v :: Blocks(heapTop, ustackPages, old(pts)[parent], old(pts)[child], v)
      ensures r == NoFrame ==> free == []
    {
      hide Ok, Copied, R.ChainOk, InStep, Gaps, AreaPages, View, Span;
      ghost var m := Now();
      var heapEnd := (heapTop + PGSIZE - 1) / PGSIZE;
      CopiedNone(m, parent, child);
      FailedCopy(m, m, parent, child, {});
      r := CopyRange(parent, child, 1, heapEnd);
      if r != Done {
        InSpan(1, heapEnd);
        if r == Remap {
          ghost var v: nat :| 1 <= v < heapEnd && View(m, child, v).Some?;
          assert Blocks(heapTop, ustackPages, m.pts[parent], m.pts[child], v);
        }
        return;
      }
      ghost var heap, u := Span(1, heapEnd), Now();
      FailedCopy(m, u, parent, child, heap);
      r := CopyRange(parent, child, STACK_BOTTOM - ustackPages, STACK_BOTTOM);
      if r != Done {
        InSpan(STACK_BOTTOM - ustackPages, STACK_BOTTOM);
        if r == Remap {
          ghost var v: nat :| STACK_BOTTOM - ustackPages <= v < STACK_BOTTOM && View(u, child, v).Some?;
          assert Blocks(heapTop, ustackPages, m.pts[parent], m.pts[child], v);
        }
        return;
      }
      CopiedMore(m, u, Now(), parent, child, heap, Span(STACK_BOTTOM - ustackPages, STACK_BOTTOM));
      r := CopyGaps(parent, child, Segments(heapTop, ustackPages), c, m);
      if r == Remap {
        ghost var v :| v in AreaPages(m.pts[parent]) && (v in m.pts[child] || v in Segments(heapTop, ustackPages));
        assert Blocks(heapTop, ustackPages, m.pts[parent], m.pts[child], v);
      }
      if r == Done {
        GapsAreMapped(m.pts[parent], c);
        if AreaPages(m.pts[child]) == {} {
          ChildInStep(m, Now(), parent, child, UserPages(heapTop, ustackPages, m.pts[parent]), c);
        }
      }
    }

    /** The last loop of uvm_copy_pgtbl; `m` is the memory before the whole copy, `s` what it has copied. */
    method CopyGaps(parent: nat, child: nat, ghost s: set<nat>, c: seq<R.Region>, ghost m: Mem) returns (r: Outcome)
      requires Ok(m) && parent < |pts| && child < |pts| && parent != child && Copied(m, Now(), parent, child, s)
      requires R.ChainOk(c) && InStep(m.pts[parent], c)
      modifies this
      ensures Ok(Now()) && |pts| == |old(pts)| && r != NotMapped
      ensures r == Done ==> Copied(m, Now(), parent, child, s + Gaps(c, |c| + 1))
      ensures r == Remap ==> exists v :: v in AreaPages(m.pts[parent]) && (v in m.pts[child] || v in s)
      ensures r == NoFrame ==> free == []
    {
      hide Ok, R.ChainOk, InStep, Gaps, AreaPages, View, Span;
      CopiedOk(m, Now(), parent, child, s);
      var i := 0;
      NoGaps(c);
      assert s + Gaps(c, 0) == s;
      while i <= |c|
        invariant i <= |c| + 1 && |pts| == |m.pts| && Ok(Now())
        invariant Copied(m, Now(), parent, child, s + Gaps(c, i))
      {
        ghost var u := Now();
        r := CopyRange(parent, child, GapFrom(c, i), GapTo(c, i));
        if r != Done {
          FailedCopy(m, u, parent, child, s + Gaps(c, i));
          if r != NoFrame { GapPages(m.pts[parent], c, i); }
          return;
        }
        CopiedMore(m, u, Now(), parent, child, s + Gaps(c, i), Span(GapFrom(c, i), GapTo(c, i)));
        MoreGaps(c, i);
        assert s + Gaps(c, i) + Span(GapFrom(c, i), GapTo(c, i)) == s + Gaps(c, i + 1);
        i := i + 1;
      }
      r := Done;
    }

    /** is_cowpage, for page v: -1 past the top of the address space, else whether the page is marked. */
    method IsCowPage(p: nat, v: nat) returns (r: int)
      requires Ok(Now()) && p < |pts|
      ensures r == -1 <==> v >= VA_MAX_PAGE
      ensures v < VA_MAX_PAGE ==> (r == 1 <==> v in pts[p] && pts[p][v].cow) && r in {0, 1}
    {
      if v >= VA_MAX_PAGE { return -1; }
      if v !in pts[p] { return 0; }
      r := if pts[p][v].cow then 1 else 0;
    }

    /** handle_cow at an aligned address; false when pmem_alloc finds no frame. */
    method ResolveCow(p: nat, v: nat) returns (ok: bool)
      requires Ok(Now()) && p < |pts| && v in pts[p]
      modifies this
      ensures Ok(Now()) && |pts| == |old(pts)|
      ensures Sane(old(Now()), p, v)
      ensures ok <==> HandleCow(old(Now()), p, v).Some?
      ensures Now() == if ok then HandleCow(old(Now()), p, v).value else old(Now())
      ensures ok ==> v in pts[p] && pts[p][v].w && !pts[p][v].cow
      ensures forall q: nat, w: nat :: View(Now(), q, w) == View(old(Now()), q, w)
    {
      hide Ok, View;
      ghost var m := Now();
      Known(m, p, v);
      HandleCowKeeps(m, p, v);
      var e := pts[p][v];
      var pa := e.frame;
      if Ref(frames[pa]) == 1 {
        pts := SetPte(pts, p, v, e.(w := true, cow := false));
        return true;
      }
      if free == [] { return false; }
      var page := free[0];
      free := free[1..];
      frames := frames[page := frames[pa]];
      pts := SetPte(pts, p, v, e.(frame := page, w := true, cow := false));
      own := own[page := Mapped(p, v)][pa := Lost];
      PmemFree(pa);
      ok := true;
    }

    /** pmem_free of a frame: its count goes down, and it is listed if that leaves 0. */
    method PmemFree(pa: nat)
      requires pa < |frames| == |own|
      modifies this
      ensures Now() == FreeFrame(old(Now()), pa)
    {
      var r := (Ref(frames[pa]) + U32 - 1) % U32;
      if r != 0 {
        frames := frames[pa := WithRef(frames[pa], r)];
        own := own[pa := Lost];
      } else {
        frames := frames[pa := Junk()];
        free := [pa] + free;
        own := own[pa := Spare];
      }
    }
  }

  lemma {:induction false} RunRights(m: Mem, es: seq<Event>, p: nat, v: nat)
    requires Ok(m) && AllGo(m, es)
    ensures RightsAt(AfterAll(m, es), p, v) == RightsAt(m, p, v)
    ensures !Faults(m, p, v) ==> !Faults(AfterAll(m, es), p, v)
  {
    hide Ok, Goes, RightsAt, After, View;
    if es == [] {
    } else {
      var n := |es| - 1;
      RunIsolated(m, es[..n], p, v);
      RunRights(m, es[..n], p, v);
      RightsKept(AfterAll(m, es[..n]), es[n]);
    }
  }

  /** Fork, then any run of stores and faults: the child starts with the parent's bytes on every page
      of the parent, and from then on neither sees the other's stores. Each may go on storing to just the
      pages the parent could store to, as long as there is a frame for the fault. */
  lemma {:induction false} ForkIsolates(m: Mem, u: Mem, parent: nat, child: nat, pages: set<nat>, es: seq<Event>, v: nat)
    requires Copied(m, u, parent, child, pages) && parent != child && v in pages && AllGo(u, es)
    ensures View(AfterAll(u, es), child, v) == Replay(View(m, parent, v), es, child, v)
    ensures View(AfterAll(u, es), parent, v) == Replay(View(m, parent, v), es, parent, v)
    ensures RightsAt(AfterAll(u, es), child, v) == RightsAt(AfterAll(u, es), parent, v) == RightsAt(m, parent, v)
    ensures AfterAll(u, es).free != [] && RightsAt(m, parent, v).Some? && RightsAt(m, parent, v).value.store ==>
              forall p, i: nat, b :: p in {parent, child} && i < PGSIZE ==> Goes(AfterAll(u, es), Store(p, v, i, b))
    ensures forall p, i: nat, b :: p in {parent, child} && Goes(AfterAll(u, es), Store(p, v, i, b)) ==>
              i < PGSIZE && RightsAt(m, parent, v).Some? && RightsAt(m, parent, v).value.store
  {
    hide Ok, Goes, View, RightsAt, AfterAll, Replay, Faults;
    RunIsolated(u, es, child, v);
    RunIsolated(u, es, parent, v);
    RunRights(u, es, child, v);
    RunRights(u, es, parent, v);
    var w := AfterAll(u, es);
    forall p, i: nat, b: byte | p in {parent, child} && i < PGSIZE
      ensures Goes(w, Store(p, v, i, b)) ==> RightsAt(m, parent, v).Some? && RightsAt(m, parent, v).value.store
      ensures RightsAt(m, parent, v).Some? && RightsAt(m, parent, v).value.store && w.free != [] ==> Goes(w, Store(p, v, i, b))
    {
      StoreGoesIff(w, p, v, i, b);
    }
    forall p, i: nat, b: byte | p in {parent, child} && Goes(w, Store(p, v, i, b)) ensures i < PGSIZE { InPage(w, Store(p, v, i, b)); }
  }

  lemma InPage(m: Mem, e: Event)
    requires Goes(m, e) && e.Store?
    ensures e.i < PGSIZE
  {
  }
}
