/** File contents: the multi-level block index of kernel/fs/inode.c over the block bitmap of
    kernel/fs/bitmap.c, proved to behave as one flat byte array per file. */
module FileData {
  import opened Base
  import opened Words

  const BLOCK_SIZE: nat := 1024
  const ENTRIES: nat := 256                     // block numbers in an index block
  const N_DATA: nat := 8192                     // blocks one bitmap block covers
  const DATA_BITMAP_START: nat := 130
  const DATA_START: nat := 131
  const MAX_FILE_SIZE: nat := (10 + 2 * 256 + 256 * 256) * 1024
  const REACHED: nat := 778                     // blocks whose index stays inside `addrs`

  /** An inode as far as it concerns the data: `addrs` has ten data blocks, two index blocks and one
      doubly indirect block; 0 is "none". */
  datatype Inode = Inode(size: nat, addrs: seq<nat>)

  type Block = seq<byte>

  // ----- the file system as a value

  /** What a data block is used for. */
  datatype Role = Free | Data(f: nat, bn: nat) | Index(f: nat, i: nat) | Top(f: nat) | Leaf(f: nat)

  datatype Fs = Fs(bits: seq<bool>, data: seq<Block>, nodes: seq<Inode>, role: seq<Role>)

  /** Places a block number is kept in. */
  datatype Slot = Addr(f: nat, i: nat) | At(b: nat, j: nat)

  function Value(s: Fs, slot: Slot): nat {
    match slot
    case Addr(f, i) => if f < |s.nodes| && i < |s.nodes[f].addrs| then s.nodes[f].addrs[i] else 0
    case At(b, j) => if b < |s.data| then Entry(s.data[b], j) else 0
  }

  /** What the block in a slot is for. */
  function Expected(role: seq<Role>, slot: Slot): Role {
    match slot
    case Addr(f, i) => if i < 10 then Data(f, i) else if i < 12 then Index(f, i - 10) else if i == 12 then Top(f) else Free
    case At(b, j) =>
      if b >= |role| then Free
      else
        match role[b]
        case Index(f, i) => if i < 2 && j < ENTRIES then Data(f, 10 + i * ENTRIES + j) else Free
        case Top(f) => if j == 0 then Leaf(f) else Free
        case Leaf(f) => if j < ENTRIES then Data(f, 522 + j) else Free
        case _ => Free
  }

  predicate IsSlot(s: Fs, slot: Slot) {
    match slot
    case Addr(f, i) => f < |s.nodes| && i < 13
    case At(b, j) => b < N_DATA && b < |s.role| && j < ENTRIES && (s.role[b].Index? || s.role[b].Top? || s.role[b].Leaf?)
  }

  /** A used slot names a block with the expected role. */
  ghost predicate SlotOk(s: Fs, slot: Slot) {
    IsSlot(s, slot) ==>
      Value(s, slot) == 0 ||
      (DATA_START <= Value(s, slot) < DATA_START + N_DATA && |s.role| == N_DATA
       && Expected(s.role, slot) != Free && s.role[Value(s, slot) - DATA_START] == Expected(s.role, slot))
  }

  ghost predicate Zero(b: Block) { |b| == BLOCK_SIZE && forall i :: 0 <= i < |b| ==> b[i] == 0 }

  ghost predicate FsOk(s: Fs) {
    && |s.bits| == |s.data| == |s.role| == N_DATA
    && (forall b :: 0 <= b < N_DATA ==> |s.data[b]| == BLOCK_SIZE)
    && (forall b :: 0 <= b < N_DATA ==> (s.bits[b] <==> s.role[b] != Free))
    && (forall b :: 0 <= b < N_DATA && s.role[b] == Free ==> Zero(s.data[b]))
    && (forall f :: 0 <= f < |s.nodes| ==> |s.nodes[f].addrs| == 13)
    && (forall slot :: SlotOk(s, slot))
  }

  lemma FsSizes(s: Fs)
    requires FsOk(s)
    ensures |s.bits| == |s.data| == |s.role| == N_DATA
  {
  }

  // ----- the walk

  /** Block (as an index into the data region) that a slot names. */
  function Follow(s: Fs, slot: Slot): Option<nat> {
    if Value(s, slot) < DATA_START then None else Some(Value(s, slot) - DATA_START)
  }

  /** The slot that holds the number of block bn of file f, once its index blocks exist. */
  function LastSlot(s: Fs, f: nat, bn: nat): Option<Slot> {
    if bn < 10 then Some(Addr(f, bn))
    else if bn < 522 then
      match Follow(s, Addr(f, 10 + (bn - 10) / ENTRIES))
      case None => None
      case Some(t) => Some(At(t, (bn - 10) % ENTRIES))
    else
      match Follow(s, Addr(f, 12))
      case None => None
      case Some(t) =>
        match Follow(s, At(t, 0))
        case None => None
        case Some(l) => Some(At(l, bn - 522))
  }

  function Locate(s: Fs, f: nat, bn: nat): Option<nat> {
    match LastSlot(s, f, bn)
    case None => None
    case Some(slot) => Follow(s, slot)
  }

  /** A walk ends at a slot for exactly that block, and what it finds is that block. */
  lemma WalkRole(s: Fs, f: nat, bn: nat)
    requires FsOk(s) && f < |s.nodes| && bn < REACHED && LastSlot(s, f, bn).Some?
    ensures var slot := LastSlot(s, f, bn).value;
            IsSlot(s, slot) && Expected(s.role, slot) == Data(f, bn)
    ensures Locate(s, f, bn).Some? ==> Locate(s, f, bn).value < N_DATA && s.role[Locate(s, f, bn).value] == Data(f, bn)
  {
    if bn < 10 {
    } else if bn < 522 {
      Quotient(bn - 10);
      assert SlotOk(s, Addr(f, 10 + (bn - 10) / ENTRIES));
    } else {
      assert SlotOk(s, Addr(f, 12));
      assert SlotOk(s, At(Follow(s, Addr(f, 12)).value, 0));
    }
    assert SlotOk(s, LastSlot(s, f, bn).value);
  }

  lemma Quotient(x: nat)
    requires x < 2 * ENTRIES
    ensures x / ENTRIES < 2 && x % ENTRIES < ENTRIES && x == x / ENTRIES * ENTRIES + x % ENTRIES
  {
  }

  /** The top index as the code parses it, `(x / 256) * 256 + 12`, stays inside `addrs` exactly for
      the first 778 blocks; the file size limit promises 66058. */
  function TopIndex(bn: nat): nat
    requires bn >= 522
  {
    (bn - 522) / ENTRIES * ENTRIES + 12
  }

  lemma TopIndexIn(bn: nat)
    requires 522 <= bn < 522 + ENTRIES * ENTRIES
    ensures TopIndex(bn) < 13 <==> bn < REACHED
    ensures bn < REACHED ==> TopIndex(bn) == 12 && (bn - 522) / ENTRIES == 0 && (bn - 522) % ENTRIES == bn - 522
  {
    if bn >= REACHED { assert (bn - 522) / ENTRIES >= 1; }
  }

  // ----- the index as it lies in the inode and in the blocks

  /** The little-endian 32-bit word j of block `num`; 0 for a number outside the data region. */
  function WordAt(data: seq<Block>, num: nat, j: nat): nat {
    if 131 <= num < 131 + |data| && 4 * j + 3 < |data[num - 131]| then
      var d := data[num - 131];
      var a: nat, b: nat, c: nat, e: nat := d[4 * j], d[4 * j + 1], d[4 * j + 2], d[4 * j + 3];
      a + 0x100 * b + 0x1_0000 * c + 0x100_0000 * e
    else 0
  }

  /** What addrs and blocks say about block bn: ten numbers in the inode, 256 behind each of the next two,
      and for the last word of the inode the first of the 256 tables of 256 numbers. */
  function Indexed(addrs: seq<nat>, data: seq<Block>, bn: nat): nat
    requires |addrs| == 13
  {
    if bn < 10 then addrs[bn]
    else if bn < 266 then WordAt(data, addrs[10], bn - 10)
    else if bn < 522 then WordAt(data, addrs[11], bn - 266)
    else WordAt(data, WordAt(data, addrs[12], 0), bn - 522)
  }

  lemma WordOf(s: Fs, slot: Slot, j: nat)
    requires FsOk(s) && j < ENTRIES
    ensures WordAt(s.data, Value(s, slot), j) == match Follow(s, slot) case None => 0 case Some(t) => Value(s, At(t, j))
  {
  }

  /** The walk finds what the index says. */
  lemma WalkIndexed(s: Fs, f: nat, bn: nat)
    requires FsOk(s) && f < |s.nodes| && bn < REACHED
    ensures |s.nodes[f].addrs| == 13
    ensures Locate(s, f, bn) ==
            var num := Indexed(s.nodes[f].addrs, s.data, bn);
            if num < DATA_START then None else Some(num - DATA_START)
  {
    var addrs := s.nodes[f].addrs;
    assert |addrs| == 13 && forall i :: 0 <= i < 13 ==> Value(s, Addr(f, i)) == addrs[i];
    hide FsOk, WordAt, Value;
    if 10 <= bn < 522 {
      Quotient(bn - 10);
      var i := (bn - 10) / ENTRIES;
      WordOf(s, Addr(f, 10 + i), (bn - 10) % ENTRIES);
    } else if bn >= 522 {
      WordOf(s, Addr(f, 12), 0);
      if Follow(s, Addr(f, 12)).Some? {
        var second := At(Follow(s, Addr(f, 12)).value, 0);
        WordOf(s, second, bn - 522);
      } else {
        assert WordAt(s.data, 0, bn - 522) == 0 by { NoWord(s.data, bn - 522); }
      }
    }
  }

  lemma NoWord(data: seq<Block>, j: nat)
    ensures WordAt(data, 0, j) == 0
  {
  }

  // ----- filling an empty slot with a fresh block

  function Stored(s: Fs, slot: Slot, v: nat): Fs {
    match slot
    case Addr(f, i) =>
      if f < |s.nodes| && i < |s.nodes[f].addrs| then
        var addrs: seq<nat> := s.nodes[f].addrs[i := v];
        s.(nodes := s.nodes[f := s.nodes[f].(addrs := addrs)])
      else s
    case At(b, j) => if b < |s.data| then s.(data := s.data[b := SetEntry(s.data[b], j, v)]) else s
  }

  /** The bitmap marks block b, and the slot names it. */
  function Filled(s: Fs, slot: Slot, b: nat): Fs
    requires b < |s.bits| && b < |s.role|
  {
    Stored(s.(bits := s.bits[b := true], role := s.role[b := Expected(s.role, slot)]), slot, b + DATA_START)
  }

  predicate Fillable(s: Fs, slot: Slot, b: nat) {
    && IsSlot(s, slot) && Value(s, slot) == 0 && Expected(s.role, slot) != Free
    && b < N_DATA && |s.bits| == |s.role| == N_DATA && s.role[b] == Free
  }

  lemma StoredSame(s: Fs, mid: Fs, slot: Slot, v: nat, other: Slot)
    requires FsOk(s) && IsSlot(s, slot) && v < U32 && IsSlot(s, other) && mid.data == s.data && mid.nodes == s.nodes
    ensures Value(Stored(mid, slot, v), other) == if other == slot then v else Value(s, other)
  {
    if slot.At? && other.At? && slot.b == other.b { EntryAfterSet(s.data[slot.b], slot.j, v, other.j); }
  }

  lemma ZeroEntries(b: Block, j: nat)
    requires Zero(b)
    ensures Entry(b, j) == 0
  {
  }

  lemma FillKeeps(s: Fs, slot: Slot, b: nat)
    requires FsOk(s) && Fillable(s, slot, b)
    ensures FsOk(Filled(s, slot, b))
  {
    var u := Filled(s, slot, b);
    FillShape(s, slot, b);
    forall other: Slot ensures SlotOk(u, other) { FillSlot(s, slot, b, other); }
  }

  lemma FillShape(s: Fs, slot: Slot, b: nat)
    requires FsOk(s) && Fillable(s, slot, b)
    ensures var u := Filled(s, slot, b);
            && |u.bits| == |u.data| == |u.role| == N_DATA && |u.nodes| == |s.nodes|
            && u.bits == s.bits[b := true] && u.role == s.role[b := Expected(s.role, slot)]
            && (forall c :: 0 <= c < N_DATA ==> |u.data[c]| == BLOCK_SIZE && (u.data[c] != s.data[c] ==> slot.At? && slot.b == c))
            && (forall f :: 0 <= f < |u.nodes| ==> |u.nodes[f].addrs| == 13 && u.nodes[f].size == s.nodes[f].size)
            && (forall f :: 0 <= f < |u.nodes| && u.nodes[f] != s.nodes[f] ==> slot.Addr? && slot.f == f)
            && (slot.At? ==> slot.b != b)
  {
    if slot.At? { EntryAfterSet(s.data[slot.b], slot.j, b + DATA_START, 0); }
  }

  lemma FillSlot(s: Fs, slot: Slot, b: nat, other: Slot)
    requires FsOk(s) && Fillable(s, slot, b)
    ensures SlotOk(Filled(s, slot, b), other)
    ensures IsSlot(s, other) ==> IsSlot(Filled(s, slot, b), other)
    ensures IsSlot(s, other) ==> Value(Filled(s, slot, b), other) == if other == slot then b + DATA_START else Value(s, other)
    ensures IsSlot(Filled(s, slot, b), other) && !IsSlot(s, other) ==> other.At? && other.b == b && Value(Filled(s, slot, b), other) == 0
  {
    var u := Filled(s, slot, b);
    var mid := s.(bits := s.bits[b := true], role := s.role[b := Expected(s.role, slot)]);
    if IsSlot(s, other) {
      StoredSame(s, mid, slot, b + DATA_START, other);
      assert SlotOk(s, other);
    } else if IsSlot(u, other) {
      assert other.At? && other.b == b;
      ZeroEntries(s.data[b], other.j);
    }
  }

  lemma FollowFill(s: Fs, slot: Slot, b: nat, other: Slot)
    requires FsOk(s) && Fillable(s, slot, b)
    ensures IsSlot(s, other) ==> Follow(Filled(s, slot, b), other) == if other == slot then Some(b) else Follow(s, other)
    ensures other.At? && other.b == b && IsSlot(Filled(s, slot, b), other) ==> Follow(Filled(s, slot, b), other) == None
    ensures IsSlot(s, other) && Follow(s, other).Some? ==>
            var c := Follow(s, other).value;
            c < N_DATA && c != b && s.role[c] == Expected(s.role, other) && Filled(s, slot, b).role[c] == s.role[c]
  {
    FillSlot(s, slot, b, other);
    FillShape(s, slot, b);
    assert SlotOk(s, other);
  }

  /** Filling an empty slot adds a block if the slot is the last one of its walk, and moves no other
      block of any file. */
  lemma LocateFill(s: Fs, slot: Slot, b: nat, g: nat, bn: nat)
    requires FsOk(s) && Fillable(s, slot, b) && g < |s.nodes| && bn < REACHED
    ensures Locate(Filled(s, slot, b), g, bn) == if LastSlot(s, g, bn) == Some(slot) then Some(b) else Locate(s, g, bn)
  {
    var u := Filled(s, slot, b);
    FillShape(s, slot, b);
    hide FsOk, Filled, Fillable, SlotOk, Value, Follow;
    if bn < 10 {
      FollowFill(s, slot, b, Addr(g, bn));
    } else if bn < 522 {
      Quotient(bn - 10);
      var first := Addr(g, 10 + (bn - 10) / ENTRIES);
      FollowFill(s, slot, b, first);
      LocateFillLast(s, slot, b, first, (bn - 10) % ENTRIES);
    } else {
      FollowFill(s, slot, b, Addr(g, 12));
      LocateFillLast(s, slot, b, Addr(g, 12), 0);
      if Follow(s, Addr(g, 12)).Some? {
        var second := At(Follow(s, Addr(g, 12)).value, 0);
        FollowFill(s, slot, b, second);
        LocateFillLast(s, slot, b, second, bn - 522);
      }
    }
  }

  /** The next slot of a walk, behind `first`, in the old and in the new file system. */
  lemma LocateFillLast(s: Fs, slot: Slot, b: nat, first: Slot, j: nat)
    requires FsOk(s) && Fillable(s, slot, b) && j < ENTRIES
    ensures IsSlot(s, first) && Follow(s, first).Some? && !Expected(s.role, first).Data? ==>
            var next := At(Follow(s, first).value, j);
            && first != slot && Follow(Filled(s, slot, b), first) == Follow(s, first)
            && IsSlot(s, next) && Follow(Filled(s, slot, b), next) == if next == slot then Some(b) else Follow(s, next)
    ensures first == slot && !Expected(s.role, first).Data? ==> Follow(Filled(s, slot, b), At(b, j)) == None
    ensures IsSlot(s, first) && first != slot && Follow(s, first) == None ==> Follow(Filled(s, slot, b), first) == None
  {
    FollowFill(s, slot, b, first);
    assert SlotOk(s, first);
    if IsSlot(s, first) && Follow(s, first).Some? { FollowFill(s, slot, b, At(Follow(s, first).value, j)); }
    FollowFill(s, slot, b, At(b, j));
    FillShape(s, slot, b);
  }

  // ----- files as flat byte arrays

  const LIMIT: nat := REACHED * BLOCK_SIZE

  /** Byte p of file f, if its block exists. */
  function View(s: Fs, f: nat, p: nat): Option<byte> {
    match Locate(s, f, p / BLOCK_SIZE)
    case None => None
    case Some(b) => if b < |s.data| && p % BLOCK_SIZE < |s.data[b]| then Some(s.data[b][p % BLOCK_SIZE]) else None
  }

  /** Byte p of file f; a hole reads as 0. */
  function ByteAt(s: Fs, f: nat, p: nat): byte {
    if p < LIMIT && View(s, f, p).Some? then View(s, f, p).value else 0
  }

  /** The first n bytes of a file. */
  function Bytes(s: Fs, f: nat, n: nat): (r: seq<byte>)
    ensures |r| == n && forall p: nat :: p < n ==> r[p] == ByteAt(s, f, p)
    decreases n
  {
    if n == 0 then [] else Bytes(s, f, n - 1) + [ByteAt(s, f, n - 1)]
  }

  function FileBytes(s: Fs, f: nat): (r: seq<byte>)
    requires f < |s.nodes|
    ensures |r| == s.nodes[f].size && forall p: nat :: p < |r| ==> r[p] == ByteAt(s, f, p)
  {
    Bytes(s, f, s.nodes[f].size)
  }

  /** Writing `b` at `offset`; what lies between the old end and the offset reads as 0. */
  function Overwrite(c: seq<byte>, offset: nat, b: seq<byte>): (r: seq<byte>)
    ensures |r| == if b == [] then |c| else Max(|c|, offset + |b|)
    ensures forall p :: 0 <= p < |r| ==> r[p] == if offset <= p < offset + |b| then b[p - offset] else if p < |c| then c[p] else 0
  {
    if b == [] then c
    else if offset > |c| then c + Zeros(offset - |c|) + b
    else if offset + |b| >= |c| then c[..offset] + b
    else c[..offset] + b + c[offset + |b|..]
  }

  function Zeros(n: nat): (r: seq<byte>)
    ensures |r| == n && forall k :: 0 <= k < n ==> r[k] == 0
    decreases n
  {
    if n == 0 then [] else Zeros(n - 1) + [0]
  }

  function Max(a: nat, b: nat): nat { if a >= b then a else b }

  lemma BlockOf(p: nat)
    ensures p / BLOCK_SIZE * BLOCK_SIZE + p % BLOCK_SIZE == p && p % BLOCK_SIZE < BLOCK_SIZE
    ensures p < LIMIT ==> p / BLOCK_SIZE < REACHED
  {
  }

  lemma SameBlock(p: nat, q: nat)
    requires q <= p < q + BLOCK_SIZE - q % BLOCK_SIZE
    ensures p / BLOCK_SIZE == q / BLOCK_SIZE && p % BLOCK_SIZE == q % BLOCK_SIZE + (p - q)
  {
  }

  lemma ViewFill(s: Fs, slot: Slot, b: nat, g: nat, p: nat)
    requires FsOk(s) && Fillable(s, slot, b) && g < |s.nodes| && p < LIMIT
    ensures View(Filled(s, slot, b), g, p) == if LastSlot(s, g, p / BLOCK_SIZE) == Some(slot) then Some(0) else View(s, g, p)
    ensures LastSlot(s, g, p / BLOCK_SIZE) == Some(slot) ==> View(s, g, p) == None && Expected(s.role, slot) == Data(g, p / BLOCK_SIZE)
  {
    BlockOf(p);
    LocateFill(s, slot, b, g, p / BLOCK_SIZE);
    FillShape(s, slot, b);
    if LastSlot(s, g, p / BLOCK_SIZE).Some? { WalkRole(s, g, p / BLOCK_SIZE); }
  }

  function Spliced(b: Block, off: nat, chunk: seq<byte>): (r: Block)
    requires off + |chunk| <= |b|
    ensures |r| == |b| && forall i :: 0 <= i < |r| ==> r[i] == if off <= i < off + |chunk| then chunk[i - off] else b[i]
  {
    b[..off] + chunk + b[off + |chunk|..]
  }

  /** Changing a data block: no slot changes, and the flat arrays change in one file at most. */
  lemma SpliceKeeps(s: Fs, f: nat, bn: nat, off: nat, chunk: seq<byte>)
    requires FsOk(s) && f < |s.nodes| && bn < REACHED && Locate(s, f, bn).Some? && off + |chunk| <= BLOCK_SIZE
    ensures Locate(s, f, bn).value < N_DATA
    ensures FsOk(s.(data := s.data[Locate(s, f, bn).value := Spliced(s.data[Locate(s, f, bn).value], off, chunk)]))
  {
    WalkRole(s, f, bn);
    var b := Locate(s, f, bn).value;
    var u := s.(data := s.data[b := Spliced(s.data[b], off, chunk)]);
    forall slot ensures SlotOk(u, slot) { assert SlotOk(s, slot); }
  }

  lemma SpliceLocates(s: Fs, f: nat, bn: nat, block: Block, g: nat, q: nat)
    requires FsOk(s) && f < |s.nodes| && bn < REACHED && Locate(s, f, bn).Some? && g < |s.nodes| && q < REACHED
    ensures Locate(s, f, bn).value < N_DATA
    ensures Locate(s.(data := s.data[Locate(s, f, bn).value := block]), g, q) == Locate(s, g, q)
  {
    WalkRole(s, f, bn);
    var b := Locate(s, f, bn).value;
    var u := s.(data := s.data[b := block]);
    forall slot | IsSlot(s, slot) ensures Follow(u, slot) == Follow(s, slot) {}
    if 10 <= q < 522 { Quotient(q - 10); }
    assert SlotOk(s, Addr(g, 12));
    if Follow(s, Addr(g, 12)).Some? { assert SlotOk(s, At(Follow(s, Addr(g, 12)).value, 0)); }
    if LastSlot(s, g, q).Some? { WalkRole(s, g, q); }
    assert LastSlot(u, g, q) == LastSlot(s, g, q);
  }

  lemma SpliceView(s: Fs, f: nat, bn: nat, off: nat, chunk: seq<byte>, g: nat, p: nat)
    requires FsOk(s) && f < |s.nodes| && bn < REACHED && Locate(s, f, bn).Some? && off + |chunk| <= BLOCK_SIZE
    requires g < |s.nodes| && p < LIMIT
    ensures Locate(s, f, bn).value < N_DATA
    ensures var u := s.(data := s.data[Locate(s, f, bn).value := Spliced(s.data[Locate(s, f, bn).value], off, chunk)]);
            View(u, g, p) == if g == f && bn * BLOCK_SIZE + off <= p < bn * BLOCK_SIZE + off + |chunk|
                             then Some(chunk[p - bn * BLOCK_SIZE - off]) else View(s, g, p)
  {
    BlockOf(p);
    WalkRole(s, f, bn);
    var b := Locate(s, f, bn).value;
    SpliceLocates(s, f, bn, Spliced(s.data[b], off, chunk), g, p / BLOCK_SIZE);
    if LastSlot(s, g, p / BLOCK_SIZE).Some? { WalkRole(s, g, p / BLOCK_SIZE); }
  }

  // ----- the operations

  /** No file has anything but zeros past its size. */
  ghost predicate Tails(s: Fs) {
    forall f: nat, p: nat :: f < |s.nodes| && s.nodes[f].size <= p ==> ByteAt(s, f, p) == 0
  }

  // ----- two copies of an inode

  /** The slot of an inode that the walk to block bn starts from. */
  function Root(bn: nat): nat { if bn < 10 then bn else if bn < 522 then 10 + (bn - 10) / ENTRIES else 12 }

  /** `a` has fewer blocks than `b`, and those it has are the same. */
  ghost predicate Behind(a: Inode, b: Inode) {
    |a.addrs| == |b.addrs| == 13 && forall i :: 0 <= i < 13 ==> a.addrs[i] == 0 || a.addrs[i] == b.addrs[i]
  }

  function RootOf(p: nat): nat { Root(p / BLOCK_SIZE) }

  /** The walk to byte p gets past the inode. */
  predicate Rooted(n: Inode, p: nat) { RootOf(p) < |n.addrs| && n.addrs[RootOf(p)] != 0 }

  /** Some of the n bytes from b is reached through slot i of the inode. */
  ghost predicate Touches(i: nat, b: nat, n: nat) { exists p: nat :: b <= p < b + n && RootOf(p) == i }

  /** The same blocks seen through inodes that lag behind. */
  ghost predicate Lags(t: Fs, s: Fs) {
    && t.bits == s.bits && t.data == s.data && t.role == s.role && |t.nodes| == |s.nodes|
    && forall f :: 0 <= f < |s.nodes| ==> Behind(t.nodes[f], s.nodes[f])
  }

  lemma LagKeeps(t: Fs, s: Fs)
    requires FsOk(s) && Lags(t, s)
    ensures FsOk(t)
  {
    forall slot ensures SlotOk(t, slot) { assert SlotOk(s, slot); }
  }

  lemma LagSizes(t: Fs, s: Fs)
    requires Lags(t, s)
    ensures |t.nodes| == |s.nodes|
  {
  }

  /** A byte is seen through the older inode exactly when the slot its walk starts from was already
      set there; otherwise it reads as 0. */
  lemma LagView(t: Fs, s: Fs, f: nat, p: nat)
    requires FsOk(s) && Lags(t, s) && f < |s.nodes| && p < LIMIT
    ensures View(t, f, p) == if Rooted(t.nodes[f], p) then View(s, f, p) else None
    ensures ByteAt(t, f, p) == if Rooted(t.nodes[f], p) then ByteAt(s, f, p) else 0
    ensures View(s, f, p).Some? ==> Rooted(s.nodes[f], p)
  {
    BlockOf(p);
    var bn := p / BLOCK_SIZE;
    if 10 <= bn < 522 { Quotient(bn - 10); }
    var root := Addr(f, Root(bn));
    assert SlotOk(s, root) && IsSlot(s, root);
    assert forall b, j :: Value(t, At(b, j)) == Value(s, At(b, j));
    assert forall b, j :: Follow(t, At(b, j)) == Follow(s, At(b, j));
    assert Value(t, root) == t.nodes[f].addrs[Root(bn)];
  }

  // ----- the operations

  datatype Located = Block(num: nat) | NoBlock | BadIndex | Invalid

  datatype Outcome = Count(n: nat) | Failed | Stopped(why: Located)

  /** `u` has every byte of every file where `s` has it, and may have a zeroed block bn of file f. */
  ghost predicate Grown(s: Fs, u: Fs, f: nat, bn: nat) {
    && FsOk(u) && |u.nodes| == |s.nodes|
    && (forall g :: 0 <= g < |s.nodes| ==> u.nodes[g].size == s.nodes[g].size && Behind(s.nodes[g], u.nodes[g]) && (g != f ==> u.nodes[g] == s.nodes[g]))
    && (forall g, i :: 0 <= g < |s.nodes| && 0 <= i < 13 && i != Root(bn) ==> u.nodes[g].addrs[i] == s.nodes[g].addrs[i])
    && (forall g: nat, p: nat :: g < |s.nodes| && p < LIMIT ==>
          View(u, g, p) == View(s, g, p) || (g == f && p / BLOCK_SIZE == bn && View(s, g, p) == None && View(u, g, p) == Some(0)))
  }

  lemma GrownSame(s: Fs, f: nat, bn: nat)
    requires FsOk(s)
    ensures Grown(s, s, f, bn)
  {
  }

  lemma GrownOk(s: Fs, u: Fs, f: nat, bn: nat)
    requires Grown(s, u, f, bn)
    ensures FsOk(u) && |u.nodes| == |s.nodes|
  {
  }

  lemma GrownTrans(s: Fs, t: Fs, u: Fs, f: nat, bn: nat)
    requires Grown(s, t, f, bn) && Grown(t, u, f, bn)
    ensures Grown(s, u, f, bn)
  {
  }

  lemma GrownFill(s: Fs, slot: Slot, b: nat, f: nat, bn: nat)
    requires FsOk(s) && Fillable(s, slot, b) && f < |s.nodes| && bn < REACHED && (slot.Addr? ==> slot.f == f && slot.i == Root(bn))
    requires Expected(s.role, slot).Data? ==> Expected(s.role, slot) == Data(f, bn)
    ensures Grown(s, Filled(s, slot, b), f, bn)
  {
    var u := Filled(s, slot, b);
    FillKeeps(s, slot, b);
    FillShape(s, slot, b);
    forall g: nat, p: nat | g < |s.nodes| && p < LIMIT
      ensures View(u, g, p) == View(s, g, p) || (g == f && p / BLOCK_SIZE == bn && View(s, g, p) == None && View(u, g, p) == Some(0))
    {
      ViewFill(s, slot, b, g, p);
    }
  }

  /** No file reads differently, and the walks of files other than f are untouched. */
  ghost predicate Quiet(s: Fs, u: Fs, f: nat) {
    && FsOk(u) && |u.nodes| == |s.nodes|
    && (forall g :: 0 <= g < |s.nodes| ==> u.nodes[g].size == s.nodes[g].size && Behind(s.nodes[g], u.nodes[g]) && (g != f ==> u.nodes[g] == s.nodes[g]))
    && (forall g: nat, p: nat :: g < |s.nodes| && p < LIMIT ==> ByteAt(u, g, p) == ByteAt(s, g, p))
  }

  lemma QuietGrown(s: Fs, t: Fs, u: Fs, f: nat, bn: nat)
    requires FsOk(s)
    ensures Quiet(s, s, f)
    ensures Quiet(s, t, f) && Grown(t, u, f, bn) ==> Quiet(s, u, f)
  {
  }

  // ----- how many blocks are left

  function Clear(bits: seq<bool>): nat {
    if bits == [] then 0 else Clear(bits[..|bits| - 1]) + (if bits[|bits| - 1] then 0 else 1)
  }

  lemma {:induction false} ClearSet(bits: seq<bool>, b: nat)
    requires b < |bits| && !bits[b]
    ensures Clear(bits) == Clear(bits[b := true]) + 1
  {
    var last := |bits| - 1;
    if b == last {
      assert bits[b := true][..last] == bits[..last];
    } else {
      ClearSet(bits[..last], b);
      assert bits[b := true][..last] == bits[..last][b := true];
    }
  }

  lemma {:induction false} ClearFull(bits: seq<bool>)
    ensures Clear(bits) == 0 <==> Full(bits)
  {
    if bits != [] { ClearFull(bits[..|bits| - 1]); }
  }

  lemma {:induction false} ClearFresh(bits: seq<bool>)
    requires forall b :: 0 <= b < |bits| ==> !bits[b]
    ensures Clear(bits) == |bits|
  {
    if bits != [] { ClearFresh(bits[..|bits| - 1]); }
  }

  /** No block is left. */
  predicate Full(bits: seq<bool>) { forall b :: 0 <= b < |bits| ==> bits[b] }

  class Files {
    var bits: seq<bool>          // the data bitmap
    var data: seq<Block>         // the data region
    var mem: seq<Inode>          // the inodes in memory
    var disk: seq<Inode>         // the inodes on the disk
    ghost var role: seq<Role>    // what each data block is for

    ghost function Now(): Fs reads this { Fs(bits, data, mem, role) }

    /** The file system as it is found on the disk. */
    ghost function OnDisk(): Fs reads this { Fs(bits, data, disk, role) }

    /** Between calls the inodes on the disk may lack blocks, but have the right sizes. */
    ghost predicate Valid() reads this {
      FsOk(Now()) && Lags(OnDisk(), Now()) && Tails(Now()) && forall f :: 0 <= f < |mem| ==> disk[f].size == mem[f].size
    }

    /** What a write leaves, as the inode in memory has it. */
    ghost function Contents(f: nat): seq<byte> reads this
      requires f < |mem|
    {
      FileBytes(Now(), f)
    }

    /** What a read, which reloads the inode, finds. */
    ghost function Saved(f: nat): seq<byte> reads this
      requires f < |disk|
    {
      FileBytes(OnDisk(), f)
    }

    /** An image with n empty files and no block in use. */
    constructor (n: nat)
      ensures Valid() && |mem| == n && forall f: nat :: f < n ==> Contents(f) == []
      ensures Clear(bits) == N_DATA && forall f: nat, i: nat :: f < n && i < 13 ==> |mem[f].addrs| == 13 && mem[f].addrs[i] == 0
    {
      bits := seq(N_DATA, _ => false);
      data := seq(N_DATA, _ => seq(BLOCK_SIZE, _ => 0));
      var addrs: seq<nat> := seq(13, _ => 0);
      mem := seq(n, _ => Inode(0, addrs));
      disk := seq(n, _ => Inode(0, addrs));
      role := seq(N_DATA, _ => Free);
      new;
      ClearFresh(bits);
      forall f: nat, p: nat | f < n ensures ByteAt(Now(), f, p) == 0 {
        if p < LIMIT {
          BlockOf(p);
          LagView(Now(), Now(), f, p);
        }
      }
    }

    /** bitmap_free_block: the bit cleared is that of the block after `num`. For the last block it is
        the lowest bit of the field behind the data, the buffer's reference count `ref`. */
    method BitmapFreeBlock(num: nat, ref: nat) returns (left: nat)
      requires |bits| == N_DATA && DATA_START <= num < DATA_START + N_DATA
      modifies `bits
      ensures |bits| == N_DATA && bits[num - DATA_START] == old(bits)[num - DATA_START]
      ensures num + 1 < DATA_START + N_DATA ==> left == ref && bits == old(bits)[num - DATA_START + 1 := false]
      ensures num + 1 == DATA_START + N_DATA ==> left == ref - ref % 2 && bits == old(bits)
    {
      var n := num - DATA_BITMAP_START;
      if n < N_DATA {
        bits := bits[n := false];
        left := ref;
      } else {
        left := ref - ref % 2;
      }
    }

    /** bitmap_alloc_block: the first clear bit is set. */
    method BitmapAllocBlock() returns (r: Option<nat>)
      requires |bits| == N_DATA
      modifies `bits
      ensures r == None <==> Full(old(bits))
      ensures r == None ==> bits == old(bits)
      ensures r.Some? ==>
        var b := r.value - DATA_START;
        0 <= b < N_DATA && !old(bits)[b] && bits == old(bits)[b := true] && forall c :: 0 <= c < b ==> old(bits)[c]
    {
      var bi := 0;
      while bi < N_DATA
        invariant bi <= N_DATA && forall c :: 0 <= c < bi ==> bits[c]
      {
        if !bits[bi] {
          bits := bits[bi := true];
          return Some(bi + DATA_START);
        }
        bi := bi + 1;
      }
      r := None;
    }

    /** A fresh block for an empty slot of a walk. */
    method Extend(slot: Slot, ghost f: nat, ghost bn: nat) returns (r: Option<nat>)
      requires FsOk(Now()) && f < |mem| && bn < REACHED && IsSlot(Now(), slot) && Value(Now(), slot) == 0
      requires Expected(role, slot) != Free && (slot.Addr? ==> slot.f == f && slot.i == Root(bn))
      requires Expected(role, slot).Data? ==> Expected(role, slot) == Data(f, bn)
      modifies `bits, `data, `mem, `role
      ensures r == None ==> Now() == old(Now()) && Full(bits)
      ensures r.Some? ==> DATA_START <= r.value < DATA_START + N_DATA
      ensures r.Some? ==> Fillable(old(Now()), slot, r.value - DATA_START) && Now() == Filled(old(Now()), slot, r.value - DATA_START)
      ensures Grown(old(Now()), Now(), f, bn) && Clear(bits) + 1 >= Clear(old(bits))
    {
      ghost var s := Now();
      r := BitmapAllocBlock();
      if r == None {
        return;
      }
      ghost var b := r.value - DATA_START;
      ClearSet(s.bits, b);
      GrownFill(s, slot, b, f, bn);
      match slot {
        case Addr(g, i) =>
          var addrs: seq<nat> := mem[g].addrs[i := r.value];
          mem := mem[g := mem[g].(addrs := addrs)];
        case At(t, j) =>
          data := data[t := SetEntry(data[t], j, r.value)];
      }
      role := role[b := Expected(role, slot)];
    }

    /** One step of the walk: what the slot names, allocated now if there is nothing yet. */
    method Step(slot: Slot, ghost f: nat, ghost bn: nat) returns (r: Option<nat>)
      requires FsOk(Now()) && f < |mem| && bn < REACHED && IsSlot(Now(), slot)
      requires Expected(role, slot) != Free && (slot.Addr? ==> slot.f == f && slot.i == Root(bn))
      requires Expected(role, slot).Data? ==> Expected(role, slot) == Data(f, bn)
      modifies `bits, `data, `mem, `role
      ensures |bits| == |role| == N_DATA && (r == None ==> Full(bits)) && Clear(bits) + 1 >= Clear(old(bits))
      ensures Follow(old(Now()), slot).Some? ==> r.Some? && Now() == old(Now())
      ensures r.Some? ==> DATA_START <= r.value < DATA_START + N_DATA && Follow(Now(), slot) == Some(r.value - DATA_START)
      ensures r.Some? ==> IsSlot(Now(), slot) && Expected(role, slot) == Expected(old(role), slot) == role[r.value - DATA_START]
      ensures Grown(old(Now()), Now(), f, bn)
      ensures r.Some? ==> forall other :: IsSlot(old(Now()), other) && other != slot ==> Follow(Now(), other) == Follow(old(Now()), other)
    {
      hide Clear, Grown, Filled, View, Locate;
      var v := match slot case Addr(g, i) => mem[g].addrs[i] case At(b, j) => Entry(data[b], j);
      assert SlotOk(Now(), slot);
      GrownSame(Now(), f, bn);
      if v != 0 { return Some(v); }
      ghost var s := Now();
      r := Extend(slot, f, bn);
      if r.Some? {
        forall other | IsSlot(s, other) ensures Follow(Now(), other) == if other == slot then Some(r.value - DATA_START) else Follow(s, other) {
          FollowFill(s, slot, r.value - DATA_START, other);
        }
        FillSlot(s, slot, r.value - DATA_START, slot);
        FillShape(s, slot, r.value - DATA_START);
        assert SlotOk(Now(), slot);
      }
    }

    /** The branch for one index block. */
    method LocateOnce(f: nat, bn: nat) returns (r: Option<nat>)
      requires FsOk(Now()) && f < |mem| && 10 <= bn < 522
      modifies `bits, `data, `mem, `role
      ensures |bits| == |role| == N_DATA && (r == None ==> Full(bits)) && Clear(bits) + 3 >= Clear(old(bits))
      ensures r.Some? ==> DATA_START <= r.value < DATA_START + N_DATA && Locate(Now(), f, bn) == Some(r.value - DATA_START)
      ensures Locate(old(Now()), f, bn).Some? ==> r.Some? && Now() == old(Now())
      ensures Grown(old(Now()), Now(), f, bn)
    {
      hide FsOk, SlotOk, Grown, Value, Follow, Clear;
      ghost var s := Now();
      Quotient(bn - 10);
      r := Step(Addr(f, 10 + (bn - 10) / ENTRIES), f, bn);
      if r == None { return; }
      ghost var mid := Now();
      GrownOk(s, mid, f, bn);
      r := Step(At(r.value - DATA_START, (bn - 10) % ENTRIES), f, bn);
      GrownTrans(s, mid, Now(), f, bn);
    }

    /** The branch for two index blocks, with the top index inside `addrs`. */
    method LocateTwice(f: nat, bn: nat) returns (r: Option<nat>)
      requires FsOk(Now()) && f < |mem| && 522 <= bn < REACHED
      modifies `bits, `data, `mem, `role
      ensures |bits| == |role| == N_DATA && (r == None ==> Full(bits)) && Clear(bits) + 3 >= Clear(old(bits))
      ensures r.Some? ==> DATA_START <= r.value < DATA_START + N_DATA && Locate(Now(), f, bn) == Some(r.value - DATA_START)
      ensures Locate(old(Now()), f, bn).Some? ==> r.Some? && Now() == old(Now())
      ensures Grown(old(Now()), Now(), f, bn)
    {
      hide FsOk, SlotOk, Grown, Value, Follow, Clear;
      ghost var s := Now();
      TopIndexIn(bn);
      r := Step(Addr(f, TopIndex(bn)), f, bn);
      if r == None { return; }
      ghost var mid := Now();
      GrownOk(s, mid, f, bn);
      r := Step(At(r.value - DATA_START, (bn - 522) / ENTRIES), f, bn);
      GrownTrans(s, mid, Now(), f, bn);
      if r == None { return; }
      ghost var low := Now();
      GrownOk(s, low, f, bn);
      r := Step(At(r.value - DATA_START, (bn - 522) % ENTRIES), f, bn);
      GrownTrans(s, low, Now(), f, bn);
    }

    /** inode_locate_block: the number of block bn of file f. Index blocks and the block itself are
        allocated on the way when they do not exist. BadIndex stands for a read past `addrs`. */
    method LocateBlock(f: nat, bn: nat) returns (r: Located)
      requires FsOk(Now()) && f < |mem|
      modifies `bits, `data, `mem, `role
      ensures |bits| == |role| == N_DATA && (r == NoBlock ==> Full(bits)) && Clear(bits) + 3 >= Clear(old(bits))
      ensures r == BadIndex <==> REACHED <= bn < MAX_FILE_SIZE / BLOCK_SIZE
      ensures r == Invalid <==> bn >= MAX_FILE_SIZE / BLOCK_SIZE
      ensures bn >= REACHED ==> Now() == old(Now())
      ensures r.Block? ==> DATA_START <= r.num < DATA_START + N_DATA && Locate(Now(), f, bn) == Some(r.num - DATA_START)
      ensures r.Block? ==> |mem| == |old(mem)| && |mem[f].addrs| == 13 && r.num == Indexed(mem[f].addrs, data, bn)
      ensures bn < REACHED && Locate(old(Now()), f, bn).Some? ==> r.Block? && Now() == old(Now())
      ensures bn < REACHED ==> Grown(old(Now()), Now(), f, bn)
    {
      hide FsOk, SlotOk, Grown, Value, Follow, Clear;
      ghost var s := Now();
      FsSizes(Now());
      var got;
      if bn < 10 {
        got := Step(Addr(f, bn), f, bn);
      } else if bn < 522 {
        got := LocateOnce(f, bn);
      } else if bn < REACHED {
        got := LocateTwice(f, bn);
      } else if bn < 522 + ENTRIES * ENTRIES {
        TopIndexIn(bn);
        return BadIndex;
      } else {
        return Invalid;
      }
      if got.Some? {
        GrownOk(s, Now(), f, bn);
        WalkIndexed(Now(), f, bn);
      }
      r := if got == None then NoBlock else Block(got.value);
    }

    /** inode_rw: the inode in memory and the one on the disk. */
    method InodeRw(f: nat, writeback: bool)
      requires f < |mem| == |disk|
      modifies `mem, `disk
      ensures writeback ==> mem == old(mem) && disk == old(disk)[f := old(mem)[f]]
      ensures !writeback ==> disk == old(disk) && mem == old(mem)[f := old(disk)[f]]
    {
      if writeback { disk := disk[f := mem[f]]; } else { mem := mem[f := disk[f]]; }
    }

    /** inode_read_data into a kernel buffer. The inode is reloaded first; a hole is filled with a
        zeroed block on the way, which the inode on the disk does not get. */
    method ReadData(f: nat, offset: nat, len: nat) returns (r: Outcome, dst: seq<byte>)
      requires Valid() && f < |mem| && offset < U32 && len < U32
      modifies this
      ensures Valid() && disk == old(disk) && |mem| == |old(mem)|
      ensures r == Failed <==> offset > |old(Saved(f))| || offset + len >= U32
      ensures r.Count? ==> r.n == |dst| && dst == old(Saved(f))[offset..Min(offset + len, |old(Saved(f))|)]
      ensures r.Stopped? ==> r.why.NoBlock? || Min(offset + len, |old(Saved(f))|) > LIMIT
      ensures r == Stopped(NoBlock) ==> Full(bits)
      ensures Clear(bits) + 3 * len >= Clear(old(bits))
      ensures Contents(f) == old(Saved(f)) && forall g: nat :: g < |mem| ==> Saved(g) == old(Saved(g))
      ensures forall g: nat :: g < |mem| && g != f ==> Contents(g) == old(Contents(g))
    {
      hide FsOk, View, Locate, FileBytes, ByteAt, Lags, Quiet, Grown;
      ghost var was, now := OnDisk(), Now();
      LagSizes(was, now);
      InodeRw(f, false);
      ghost var s := Now();
      Reloaded(was, now, s, f);
      if offset > mem[f].size || (offset + len) % U32 < offset {
        QuietGrown(s, s, s, f, 0);
        QuietDisk(was, now, s, s, disk, f);
        return Failed, [];
      }
      var total := if len + offset > mem[f].size then mem[f].size - offset else len;
      var why;
      why, dst := ReadLoop(f, offset, total, s, Saved(f));
      QuietDisk(was, now, s, Now(), disk, f);
      r := if why.Block? then Count(|dst|) else Stopped(why);
    }

    /** The read loop; the block in `why` is the last one read. */
    method ReadLoop(f: nat, offset: nat, total: nat, ghost s: Fs, ghost c: seq<byte>) returns (why: Located, dst: seq<byte>)
      requires FsOk(s) && s == Now() && f < |mem| && offset + total <= |c|
      requires forall p: nat :: p < |c| ==> c[p] == ByteAt(s, f, p)
      modifies `bits, `data, `mem, `role
      ensures Quiet(s, Now(), f) && (why == NoBlock ==> Full(bits)) && (why in {BadIndex, Invalid} ==> offset + total > LIMIT)
      ensures why.Block? ==> dst == c[offset..offset + total]
      ensures Clear(bits) + 3 * total >= Clear(old(bits))
    {
      hide FsOk, View, Locate, ByteAt, Quiet, Grown;
      QuietGrown(s, s, s, f, 0);
      why := Block(0);
      dst := [];
      var beg := offset;
      while |dst| < total
        invariant |dst| <= total && beg == offset + |dst| && why.Block?
        invariant Quiet(s, Now(), f) && |mem| == |s.nodes| && dst == c[offset..beg]
        invariant Clear(bits) + 3 * |dst| >= Clear(old(bits))
        decreases total - |dst|
      {
        var size := BLOCK_SIZE - beg % BLOCK_SIZE;
        if size > total - |dst| { size := total - |dst|; }
        WithinBlock(beg, size);
        var chunk;
        why, chunk := ReadChunk(f, beg, size, s, c);
        if !why.Block? { return; }
        QuietOk(s, Now(), f);
        dst := dst + chunk;
        beg := beg + size;
      }
    }

    /** The body of the read loop: locate the block and copy out of it. */
    method ReadChunk(f: nat, beg: nat, size: nat, ghost s: Fs, ghost c: seq<byte>) returns (why: Located, chunk: seq<byte>)
      requires FsOk(s) && Quiet(s, Now(), f) && f < |mem| && beg + size <= |c| && size > 0 && beg % BLOCK_SIZE + size <= BLOCK_SIZE
      requires forall p: nat :: p < |c| ==> c[p] == ByteAt(s, f, p)
      modifies `bits, `data, `mem, `role
      ensures Quiet(s, Now(), f) && (why == NoBlock ==> Full(bits)) && (why in {BadIndex, Invalid} ==> beg >= LIMIT)
      ensures why.Block? ==> chunk == c[beg..beg + size]
      ensures Clear(bits) + 3 >= Clear(old(bits))
    {
      hide FsOk, View, Locate, Quiet;
      ghost var before := Now();
      QuietOk(s, before, f);
      BlockOf(beg);
      chunk := [];
      why := LocateBlock(f, beg / BLOCK_SIZE);
      if why.Block? || why.NoBlock? { QuietGrown(s, before, Now(), f, beg / BLOCK_SIZE); }
      if why.Block? {
        ChunkIs(s, Now(), f, beg, size, c);
        chunk := data[why.num - DATA_START][beg % BLOCK_SIZE..beg % BLOCK_SIZE + size];
      }
    }

    // ----- writing

    /** Every byte below the size is reached through a slot the inode on the disk has. */
    ghost predicate Whole(f: nat) reads this
      requires f < |disk|
    {
      forall p: nat :: p < disk[f].size ==> Rooted(disk[f], p)
    }

    /** inode_write_data from a kernel buffer. The inode is written back only when the size grows, so
        that otherwise a block new to the inode is forgotten at the next reload. */
    method WriteData(f: nat, offset: nat, src: seq<byte>) returns (r: Outcome)
      requires Valid() && f < |mem| && offset < U32 && |src| < U32
      modifies this
      ensures |mem| == |old(mem)| && Clear(bits) + 3 * |src| >= Clear(old(bits))
      ensures r == Failed <==> offset + |src| >= U32 || offset + |src| > MAX_FILE_SIZE
      ensures r == Failed ==> Now() == old(Now()) && disk == old(disk)
      ensures r == Stopped(NoBlock) ==> Full(bits)
      ensures r.Stopped? && !r.why.NoBlock? ==> src != [] && offset + |src| > LIMIT
      ensures r.Count? ==> r.n == |src| && Valid() && (src == [] || offset + |src| <= LIMIT)
      ensures r.Count? ==> Contents(f) == Overwrite(old(Contents(f)), offset, src)
      ensures r.Count? ==> forall g: nat :: g < |mem| && g != f ==> Contents(g) == old(Contents(g)) && Saved(g) == old(Saved(g))
      ensures r.Count? ==> forall i: nat :: i < 13 && mem[f].addrs[i] != old(mem)[f].addrs[i] ==> Touches(i, offset, |src|)
      ensures r.Count? && Extends(old(mem)[f].size, offset, src) ==> disk == old(disk)[f := mem[f]] && Saved(f) == Contents(f)
      ensures r.Count? && !Extends(old(mem)[f].size, offset, src) ==>
        disk == old(disk) && SavedAs(old(Saved(f)), Saved(f), old(disk)[f], offset, src)
      ensures r.Count? && old(Whole(f)) && offset <= old(mem)[f].size ==> Whole(f)
    {
      hide FsOk, View, FileBytes, ByteAt, Overwrite, Lags, Patched, SavedAs, Touches, Rooted, Tails, Clear, Full;
      if (offset + |src|) % U32 < offset { return Failed; }
      if offset + |src| > MAX_FILE_SIZE { return Failed; }
      ghost var s0, was := Now(), OnDisk();
      LagSizes(was, s0);
      var why, sizeModified := WriteLoop(f, offset, src);
      if !why.Block? { return Stopped(why); }
      ghost var s := Now();
      PatchedNodes(s0, s, f, offset, src);
      if sizeModified { InodeRw(f, true); }
      WriteDone(s0, s, f, offset, src);
      WriteSaved(was, s0, s, disk, f, offset, src);
      if old(Whole(f)) && offset <= s0.nodes[f].size { WholeStays(was, s0, s, disk, f, offset, src); }
      r := Count(|src|);
    }

    /** The loop of inode_write_data. */
    method WriteLoop(f: nat, offset: nat, src: seq<byte>) returns (why: Located, sizeModified: bool)
      requires FsOk(Now()) && f < |mem| && offset + |src| <= MAX_FILE_SIZE
      modifies `bits, `data, `mem, `role
      ensures |mem| == |old(mem)| && Clear(bits) + 3 * |src| >= Clear(old(bits))
      ensures why == NoBlock ==> Full(bits)
      ensures why in {BadIndex, Invalid} ==> src != [] && offset + |src| > LIMIT
      ensures why.Block? ==> Patched(old(Now()), Now(), f, offset, src) && (src == [] || offset + |src| <= LIMIT)
      ensures why.Block? ==> (sizeModified <==> Extends(old(mem)[f].size, offset, src))
      ensures why.Block? ==> mem[f].size == if sizeModified then offset + |src| else old(mem)[f].size
    {
      hide FsOk, Patched, View, ByteAt, Clear;
      ghost var s0 := Now();
      PatchedStart(s0, f, offset);
      why := Block(0);
      var count, beg := 0, offset;
      sizeModified := false;
      assert src[..0] == [];
      while count < |src|
        invariant count <= |src| && beg == offset + count && why.Block? && |mem| == |s0.nodes|
        invariant FsOk(Now()) && Patched(s0, Now(), f, offset, src[..count]) && (count > 0 ==> beg <= LIMIT)
        invariant Clear(bits) + 3 * count >= Clear(old(bits))
        invariant sizeModified <==> count > 0 && beg > s0.nodes[f].size
        invariant mem[f].size == if sizeModified then offset + |src| else s0.nodes[f].size
        decreases |src| - count
      {
        var size := BLOCK_SIZE - beg % BLOCK_SIZE;
        if size > |src| - count { size := |src| - count; }
        WithinBlock(beg, size);
        ghost var s1 := Now();
        why := WriteChunk(f, beg, src[count..count + size]);
        if !why.Block? { return; }
        PatchedMore(s0, s1, Now(), f, offset, src, count, size);
        beg := beg + size;
        count := count + size;
        if offset + count > mem[f].size {
          SizeKeeps(s0, Now(), f, offset, src[..count], offset + |src|);
          mem := mem[f := mem[f].(size := offset + |src|)];
          sizeModified := true;
        }
      }
      assert src[..count] == src;
    }

    /** The body of the write loop: locate the block, copy into it, write it. */
    method WriteChunk(f: nat, beg: nat, chunk: seq<byte>) returns (why: Located)
      requires FsOk(Now()) && f < |mem| && beg % BLOCK_SIZE + |chunk| <= BLOCK_SIZE && chunk != []
      modifies `bits, `data, `mem, `role
      ensures |mem| == |old(mem)| && Clear(bits) + 3 >= Clear(old(bits))
      ensures why == NoBlock ==> Full(bits)
      ensures why in {BadIndex, Invalid} <==> beg >= LIMIT
      ensures why.Block? ==> Patched(old(Now()), Now(), f, beg, chunk) && FsOk(Now()) && mem[f].size == old(mem)[f].size
      ensures why.Block? ==> beg + |chunk| <= LIMIT
    {
      hide Clear;
      BlockOf(beg);
      ghost var s := Now();
      why := LocateBlock(f, beg / BLOCK_SIZE);
      if !why.Block? { return; }
      ghost var t := Now();
      var b := why.num - DATA_START;
      SpliceKeeps(t, f, beg / BLOCK_SIZE, beg % BLOCK_SIZE, chunk);
      data := data[b := Spliced(data[b], beg % BLOCK_SIZE, chunk)];
      ChunkStep(s, t, f, beg, chunk);
    }
  }

  /** The write makes the file longer. */
  predicate Extends(size: nat, offset: nat, src: seq<byte>) { src != [] && offset + |src| > size }

  /** What the disk has after a write that does not: the new bytes where the old inode leads to their
      block, and 0 where it does not; the other bytes are as they were. */
  ghost predicate SavedAs(before: seq<byte>, after: seq<byte>, was: Inode, offset: nat, src: seq<byte>) {
    && |after| == |before|
    && (forall p: nat :: p < |after| && offset <= p < offset + |src| ==> after[p] == if Rooted(was, p) then src[p - offset] else 0)
    && (forall p: nat :: p < |after| && !(offset <= p < offset + |src|) ==> after[p] == before[p])
  }

  /** `u` is `s` with `chunk` at `beg` in file f. */
  ghost predicate Patched(s: Fs, u: Fs, f: nat, beg: nat, chunk: seq<byte>) {
    && FsOk(u) && |u.nodes| == |s.nodes| && f < |s.nodes| && Behind(s.nodes[f], u.nodes[f])
    && (forall g :: 0 <= g < |s.nodes| && g != f ==> u.nodes[g] == s.nodes[g])
    && (forall i: nat :: i < 13 && u.nodes[f].addrs[i] != s.nodes[f].addrs[i] ==> Touches(i, beg, |chunk|))
    && (forall g: nat, p: nat :: g < |s.nodes| && p < LIMIT && g != f ==> View(u, g, p) == View(s, g, p))
    && (forall p: nat :: p < LIMIT && beg <= p < beg + |chunk| ==> View(u, f, p) == Some(chunk[p - beg]))
    && (forall p: nat :: p < LIMIT && !(beg <= p < beg + |chunk|) ==>
          ByteAt(u, f, p) == ByteAt(s, f, p) && (View(s, f, p).Some? ==> View(u, f, p).Some?))
  }

  lemma PatchedStart(s: Fs, f: nat, beg: nat)
    requires FsOk(s) && f < |s.nodes|
    ensures Patched(s, s, f, beg, [])
  {
  }

  lemma PatchedNodes(s: Fs, u: Fs, f: nat, beg: nat, chunk: seq<byte>)
    requires Patched(s, u, f, beg, chunk)
    ensures |u.nodes| == |s.nodes| && u.nodes == s.nodes[f := u.nodes[f]] && |u.nodes[f].addrs| == |s.nodes[f].addrs| == 13
    ensures forall i: nat :: i < 13 && u.nodes[f].addrs[i] != s.nodes[f].addrs[i] ==> Touches(i, beg, |chunk|)
  {
  }

  lemma PatchedMore(s0: Fs, s1: Fs, s2: Fs, f: nat, offset: nat, src: seq<byte>, count: nat, size: nat)
    requires count + size <= |src| && Patched(s0, s1, f, offset, src[..count])
    requires Patched(s1, s2, f, offset + count, src[count..count + size])
    ensures Patched(s0, s2, f, offset, src[..count + size])
  {
    hide FsOk, View, RootOf;
    forall i: nat | i < 13 && s2.nodes[f].addrs[i] != s0.nodes[f].addrs[i] ensures Touches(i, offset, count + size) {}
  }

  lemma ChunkStep(s: Fs, t: Fs, f: nat, beg: nat, chunk: seq<byte>)
    requires FsOk(s) && Grown(s, t, f, beg / BLOCK_SIZE) && f < |s.nodes| && beg < LIMIT && chunk != []
    requires Locate(t, f, beg / BLOCK_SIZE).Some? && beg % BLOCK_SIZE + |chunk| <= BLOCK_SIZE
    ensures Locate(t, f, beg / BLOCK_SIZE).value < N_DATA
    ensures var b := Locate(t, f, beg / BLOCK_SIZE).value;
            Patched(s, t.(data := t.data[b := Spliced(t.data[b], beg % BLOCK_SIZE, chunk)]), f, beg, chunk)
  {
    BlockOf(beg);
    SpliceKeeps(t, f, beg / BLOCK_SIZE, beg % BLOCK_SIZE, chunk);
    var b := Locate(t, f, beg / BLOCK_SIZE).value;
    var u := t.(data := t.data[b := Spliced(t.data[b], beg % BLOCK_SIZE, chunk)]);
    assert RootOf(beg) == Root(beg / BLOCK_SIZE);
    forall g: nat, p: nat | g < |s.nodes| && p < LIMIT
      ensures View(u, g, p) == if g == f && beg <= p < beg + |chunk| then Some(chunk[p - beg]) else View(t, g, p)
    {
      SpliceView(t, f, beg / BLOCK_SIZE, beg % BLOCK_SIZE, chunk, g, p);
    }
  }

  /** The size field takes no part in the walk. */
  lemma SizeKeeps(s0: Fs, s: Fs, f: nat, beg: nat, chunk: seq<byte>, size: nat)
    requires Patched(s0, s, f, beg, chunk)
    ensures FsOk(s.(nodes := s.nodes[f := s.nodes[f].(size := size)]))
    ensures Patched(s0, s.(nodes := s.nodes[f := s.nodes[f].(size := size)]), f, beg, chunk)
  {
    var u := s.(nodes := s.nodes[f := s.nodes[f].(size := size)]);
    forall slot ensures SlotOk(u, slot) { assert SlotOk(s, slot) && Value(u, slot) == Value(s, slot); }
    forall g: nat, p: nat ensures View(u, g, p) == View(s, g, p) { SameView(s, u, g, p); }
  }

  lemma SameView(s: Fs, u: Fs, g: nat, p: nat)
    requires u.data == s.data && forall slot :: Value(u, slot) == Value(s, slot)
    ensures View(u, g, p) == View(s, g, p)
  {
    assert forall slot :: Follow(u, slot) == Follow(s, slot);
  }

  /** A finished write, seen through the inode in memory: contents as promised, other files as they were. */
  lemma WriteDone(s0: Fs, s: Fs, f: nat, offset: nat, src: seq<byte>)
    requires Tails(s0) && Patched(s0, s, f, offset, src) && (src == [] || offset + |src| <= LIMIT)
    requires s.nodes[f].size == if Extends(s0.nodes[f].size, offset, src) then offset + |src| else s0.nodes[f].size
    ensures |s.nodes| == |s0.nodes| && FileBytes(s, f) == Overwrite(FileBytes(s0, f), offset, src) && Tails(s)
    ensures forall g: nat :: g < |s.nodes| && g != f ==> FileBytes(s, g) == FileBytes(s0, g)
  {
    hide FsOk, View;
    forall p: nat ensures ByteAt(s, f, p) == if offset <= p < offset + |src| then src[p - offset] else ByteAt(s0, f, p) {
      PatchedByte(s0, s, f, offset, src, f, p);
    }
    forall g: nat, p: nat | g < |s.nodes| && g != f ensures ByteAt(s, g, p) == ByteAt(s0, g, p) {
      PatchedByte(s0, s, f, offset, src, g, p);
    }
    assert FileBytes(s, f) == Overwrite(FileBytes(s0, f), offset, src);
  }

  lemma PatchedByte(s0: Fs, s: Fs, f: nat, offset: nat, src: seq<byte>, g: nat, p: nat)
    requires Patched(s0, s, f, offset, src) && (src == [] || offset + |src| <= LIMIT) && g < |s.nodes|
    ensures ByteAt(s, g, p) == if g == f && offset <= p < offset + |src| then src[p - offset] else ByteAt(s0, g, p)
    ensures g == f && offset <= p < offset + |src| ==> Rooted(s.nodes[f], p)
  {
    if g == f && offset <= p < offset + |src| {
      assert Lags(s, s);
      LagView(s, s, f, p);
    } else if p < LIMIT && g != f {
      assert View(s, g, p) == View(s0, g, p);
    }
  }

  /** A finished write, seen through the inode on the disk. */
  lemma WriteSaved(was: Fs, s0: Fs, s: Fs, disk: seq<Inode>, f: nat, offset: nat, src: seq<byte>)
    requires FsOk(s0) && Lags(was, s0) && Patched(s0, s, f, offset, src) && (src == [] || offset + |src| <= LIMIT)
    requires s.nodes[f].size == if Extends(s0.nodes[f].size, offset, src) then offset + |src| else s0.nodes[f].size
    requires disk == if Extends(s0.nodes[f].size, offset, src) then was.nodes[f := s.nodes[f]] else was.nodes
    requires was.nodes[f].size == s0.nodes[f].size
    ensures FsOk(s) && Lags(s.(nodes := disk), s) && |disk| == |s.nodes| == |s0.nodes| == |was.nodes|
    ensures forall g: nat :: g < |disk| && g != f ==> FileBytes(s.(nodes := disk), g) == FileBytes(was, g)
    ensures if Extends(s0.nodes[f].size, offset, src) then FileBytes(s.(nodes := disk), f) == FileBytes(s, f)
            else SavedAs(FileBytes(was, f), FileBytes(s.(nodes := disk), f), was.nodes[f], offset, src)
  {
    var d := s.(nodes := disk);
    assert Lags(d, s);
    forall g: nat, p: nat | g < |disk|
      ensures ByteAt(d, g, p) == if Rooted(d.nodes[g], p) then ByteAt(s, g, p) else 0
      ensures ByteAt(was, g, p) == if Rooted(was.nodes[g], p) then ByteAt(s0, g, p) else 0
      ensures ByteAt(s, g, p) == if g == f && offset <= p < offset + |src| then src[p - offset] else ByteAt(s0, g, p)
    {
      if p < LIMIT { LagView(d, s, g, p); LagView(was, s0, g, p); }
      PatchedByte(s0, s, f, offset, src, g, p);
    }
    forall p: nat ensures ByteAt(s, f, p) != 0 ==> Rooted(s.nodes[f], p) {
      if p < LIMIT { LagView(s, s, f, p); }
    }
  }

  /** A file with all its slots on the disk keeps them there when it is overwritten or appended to. */
  lemma WholeStays(was: Fs, s0: Fs, s: Fs, disk: seq<Inode>, f: nat, offset: nat, src: seq<byte>)
    requires Lags(was, s0) && Patched(s0, s, f, offset, src) && (src == [] || offset + |src| <= LIMIT) && f < |disk|
    requires disk[f] == if Extends(s0.nodes[f].size, offset, src) then s.nodes[f] else was.nodes[f]
    requires s.nodes[f].size == if Extends(s0.nodes[f].size, offset, src) then offset + |src| else s0.nodes[f].size
    requires offset <= s0.nodes[f].size && was.nodes[f].size == s0.nodes[f].size
    requires forall p: nat :: p < was.nodes[f].size ==> Rooted(was.nodes[f], p)
    ensures forall p: nat :: p < disk[f].size ==> Rooted(disk[f], p)
  {
    hide FsOk, View, RootOf;
    forall p: nat | p < disk[f].size ensures Rooted(disk[f], p) {
      if offset <= p < offset + |src| {
        PatchedByte(s0, s, f, offset, src, f, p);
      } else {
        assert Rooted(was.nodes[f], p) && Behind(was.nodes[f], s0.nodes[f]);
      }
    }
  }

  lemma QuietOk(s: Fs, u: Fs, f: nat)
    requires Quiet(s, u, f)
    ensures FsOk(u) && |u.nodes| == |s.nodes|
  {
  }

  /** Reloading the inode of file f: memory then agrees with the disk. */
  lemma Reloaded(was: Fs, now: Fs, s: Fs, f: nat)
    requires FsOk(now) && Lags(was, now) && f < |now.nodes| && s == now.(nodes := now.nodes[f := was.nodes[f]])
    requires Tails(now) && was.nodes[f].size == now.nodes[f].size
    ensures FsOk(s) && FsOk(was) && Lags(was, s) && Tails(s)
    ensures FileBytes(s, f) == FileBytes(was, f)
    ensures forall g: nat :: g < |s.nodes| && g != f ==> FileBytes(s, g) == FileBytes(now, g)
  {
    LagKeeps(was, now);
    LagKeeps(s, now);
    forall p: nat ensures ByteAt(s, f, p) == ByteAt(was, f, p) && (ByteAt(s, f, p) == ByteAt(now, f, p) || ByteAt(s, f, p) == 0) {
      if p < LIMIT { LagView(was, now, f, p); LagView(s, now, f, p); }
    }
    forall g: nat, p: nat | g < |s.nodes| && g != f ensures ByteAt(s, g, p) == ByteAt(now, g, p) {
      if p < LIMIT { LagView(s, now, g, p); LagView(now, now, g, p); }
    }
  }

  function Min(a: nat, b: nat): nat { if a <= b then a else b }

  lemma WithinBlock(beg: nat, size: nat)
    requires size <= BLOCK_SIZE - beg % BLOCK_SIZE
    ensures beg % BLOCK_SIZE + size <= BLOCK_SIZE
  {
  }

  /** What holds of the disk after a quiet stretch in memory. */
  lemma QuietDisk(was: Fs, now: Fs, s: Fs, u: Fs, disk: seq<Inode>, f: nat)
    requires FsOk(now) && Lags(was, now) && f < |now.nodes| && s == now.(nodes := now.nodes[f := was.nodes[f]])
    requires FsOk(s) && Quiet(s, u, f) && disk == was.nodes && Tails(now) && was.nodes[f].size == now.nodes[f].size
    ensures Tails(u)
    ensures FsOk(u) && Lags(u.(nodes := disk), u) && |u.nodes| == |now.nodes|
    ensures FileBytes(u, f) == FileBytes(was, f)
    ensures forall g: nat :: g < |u.nodes| ==> FileBytes(u.(nodes := disk), g) == FileBytes(was, g)
    ensures forall g: nat :: g < |u.nodes| && g != f ==> FileBytes(u, g) == FileBytes(now, g)
    ensures forall g: nat :: g < |u.nodes| ==> u.nodes[g].size == s.nodes[g].size
  {
    Reloaded(was, now, s, f);
    var d := u.(nodes := disk);
    assert Lags(d, u);
    LagKeeps(d, u);
    forall g: nat | g < |u.nodes|
      ensures FileBytes(d, g) == FileBytes(was, g) && FileBytes(u, g) == FileBytes(s, g)
    {
      forall p: nat ensures ByteAt(d, g, p) == ByteAt(was, g, p) && ByteAt(u, g, p) == ByteAt(s, g, p) {
        if p < LIMIT { LagView(d, u, g, p); LagView(was, s, g, p); }
      }
    }
  }

  /** The bytes of one block, as file bytes. */
  lemma ChunkIs(s: Fs, u: Fs, f: nat, beg: nat, size: nat, c: seq<byte>)
    requires Quiet(s, u, f) && f < |s.nodes| && beg + size <= |c| && beg % BLOCK_SIZE + size <= BLOCK_SIZE && beg < LIMIT
    requires forall p: nat :: p < |c| ==> c[p] == ByteAt(s, f, p)
    requires Locate(u, f, beg / BLOCK_SIZE).Some? && Locate(u, f, beg / BLOCK_SIZE).value < N_DATA
    ensures |u.data| == N_DATA && |u.data[Locate(u, f, beg / BLOCK_SIZE).value]| == BLOCK_SIZE
    ensures u.data[Locate(u, f, beg / BLOCK_SIZE).value][beg % BLOCK_SIZE..beg % BLOCK_SIZE + size] == c[beg..beg + size]
  {
    var chunk := u.data[Locate(u, f, beg / BLOCK_SIZE).value][beg % BLOCK_SIZE..beg % BLOCK_SIZE + size];
    BlockOf(beg);
    forall i: nat | i < size ensures chunk[i] == c[beg + i] {
      SameBlock(beg + i, beg);
      BlockOf(beg + i);
      assert beg + i < LIMIT;
      assert ByteAt(u, f, beg + i) == ByteAt(s, f, beg + i);
    }
  }

  /** All blocks of a file that ends at `end` have a top index inside `addrs` exactly when it ends
      within 778 blocks. */
  lemma ReachedIff(end: nat)
    requires end <= MAX_FILE_SIZE
    ensures (forall p: nat :: p < end && p / BLOCK_SIZE >= 522 ==> TopIndex(p / BLOCK_SIZE) < 13) <==> end <= LIMIT
  {
    forall p: nat | p < end && p / BLOCK_SIZE >= 522 ensures TopIndex(p / BLOCK_SIZE) < 13 <==> p < LIMIT {
      BlockOf(p);
      TopIndexIn(p / BLOCK_SIZE);
    }
    if end > LIMIT { assert LIMIT / BLOCK_SIZE == REACHED && TopIndex(LIMIT / BLOCK_SIZE) >= 13; }
  }

  /** A run: a block is allocated and freed, and another one allocated. The freed block stays marked;
      the block after it, whether in use or not, is the one handed out. */
  method AllocFreeAlloc(files: Files) returns (first: nat, second: nat)
    requires |files.bits| == N_DATA && exists b :: 0 <= b < N_DATA - 1 && !files.bits[b]
    modifies files
    ensures DATA_START <= first < DATA_START + N_DATA - 1 && |files.bits| == N_DATA
    ensures !old(files.bits)[first - DATA_START] && files.bits[first - DATA_START]
    ensures second == first + 1
  {
    var r := files.BitmapAllocBlock();
    first := r.value;
    var left := files.BitmapFreeBlock(first, 1);
    assert !files.bits[first - DATA_START + 1] && forall c :: 0 <= c <= first - DATA_START ==> files.bits[c];
    assert !Full(files.bits);
    r := files.BitmapAllocBlock();
    second := r.value;
  }

  /** Writing and reading back: the bytes come back if and only if the write made the file longer, or
      the inode on the disk already led to every block written with anything but zeros. */
  method WriteThenRead(files: Files, f: nat, offset: nat, src: seq<byte>) returns (w: Outcome, r: Outcome, dst: seq<byte>)
    requires files.Valid() && f < |files.mem| && offset < U32 && |src| < U32
    modifies files
    ensures |files.mem| == |old(files.mem)| && (w.Stopped? || (files.Valid() && f < |files.disk|))
    ensures w.Count? && r.Count? && src != [] ==>
      (dst == src <==> Extends(old(files.mem)[f].size, offset, src) || forall k: nat :: k < |src| ==> src[k] == 0 || Rooted(old(files.disk)[f], offset + k))
    ensures w.Count? && src != [] ==> r != Failed
    ensures w.Count? && r.Count? && src != [] && old(files.Whole(f)) && offset <= old(files.mem)[f].size ==> dst == src && files.Whole(f)
  {
    hide FsOk, Lags, Tails, FileBytes, Clear, Overwrite, Rooted;
    LagSizes(files.OnDisk(), files.Now());
    w := files.WriteData(f, offset, src);
    r, dst := w, [];
    if w.Count? {
      LagSizes(files.OnDisk(), files.Now());
      ghost var saved := files.Saved(f);
      r, dst := files.ReadData(f, offset, |src|);
      LagSizes(files.OnDisk(), files.Now());
      assert r.Count? && src != [] ==> |dst| == |src| && forall k :: 0 <= k < |src| ==> dst[k] == saved[offset + k];
    }
  }

  /** A run that loses a write: a file gets its third block first; a byte then written into the hole
      before it is there in memory, and the next read finds 0. */
  method LostWrite() returns (files: Files, w: Outcome, r: Outcome, dst: seq<byte>)
    ensures fresh(files) && w == Count(1) && r == Count(1) && dst == [0]
  {
    hide FsOk, Lags, Tails, FileBytes, Clear, Overwrite;
    files := new Files(1);
    LagSizes(files.OnDisk(), files.Now());
    var one: seq<byte> := [1];
    ClearFull(files.bits);
    w := files.WriteData(0, 2048, one);
    ClearFull(files.bits);
    assert !Touches(0, 2048, 1);
    assert !Rooted(files.disk[0], 0);
    LagSizes(files.OnDisk(), files.Now());
    w := files.WriteData(0, 0, one);
    ClearFull(files.bits);
    LagSizes(files.OnDisk(), files.Now());
    r, dst := files.ReadData(0, 0, 1);
    ClearFull(files.bits);
  }
}
