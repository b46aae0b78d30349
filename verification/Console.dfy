/** The console's line discipline, kernel/dev/console.c: three 32-bit indices that only ever grow (but
    for backspace and a pushed-back end of file) over a ring of 64 characters. */
module Console {
  import opened Base

  const BUF: nat := 64
  const EOF: byte := 4           // CONTROL('D')
  const ERASE: byte := 8         // CONTROL('H')
  const DELETE: byte := 0x7F
  const NEWLINE: byte := 10
  const RETURN: byte := 13

  // ----- the discipline on unbounded positions

  /** Everything typed and not erased, how much of it is committed, and how much has been read. */
  datatype Line = Line(log: seq<byte>, read: nat, write: nat)

  ghost predicate LineOk(l: Line) {
    && l.read <= l.write <= |l.log| <= l.read + BUF
    && (|l.log| == l.read + BUF ==> l.write == |l.log|)
  }

  function Intr(l: Line, c: byte): Line {
    if c == ERASE || c == DELETE then
      if |l.log| > l.write then l.(log := l.log[..|l.log| - 1]) else l
    else if c == 0 || |l.log| >= l.read + BUF then l
    else
      var k := if c == RETURN then NEWLINE else c;
      var log := l.log + [k];
      Line(log, l.read, if k == NEWLINE || k == EOF || |log| == l.read + BUF then |log| else l.write)
  }

  /** One turn of console_read's loop; `partial` says the reader already has something. */
  function Take(l: Line, partial: bool): Line {
    if l.read >= l.write || l.write > |l.log| then l
    else if l.log[l.read] == EOF && partial then l
    else l.(read := l.read + 1)
  }

  /** What that turn hands out for good: a character, or an end of file that stays consumed. */
  function Taken(l: Line, partial: bool): seq<byte> {
    if Take(l, partial) == l || l.read >= |l.log| then [] else [l.log[l.read]]
  }

  datatype Event = Key(c: byte) | Turn(partial: bool)

  function After(l: Line, e: Event): Line {
    match e
    case Key(c) => Intr(l, c)
    case Turn(partial) => Take(l, partial)
  }

  function AfterAll(l: Line, es: seq<Event>): Line {
    if es == [] then l else After(AfterAll(l, es[..|es| - 1]), es[|es| - 1])
  }

  /** All that readers have been given in a run, in order. */
  function Delivered(l: Line, es: seq<Event>): seq<byte> {
    if es == [] then []
    else
      Delivered(l, es[..|es| - 1]) +
      match es[|es| - 1]
      case Key(_) => []
      case Turn(partial) => Taken(AfterAll(l, es[..|es| - 1]), partial)
  }

  /** The keys of a run, in order. */
  function Keys(es: seq<Event>): seq<byte> {
    if es == [] then []
    else Keys(es[..|es| - 1]) + match es[|es| - 1] case Key(c) => [c] case Turn(_) => []
  }

  /** No event changes a committed character. */
  lemma CommittedStays(l: Line, e: Event)
    requires LineOk(l)
    ensures LineOk(After(l, e)) && l.write <= After(l, e).write && After(l, e).log[..l.write] == l.log[..l.write]
  {
  }

  /** In any run of key strokes and readers' turns, the indices stay in order within 64, a full buffer
      is committed, what was committed stays, and the readers together get the committed characters
      once each, in order. */
  lemma {:induction false} RunInOrder(l: Line, es: seq<Event>)
    requires LineOk(l)
    ensures var m := AfterAll(l, es);
            && LineOk(m) && l.read <= m.read && l.write <= m.write && m.log[..l.write] == l.log[..l.write]
            && Delivered(l, es) == m.log[l.read..m.read]
  {
    if es == [] {
    } else {
      RunInOrder(l, es[..|es| - 1]);
      DeliverStep(l, AfterAll(l, es[..|es| - 1]), es[|es| - 1]);
    }
  }

  lemma DeliverStep(l0: Line, l: Line, e: Event)
    requires LineOk(l0) && LineOk(l) && l0.read <= l.read && l0.write <= l.write && l.log[..l0.write] == l0.log[..l0.write]
    ensures var m := After(l, e);
            && LineOk(m) && l0.read <= m.read && l0.write <= m.write && m.log[..l0.write] == l0.log[..l0.write]
            && m.log[l0.read..m.read] == l.log[l0.read..l.read] + match e { case Key(_) => [] case Turn(partial) => Taken(l, partial) }
  {
    CommittedStays(l, e);
    var m := After(l, e);
    assert m.log[..l0.write] == m.log[..l.write][..l0.write] && l.log[..l0.write] == l.log[..l.write][..l0.write];
    assert m.log[l0.read..l.read] == m.log[..l.write][l0.read..l.read];
    assert l.log[l0.read..l.read] == l.log[..l.write][l0.read..l.read];
  }

  /** What one key does: backspace and delete take back the last character not committed yet and nothing
      else; any other key but NUL is stored while fewer than 64 are waiting, a carriage return as a newline,
      and a newline, an end of file or the 64th waiting character commits all that has been typed. */
  lemma KeyEffect(l: Line, c: byte)
    requires LineOk(l)
    ensures var m := After(l, Key(c));
            && m.read == l.read
            && (c == 8 || c == 0x7F ==> m.write == l.write && (|l.log| == l.write ==> m.log == l.log))
            && (c == 8 || c == 0x7F ==> l.write < |l.log| ==> l.log == m.log + [l.log[|l.log| - 1]])
            && (c == 0 ==> m == l)
            && (c != 0 && c != 8 && c != 0x7F ==> (if |l.log| - l.read < 64 then m.log == l.log + [if c == 13 then 10 else c] else m == l))
            && (|m.log| > |l.log| ==>
                  m.write == if m.log[|l.log|] == 10 || m.log[|l.log|] == 4 || |m.log| - m.read == 64 then |m.log| else l.write)
  {
    if (c == 8 || c == 0x7F) && l.write < |l.log| { assert l.log == l.log[..|l.log| - 1] + [l.log[|l.log| - 1]]; }
  }

  /** What a typist means: characters one after the other, a backspace or delete taking back the last. */
  function Edited(keys: seq<byte>): seq<byte> {
    if keys == [] then []
    else
      var before, c := Edited(keys[..|keys| - 1]), keys[|keys| - 1];
      if c == 8 || c == 0x7F then (if before == [] then [] else before[..|before| - 1])
      else if c == 0 then before
      else before + [c]
  }

  /** No key of these commits a line by itself. */
  predicate Inside(keys: seq<byte>) { forall i :: 0 <= i < |keys| ==> keys[i] != 10 && keys[i] != 13 && keys[i] != 4 }

  function Typed(keys: seq<byte>): seq<Event> { seq(|keys|, i requires 0 <= i < |keys| => Key(keys[i])) }

  /** Typing on a console with nothing uncommitted, and with room for it, leaves what the typist means. */
  lemma {:induction false} TypingEdits(l: Line, keys: seq<byte>)
    requires LineOk(l) && l.write == |l.log| && Inside(keys)
    requires forall n :: 0 <= n <= |keys| ==> |l.log| - l.read + |Edited(keys[..n])| < 64
    ensures AfterAll(l, Typed(keys)) == Line(l.log + Edited(keys), l.read, l.write)
  {
    if keys == [] {
      assert l.log + Edited(keys) == l.log;
    } else {
      var n := |keys| - 1;
      var some := keys[..n];
      forall k | 0 <= k <= n ensures |l.log| - l.read + |Edited(some[..k])| < 64 { assert some[..k] == keys[..k]; }
      TypingEdits(l, some);
      assert Typed(keys)[..n] == Typed(some);
      var m := Line(l.log + Edited(some), l.read, l.write);
      assert some == keys[..n] && keys[..|keys|] == keys;
      KeyEffect(m, keys[n]);
      var t := After(m, Key(keys[n]));
      assert t.log == l.log + Edited(keys);
    }
  }

  /** ... and a return key then commits it as one line. */
  lemma {:induction false} ReturnCommits(l: Line, keys: seq<byte>)
    requires LineOk(l) && l.write == |l.log| && Inside(keys)
    requires forall n :: 0 <= n <= |keys| ==> |l.log| - l.read + |Edited(keys[..n])| < 64
    ensures After(AfterAll(l, Typed(keys)), Key(13)) ==
            Line(l.log + Edited(keys) + [10], l.read, |l.log| + |Edited(keys)| + 1)
  {
    TypingEdits(l, keys);
    assert keys[..|keys|] == keys;
    KeyEffect(AfterAll(l, Typed(keys)), 13);
  }

  // ----- the console as it is

  class Cons {
    const buf: array<byte>
    var readIdx: nat
    var writeIdx: nat
    var editIdx: nat
    ghost var line: Line

    /** The 32-bit indices and the ring show the line: 64 divides 2^32, so slots never jump. */
    ghost predicate Valid() reads this, buf {
      && buf.Length == BUF && LineOk(line)
      && readIdx == line.read % U32 && writeIdx == line.write % U32 && editIdx == |line.log| % U32
      && forall k :: line.read <= k < |line.log| ==> buf[k % BUF] == line.log[k]
    }

    constructor ()
      ensures Valid() && line == Line([], 0, 0) && fresh(buf)
    {
      buf := new byte[BUF];
      readIdx, writeIdx, editIdx := 0, 0, 0;
      line := Line([], 0, 0);
    }

    /** console_intr. */
    method ConsoleIntr(key: byte)
      requires Valid()
      modifies this, buf
      ensures Valid() && line == Intr(old(line), key)
    {
      var c := key;
      Near(|line.log|, line.write);
      Near(|line.log|, line.read);
      if c == ERASE || c == DELETE {
        if editIdx != writeIdx {
          Down(|line.log|);
          editIdx := (editIdx + U32 - 1) % U32;
          line := line.(log := line.log[..|line.log| - 1]);
        }
      } else if c != 0 && (editIdx + U32 - readIdx) % U32 < BUF {
        if c == RETURN { c := NEWLINE; }
        Push(c);
      }
    }

    /** Into the ring, and committed if the line is complete or the ring full. */
    method Push(c: byte)
      requires Valid() && |line.log| < line.read + BUF
      modifies this, buf
      ensures Valid()
      ensures var log := old(line).log + [c];
        line == Line(log, old(line).read, if c == NEWLINE || c == EOF || |log| == old(line).read + BUF then |log| else old(line).write)
    {
      Slot(|line.log|);
      SlotsApart(line.read, |line.log|);
      Up(|line.log|);
      Near(|line.log| + 1, line.read);
      buf[editIdx % BUF] := c;
      editIdx := (editIdx + 1) % U32;
      line := line.(log := line.log + [c]);
      if c == NEWLINE || c == EOF || editIdx == (readIdx + BUF) % U32 {
        writeIdx := editIdx;
        line := line.(write := |line.log|);
      }
    }

    /** One turn of console_read's loop once there is something to read: the character, and whether
        it was pushed back. */
    method TakeOne(partial: bool) returns (c: byte)
      requires Valid() && line.read < line.write
      modifies `readIdx, `line
      ensures Valid() && c == old(line).log[old(line).read] && line == Take(old(line), partial)
    {
      Slot(line.read);
      Up(line.read);
      Down(line.read + 1);
      c := buf[readIdx % BUF];
      readIdx := (readIdx + 1) % U32;
      if c == EOF {
        if partial { readIdx := (readIdx + U32 - 1) % U32; }
      }
      line := Take(line, partial);
    }

    /** The reader's sleep: keys arrive until something is committed, or there are no more. */
    method Await(keys: seq<byte>, from: nat, ghost l0: Line, ghost run: seq<Event>) returns (used: nat, ghost run': seq<Event>)
      requires Valid() && from <= |keys| && line == AfterAll(l0, run) && Keys(run) == keys[..from]
      modifies this, buf
      ensures Valid() && from <= used <= |keys| && (line.read == line.write ==> used == |keys|)
      ensures line == AfterAll(l0, run') && Keys(run') == keys[..used]
      ensures line.read == old(line).read && line.log[..old(line).read] == old(line).log[..old(line).read]
    {
      used, run' := from, run;
      Near(line.write, line.read);
      while readIdx == writeIdx && used < |keys|
        invariant Valid() && from <= used <= |keys| && (readIdx == writeIdx <==> line.read == line.write)
        invariant line == AfterAll(l0, run') && Keys(run') == keys[..used]
        invariant line.read == old(line).read && line.log[..line.read] == old(line).log[..line.read]
        decreases |keys| - used
      {
        ghost var before := line;
        ConsoleIntr(keys[used]);
        IntrKeeps(before, keys[used]);
        RunOn(l0, run', Key(keys[used]));
        run' := run' + [Key(keys[used])];
        Near(line.write, line.read);
        used := used + 1;
      }
    }

    /** One turn of console_read's outer loop: sleep if need be, then take a character; None when the
        keys run out first. */
    method NextChar(keys: seq<byte>, from: nat, partial: bool, ghost l0: Line, ghost run: seq<Event>)
      returns (r: Option<byte>, used: nat, ghost run': seq<Event>)
      requires Valid() && from <= |keys| && line == AfterAll(l0, run) && Keys(run) == keys[..from]
      modifies this, buf
      ensures Valid() && from <= used <= |keys|
      ensures line == AfterAll(l0, run') && Keys(run') == keys[..used]
      ensures var at := old(line).read;
        && at <= line.write && at <= |line.log| && line.log[..at] == old(line).log[..at]
        && (r == None ==> used == |keys| && line.read == at == line.write)
        && (r.Some? ==> at < line.write && r.value == line.log[at] && line.read == if r.value == EOF && partial then at else at + 1)
    {
      hide AfterAll, Keys, Intr;
      used, run' := Await(keys, from, l0, run);
      Near(line.write, line.read);
      if readIdx == writeIdx { return None, used, run'; }
      RunOn(l0, run', Turn(partial));
      var c := TakeOne(partial);
      run' := run' + [Turn(partial)];
      r := Some(c);
    }

    /** console_read by the only reader, with the keys that arrive while it sleeps; `done` is false
        when they run out first. It gets the next committed characters, up to a newline or an end of
        file, which is left for the next read unless it came first. `run` is what happened to the
        line meanwhile. */
    method ConsoleRead(len: nat, keys: seq<byte>) returns (dst: seq<byte>, used: nat, done: bool, ghost run: seq<Event>)
      requires Valid() && len < U32
      modifies this, buf
      ensures Valid() && used <= |keys| && |dst| <= len && (!done ==> used == |keys|)
      ensures !done ==> line.read == line.write
      ensures line == AfterAll(old(line), run) && Keys(run) == keys[..used]
      ensures Handed(line, old(line).read, dst)
      ensures done && line.read == old(line).read + |dst| ==>
        |dst| == len || (dst != [] && (dst[|dst| - 1] == NEWLINE || NextIsEof(line)))
      ensures line.read != old(line).read + |dst| ==>
        done && dst == [] && line.read == old(line).read + 1 && line.log[old(line).read] == EOF
    {
      dst, used, done, run := [], 0, true, [];
      assert line == AfterAll(line, []) && Keys([]) == [] && Handed(line, line.read, []);
      hide AfterAll, Keys, Intr, Handed;
      ghost var l0, r := line, line.read;
      while |dst| < len
        invariant Valid() && used <= |keys| && |dst| <= len && line.read == r + |dst|
        invariant line == AfterAll(l0, run) && Keys(run) == keys[..used]
        invariant Handed(line, r, dst) && NEWLINE !in dst
        decreases len - |dst|
      {
        ghost var l := line;
        var c;
        c, used, run := NextChar(keys, used, dst != [], l0, run);
        StillHanded(l, line, r, dst);
        if c == None { return dst, used, false, run; }
        if c.value == EOF { return; }
        HandedOne(line, r, dst, c.value);
        dst := dst + [c.value];
        if c.value == NEWLINE { return; }
      }
    }
  }

  /** Committed characters, neither end of file nor newline, and then an end of file. */
  ghost predicate TextThenEof(l: Line, n: nat) {
    && l.read + n < l.write <= |l.log| && l.log[l.read + n] == EOF
    && forall i :: l.read <= i < l.read + n ==> l.log[i] != EOF && l.log[i] != NEWLINE
  }

  /** Without keys only readers move. */
  lemma {:induction false} OnlyTurns(l: Line, es: seq<Event>)
    requires Keys(es) == []
    ensures AfterAll(l, es).log == l.log && AfterAll(l, es).write == l.write
  {
    if es != [] { OnlyTurns(l, es[..|es| - 1]); }
  }

  /** Two reads in a row: the first gets the text before an end of file and leaves the end of file, the
      second gets nothing and consumes it. */
  method ReadPastEof(cons: Cons, n: nat, len1: nat, len2: nat) returns (first: seq<byte>, second: seq<byte>)
    requires cons.Valid() && 0 < n < len1 < U32 && 0 < len2 < U32 && TextThenEof(cons.line, n)
    modifies cons, cons.buf
    ensures cons.Valid() && first == old(cons.line.log[cons.line.read..cons.line.read + n]) && second == []
    ensures cons.line == old(cons.line).(read := old(cons.line).read + n + 1)
  {
    ghost var l := cons.line;
    var used, done;
    ghost var run;
    first, used, done, run := cons.ConsoleRead(len1, []);
    OnlyTurns(l, run);
    FirstPart(l, cons.line, first, n);
    ghost var mid := cons.line;
    second, used, done, run := cons.ConsoleRead(len2, []);
    OnlyTurns(mid, run);
    HandedAt(cons.line, mid.read, second);
  }

  /** Text handed out before an end of file stops short of it, and has no newline. */
  lemma FirstPart(l: Line, m: Line, dst: seq<byte>, n: nat)
    requires TextThenEof(l, n) && m.log == l.log && Handed(m, l.read, dst)
    ensures |dst| <= n && NEWLINE !in dst
    ensures m.log[l.read + |dst|] == EOF ==> |dst| == n
    ensures forall i :: 0 <= i < |dst| ==> dst[i] == l.log[l.read + i]
  {
    HandedAt(m, l.read, dst);
  }

  lemma HandedAt(l: Line, r: nat, dst: seq<byte>)
    requires Handed(l, r, dst)
    ensures forall i :: 0 <= i < |dst| ==> dst[i] == l.log[r + i] != EOF
  {
    forall i | 0 <= i < |dst| ensures dst[i] == l.log[r + i] != EOF {
      assert dst[i] == l.log[r..r + |dst|][i] && dst[i] in dst;
    }
  }

  lemma {:induction false} RunOn(l: Line, es: seq<Event>, e: Event)
    ensures AfterAll(l, es + [e]) == After(AfterAll(l, es), e)
    ensures Keys(es + [e]) == Keys(es) + match e { case Key(c) => [c] case Turn(_) => [] }
  {
    assert (es + [e])[..|es|] == es;
  }

  /** `dst` is what the line had from position r on, with no end of file, and no newline but last. */
  ghost predicate Handed(l: Line, r: nat, dst: seq<byte>) {
    && r + |dst| <= l.read <= |l.log| && l.log[r..r + |dst|] == dst && EOF !in dst
    && forall i :: 0 <= i < |dst| - 1 ==> dst[i] != NEWLINE
  }

  predicate NextIsEof(l: Line) { l.read < l.write <= |l.log| && l.log[l.read] == EOF }

  lemma StillHanded(l: Line, m: Line, r: nat, dst: seq<byte>)
    requires Handed(l, r, dst) && l.read == r + |dst| <= m.read <= |m.log| && m.log[..l.read] == l.log[..l.read]
    ensures Handed(m, r, dst)
  {
    assert m.log[r..r + |dst|] == m.log[..l.read][r..];
    assert l.log[r..r + |dst|] == l.log[..l.read][r..];
  }

  lemma HandedOne(l: Line, r: nat, dst: seq<byte>, c: byte)
    requires r + |dst| + 1 == l.read <= |l.log| && l.log[l.read - 1] == c && c != EOF
    requires l.log[r..r + |dst|] == dst && EOF !in dst && NEWLINE !in dst
    ensures Handed(l, r, dst + [c])
  {
  }

  lemma IntrKeeps(l: Line, c: byte)
    requires LineOk(l)
    ensures LineOk(Intr(l, c)) && Intr(l, c).read == l.read && Intr(l, c).log[..l.read] == l.log[..l.read]
  {
    CommittedStays(l, Key(c));
    var m := Intr(l, c);
    assert m.log[..l.read] == m.log[..l.write][..l.read];
    assert l.log[..l.read] == l.log[..l.write][..l.read];
  }

  lemma Near(a: nat, b: nat)
    requires b <= a <= b + BUF
    ensures a % U32 == b % U32 <==> a == b
    ensures (a % U32 + U32 - b % U32) % U32 == a - b
    ensures a % U32 == (b % U32 + BUF) % U32 <==> a == b + BUF
  {
  }

  lemma Up(a: nat)
    ensures (a % U32 + 1) % U32 == (a + 1) % U32
  {
  }

  lemma Down(a: nat)
    requires a > 0
    ensures (a % U32 + U32 - 1) % U32 == (a - 1) % U32
  {
  }

  lemma Slot(a: nat)
    ensures a % U32 % BUF == a % BUF
  {
    var q := a / U32 * 0x400_0000;
    assert a == q * BUF + a % U32;
    SlotPlus(q, a % U32);
  }

  lemma SlotPlus(q: nat, r: nat)
    ensures (q * BUF + r) % BUF == r % BUF
  {
  }

  /** Within 64 positions no two share a slot. */
  lemma SlotsApart(from: nat, e: nat)
    requires from <= e < from + BUF
    ensures forall k :: from <= k < e ==> k % BUF != e % BUF
  {
  }
}
