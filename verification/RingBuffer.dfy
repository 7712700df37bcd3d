/** The ring buffer of ser2net: a bounded first-in first-out queue of bytes in an array. */
module RingBuffer {
  type byte = x: int | 0 <= x < 256

  // ----- Rings as values -----

  datatype Ring = Ring(a: seq<byte>, cur: nat, pos: nat)

  /** The position may be one past the array, which stands for its start. */
  predicate Fits(r: Ring) {
    r.cur <= |r.a| && r.pos <= |r.a|
  }

  function Contents(r: Ring): seq<byte>
    requires Fits(r)
  {
    if r.pos + r.cur <= |r.a| then r.a[r.pos..r.pos + r.cur]
    else r.a[r.pos..] + r.a[..r.pos + r.cur - |r.a|]
  }

  function Left(r: Ring): nat
    requires Fits(r)
  {
    |r.a| - r.cur
  }

  function Overwritten(a: seq<byte>, at: nat, data: seq<byte>): seq<byte>
    requires at + |data| <= |a|
  {
    a[..at] + data + a[at + |data|..]
  }

  /** Where buffer_output goes on. */
  function OutputEnd(r: Ring): nat
    requires Fits(r)
  {
    if r.pos + r.cur > |r.a| then r.pos + r.cur - |r.a| else r.pos + r.cur
  }

  /** Data stored from `end` on, and past the end of the array from its start on. */
  function Stored(a: seq<byte>, end: nat, data: seq<byte>): seq<byte>
    requires end <= |a| && |data| <= |a|
  {
    if end + |data| > |a| then Overwritten(Overwritten(a, end, data[..|a| - end]), 0, data[|a| - end..])
    else Overwritten(a, end, data)
  }

  function Output(r: Ring, data: seq<byte>): Ring
    requires Fits(r) && |data| <= Left(r)
  {
    r.(a := Stored(r.a, OutputEnd(r), data), cur := r.cur + |data|)
  }

  lemma OutputAtEnd(r: Ring, data: seq<byte>)
    requires Fits(r) && |data| <= Left(r) && OutputEnd(r) + |data| <= |r.a|
    ensures Fits(Output(r, data)) && Contents(Output(r, data)) == Contents(r) + data
  {
  }

  lemma OverwrittenRound(a: seq<byte>, end: nat, one: seq<byte>, two: seq<byte>)
    requires end + |one| == |a| && |two| <= end
    ensures Overwritten(Overwritten(a, end, one), 0, two) == two + a[|two|..end] + one
  {
  }

  lemma RoundContents(a: seq<byte>, pos: nat, end: nat, one: seq<byte>, two: seq<byte>)
    requires |two| <= pos <= end && end + |one| == |a|
    ensures var a' := two + a[|two|..end] + one;
            a'[pos..] + a'[..|two|] == a[pos..end] + (one + two)
  {
    var a' := two + a[|two|..end] + one;
    assert a'[pos..] == a[pos..end] + one;
    assert a'[..|two|] == two;
  }

  lemma OutputWraps(r: Ring, data: seq<byte>)
    requires Fits(r) && |data| <= Left(r) && OutputEnd(r) + |data| > |r.a|
    ensures Fits(Output(r, data)) && Contents(Output(r, data)) == Contents(r) + data
  {
    var end := r.pos + r.cur;
    var one, two := data[..|r.a| - end], data[|r.a| - end..];
    OverwrittenRound(r.a, end, one, two);
    RoundContents(r.a, r.pos, end, one, two);
    assert data == one + two;
  }

  /** What goes in is added at the end. */
  lemma OutputAppends(r: Ring, data: seq<byte>)
    requires Fits(r) && |data| <= Left(r)
    ensures Fits(Output(r, data)) && Contents(Output(r, data)) == Contents(r) + data
  {
    if OutputEnd(r) + |data| > |r.a| {
      OutputWraps(r, data);
    } else {
      OutputAtEnd(r, data);
    }
  }

  function Outchar(r: Ring, b: byte): Ring
    requires Fits(r) && Left(r) > 0
  {
    var end := if r.pos + r.cur >= |r.a| then r.pos + r.cur - |r.a| else r.pos + r.cur;
    r.(a := r.a[end := b], cur := r.cur + 1)
  }

  lemma OutcharAppends(r: Ring, b: byte)
    requires Fits(r) && Left(r) > 0
    ensures Fits(Outchar(r, b)) && Contents(Outchar(r, b)) == Contents(r) + [b]
  {
  }

  // ----- Writing to the device -----

  /** What the device makes of a write: it takes some bytes, asks to be called again (EINTR and
      EAGAIN), or fails. */
  datatype Reply = Took(count: nat) | Again | Failed(errno: int)

  function First(r: Ring): nat
    requires Fits(r)
  {
    if r.pos + r.cur > |r.a| then |r.a| - r.pos else r.cur
  }

  function Second(r: Ring): nat
    requires Fits(r)
  {
    r.cur - First(r)
  }

  /** The device takes no more than it is given. */
  predicate Honest(reply: Reply, asked: nat) {
    reply.Took? ==> reply.count <= asked
  }

  function Taken(reply: Reply): nat {
    if reply.Took? then reply.count else 0
  }

  /** The first write, if there is anything before the end of the array. */
  predicate FirstFails(r: Ring, first: Reply)
    requires Fits(r)
  {
    First(r) > 0 && !first.Took?
  }

  function AfterFirst(r: Ring, first: Reply): Ring
    requires Fits(r) && Honest(first, First(r))
  {
    if First(r) > 0 then r.(pos := r.pos + Taken(first), cur := r.cur - Taken(first)) else r
  }

  function AfterSecond(r: Ring, second: Reply): Ring
    requires Fits(r) && Honest(second, r.cur)
  {
    r.(pos := Taken(second), cur := r.cur - Taken(second))
  }

  /** The ring after lbuffer_write. */
  function Written(r: Ring, first: Reply, second: Reply): (w: Ring)
    requires Fits(r) && Honest(first, First(r)) && Honest(second, Second(r))
    ensures Fits(w)
  {
    if FirstFails(r, first) || Second(r) == 0 then AfterFirst(r, first)
    else AfterSecond(AfterFirst(r, first), second)
  }

  /** The bytes that reach the device. */
  function Sent(r: Ring, first: Reply, second: Reply): seq<byte>
    requires Fits(r) && Honest(first, First(r)) && Honest(second, Second(r))
  {
    var one := if First(r) > 0 then r.a[r.pos..r.pos + Taken(first)] else [];
    if FirstFails(r, first) || Second(r) == 0 then one else one + r.a[..Taken(second)]
  }

  /** The first of two writes takes only a part, and the second one is made all the same. */
  predicate Short(r: Ring, first: Reply)
    requires Fits(r)
  {
    Second(r) > 0 && First(r) > 0 && first.Took? && first.count < First(r)
  }

  lemma WrittenOnce(r: Ring, first: Reply, second: Reply)
    requires Fits(r) && Honest(first, First(r)) && Honest(second, Second(r))
    requires FirstFails(r, first) || Second(r) == 0
    ensures Fits(Written(r, first, second))
    ensures Contents(r) == Sent(r, first, second) + Contents(Written(r, first, second))
  {
  }

  lemma Regroup(x: seq<byte>, a: seq<byte>, n: nat, m: nat)
    requires n <= m <= |a|
    ensures x + a[..m] == (x + a[..n]) + a[n..m]
  {
    assert a[..m] == a[..n] + a[n..m];
  }

  lemma SentTwice(r: Ring, first: Reply, second: Reply)
    requires Fits(r) && Honest(first, First(r)) && Honest(second, Second(r))
    requires !FirstFails(r, first) && Second(r) > 0 && !Short(r, first)
    ensures Sent(r, first, second) == r.a[r.pos..] + r.a[..Taken(second)]
  {
    assert r.pos == |r.a| ==> r.a[r.pos..] == [];
  }

  lemma LeftTwice(r: Ring, first: Reply, second: Reply)
    requires Fits(r) && Honest(first, First(r)) && Honest(second, Second(r))
    requires !FirstFails(r, first) && Second(r) > 0 && !Short(r, first)
    ensures Fits(Written(r, first, second))
    ensures Contents(Written(r, first, second)) == r.a[Taken(second)..Second(r)]
  {
  }

  lemma WrittenTwice(r: Ring, first: Reply, second: Reply)
    requires Fits(r) && Honest(first, First(r)) && Honest(second, Second(r))
    requires !FirstFails(r, first) && Second(r) > 0 && !Short(r, first)
    ensures Fits(Written(r, first, second))
    ensures Contents(r) == Sent(r, first, second) + Contents(Written(r, first, second))
  {
    SentTwice(r, first, second);
    LeftTwice(r, first, second);
    Regroup(r.a[r.pos..], r.a, Taken(second), Second(r));
  }

  /** What the device gets comes from the front, and the rest stays, unless the first of two
      writes was short. */
  lemma WriteIsFifo(r: Ring, first: Reply, second: Reply)
    requires Fits(r) && Honest(first, First(r)) && Honest(second, Second(r)) && !Short(r, first)
    ensures Fits(Written(r, first, second))
    ensures Contents(r) == Sent(r, first, second) + Contents(Written(r, first, second))
  {
    if FirstFails(r, first) || Second(r) == 0 {
      WrittenOnce(r, first, second);
    } else {
      WrittenTwice(r, first, second);
    }
  }

  /** After a short first write the byte it stopped at is passed over: the byte at the start of
      the array takes its place. */
  lemma ShortWriteSkips(r: Ring, first: Reply, second: Reply)
    requires Fits(r) && Honest(first, First(r)) && Honest(second, Second(r)) && Short(r, first)
    ensures Fits(Written(r, first, second)) && first.count < |Contents(r)|
    ensures var after := Sent(r, first, second) + Contents(Written(r, first, second));
            |after| == |Contents(r)| && Contents(r)[first.count] == r.a[r.pos + first.count]
                && after[first.count] == r.a[0]
  {
  }

  /** So for a ring of any shape, a short first write breaks the order for some contents. */
  lemma ShortWriteLoses(r: Ring, first: Reply, second: Reply)
    requires Fits(r) && Honest(first, First(r)) && Honest(second, Second(r)) && Short(r, first)
    ensures var other: byte := if r.a[0] == 0 then 1 else 0;
            var r' := r.(a := r.a[r.pos + first.count := other]);
            Fits(Written(r', first, second))
                && Contents(r') != Sent(r', first, second) + Contents(Written(r', first, second))
  {
    var other: byte := if r.a[0] == 0 then 1 else 0;
    ShortWriteSkips(r.(a := r.a[r.pos + first.count := other]), first, second);
  }

  /** What is sent, followed by what is left, is what there was. */
  ghost predicate Fifo(r: Ring, first: Reply, second: Reply)
    requires Fits(r) && Honest(first, First(r)) && Honest(second, Second(r))
  {
    Contents(r) == Sent(r, first, second) + Contents(Written(r, first, second))
  }

  /** The bytes from the one a short write stopped at are those at the start of the array. */
  predicate Matches(r: Ring, count: nat)
    requires Fits(r) && count <= First(r)
  {
    Untaken(r, count) == AtStart(r, count)
  }

  function Untaken(r: Ring, count: nat): seq<byte>
    requires Fits(r) && count <= First(r)
  {
    r.a[r.pos + count..] + r.a[..Second(r)]
  }

  function AtStart(r: Ring, count: nat): seq<byte>
    requires Fits(r) && count <= First(r)
  {
    r.a[..r.cur - count]
  }

  lemma ShortWriteIs(r: Ring, first: Reply, second: Reply)
    requires Fits(r) && Honest(first, First(r)) && Honest(second, Second(r)) && Short(r, first)
    ensures Sent(r, first, second) + Contents(Written(r, first, second))
            == r.a[r.pos..r.pos + first.count] + AtStart(r, first.count)
  {
    Regroup(r.a[r.pos..r.pos + first.count], r.a, Taken(second), r.cur - first.count);
  }

  lemma ShortContentsAre(r: Ring, first: Reply)
    requires Fits(r) && Honest(first, First(r)) && Short(r, first)
    ensures Contents(r) == r.a[r.pos..r.pos + first.count] + Untaken(r, first.count)
  {
    assert r.a[r.pos..] == r.a[r.pos..r.pos + first.count] + r.a[r.pos + first.count..];
  }

  /** Two byte strings that begin with the same part are equal if and only if the rests are. */
  lemma SamePrefix(x: seq<byte>, y: seq<byte>, z: seq<byte>, xy: seq<byte>, xz: seq<byte>)
    requires xy == x + y && xz == x + z
    ensures xy == xz <==> y == z
  {
    assert y == xy[|x|..] && z == xz[|x|..];
  }

  lemma ShortWriteIsFifo(r: Ring, first: Reply, second: Reply, y: seq<byte>, z: seq<byte>)
    requires Fits(r) && Honest(first, First(r)) && Honest(second, Second(r)) && Short(r, first)
    requires y == Untaken(r, first.count) && z == AtStart(r, first.count)
    ensures Fifo(r, first, second) <==> y == z
  {
    ShortWriteIs(r, first, second);
    ShortContentsAre(r, first);
    SamePrefix(r.a[r.pos..r.pos + first.count], y, z, Contents(r),
               Sent(r, first, second) + Contents(Written(r, first, second)));
  }

  lemma PlainWriteIsFifo(r: Ring, first: Reply, second: Reply)
    requires Fits(r) && Honest(first, First(r)) && Honest(second, Second(r)) && !Short(r, first)
    ensures Fifo(r, first, second)
  {
    WriteIsFifo(r, first, second);
  }

  /** For every ring and all replies: the order is kept if and only if the first of two writes
      is not short, or the bytes it did not take match those at the start of the array. */
  lemma WriteIsFifoExactly(r: Ring, first: Reply, second: Reply)
    requires Fits(r) && Honest(first, First(r)) && Honest(second, Second(r))
    ensures Fifo(r, first, second) <==> !Short(r, first) || Matches(r, first.count)
  {
    if Short(r, first) {
      ShortWriteIsFifo(r, first, second, Untaken(r, first.count), AtStart(r, first.count));
    } else {
      PlainWriteIsFifo(r, first, second);
    }
  }

  /** For one shape of the ring and one pair of replies: the order is kept whatever the bytes
      are if and only if the first of two writes is not short. */
  lemma WriteIsFifoUniformly(r: Ring, first: Reply, second: Reply)
    requires Fits(r) && Honest(first, First(r)) && Honest(second, Second(r))
    ensures (forall a: seq<byte> :: |a| == |r.a| ==> Fifo(r.(a := a), first, second)) <==> !Short(r, first)
  {
    if Short(r, first) {
      var other: byte := if r.a[0] == 0 then 1 else 0;
      ShortWriteLoses(r, first, second);
      assert !Fifo(r.(a := r.a[r.pos + first.count := other]), first, second);
    } else {
      forall a: seq<byte> | |a| == |r.a| ensures Fifo(r.(a := a), first, second) {
        WriteIsFifo(r.(a := a), first, second);
      }
    }
  }

  // ----- Runs -----

  datatype Op = Put(data: seq<byte>) | PutChar(b: byte) | Drain(first: Reply, second: Reply)

  /** The ring, the bytes accepted and the bytes sent so far. */
  datatype Run = Run(ring: Ring, accepted: seq<byte>, sent: seq<byte>)

  predicate CanDo(r: Ring, op: Op)
    requires Fits(r)
  {
    op.Drain? ==> Honest(op.first, First(r)) && Honest(op.second, Second(r))
  }

  /** The operation is not a write that breaks the order. */
  predicate Keeps(r: Ring, op: Op)
    requires Fits(r) && CanDo(r, op)
  {
    op.Drain? ==> !Short(r, op.first) || Matches(r, op.first.count)
  }

  function Do(s: Run, op: Op): Run
    requires Fits(s.ring) && CanDo(s.ring, op)
  {
    match op
    case Put(data) =>
      if |data| > Left(s.ring) then s else Run(Output(s.ring, data), s.accepted + data, s.sent)
    case PutChar(b) =>
      if Left(s.ring) == 0 then s else Run(Outchar(s.ring, b), s.accepted + [b], s.sent)
    case Drain(first, second) =>
      Run(Written(s.ring, first, second), s.accepted, s.sent + Sent(s.ring, first, second))
  }

  ghost predicate InOrder(s: Run) {
    Fits(s.ring) && s.accepted == s.sent + Contents(s.ring)
  }

  lemma Associates(x: seq<byte>, y: seq<byte>, z: seq<byte>)
    ensures x + (y + z) == (x + y) + z
  {
  }

  lemma DoFits(s: Run, op: Op)
    requires Fits(s.ring) && CanDo(s.ring, op)
    ensures Fits(Do(s, op).ring) && |Do(s, op).ring.a| == |s.ring.a|
  {
    match op
    case Put(data) =>
      if |data| <= Left(s.ring) {
        OutputAppends(s.ring, data);
      }
    case PutChar(b) =>
    case Drain(first, second) =>
  }

  /** An operation keeps the bytes in order if and only if it is not a write that breaks it. */
  lemma DoKeepsOrder(s: Run, op: Op)
    requires InOrder(s) && CanDo(s.ring, op)
    ensures InOrder(Do(s, op)) <==> Keeps(s.ring, op)
  {
    match op
    case Put(data) =>
      if |data| <= Left(s.ring) {
        OutputAppends(s.ring, data);
        Associates(s.sent, Contents(s.ring), data);
      }
    case PutChar(b) =>
      if Left(s.ring) > 0 {
        OutcharAppends(s.ring, b);
        Associates(s.sent, Contents(s.ring), [b]);
      }
    case Drain(first, second) =>
      DrainKeepsOrder(s, first, second);
  }

  lemma DrainKeepsOrder(s: Run, first: Reply, second: Reply)
    requires InOrder(s) && CanDo(s.ring, Drain(first, second))
    ensures InOrder(Do(s, Drain(first, second))) <==> Keeps(s.ring, Drain(first, second))
  {
    WriteIsFifoExactly(s.ring, first, second);
    var sent, left := Sent(s.ring, first, second), Contents(Written(s.ring, first, second));
    Associates(s.sent, sent, left);
    SamePrefix(s.sent, Contents(s.ring), sent + left, s.accepted, s.sent + (sent + left));
  }

  ghost predicate CanDoAll(s: Run, ops: seq<Op>)
    requires Fits(s.ring)
    decreases |ops|
  {
    ops == [] || (CanDo(s.ring, ops[0]) && (DoFits(s, ops[0]); CanDoAll(Do(s, ops[0]), ops[1..])))
  }

  ghost function DoAll(s: Run, ops: seq<Op>): Run
    requires Fits(s.ring) && CanDoAll(s, ops)
    decreases |ops|
  {
    if ops == [] then s
    else
      DoFits(s, ops[0]);
      DoAll(Do(s, ops[0]), ops[1..])
  }

  /** No write of the run breaks the order. */
  ghost predicate KeepsAll(s: Run, ops: seq<Op>)
    requires Fits(s.ring) && CanDoAll(s, ops)
    decreases |ops|
  {
    ops == [] || (Keeps(s.ring, ops[0]) && (DoFits(s, ops[0]); KeepsAll(Do(s, ops[0]), ops[1..])))
  }

  /** Through any sequence of operations the bytes accepted are those sent followed by those
      still in the ring, as long as no write breaks the order. */
  lemma {:induction false} RunKeepsOrder(s: Run, ops: seq<Op>)
    requires InOrder(s) && CanDoAll(s, ops) && KeepsAll(s, ops)
    ensures InOrder(DoAll(s, ops))
    decreases |ops|
  {
    if ops != [] {
      DoFits(s, ops[0]);
      DoKeepsOrder(s, ops[0]);
      RunKeepsOrder(Do(s, ops[0]), ops[1..]);
    }
  }

  ghost predicate InOrderThroughout(s: Run, ops: seq<Op>)
    requires Fits(s.ring) && CanDoAll(s, ops)
    decreases |ops|
  {
    InOrder(s) && (ops == [] || (DoFits(s, ops[0]); InOrderThroughout(Do(s, ops[0]), ops[1..])))
  }

  /** Over every run: the bytes are in order at every point if and only if no write breaks the
      order. */
  lemma {:induction false} RunKeepsOrderExactly(s: Run, ops: seq<Op>)
    requires InOrder(s) && CanDoAll(s, ops)
    ensures InOrderThroughout(s, ops) <==> KeepsAll(s, ops)
    decreases |ops|
  {
    if ops != [] {
      DoFits(s, ops[0]);
      DoKeepsOrder(s, ops[0]);
      if Keeps(s.ring, ops[0]) {
        RunKeepsOrderExactly(Do(s, ops[0]), ops[1..]);
      }
    }
  }

  // ----- The buffer in memory -----

  class Buffer {
    const buf: array<byte>
    var cursize: nat
    var pos: nat

    function Value(): Ring
      reads this, buf
    {
      Ring(buf[..], cursize, pos)
    }

    ghost predicate Valid()
      reads this, buf
    {
      Fits(Value())
    }

    /** buffer_init */
    constructor (size: nat)
      ensures Valid() && fresh(buf) && buf.Length == size && Contents(Value()) == []
    {
      buf := new byte[size](_ => 0);
      cursize, pos := 0, 0;
    }

    /** memcpy into the array */
    method Copy(at: nat, data: seq<byte>)
      requires at + |data| <= buf.Length
      modifies buf
      ensures buf[..] == Overwritten(old(buf[..]), at, data)
    {
      for i := 0 to |data|
        invariant forall k :: 0 <= k < buf.Length ==> buf[k] == if at <= k < at + i then data[k - at] else old(buf[k])
      {
        buf[at + i] := data[i];
      }
    }

    method Store(end: nat, data: seq<byte>)
      requires end <= buf.Length && |data| <= buf.Length
      modifies buf
      ensures buf[..] == Stored(old(buf[..]), end, data)
    {
      var at, rest := end, data;
      if end + |data| > buf.Length {
        var availend := buf.Length - end;
        Copy(end, data[..availend]);
        at, rest := 0, data[availend..];
      }
      Copy(at, rest);
    }

    /** buffer_output */
    method PutBytes(data: seq<byte>) returns (ok: bool)
      requires Valid()
      modifies this`cursize, buf
      ensures Valid() && ok == (|data| <= old(Left(Value())))
      ensures Value() == if ok then Output(old(Value()), data) else old(Value())
      ensures Contents(Value()) == if ok then old(Contents(Value())) + data else old(Contents(Value()))
    {
      if buf.Length - cursize < |data| {
        return false;
      }
      ghost var r := Value();
      var end := pos + cursize;
      if end > buf.Length {
        end := end - buf.Length;
      }
      Store(end, data);
      cursize := cursize + |data|;
      assert Value() == Output(r, data);
      OutputAppends(r, data);
      return true;
    }

    /** buffer_outchar */
    method PutByte(b: byte) returns (ok: bool)
      requires Valid()
      modifies this`cursize, buf
      ensures Valid() && ok == (old(Left(Value())) > 0)
      ensures Value() == if ok then Outchar(old(Value()), b) else old(Value())
      ensures Contents(Value()) == if ok then old(Contents(Value())) + [b] else old(Contents(Value()))
    {
      if buf.Length - cursize < 1 {
        return false;
      }
      OutcharAppends(Value(), b);
      var end := pos + cursize;
      if end >= buf.Length {
        end := end - buf.Length;
      }
      buf[end] := b;
      cursize := cursize + 1;
      return true;
    }

    /** The first write of lbuffer_write. */
    method FlushFirst(first: Reply, towrite1: nat) returns (stop: bool, rv: int, sent: seq<byte>, errno: int)
      requires Valid() && towrite1 == First(Value()) && Honest(first, towrite1)
      modifies this`cursize, this`pos
      ensures Value() == AfterFirst(old(Value()), first)
      ensures sent == if towrite1 > 0 then buf[old(pos)..old(pos) + Taken(first)] else []
      ensures errno == if towrite1 > 0 && first.Failed? then first.errno else 0
      ensures stop == FirstFails(old(Value()), first) && rv == if stop && first.Failed? then -1 else 0
    {
      stop, rv, sent, errno := false, 0, [], 0;
      if towrite1 > 0 {
        match first
        case Took(count) =>
          sent := buf[pos..pos + count];
          pos := pos + count;
          cursize := cursize - count;
        case Again =>
          stop := true;
        case Failed(e) =>
          stop, rv, errno := true, -1, e;
      }
    }

    /** The second write of lbuffer_write, from the start of the array. */
    method FlushSecond(second: Reply) returns (rv: int, sent: seq<byte>, errno: int)
      requires Valid() && Honest(second, cursize)
      modifies this`cursize, this`pos
      ensures Value() == AfterSecond(old(Value()), second)
      ensures sent == buf[..Taken(second)] && rv == if second.Failed? then -1 else 0
      ensures errno == if second.Failed? then second.errno else 0
    {
      rv, sent, errno := 0, [], 0;
      pos := 0;
      match second
      case Took(count) =>
        sent := buf[..count];
        pos := pos + count;
        cursize := cursize - count;
      case Again =>
      case Failed(e) =>
        rv, errno := -1, e;
    }

    /** lbuffer_write, with the replies of the device to its two writes. */
    method Flush(first: Reply, second: Reply) returns (rv: int, sent: seq<byte>, errno: int)
      requires Valid() && Honest(first, First(Value())) && Honest(second, Second(Value()))
      modifies this`cursize, this`pos
      ensures Value() == Written(old(Value()), first, second) && sent == Sent(old(Value()), first, second)
      ensures rv == if old(First(Value())) > 0 && first.Failed? then -1
                    else if old(Second(Value())) > 0 && !old(FirstFails(Value(), first)) && second.Failed? then -1
                    else 0
      ensures errno == if old(First(Value())) > 0 && first.Failed? then first.errno
                       else if rv == -1 && second.Failed? then second.errno
                       else 0
    {
      var towrite1, towrite2 := cursize, 0;
      if pos + cursize > buf.Length {
        towrite1 := buf.Length - pos;
        towrite2 := cursize - towrite1;
      }
      var stop;
      stop, rv, sent, errno := FlushFirst(first, towrite1);
      if !stop && towrite2 > 0 {
        var more;
        rv, more, errno := FlushSecond(second);
        sent := sent + more;
      }
    }
  }
}
