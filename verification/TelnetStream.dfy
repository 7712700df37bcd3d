/** The telnet stream in memory: parsing in place, sending frames, doubling in place. */
module TelnetStream {
  import opened RingBuffer
  import opened Telnet

  // ----- Lengths -----

  lemma AllIacs(s: seq<byte>)
    requires s != []
    ensures s == Iacs(|s|) <==> Front(s) == Iacs(|s| - 1) && s[|s| - 1] == IAC
  {
    FrontAndLast(s);
    IacsMore(|s| - 1);
    assert Front(Iacs(|s|)) == Iacs(|s| - 1);
  }

  lemma SomeIac(s: seq<byte>)
    requires s != []
    ensures IAC in s <==> IAC in Front(s) || s[|s| - 1] == IAC
  {
    FrontAndLast(s);
  }

  lemma {:induction false} DoubledLength(s: seq<byte>)
    ensures |s| <= |Doubled(s)| <= 2 * |s|
    ensures |Doubled(s)| == |s| <==> IAC !in s
    ensures |Doubled(s)| == 2 * |s| <==> s == Iacs(|s|)
    decreases |s|
  {
    if s != [] {
      DoubledLength(Front(s));
      AllIacs(s);
      SomeIac(s);
    }
  }

  // ----- The cells the doubling loop stores to -----

  function Max(a: int, b: int): int {
    if a < b then b else a
  }

  /** The highest cell the loop stores to while it works on `rest`, with `count` bytes in the
      buffer: each 255 shifts the bytes behind it, the last one into cell count + 1. */
  function HighStore(rest: seq<byte>, count: nat): (h: int)
    ensures h >= -1
  {
    if rest == [] then -1
    else if rest[0] == IAC then Max(count + 1, HighStore(rest[1..], count + 1))
    else HighStore(rest[1..], count)
  }

  /** All the data, and every cell the loop stores to, is in the buffer. */
  predicate Room(s: seq<byte>, size: nat) {
    |s| <= size && HighStore(s, |s|) < size
  }

  lemma {:induction false} HighStoreIs(rest: seq<byte>, count: nat)
    ensures HighStore(rest, count) == if IAC in rest then count + |Doubled(rest)| - |rest| else -1
  {
    if rest != [] {
      DoublePlain(rest, 0);
      assert rest[..0] == [] && rest == [rest[0]] + rest[1..];
      DoubledLength(rest[1..]);
      HighStoreIs(rest[1..], if rest[0] == IAC then count + 1 else count);
    }
  }

  /** The highest cell is the one after the doubled data, so a buffer takes the data if and
      only if it has a cell to spare or there is nothing to double. */
  lemma RoomIs(s: seq<byte>, size: nat)
    ensures IAC in s ==> HighStore(s, |s|) == |Doubled(s)|
    ensures Room(s, size) <==> |s| <= size && (IAC !in s || |Doubled(s)| < size)
  {
    HighStoreIs(s, |s|);
  }

  /** Half a buffer of data is doubled within the buffer, except for a whole half of 255s. */
  lemma HalfBufferFits(s: seq<byte>, size: nat)
    requires |s| <= size / 2
    ensures |Doubled(s)| <= size
    ensures Room(s, size) <==> s == [] || 2 * |s| < size || s != Iacs(|s|)
  {
    DoubledLength(s);
    RoomIs(s, size);
    if s != [] && s == Iacs(|s|) {
      assert s[0] == IAC;
    }
  }

  const PORT_BUFSIZE: nat := 64

  /** The input that fails: half a buffer of 255s makes the loop store to the cell after the
      buffer. */
  lemma HalfBufferOverrun()
    ensures HighStore(Iacs(PORT_BUFSIZE / 2), PORT_BUFSIZE / 2) == PORT_BUFSIZE
    ensures !Room(Iacs(PORT_BUFSIZE / 2), PORT_BUFSIZE)
  {
    var s := Iacs(PORT_BUFSIZE / 2);
    assert s[0] == IAC;
    DoubledLength(s);
    RoomIs(s, PORT_BUFSIZE);
  }

  // ----- Doubling in place -----

  lemma DoublePlain(s: seq<byte>, n: nat)
    requires n < |s|
    ensures Doubled(s[..n + 1]) == Doubled(s[..n]) + Twice(s[n])
    ensures |Doubled(s)| == |Doubled(s[..n + 1])| + |Doubled(s[n + 1..])|
  {
    assert s[..n + 1] == s[..n] + [s[n]];
    DoubledLast(s[..n], s[n]);
    assert s == s[..n + 1] + s[n + 1..];
    DoubledConcat(s[..n + 1], s[n + 1..]);
  }

  /** The first `n` bytes of `s` are doubled in the first `i` cells, and the rest follows. */
  ghost predicate HalfDone(a: seq<byte>, s: seq<byte>, n: nat, i: nat, count: nat) {
    && i <= count <= |a| && n <= |s|
    && a[..i] == Doubled(s[..n]) && a[i..count] == s[n..]
    && |Doubled(s)| == i + |Doubled(s[n..])|
  }

  lemma HalfDonePlain(a: seq<byte>, s: seq<byte>, n: nat, i: nat, count: nat)
    requires HalfDone(a, s, n, i, count) && i < count && a[i] != IAC
    ensures HalfDone(a, s, n + 1, i + 1, count)
  {
    assert a[i] == a[i..count][0] == s[n];
    DoublePlain(s, n);
    assert a[..i + 1] == a[..i] + [a[i]];
    assert a[i + 1..count] == a[i..count][1..] && s[n + 1..] == s[n..][1..];
  }

  lemma HalfDoneIac(a: seq<byte>, a': seq<byte>, s: seq<byte>, n: nat, i: nat, count: nat)
    requires HalfDone(a, s, n, i, count) && i < count < |a'| && a[i] == IAC
    requires a'[..i + 2] == a[..i + 1] + [IAC] && a'[i + 2..count + 1] == a[i + 1..count]
    ensures HalfDone(a', s, n + 1, i + 2, count + 1)
  {
    assert a[i] == a[i..count][0] == s[n];
    DoublePlain(s, n);
    assert a[..i + 1] == a[..i] + [IAC];
    assert a[i + 1..count] == a[i..count][1..] && s[n + 1..] == s[n..][1..];
  }

  /** Where there is a 255 to double, there is room for one more byte, and a cell after it. */
  lemma RoomForIac(a: seq<byte>, s: seq<byte>, n: nat, i: nat, count: nat)
    requires HalfDone(a, s, n, i, count) && i < count && a[i] == IAC && Room(s, |a|)
    ensures count + 1 < |a|
  {
    assert a[i] == a[i..count][0] == s[n];
    DoublePlain(s, n);
    DoubledLength(s[n + 1..]);
    DoubledLength(s);
    RoomIs(s, |a|);
  }

  /** The inner loop, and the 255 put into the gap; `high` is the highest cell stored to. */
  method InsertIac(buf: array<byte>, i: nat, count: nat, ghost high0: int) returns (ghost high: int)
    requires i < count && count + 1 < buf.Length
    modifies buf
    ensures high == Max(high0, count + 1)
    ensures buf[..][..i + 2] == old(buf[..])[..i + 1] + [IAC] && buf[..][i + 2..count + 1] == old(buf[..])[i + 1..count]
  {
    var j := count;
    high := high0;
    while j > i
      invariant i <= j <= count
      invariant high == if j == count then high0 else Max(high0, count + 1)
      invariant forall k :: 0 <= k <= j ==> buf[k] == old(buf[k])
      invariant forall k :: j + 1 < k <= count + 1 ==> buf[k] == old(buf[k - 1])
    {
      buf[j + 1] := buf[j];
      high := Max(high, j + 1);
      j := j - 1;
    }
    buf[i + 1] := 255;
    high := Max(high, i + 1);
  }

  lemma HalfDoneEnd(a: seq<byte>, s: seq<byte>, n: nat, count: nat)
    requires HalfDone(a, s, n, count, count)
    ensures n == |s| && a[..count] == Doubled(s)
  {
    assert s[n..] == [];
    assert s[..n] == s;
  }

  lemma HalfDoneStart(a: seq<byte>, count: nat)
    requires count <= |a|
    ensures HalfDone(a, a[..count], 0, 0, count)
  {
    assert a[..count][0..] == a[..count] == a[0..count];
  }

  lemma NextByte(a: seq<byte>, s: seq<byte>, n: nat, i: nat, count: nat)
    requires HalfDone(a, s, n, i, count) && i < count
    ensures n < |s| && a[i] == s[n]
  {
    assert a[i] == a[i..count][0] == s[n..][0];
  }

  /** After `n` bytes the highest cell stored to is the one after the data, if any was. */
  ghost predicate HighSoFar(high: int, s: seq<byte>, n: nat, count: nat) {
    n <= |s| && high == if IAC in s[..n] then count else -1
  }

  lemma HighStep(high: int, s: seq<byte>, n: nat, count: nat)
    requires HighSoFar(high, s, n, count) && n < |s|
    ensures s[n] == IAC ==> HighSoFar(Max(high, count + 1), s, n + 1, count + 1)
    ensures s[n] != IAC ==> HighSoFar(high, s, n + 1, count)
  {
    assert s[..n + 1] == s[..n] + [s[n]];
  }

  lemma HighAtEnd(high: int, s: seq<byte>, n: nat, count: nat)
    requires HighSoFar(high, s, n, count) && n == |s| && count == |Doubled(s)|
    ensures high == HighStore(s, |s|)
  {
    assert s[..n] == s;
    HighStoreIs(s, |s|);
  }

  /** One turn of the loop below. */
  method DoubleOne(buf: array<byte>, i: nat, count: nat, ghost s: seq<byte>, ghost n: nat, ghost high0: int)
    returns (i': nat, count': nat, ghost high: int)
    requires HalfDone(buf[..], s, n, i, count) && i < count && n < |s| && Room(s, buf.Length)
    modifies buf
    ensures if s[n] == IAC then count' == count + 1 && high == Max(high0, count + 1)
            else count' == count && high == high0
    ensures HalfDone(buf[..], s, n + 1, i', count') && count' - i' == count - i - 1
  {
    ghost var a := buf[..];
    NextByte(a, s, n, i, count);
    if buf[i] == 255 {
      RoomForIac(a, s, n, i, count);
      high := InsertIac(buf, i, count, high0);
      HalfDoneIac(a, buf[..], s, n, i, count);
      return i + 2, count + 1, high;
    }
    HalfDonePlain(a, s, n, i, count);
    return i + 1, count, high0;
  }

  /** The loop of handle_dev_fd_read that doubles the 255s of a telnet stream.  The highest cell
      it stores to does not depend on the size of the buffer. */
  method DoubleIacs(buf: array<byte>, count0: nat) returns (count: nat, ghost high: int)
    requires count0 <= buf.Length && Room(buf[..count0], buf.Length)
    modifies buf
    ensures high == HighStore(old(buf[..count0]), count0)
    ensures count <= buf.Length && buf[..count] == Doubled(old(buf[..count0]))
  {
    count, high := count0, -1;
    ghost var s := buf[..count0];
    ghost var n: nat := 0;
    HalfDoneStart(buf[..], count0);
    assert buf[..][..count0] == s;
    var i: nat := 0;
    while i < count
      invariant HalfDone(buf[..], s, n, i, count)
      invariant HighSoFar(high, s, n, count)
      decreases count - i
    {
      NextByte(buf[..], s, n, i, count);
      HighStep(high, s, n, count);
      i, count, high := DoubleOne(buf, i, count, s, n, high);
      n := n + 1;
    }
    HalfDoneEnd(buf[..], s, n, count);
    assert buf[..][..count] == buf[..count];
    HighAtEnd(high, s, n, count);
  }

  // ----- Sending -----

  lemma FrameLength(option: seq<byte>)
    ensures |Frame(option)| == |Doubled(option)| + 4
  {
  }

  class TelnetData {
    const telnetCmd: array<byte>
    var pos: nat
    var iac: bool
    const out: Buffer
    var error: bool
    var handled: seq<seq<byte>>  // the commands given to handle_telnet_cmd
    var ready: nat               // the calls of output_ready

    function State(): Parser
      requires pos <= telnetCmd.Length
      reads this, telnetCmd
    {
      Parser(telnetCmd[..pos], iac)
    }

    ghost predicate Valid()
      reads this, telnetCmd, out, out.buf
    {
      && telnetCmd.Length == MAX_CMD + 1 && pos <= telnetCmd.Length && Sane(State())
      && out.buf != telnetCmd && out.Valid()
    }

    /** telnet_init, up to the initial sequence. */
    constructor ()
      ensures Valid() && State() == IDLE && !error && handled == [] && ready == 0
      ensures fresh(telnetCmd) && fresh(out) && fresh(out.buf) && out.buf.Length == 256 && Contents(out.Value()) == []
    {
      telnetCmd := new byte[MAX_CMD + 1](_ => 0);
      out := new Buffer(256);
      pos, iac, error, handled, ready := 0, false, false, [], 0;
    }

    /** telnet_cmd_send */
    method CmdSend(cmd: seq<byte>)
      requires Valid()
      modifies this`error, this`ready, out`cursize, out.buf
      ensures Valid() && State() == old(State())
      ensures var fits := |cmd| <= old(Left(out.Value()));
              && Contents(out.Value())
                 == (if fits then old(Contents(out.Value())) + cmd else old(Contents(out.Value())))
              && error == (old(error) || !fits) && ready == old(ready) + if fits then 1 else 0
    {
      var ok := out.PutBytes(cmd);
      if !ok {
        error := true;
        return;
      }
      ready := ready + 1;
    }

    /** The first loop of telnet_send_option: how long the frame will be. */
    static method FrameSize(option: seq<byte>) returns (len: nat)
      ensures len == |Frame(option)|
    {
      len := 0;
      for i := 0 to |option|
        invariant len == |Doubled(option[..i])|
      {
        DoublePlain(option, i);
        if option[i] == 255 {
          len := len + 1;
        }
        len := len + 1;
      }
      assert option[..|option|] == option;
      FrameLength(option);
      len := len + 4;
    }

    method PutDoubled(b: byte)
      requires Valid() && |Twice(b)| <= Left(out.Value())
      modifies out`cursize, out.buf
      ensures Valid() && State() == old(State())
      ensures Contents(out.Value()) == old(Contents(out.Value())) + Twice(b)
              && out.cursize == old(out.cursize) + |Twice(b)|
    {
      var _ := out.PutByte(b);
      if b == 255 {
        var _ := out.PutByte(b);
      }
    }

    /** The bytes of telnet_send_option, once they are known to fit. */
    method PutFrame(option: seq<byte>)
      requires Valid() && |Frame(option)| <= Left(out.Value())
      modifies out`cursize, out.buf
      ensures Valid() && State() == old(State())
      ensures Contents(out.Value()) == old(Contents(out.Value())) + Frame(option)
    {
      FrameLength(option);
      ghost var before := Contents(out.Value());
      var _ := out.PutByte(255);
      var _ := out.PutByte(250);
      assert Contents(out.Value()) == (before + [IAC, SB]) + Doubled(option[..0]);
      for i := 0 to |option|
        invariant Valid() && State() == old(State())
        invariant Contents(out.Value()) == (before + [IAC, SB]) + Doubled(option[..i])
        invariant out.cursize == old(out.cursize) + 2 + |Doubled(option[..i])|
      {
        DoublePlain(option, i);
        PutDoubled(option[i]);
        Associates(before + [IAC, SB], Doubled(option[..i]), Twice(option[i]));
      }
      assert option[..|option|] == option;
      var _ := out.PutByte(255);
      var _ := out.PutByte(240);
      FrameAppended(before, option);
    }

    /** telnet_send_option: the whole frame or, with an error, nothing. */
    method SendOption(option: seq<byte>)
      requires Valid()
      modifies this`error, this`ready, out`cursize, out.buf
      ensures Valid() && State() == old(State())
      ensures var fits := |Frame(option)| <= old(Left(out.Value()));
              && Contents(out.Value())
                 == (if fits then old(Contents(out.Value())) + Frame(option) else old(Contents(out.Value())))
              && error == (old(error) || !fits) && ready == old(ready) + if fits then 1 else 0
    {
      var realLen := FrameSize(option);
      if realLen > out.buf.Length - out.cursize {
        error := true;
        return;
      }
      PutFrame(option);
      ready := ready + 1;
    }

    // ----- Receiving -----

    /** handle_telnet_cmd is left to the caller: it gets the first `pos` bytes. */
    method Handle()
      requires pos <= telnetCmd.Length
      modifies this`handled
      ensures handled == old(handled) + [telnetCmd[..pos]]
    {
      handled := handled + [telnetCmd[..pos]];
    }

    /** A byte after a 255 inside a suboption. */
    method TakeAfterIac(b: byte)
      requires Valid() && iac
      modifies this`pos, this`iac, this`handled
      ensures pos <= telnetCmd.Length && State() == StepSub(old(State()), b).p
      ensures handled == old(handled) + StepSub(old(State()), b).handled
    {
      ghost var p := State();
      assert Front(p.cmd) == telnetCmd[..pos - 1];
      if b == 240 {
        pos := pos - 1;
        Handle();
        pos := 0;
      } else if b == 255 {
      } else {
        pos := pos - 1;
      }
      iac := false;
      assert b != 240 ==> handled + [] == handled;
    }

    /** Any other byte inside a suboption. */
    method TakePayload(b: byte)
      requires Valid() && pos >= 3 && !iac
      modifies this`pos, this`iac, telnetCmd
      ensures pos <= telnetCmd.Length && State() == StepSub(old(State()), b).p
    {
      if pos > MAX_CMD {
        pos := MAX_CMD;
      }
      telnetCmd[pos] := b;
      pos := pos + 1;
      if b == 255 {
        iac := true;
      }
    }

    /** A byte of a command whose first byte, or first two, are known. */
    method TakeStart(b: byte) returns (keep: bool)
      requires Valid() && 1 <= pos <= 2
      modifies this`pos, this`handled, telnetCmd
      ensures pos <= telnetCmd.Length && State() == Step(old(State()), b).p
      ensures handled == old(handled) + Step(old(State()), b).handled
      ensures Step(old(State()), b).kept == if keep then [b] else []
    {
      keep := false;
      ghost var p := State();
      assert handled + [] == handled;
      if pos == 1 && b == 255 {
        pos := 0;
        return true;
      }
      telnetCmd[pos] := b;
      pos := pos + 1;
      assert telnetCmd[..pos] == p.cmd + [b];
      if pos == 2 && b < 250 {
        Handle();
        pos := 0;
      } else if pos == 3 && telnetCmd[1] != 250 {
        Handle();
        pos := 0;
      }
    }

    /** One byte of process_telnet_data. */
    method TakeByte(b: byte) returns (keep: bool)
      requires Valid()
      modifies this`pos, this`iac, this`handled, telnetCmd
      ensures Valid() && State() == Step(old(State()), b).p && out.Value() == old(out.Value())
      ensures handled == old(handled) + Step(old(State()), b).handled
      ensures Step(old(State()), b).kept == if keep then [b] else []
    {
      StepSane(State(), b);
      keep := false;
      assert handled + [] == handled;
      if pos >= 3 {
        if iac {
          TakeAfterIac(b);
        } else {
          TakePayload(b);
        }
      } else if pos > 0 {
        keep := TakeStart(b);
      } else if b == 255 {
        telnetCmd[0] := 255;
        pos := 1;
        iac := false;
      } else {
        keep := true;
      }
    }

    /** The first `n` bytes of `s` have brought the parser from `p` to where it is. */
    ghost predicate Reached(p: Parser, h: seq<seq<byte>>, s: seq<byte>, n: nat)
      requires n <= |s| && pos <= telnetCmd.Length
      reads this, telnetCmd
    {
      State() == Feed(p, s[..n]).p && handled == h + Feed(p, s[..n]).handled
    }

    /** One turn of the loop of process_telnet_data. */
    method ProcessOne(data: array<byte>, i: nat, len: nat, ghost p: Parser, ghost h: seq<seq<byte>>, ghost s: seq<byte>,
        ghost n: nat)
      returns (i': nat, len': nat)
      requires Valid() && data != telnetCmd && data != out.buf
      requires Parsed(data[..], s, n, i, len, p) && i < len && Reached(p, h, s, n)
      modifies this`pos, this`iac, this`handled, telnetCmd, data
      ensures Valid() && out.Value() == old(out.Value())
      ensures Parsed(data[..], s, n + 1, i', len', p) && Reached(p, h, s, n + 1)
      ensures len' <= len && len' - i' == len - i - 1
    {
      var b := data[i];
      ghost var a := data[..];
      FeedNext(a, s, n, i, len, p);
      var keep := TakeByte(b);
      assert data[..] == a;
      HandledAssociates(h, Feed(p, s[..n]), Step(Feed(p, s[..n]).p, b));
      if keep {
        ParsedKeep(a, s, n, i, len, p);
        return i + 1, len;
      }
      len' := DeleteChar(data, i, len);
      i' := i;
      ParsedDelete(a, data[..], s, n, i, len, p);
    }

    /** process_telnet_data: the data that is not telnet's own is left at the start of the
        array, and the commands are handled, just as one byte after the other. */
    method Process(data: array<byte>, len0: nat) returns (len: nat)
      requires Valid() && len0 <= data.Length && data != telnetCmd && data != out.buf
      modifies this`pos, this`iac, this`handled, telnetCmd, data
      ensures Valid() && out.Value() == old(out.Value())
      ensures var o := Feed(old(State()), old(data[..len0]));
              && len <= len0 && data[..len] == o.kept
              && State() == o.p && handled == old(handled) + o.handled
    {
      ghost var p, s, h := State(), data[..len0], handled;
      ghost var n: nat := 0;
      len := len0;
      var i: nat := 0;
      ParsedStart(data[..], len0, p);
      assert data[..][..len0] == s;
      assert h + [] == h;
      while i < len
        invariant Valid() && out.Value() == old(out.Value()) && len <= len0
        invariant Parsed(data[..], s, n, i, len, p) && Reached(p, h, s, n)
        decreases len - i
      {
        i, len := ProcessOne(data, i, len, p, h, s, n);
        n := n + 1;
      }
      ParsedEnd(data[..], s, n, len, p);
      assert data[..][..len] == data[..len];
    }
  }

  lemma HandledAssociates(h: seq<seq<byte>>, a: Outcome, b: Outcome)
    ensures (h + a.handled) + b.handled == h + Then(a, b).handled
  {
  }

  /** delete_char */
  method DeleteChar(data: array<byte>, pos: nat, len0: nat) returns (len: nat)
    requires pos < len0 <= data.Length
    modifies data
    ensures len == len0 - 1
    ensures data[..][..pos] == old(data[..])[..pos] && data[..][pos..len] == old(data[..])[pos + 1..len0]
  {
    for i := pos to len0 - 1
      invariant forall k :: 0 <= k < pos ==> data[k] == old(data[k])
      invariant forall k :: pos <= k < i ==> data[k] == old(data[k + 1])
      invariant forall k :: i <= k < data.Length ==> data[k] == old(data[k])
    {
      data[i] := data[i + 1];
    }
    len := len0 - 1;
  }

  /** Of the bytes `s`, the first `n` are parsed: what is kept of them lies in the first `i`
      cells, and the rest follows. */
  ghost predicate Parsed(a: seq<byte>, s: seq<byte>, n: nat, i: nat, len: nat, p: Parser) {
    i <= len <= |a| && n <= |s| && a[..i] == Feed(p, s[..n]).kept && a[i..len] == s[n..]
  }

  lemma ParsedStart(a: seq<byte>, len: nat, p: Parser)
    requires len <= |a|
    ensures Parsed(a, a[..len], 0, 0, len, p) && Feed(p, a[..len][..0]) == Outcome(p, [], [])
  {
    assert a[..len][0..] == a[..len] == a[0..len];
  }

  lemma FeedNext(a: seq<byte>, s: seq<byte>, n: nat, i: nat, len: nat, p: Parser)
    requires Parsed(a, s, n, i, len, p) && i < len
    ensures n < |s| && a[i] == s[n]
    ensures Feed(p, s[..n + 1]) == Then(Feed(p, s[..n]), Step(Feed(p, s[..n]).p, a[i]))
  {
    assert a[i] == a[i..len][0] == s[n];
    assert s[..n + 1] == s[..n] + [s[n]];
    FeedLast(p, s[..n], s[n]);
  }

  lemma ParsedKeep(a: seq<byte>, s: seq<byte>, n: nat, i: nat, len: nat, p: Parser)
    requires Parsed(a, s, n, i, len, p) && i < len && Step(Feed(p, s[..n]).p, a[i]).kept == [a[i]]
    ensures Parsed(a, s, n + 1, i + 1, len, p)
  {
    FeedNext(a, s, n, i, len, p);
    assert a[..i + 1] == a[..i] + [a[i]];
    assert a[i + 1..len] == a[i..len][1..] && s[n + 1..] == s[n..][1..];
  }

  lemma ParsedDelete(a: seq<byte>, a': seq<byte>, s: seq<byte>, n: nat, i: nat, len: nat, p: Parser)
    requires Parsed(a, s, n, i, len, p) && i < len && Step(Feed(p, s[..n]).p, a[i]).kept == []
    requires len - 1 <= |a'| && a'[..i] == a[..i] && a'[i..len - 1] == a[i + 1..len]
    ensures Parsed(a', s, n + 1, i, len - 1, p)
  {
    FeedNext(a, s, n, i, len, p);
    assert Feed(p, s[..n]).kept + [] == Feed(p, s[..n]).kept;
    assert a[i + 1..len] == a[i..len][1..] && s[n + 1..] == s[n..][1..];
  }

  lemma ParsedEnd(a: seq<byte>, s: seq<byte>, n: nat, len: nat, p: Parser)
    requires Parsed(a, s, n, len, len, p)
    ensures a[..len] == Feed(p, s).kept && s[..n] == s
  {
    assert s[n..] == [];
    assert s[..n] == s;
  }

  lemma FrameAppended(before: seq<byte>, option: seq<byte>)
    ensures (((before + [IAC, SB]) + Doubled(option)) + [255]) + [240] == before + Frame(option)
  {
  }
}
