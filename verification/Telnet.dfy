/** The telnet stream of ser2net: commands taken out of the incoming bytes, option frames and
    doubled bytes put into the outgoing ones. */
module Telnet {
  import opened RingBuffer

  const IAC: byte := 255
  const SB: byte := 250
  const SE: byte := 240
  const MAX_CMD: nat := 31

  // ----- One byte at a time -----

  /** The command collected so far, and whether a 255 has just been read inside a suboption. */
  datatype Parser = Parser(cmd: seq<byte>, iac: bool)

  const IDLE := Parser([], false)

  /** What a byte does: the new state, the bytes let through, and the commands handled. */
  datatype Outcome = Outcome(p: Parser, kept: seq<byte>, handled: seq<seq<byte>>)

  function Front(s: seq<byte>): seq<byte>
    requires s != []
  {
    s[..|s| - 1]
  }

  lemma FrontAndLast(s: seq<byte>)
    requires s != []
    ensures Front(s) + [s[|s| - 1]] == s
  {
  }

  lemma HeadAndRest(x: seq<byte>, s: seq<byte>)
    requires s != []
    ensures (x + [s[0]]) + s[1..] == x + s
  {
  }

  /** Adds a byte to a suboption.  When it is full, the last byte is replaced. */
  function Stuff(cmd: seq<byte>, b: byte): seq<byte> {
    (if |cmd| > MAX_CMD then cmd[..MAX_CMD] else cmd) + [b]
  }

  function StepSub(p: Parser, b: byte): Outcome
    requires |p.cmd| >= 3
  {
    if p.iac then
      if b == SE then Outcome(IDLE, [], [Front(p.cmd)])
      else if b == IAC then Outcome(Parser(p.cmd, false), [], [])
      else Outcome(Parser(Front(p.cmd), false), [], [])
    else
      Outcome(Parser(Stuff(p.cmd, b), b == IAC), [], [])
  }

  function Step(p: Parser, b: byte): Outcome {
    if p.cmd == [] then
      if b == IAC then Outcome(Parser([IAC], false), [], []) else Outcome(p, [b], [])
    else if |p.cmd| == 1 then
      if b == IAC then Outcome(Parser([], p.iac), [b], [])
      else if b < SB then Outcome(Parser([], p.iac), [], [p.cmd + [b]])
      else Outcome(Parser(p.cmd + [b], p.iac), [], [])
    else if |p.cmd| == 2 then
      if p.cmd[1] != SB then Outcome(Parser([], p.iac), [], [p.cmd + [b]])
      else Outcome(Parser(p.cmd + [b], p.iac), [], [])
    else
      StepSub(p, b)
  }

  /** All bytes of `s`, from the left. */
  function Feed(p: Parser, s: seq<byte>): Outcome
    decreases |s|
  {
    if s == [] then Outcome(p, [], [])
    else
      var o := Feed(p, Front(s));
      var next := Step(o.p, s[|s| - 1]);
      Outcome(next.p, o.kept + next.kept, o.handled + next.handled)
  }

  /** Every state the parser can be in. */
  ghost predicate Sane(p: Parser) {
    && |p.cmd| <= MAX_CMD + 1
    && (|p.cmd| > 0 ==> p.cmd[0] == IAC)
    && (|p.cmd| > 1 ==> p.cmd[1] >= SB && p.cmd[1] != IAC)
    && (|p.cmd| > 2 ==> p.cmd[1] == SB)
    && (p.iac ==> |p.cmd| >= 4 && p.cmd[|p.cmd| - 1] == IAC)
  }

  /** What is handed to handle_telnet_cmd: the byte that tells the kinds apart is there, and
      so is the option for all but the one-byte commands. */
  ghost predicate Command(c: seq<byte>) {
    && 2 <= |c| <= MAX_CMD && c[0] == IAC && c[1] != IAC
    && if c[1] < SB then |c| == 2 else if c[1] == SB then |c| >= 3 else |c| == 3
  }

  lemma StepSane(p: Parser, b: byte)
    requires Sane(p)
    ensures Sane(Step(p, b).p) && |Step(p, b).kept| + |Step(p, b).handled| <= 1
    ensures forall c :: c in Step(p, b).handled ==> Command(c)
  {
  }

  lemma {:induction false} FeedSane(p: Parser, s: seq<byte>)
    requires Sane(p)
    ensures Sane(Feed(p, s).p)
    ensures forall c :: c in Feed(p, s).handled ==> Command(c)
    decreases |s|
  {
    if s != [] {
      FeedSane(p, Front(s));
      StepSane(Feed(p, Front(s)).p, s[|s| - 1]);
    }
  }

  function Then(a: Outcome, b: Outcome): Outcome {
    Outcome(b.p, a.kept + b.kept, a.handled + b.handled)
  }

  lemma FeedOne(p: Parser, b: byte)
    ensures Feed(p, [b]) == Step(p, b)
  {
    assert Front([b]) == [];
    assert [] + Step(p, b).kept == Step(p, b).kept;
    assert [] + Step(p, b).handled == Step(p, b).handled;
  }

  lemma ThenAssociates(a: Outcome, b: Outcome, c: Outcome)
    ensures Then(Then(a, b), c) == Then(a, Then(b, c))
  {
    assert (a.kept + b.kept) + c.kept == a.kept + (b.kept + c.kept);
    assert (a.handled + b.handled) + c.handled == a.handled + (b.handled + c.handled);
  }

  lemma FeedLast(p: Parser, s: seq<byte>, b: byte)
    ensures Feed(p, s + [b]) == Then(Feed(p, s), Step(Feed(p, s).p, b))
  {
    assert Front(s + [b]) == s;
  }

  lemma ThenNothing(a: Outcome)
    ensures Then(a, Outcome(a.p, [], [])) == a
  {
    assert a.kept + [] == a.kept && a.handled + [] == a.handled;
  }

  /** A stream fed in two parts gives what it gives as a whole. */
  lemma {:induction false} FeedChunks(p: Parser, s: seq<byte>, t: seq<byte>)
    ensures Feed(p, s + t) == Then(Feed(p, s), Feed(Feed(p, s).p, t))
    decreases |t|
  {
    if t == [] {
      assert s + t == s;
      ThenNothing(Feed(p, s));
    } else {
      var b := t[|t| - 1];
      assert s + t == (s + Front(t)) + [b];
      FeedChunks(p, s, Front(t));
      FeedLast(p, s + Front(t), b);
      assert t == Front(t) + [b];
      FeedLast(Feed(p, s).p, Front(t), b);
      ThenAssociates(Feed(p, s), Feed(Feed(p, s).p, Front(t)), Step(Feed(p, s + Front(t)).p, b));
    }
  }

  function Joined(chunks: seq<seq<byte>>): seq<byte> {
    if chunks == [] then [] else chunks[0] + Joined(chunks[1..])
  }

  /** What the parser makes of one chunk after the other. */
  function FeedAll(p: Parser, chunks: seq<seq<byte>>): Outcome
    decreases |chunks|
  {
    if chunks == [] then Outcome(p, [], [])
    else Then(Feed(p, chunks[0]), FeedAll(Feed(p, chunks[0]).p, chunks[1..]))
  }

  /** However the stream is cut into chunks, the same bytes get through and the same commands
      are handled. */
  lemma {:induction false} FeedAnyChunks(p: Parser, chunks: seq<seq<byte>>)
    ensures FeedAll(p, chunks) == Feed(p, Joined(chunks))
    decreases |chunks|
  {
    if chunks != [] {
      FeedAnyChunks(Feed(p, chunks[0]).p, chunks[1..]);
      FeedChunks(p, chunks[0], Joined(chunks[1..]));
    }
  }

  // ----- The stream as items -----

  datatype Item =
    | Data(b: byte)
    | Simple(command: byte)
    | Negotiate(verb: byte, option: byte)
    | Sub(payload: seq<byte>)

  /** What RFC 854 and RFC 855 allow: one-byte commands below 250, the verbs WILL, WONT, DO and
      DONT, and subnegotiations whose option is not 255. */
  ghost predicate Proper(i: Item) {
    match i
    case Data(_) => true
    case Simple(command) => command < SB
    case Negotiate(verb, _) => SB < verb < IAC
    case Sub(payload) => payload != [] && payload[0] != IAC
  }

  function Twice(b: byte): seq<byte> {
    if b == IAC then [IAC, IAC] else [b]
  }

  /** Bytes with each 255 sent twice. */
  function Doubled(s: seq<byte>): seq<byte> {
    if s == [] then [] else Doubled(Front(s)) + Twice(s[|s| - 1])
  }

  function Frame(payload: seq<byte>): seq<byte> {
    [IAC, SB] + Doubled(payload) + [IAC, SE]
  }

  function Encode(i: Item): seq<byte> {
    match i
    case Data(b) => Twice(b)
    case Simple(command) => [IAC, command]
    case Negotiate(verb, option) => [IAC, verb, option]
    case Sub(payload) => Frame(payload)
  }

  /** As much of a payload as the parser has room for. */
  function Clipped(payload: seq<byte>): seq<byte> {
    if |payload| <= MAX_CMD - 2 then payload else payload[..MAX_CMD - 2]
  }

  /** What an item is to come out as. */
  function Meaning(i: Item): Outcome {
    match i
    case Data(b) => Outcome(IDLE, [b], [])
    case Simple(command) => Outcome(IDLE, [], [[IAC, command]])
    case Negotiate(verb, option) => Outcome(IDLE, [], [[IAC, verb, option]])
    case Sub(payload) => Outcome(IDLE, [], [[IAC, SB] + Clipped(payload)])
  }

  function EncodeAll(items: seq<Item>): seq<byte> {
    if items == [] then [] else Encode(items[0]) + EncodeAll(items[1..])
  }

  function MeaningAll(items: seq<Item>): Outcome {
    if items == [] then Outcome(IDLE, [], []) else Then(Meaning(items[0]), MeaningAll(items[1..]))
  }

  lemma FeedTwo(p: Parser, a: byte, b: byte)
    ensures Feed(p, [a, b]) == Then(Step(p, a), Step(Step(p, a).p, b))
  {
    FeedOne(p, a);
    assert [a, b] == [a] + [b];
    FeedLast(p, [a], b);
  }

  lemma FeedThree(p: Parser, a: byte, b: byte, c: byte)
    ensures Feed(p, [a, b, c]) == Then(Feed(p, [a, b]), Step(Feed(p, [a, b]).p, c))
  {
    assert [a, b, c] == [a, b] + [c];
    FeedLast(p, [a, b], c);
  }

  /** A suboption with the bytes `x` in it, the last one replaced over and over when full. */
  function Filled(x: seq<byte>): seq<byte> {
    if |x| <= MAX_CMD + 1 then x else x[..MAX_CMD] + [x[|x| - 1]]
  }

  lemma FilledStuffs(x: seq<byte>, b: byte)
    ensures Stuff(Filled(x), b) == Filled(x + [b])
  {
  }

  function Quiet(p: Parser): Outcome {
    Outcome(p, [], [])
  }

  lemma StuffByte(x: seq<byte>, b: byte)
    requires |x| >= 3 && b != IAC
    ensures Feed(Parser(Filled(x), false), [b]) == Quiet(Parser(Filled(x + [b]), false))
  {
    FilledStuffs(x, b);
    FeedOne(Parser(Filled(x), false), b);
  }

  lemma StuffIac(x: seq<byte>)
    requires |x| >= 3
    ensures Feed(Parser(Filled(x), false), [IAC, IAC]) == Quiet(Parser(Filled(x + [IAC]), false))
  {
    FilledStuffs(x, IAC);
    FeedTwo(Parser(Filled(x), false), IAC, IAC);
  }

  lemma DoubledLast(s: seq<byte>, b: byte)
    ensures Doubled(s + [b]) == Doubled(s) + Twice(b)
  {
    assert Front(s + [b]) == s;
  }

  /** Inside a suboption, doubled bytes are collected once each. */
  lemma {:induction false} FeedBody(x: seq<byte>, s: seq<byte>)
    requires |x| >= 3
    ensures Feed(Parser(Filled(x), false), Doubled(s)) == Quiet(Parser(Filled(x + s), false))
    decreases |s|
  {
    if s == [] {
      assert x + s == x;
    } else {
      var b := s[|s| - 1];
      assert s == Front(s) + [b];
      FeedBody(x, Front(s));
      DoubledLast(Front(s), b);
      FeedChunks(Parser(Filled(x), false), Doubled(Front(s)), Twice(b));
      assert (x + Front(s)) + [b] == x + s;
      if b == IAC {
        StuffIac(x + Front(s));
      } else {
        StuffByte(x + Front(s), b);
      }
    }
  }

  /** The end of a suboption hands on what was collected, up to the size of the buffer. */
  lemma FeedEnd(x: seq<byte>)
    requires |x| >= 3
    ensures Feed(Parser(Filled(x), false), [IAC, SE]) == Handed(x)
  {
    FeedTwo(Parser(Filled(x), false), IAC, SE);
    FilledStuffs(x, IAC);
    assert Front(Filled(x + [IAC])) == if |x| <= MAX_CMD then x else x[..MAX_CMD];
  }

  lemma {:induction false} DoubledConcat(s: seq<byte>, t: seq<byte>)
    ensures Doubled(s + t) == Doubled(s) + Doubled(t)
    decreases |t|
  {
    if t == [] {
      assert s + t == s;
    } else {
      var b := t[|t| - 1];
      DoubledConcat(s, Front(t));
      assert s + t == (s + Front(t)) + [b];
      DoubledLast(s + Front(t), b);
      Associates(Doubled(s), Doubled(Front(t)), Twice(b));
    }
  }

  lemma DoubledOne(b: byte)
    ensures Doubled([b]) == Twice(b)
  {
    assert [] + [b] == [b];
    DoubledLast([], b);
  }

  lemma FrameStart(b: byte)
    ensures Feed(IDLE, [IAC, SB, b]) == Quiet(Parser([IAC, SB, b], false))
  {
    FeedTwo(IDLE, IAC, SB);
    assert [IAC] + [SB] == [IAC, SB];
    FeedThree(IDLE, IAC, SB, b);
    assert [IAC, SB] + [b] == [IAC, SB, b];
  }

  lemma FrameParts(payload: seq<byte>)
    requires payload != [] && payload[0] != IAC
    ensures Frame(payload) == ([IAC, SB, payload[0]] + Doubled(payload[1..])) + [IAC, SE]
  {
    DoubledConcat([payload[0]], payload[1..]);
    assert [payload[0]] + payload[1..] == payload;
    DoubledOne(payload[0]);
    assert [IAC, SB] + ([payload[0]] + Doubled(payload[1..])) == [IAC, SB, payload[0]] + Doubled(payload[1..]);
  }

  lemma QuietBefore(p: Parser, o: Outcome)
    ensures Then(Quiet(p), o) == o
  {
    assert [] + o.kept == o.kept && [] + o.handled == o.handled;
  }

  lemma FeedBodyAfter(s: seq<byte>, x: seq<byte>, body: seq<byte>)
    requires |x| >= 3 && Feed(IDLE, s) == Quiet(Parser(Filled(x), false))
    ensures Feed(IDLE, s + Doubled(body)) == Quiet(Parser(Filled(x + body), false))
  {
    FeedBody(x, body);
    FeedChunks(IDLE, s, Doubled(body));
  }

  function Handed(x: seq<byte>): Outcome {
    Outcome(IDLE, [], [if |x| <= MAX_CMD then x else x[..MAX_CMD]])
  }

  lemma FeedEndAfter(s: seq<byte>, x: seq<byte>)
    requires |x| >= 3 && Feed(IDLE, s) == Quiet(Parser(Filled(x), false))
    ensures Feed(IDLE, s + [IAC, SE]) == Handed(x)
  {
    FeedEnd(x);
    FeedChunks(IDLE, s, [IAC, SE]);
    QuietBefore(Parser(Filled(x), false), Handed(x));
  }

  lemma HandedPayload(payload: seq<byte>)
    ensures Handed([IAC, SB] + payload) == Meaning(Sub(payload))
  {
    var x := [IAC, SB] + payload;
    if |payload| > MAX_CMD - 2 {
      assert x[..MAX_CMD] == [IAC, SB] + payload[..MAX_CMD - 2];
    }
  }

  /** A frame comes out as one command with the payload in it. */
  lemma FrameDelivers(payload: seq<byte>)
    requires payload != [] && payload[0] != IAC
    ensures Feed(IDLE, Frame(payload)) == Meaning(Sub(payload))
  {
    var start, body := [IAC, SB] + [payload[0]], payload[1..];
    FrameParts(payload);
    FrameStart(payload[0]);
    assert start == [IAC, SB, payload[0]];
    FeedBodyAfter(start, start, body);
    FeedEndAfter(start + Doubled(body), start + body);
    HeadAndRest([IAC, SB], payload);
    HandedPayload(payload);
  }

  lemma DataDelivers(b: byte)
    ensures Feed(IDLE, Twice(b)) == Outcome(IDLE, [b], [])
  {
    if b == IAC {
      FeedTwo(IDLE, IAC, IAC);
    } else {
      FeedOne(IDLE, b);
    }
  }

  lemma SimpleDelivers(command: byte)
    requires command < SB
    ensures Feed(IDLE, [IAC, command]) == Outcome(IDLE, [], [[IAC, command]])
  {
    FeedTwo(IDLE, IAC, command);
    assert [IAC] + [command] == [IAC, command];
  }

  lemma VerbWaits(verb: byte)
    requires SB < verb < IAC
    ensures Feed(IDLE, [IAC, verb]) == Quiet(Parser([IAC, verb], false))
  {
    FeedTwo(IDLE, IAC, verb);
    assert [IAC] + [verb] == [IAC, verb];
  }

  lemma NegotiateDelivers(verb: byte, option: byte)
    requires SB < verb < IAC
    ensures Feed(IDLE, [IAC, verb, option]) == Outcome(IDLE, [], [[IAC, verb, option]])
  {
    VerbWaits(verb);
    FeedThree(IDLE, IAC, verb, option);
    assert [IAC, verb] + [option] == [IAC, verb, option];
  }

  lemma EncodeDelivers(i: Item)
    requires Proper(i)
    ensures Feed(IDLE, Encode(i)) == Meaning(i)
  {
    match i
    case Data(b) => DataDelivers(b);
    case Simple(command) => SimpleDelivers(command);
    case Negotiate(verb, option) => NegotiateDelivers(verb, option);
    case Sub(payload) => FrameDelivers(payload);
  }

  /** Decoding undoes encoding: the data gets through, and the commands are handled, in order. */
  lemma {:induction false} RoundTrip(items: seq<Item>)
    requires forall k :: 0 <= k < |items| ==> Proper(items[k])
    ensures Feed(IDLE, EncodeAll(items)) == MeaningAll(items) && MeaningAll(items).p == IDLE
  {
    if items != [] {
      EncodeDelivers(items[0]);
      RoundTrip(items[1..]);
      FeedChunks(IDLE, Encode(items[0]), EncodeAll(items[1..]));
    }
  }

  lemma DataAfter(s: seq<byte>, kept: seq<byte>, b: byte)
    requires Feed(IDLE, s) == Outcome(IDLE, kept, [])
    ensures Feed(IDLE, s + Twice(b)) == Outcome(IDLE, kept + [b], [])
  {
    DataDelivers(b);
    FeedChunks(IDLE, s, Twice(b));
  }

  /** Data with its 255s doubled comes back as it was, and nothing else happens. */
  lemma {:induction false} DoubledRoundTrip(s: seq<byte>)
    ensures Feed(IDLE, Doubled(s)) == Outcome(IDLE, s, [])
    decreases |s|
  {
    if s != [] {
      var b := s[|s| - 1];
      DoubledRoundTrip(Front(s));
      DataAfter(Doubled(Front(s)), Front(s), b);
      FrontAndLast(s);
    }
  }

  // ----- Exactly which payloads get through -----

  function Iacs(n: nat): seq<byte> {
    seq(n, _ => IAC)
  }

  /** The number of 255s a payload starts with. */
  function Lead(payload: seq<byte>): (j: nat)
    ensures j <= |payload| && payload[..j] == Iacs(j) && (j < |payload| ==> payload[j] != IAC)
  {
    if payload == [] || payload[0] != IAC then 0 else 1 + Lead(payload[1..])
  }

  /** The payload has something in it and does not start with 255; or it is too long anyway,
      and dropping its first byte other than 255 makes no difference to the part handed on. */
  predicate Deliverable(payload: seq<byte>) {
    var j := Lead(payload);
    payload != [] &&
    (j == 0
     || (|payload| >= 30 && j < |payload| && payload[j] != SE && (j >= 29 || payload[j..29] == payload[j + 1..30])))
  }

  lemma IacsMore(n: nat)
    ensures Iacs(n) + [IAC] == Iacs(n + 1) && [IAC] + Iacs(n) == Iacs(n + 1)
  {
  }

  lemma {:induction false} DoubledIacs(n: nat)
    ensures Doubled(Iacs(n)) == Iacs(2 * n)
  {
    if n > 0 {
      DoubledIacs(n - 1);
      IacsMore(n - 1);
      DoubledLast(Iacs(n - 1), IAC);
      assert Iacs(2 * (n - 1)) + [IAC, IAC] == Iacs(2 * n);
    }
  }

  lemma LeadStep(x: seq<byte>)
    requires |x| >= 4
    ensures Feed(Parser(Filled(x), true), [IAC, IAC]) == Quiet(Parser(Filled(x + [IAC]), true))
  {
    FeedTwo(Parser(Filled(x), true), IAC, IAC);
    FilledStuffs(x, IAC);
  }

  function LeadCmd(j: nat): seq<byte> {
    [IAC, SB] + Iacs(j + 1)
  }

  lemma LeadStart()
    ensures Feed(IDLE, [IAC, SB] + Iacs(2)) == Quiet(Parser(Filled(LeadCmd(1)), true))
  {
    FrameStart(IAC);
    assert [IAC, SB] + Iacs(2) == [IAC, SB, IAC] + [IAC];
    FeedLast(IDLE, [IAC, SB, IAC], IAC);
    assert LeadCmd(1) == [IAC, SB, IAC] + [IAC];
  }

  lemma LeadGrows(j: nat)
    requires j > 0
    ensures LeadCmd(j - 1) + [IAC] == LeadCmd(j)
    ensures ([IAC, SB] + Iacs(2 * (j - 1))) + [IAC, IAC] == [IAC, SB] + Iacs(2 * j)
  {
  }

  /** A payload that starts with 255s leaves the parser waiting, with one of them too many. */
  lemma {:induction false} FeedLead(j: nat)
    requires j > 0
    ensures Feed(IDLE, [IAC, SB] + Iacs(2 * j)) == Quiet(Parser(Filled(LeadCmd(j)), true))
  {
    if j == 1 {
      LeadStart();
    } else {
      FeedLead(j - 1);
      LeadGrows(j);
      FeedChunks(IDLE, [IAC, SB] + Iacs(2 * (j - 1)), [IAC, IAC]);
      LeadStep(LeadCmd(j - 1));
    }
  }

  lemma FeedAfterLead(j: nat, rest: seq<byte>)
    requires j > 0
    ensures Feed(IDLE, ([IAC, SB] + Iacs(2 * j)) + rest) == Feed(Parser(Filled(LeadCmd(j)), true), rest)
  {
    FeedLead(j);
    FeedChunks(IDLE, [IAC, SB] + Iacs(2 * j), rest);
    QuietBefore(Parser(Filled(LeadCmd(j)), true), Feed(Parser(Filled(LeadCmd(j)), true), rest));
  }

  lemma FrameAfterLead(payload: seq<byte>)
    requires Lead(payload) > 0
    ensures var j := Lead(payload);
            Frame(payload) == ([IAC, SB] + Iacs(2 * j)) + (Doubled(payload[j..]) + [IAC, SE])
  {
    var j := Lead(payload);
    DoubledConcat(payload[..j], payload[j..]);
    assert payload[..j] + payload[j..] == payload;
    DoubledIacs(j);
  }

  /** Nothing but 255s: the frame never ends. */
  lemma AllIacsHang(j: nat)
    requires j > 0
    ensures Feed(Parser(Filled(LeadCmd(j)), true), [IAC, SE]).p != IDLE
  {
    FeedTwo(Parser(Filled(LeadCmd(j)), true), IAC, SE);
  }

  lemma EndDelivers()
    ensures Feed(IDLE, [IAC, SE]) == Outcome(IDLE, [], [[IAC, SE]])
  {
    SimpleDelivers(SE);
  }

  lemma EndAfterData(body: seq<byte>)
    ensures Feed(IDLE, Doubled(body) + [IAC, SE]) == Outcome(IDLE, body, [[IAC, SE]])
  {
    DoubledRoundTrip(body);
    EndDelivers();
    FeedChunks(IDLE, Doubled(body), [IAC, SE]);
    ThenEnd(body);
  }

  lemma ThenEnd(body: seq<byte>)
    ensures Then(Outcome(IDLE, body, []), Outcome(IDLE, [], [[IAC, SE]])) == Outcome(IDLE, body, [[IAC, SE]])
  {
    assert body + [] == body;
  }

  lemma EndsThenMore(p: Parser, rest: seq<byte>)
    requires |p.cmd| >= 3 && p.iac
    ensures |Feed(p, [SE] + rest).handled| == 1 + |Feed(IDLE, rest).handled|
  {
    FeedOne(p, SE);
    FeedChunks(p, [SE], rest);
  }

  /** A 240 after the 255s ends the command early, and the real end makes another one. */
  lemma EarlyEnd(j: nat, body: seq<byte>)
    requires j > 0
    ensures |Feed(Parser(Filled(LeadCmd(j)), true), [SE] + (Doubled(body) + [IAC, SE])).handled| == 2
  {
    EndsThenMore(Parser(Filled(LeadCmd(j)), true), Doubled(body) + [IAC, SE]);
    EndAfterData(body);
  }

  function LeadKept(j: nat): seq<byte> {
    [IAC, SB] + Iacs(if j <= 29 then j else 29)
  }

  lemma LeadDropped(j: nat)
    requires j > 0
    ensures Front(Filled(LeadCmd(j))) == LeadKept(j) && Filled(LeadKept(j)) == LeadKept(j)
  {
  }

  /** Any other byte after the 255s is dropped. */
  lemma ByteDropped(j: nat, b: byte, body: seq<byte>)
    requires j > 0 && b != IAC && b != SE
    ensures Feed(Parser(Filled(LeadCmd(j)), true), [b] + (Doubled(body) + [IAC, SE])) == Handed(LeadKept(j) + body)
  {
    var p, q := Parser(Filled(LeadCmd(j)), true), Parser(Filled(LeadKept(j)), false);
    LeadDropped(j);
    FeedOne(p, b);
    FeedChunks(p, [b], Doubled(body) + [IAC, SE]);
    QuietBefore(q, Feed(q, Doubled(body) + [IAC, SE]));
    FeedBody(LeadKept(j), body);
    FeedChunks(q, Doubled(body), [IAC, SE]);
    FeedEnd(LeadKept(j) + body);
    QuietBefore(Parser(Filled(LeadKept(j) + body), false), Handed(LeadKept(j) + body));
  }

  lemma HandedSame(x: seq<byte>, y: seq<byte>)
    requires |x| >= MAX_CMD && |y| >= MAX_CMD
    ensures Handed(x) == Handed(y) <==> x[..MAX_CMD] == y[..MAX_CMD]
  {
    assert Handed(x).handled[0] == x[..MAX_CMD] && Handed(y).handled[0] == y[..MAX_CMD];
  }

  lemma HandedShort(x: seq<byte>, y: seq<byte>)
    requires |x| < |y| <= MAX_CMD
    ensures Handed(x) != Handed(y)
  {
    assert |Handed(x).handled[0]| < |Handed(y).handled[0]|;
  }

  lemma PrefixSame(x: seq<byte>, y: seq<byte>, z: seq<byte>)
    ensures x + y == x + z <==> y == z
  {
    assert (x + y)[|x|..] == y && (x + z)[|x|..] == z;
  }

  lemma DropClipped(payload: seq<byte>, j: nat)
    requires j < 29 && |payload| >= 30 && payload[..j] == Iacs(j)
    ensures (LeadKept(j) + payload[j + 1..])[..MAX_CMD] == LeadKept(j) + payload[j + 1..30]
    ensures ([IAC, SB] + payload)[..MAX_CMD] == LeadKept(j) + payload[j..29]
  {
    assert payload[..29] == payload[..j] + payload[j..29];
    assert ([IAC, SB] + payload)[..MAX_CMD] == [IAC, SB] + payload[..29];
  }

  lemma LongLeadClipped(payload: seq<byte>, j: nat)
    requires 29 <= j < |payload| && payload[..j] == Iacs(j)
    ensures (LeadKept(j) + payload[j + 1..])[..MAX_CMD] == ([IAC, SB] + payload)[..MAX_CMD]
  {
    assert payload[..29] == payload[..j][..29];
    assert ([IAC, SB] + payload)[..MAX_CMD] == [IAC, SB] + payload[..29];
  }

  /** When the dropped byte does not show. */
  lemma DropShows(payload: seq<byte>, j: nat)
    requires j == Lead(payload) && 0 < j < |payload|
    ensures Handed(LeadKept(j) + payload[j + 1..]) == Handed([IAC, SB] + payload)
            <==> |payload| >= 30 && (j >= 29 || payload[j..29] == payload[j + 1..30])
  {
    var x, y := LeadKept(j) + payload[j + 1..], [IAC, SB] + payload;
    if |payload| < 30 {
      HandedShort(x, y);
    } else {
      HandedSame(x, y);
      if j >= 29 {
        LongLeadClipped(payload, j);
      } else {
        DropClipped(payload, j);
        PrefixSame(LeadKept(j), payload[j + 1..30], payload[j..29]);
      }
    }
  }

  lemma LeadDelivers(payload: seq<byte>, j: nat)
    requires j == Lead(payload) && 0 < j < |payload|
    ensures Feed(IDLE, Frame(payload)) == Meaning(Sub(payload)) <==> Deliverable(payload)
  {
    var b, body := payload[j], payload[j + 1..];
    FrameAfterLead(payload);
    FeedAfterLead(j, Doubled(payload[j..]) + [IAC, SE]);
    RestDoubled(payload, j);
    if b == SE {
      EarlyEnd(j, body);
    } else {
      ByteDropped(j, b, body);
      DropShows(payload, j);
      HandedPayload(payload);
    }
  }

  lemma RestDoubled(payload: seq<byte>, j: nat)
    requires j < |payload| && payload[j] != IAC
    ensures Doubled(payload[j..]) + [IAC, SE] == [payload[j]] + (Doubled(payload[j + 1..]) + [IAC, SE])
  {
    assert payload[j..] == [payload[j]] + payload[j + 1..];
    DoubledConcat([payload[j]], payload[j + 1..]);
    DoubledOne(payload[j]);
  }

  lemma EmptyHangs()
    ensures Feed(IDLE, Frame([])).p != IDLE
  {
    assert Frame([]) == [IAC, SB, IAC] + [SE];
    FrameStart(IAC);
    FeedLast(IDLE, [IAC, SB, IAC], SE);
  }

  lemma IacsHang(payload: seq<byte>)
    requires payload != [] && Lead(payload) == |payload|
    ensures Feed(IDLE, Frame(payload)).p != IDLE
  {
    var j := |payload|;
    FrameAfterLead(payload);
    FeedAfterLead(j, Doubled(payload[j..]) + [IAC, SE]);
    assert Doubled(payload[j..]) + [IAC, SE] == [IAC, SE];
    AllIacsHang(j);
  }

  /** A frame of telnet_send_option comes out as one command with its payload exactly when the
      payload is deliverable. */
  lemma FrameDeliversExactly(payload: seq<byte>)
    ensures Feed(IDLE, Frame(payload)) == Meaning(Sub(payload)) <==> Deliverable(payload)
  {
    var j := Lead(payload);
    if payload == [] {
      EmptyHangs();
    } else if j == 0 {
      FrameDelivers(payload);
    } else if j == |payload| {
      IacsHang(payload);
    } else {
      LeadDelivers(payload, j);
    }
  }

  /** For payloads that fit, that is those with a first byte other than 255. */
  lemma ShortFrameDelivers(payload: seq<byte>)
    requires |payload| <= MAX_CMD - 2
    ensures Feed(IDLE, Frame(payload)) == Outcome(IDLE, [], [[IAC, SB] + payload])
            <==> payload != [] && payload[0] != IAC
  {
    FrameDeliversExactly(payload);
  }
}
