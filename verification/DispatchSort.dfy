/** The dispatch queue of a block device: elv_dispatch_sort puts each request into one-way
    elevator order from a boundary sector, without passing barriers, started requests or the
    opposite direction. */
module DispatchSort {
  import opened Wrappers

  datatype Rq = Rq(id: nat, pos: nat, sectors: nat, write: bool, discard: bool, soft: bool, hard: bool, started: bool)

  /** The stop flags: soft barrier, hard barrier, started. */
  predicate Fixed(r: Rq) {
    r.soft || r.hard || r.started
  }

  predicate SameKind(a: Rq, c: Rq) {
    a.write == c.write && a.discard == c.discard
  }

  /** The walk from the back stops at pos. */
  predicate Stops(rq: Rq, pos: Rq, boundary: nat) {
    || rq.discard != pos.discard
    || rq.write != pos.write
    || Fixed(pos)
    || (if rq.pos >= boundary then pos.pos >= boundary && rq.pos >= pos.pos
        else pos.pos >= boundary || rq.pos >= pos.pos)
  }

  // ----- One-way elevator order -----

  /** A head that sweeps up from the boundary and then starts again at sector 0 meets x no
      later than y. */
  predicate NoLater(x: nat, y: nat, boundary: nat) {
    if x >= boundary then y < boundary || x <= y else y < boundary && x <= y
  }

  lemma NoLaterOrders(x: nat, y: nat, z: nat, boundary: nat)
    ensures NoLater(x, y, boundary) || NoLater(y, x, boundary)
    ensures NoLater(x, y, boundary) && NoLater(y, x, boundary) ==> x == y
    ensures NoLater(x, y, boundary) && NoLater(y, z, boundary) ==> NoLater(x, z, boundary)
  {
  }

  predicate LinkOk(a: Rq, c: Rq, boundary: nat) {
    !Fixed(a) && !Fixed(c) && SameKind(a, c) ==> NoLater(a.pos, c.pos, boundary)
  }

  /** Within every run of unfixed requests of one kind, the order is one-way. */
  predicate Ordered(list: seq<Rq>, boundary: nat) {
    |list| <= 1 || (LinkOk(list[0], list[1], boundary) && Ordered(list[1..], boundary))
  }

  lemma {:induction false} OrderedConcat(s: seq<Rq>, t: seq<Rq>, boundary: nat)
    ensures Ordered(s + t, boundary) <==> Ordered(s, boundary) && Ordered(t, boundary)
                                          && (s != [] && t != [] ==> LinkOk(s[|s| - 1], t[0], boundary))
  {
    if s == [] {
      assert s + t == t;
    } else if |s| == 1 {
      assert (s + t)[1..] == t;
    } else {
      OrderedConcat(s[1..], t, boundary);
      assert (s + t)[1..] == s[1..] + t;
    }
  }

  /** A stretch of unfixed requests of one kind. */
  predicate OneRun(s: seq<Rq>) {
    s == [] || (!Fixed(s[0]) && (|s| > 1 ==> SameKind(s[0], s[1])) && OneRun(s[1..]))
  }

  function Sectors(s: seq<Rq>): (r: seq<nat>)
    ensures |r| == |s|
  {
    if s == [] then [] else [s[0].pos] + Sectors(s[1..])
  }

  predicate Sweep(s: seq<nat>, boundary: nat) {
    |s| <= 1 || (NoLater(s[0], s[1], boundary) && Sweep(s[1..], boundary))
  }

  /** What Ordered says of one run, whichever requests surround it. */
  lemma {:induction false} RunSweeps(s: seq<Rq>, boundary: nat)
    requires OneRun(s)
    ensures Ordered(s, boundary) <==> Sweep(Sectors(s), boundary)
  {
    if |s| > 1 {
      RunSweeps(s[1..], boundary);
      assert Sectors(s)[1..] == Sectors(s[1..]);
      assert Sectors(s)[1] == Sectors(s[1..])[0];
    }
  }

  lemma {:induction false} SweepFirst(s: seq<nat>, boundary: nat, k: nat)
    requires Sweep(s, boundary) && k < |s|
    ensures NoLater(s[0], s[k], boundary)
  {
    if k > 0 {
      SweepFirst(s[1..], boundary, k - 1);
    }
  }

  lemma {:induction false} SweepTail(s: seq<nat>, boundary: nat, k: nat)
    requires Sweep(s, boundary) && k <= |s|
    ensures Sweep(s[k..], boundary)
  {
    if k > 0 {
      SweepTail(s[1..], boundary, k - 1);
      assert s[1..][k - 1..] == s[k..];
    } else {
      assert s[0..] == s;
    }
  }

  /** A run has at most one backward seek. */
  lemma OneBackwardSeek(s: seq<nat>, boundary: nat, j: nat, k: nat)
    requires Sweep(s, boundary) && j + 1 < |s| && k + 1 < |s|
    requires s[j + 1] < s[j] && s[k + 1] < s[k]
    ensures j == k
  {
    var lo, hi := if j < k then j else k, if j < k then k else j;
    SweepTail(s, boundary, lo);
    SweepTail(s, boundary, hi);
    SweepFirst(s[lo..], boundary, 1);
    SweepFirst(s[hi..], boundary, 1);
    if lo < hi {
      SweepTail(s, boundary, lo + 1);
      SweepFirst(s[lo + 1..], boundary, hi - (lo + 1));
    }
  }

  // ----- The boundary moves with the disk head -----

  predicate Inside(x: nat, h: nat, end: nat) {
    h <= x < end
  }

  ghost predicate AllInside(s: seq<nat>, h: nat, end: nat) {
    forall x :: x in s ==> Inside(x, h, end)
  }

  ghost predicate NoneInside(s: seq<nat>, h: nat, end: nat) {
    forall x :: x in s ==> !Inside(x, h, end)
  }

  /** Once the first request of a run has been started and its end is the boundary, the rest of
      the run is a sweep from there if and only if no request of the rest begins inside the
      started one, or all do. */
  lemma {:induction false} HeadAdvances(h: nat, end: nat, rest: seq<nat>, boundary: nat)
    requires h <= end && Sweep([h] + rest, boundary)
    ensures Sweep(rest, end) <==> AllInside(rest, h, end) || NoneInside(rest, h, end)
  {
    assert ([h] + rest)[1..] == rest;
    if |rest| > 1 {
      var x, y := rest[0], rest[1];
      assert NoLater(h, x, boundary) && NoLater(x, y, boundary);
      var shorter := [h] + rest[1..];
      assert shorter[1..] == rest[1..] && Sweep(rest[1..], boundary);
      HeadAdvances(h, end, rest[1..], boundary);
      assert rest == [x] + rest[1..];
      assert y in rest[1..];
      InsideFirst(h, end, rest, boundary);
      InsideFirst(h, end, rest[1..], boundary);
    }
  }

  /** In a sweep that begins at h, requests that begin inside come before all others. */
  lemma InsideFirst(h: nat, end: nat, rest: seq<nat>, boundary: nat)
    requires h <= end && rest != [] && Sweep([h] + rest, boundary)
    ensures !Inside(rest[0], h, end) ==> NoneInside(rest, h, end)
  {
    assert ([h] + rest)[1..] == rest;
    assert NoLater(h, rest[0], boundary);
    if !Inside(rest[0], h, end) {
      forall z | z in rest ensures !Inside(z, h, end) {
        var k :| 0 <= k < |rest| && rest[k] == z;
        SweepFirst(rest, boundary, k);
      }
    }
  }

  function Lower(a: nat, b: nat): nat {
    if a <= b then a else b
  }

  function Upper(a: nat, b: nat): nat {
    if a <= b then b else a
  }

  /** Two requests keep their order when the boundary moves if and only if it passes both of
      them or neither. */
  lemma OrderMoves(x: nat, y: nat, from: nat, to: nat)
    requires NoLater(x, y, from)
    ensures NoLater(x, y, to)
            <==> Inside(x, Lower(from, to), Upper(from, to)) == Inside(y, Lower(from, to), Upper(from, to))
  {
  }

  /** In every run, the requests at lo and beyond but before hi have no others beside them. */
  predicate SameSide(list: seq<Rq>, lo: nat, hi: nat) {
    |list| <= 1 || (LinkSameSide(list[0], list[1], lo, hi) && SameSide(list[1..], lo, hi))
  }

  predicate LinkSameSide(a: Rq, c: Rq, lo: nat, hi: nat) {
    !Fixed(a) && !Fixed(c) && SameKind(a, c) ==> Inside(a.pos, lo, hi) == Inside(c.pos, lo, hi)
  }

  /** However the boundary moves, the queue stays in order from it if and only if it passes, of
      each run, all requests or none. */
  lemma {:induction false} BoundaryMoves(list: seq<Rq>, from: nat, to: nat)
    requires Ordered(list, from)
    ensures Ordered(list, to) <==> SameSide(list, Lower(from, to), Upper(from, to))
  {
    if |list| > 1 {
      BoundaryMoves(list[1..], from, to);
      if !Fixed(list[0]) && !Fixed(list[1]) && SameKind(list[0], list[1]) {
        OrderMoves(list[0].pos, list[1].pos, from, to);
      }
    }
  }

  /** SameSide for one run: all requests are inside, or none is. */
  lemma {:induction false} RunSameSide(s: seq<Rq>, lo: nat, hi: nat)
    requires OneRun(s)
    ensures SameSide(s, lo, hi) <==> AllInside(Sectors(s), lo, hi) || NoneInside(Sectors(s), lo, hi)
  {
    if s != [] {
      assert Sectors(s) == [s[0].pos] + Sectors(s[1..]);
      if |s| > 1 {
        RunSameSide(s[1..], lo, hi);
        assert Sectors(s[1..])[0] == s[1].pos;
        assert s[1].pos in Sectors(s[1..]) && s[1].pos in Sectors(s);
      }
    }
  }

  /** So when a read is started, the writes behind it can get out of order. */
  lemma OtherRunLost()
    ensures var gets, puts := [Rq(1, 200, 8, false, false, false, false, false)],
                [Rq(2, 150, 8, true, false, false, false, false), Rq(3, 50, 8, true, false, false, false, false)];
            Ordered(gets + puts, 100) && !SameSide(puts, 100, 208) && !Ordered(puts, 208)
  {
    var gets, puts := [Rq(1, 200, 8, false, false, false, false, false)],
      [Rq(2, 150, 8, true, false, false, false, false), Rq(3, 50, 8, true, false, false, false, false)];
    OrderedConcat(gets, puts, 100);
    assert |puts[1..]| == 1;
    BoundaryMoves(puts, 100, 208);
  }

  // ----- Where a request goes -----

  /** The place of the request in the queue: behind the last request the walk stops at. */
  function Place(list: seq<Rq>, rq: Rq, boundary: nat): (i: nat)
    ensures i <= |list|
  {
    if list == [] then 0
    else if Stops(rq, list[|list| - 1], boundary) then |list|
    else Place(list[..|list| - 1], rq, boundary)
  }

  ghost predicate Passes(list: seq<Rq>, rq: Rq, boundary: nat, i: nat) {
    forall k :: i <= k < |list| ==> !Stops(rq, list[k], boundary)
  }

  lemma {:induction false} PlaceIsUnique(list: seq<Rq>, rq: Rq, boundary: nat, i: nat)
    requires i <= |list|
    ensures i == Place(list, rq, boundary)
            <==> Passes(list, rq, boundary, i) && (i == 0 || Stops(rq, list[i - 1], boundary))
  {
    if list != [] {
      var n := |list| - 1;
      if !Stops(rq, list[n], boundary) && i <= n {
        PlaceIsUnique(list[..n], rq, boundary, i);
      }
    }
  }

  function Sorted(list: seq<Rq>, rq: Rq, boundary: nat): seq<Rq> {
    var i := Place(list, rq, boundary);
    list[..i] + ([rq] + list[i..])
  }

  /** Sorting a request in keeps every run in order. */
  lemma SortedOrdered(list: seq<Rq>, rq: Rq, boundary: nat)
    requires Ordered(list, boundary)
    ensures Ordered(Sorted(list, rq, boundary), boundary)
  {
    var i := Place(list, rq, boundary);
    PlaceIsUnique(list, rq, boundary, i);
    assert list == list[..i] + list[i..];
    OrderedConcat(list[..i], list[i..], boundary);
    OrderedConcat([rq], list[i..], boundary);
    OrderedConcat(list[..i], [rq] + list[i..], boundary);
    if i < |list| {
      assert !Stops(rq, list[i], boundary);
    }
  }

  /** What the request passes is unfixed, of its kind and strictly later in the sweep. */
  lemma PassesOnlyLater(list: seq<Rq>, rq: Rq, boundary: nat, k: nat)
    requires Place(list, rq, boundary) <= k < |list|
    ensures !Fixed(list[k]) && SameKind(rq, list[k]) && !NoLater(list[k].pos, rq.pos, boundary)
  {
    PlaceIsUnique(list, rq, boundary, Place(list, rq, boundary));
    assert !Stops(rq, list[k], boundary);
  }

  lemma {:induction false} OrderedAt(list: seq<Rq>, boundary: nat, k: nat)
    requires Ordered(list, boundary) && k + 1 < |list|
    ensures LinkOk(list[k], list[k + 1], boundary)
  {
    if k > 0 {
      OrderedAt(list[1..], boundary, k - 1);
    }
  }

  lemma RunNext(list: seq<Rq>, k: nat, rq: Rq)
    requires k < |list| && OneRun(list[k..] + [rq])
    ensures OneRun(list[k + 1..] + [rq])
    ensures !Fixed(list[k]) && SameKind(list[k], rq)
  {
    var run := list[k..] + [rq];
    assert run[1..] == list[k + 1..] + [rq];
    RunKind(list[k..], rq);
  }

  /** What stays ahead of it in the last run is no later in the sweep: requests for the same
      sector keep the order in which they came. */
  lemma {:induction false} StaysBehindEarlier(list: seq<Rq>, rq: Rq, boundary: nat, k: nat)
    requires Ordered(list, boundary) && k < Place(list, rq, boundary)
    requires OneRun(list[k..] + [rq])
    ensures NoLater(list[k].pos, rq.pos, boundary)
    decreases |list| - k
  {
    RunNext(list, k, rq);
    if k + 1 < Place(list, rq, boundary) {
      RunNext(list, k + 1, rq);
      StaysBehindEarlier(list, rq, boundary, k + 1);
      OrderedAt(list, boundary, k);
    } else {
      PlaceIsUnique(list, rq, boundary, k + 1);
      assert Stops(rq, list[k], boundary);
    }
  }

  lemma {:induction false} RunKind(s: seq<Rq>, rq: Rq)
    requires s != [] && OneRun(s + [rq])
    ensures SameKind(s[0], rq) && !Fixed(s[0]) && !Fixed(rq)
  {
    assert (s + [rq])[1..] == s[1..] + [rq];
    if |s| > 1 {
      RunKind(s[1..], rq);
    } else {
      assert s[1..] + [rq] == [rq];
    }
  }

  // ----- Order kept over series of operations -----

  /** The elements of a occur in b, in this order. */
  predicate Sub<T(==)>(a: seq<T>, b: seq<T>) {
    a == [] || (b != [] && if a[0] == b[0] then Sub(a[1..], b[1..]) else Sub(a, b[1..]))
  }

  lemma {:induction false} SubTail<T>(a: seq<T>, b: seq<T>)
    requires a != [] && Sub(a, b)
    ensures Sub(a[1..], b)
    decreases |b|
  {
    if a[0] == b[0] {
      if |a| > 1 {
        if a[1] == b[0] {
          SubTail(a[1..], b[1..]);
        }
      }
    } else {
      SubTail(a, b[1..]);
      if |a| > 1 && a[1] == b[0] {
        SubTail(a[1..], b[1..]);
      }
    }
  }

  lemma {:induction false} SubInserted<T>(a: seq<T>, b: seq<T>, i: nat, x: T)
    requires Sub(a, b) && i <= |b|
    ensures Sub(a, b[..i] + ([x] + b[i..]))
    decreases |b|
  {
    var c := b[..i] + ([x] + b[i..]);
    if a != [] {
      if i == 0 {
        assert c[1..] == b;
        SubTail(a, b);
      } else {
        assert c[0] == b[0] && c[1..] == b[1..][..i - 1] + ([x] + b[1..][i - 1..]);
        SubInserted(if a[0] == b[0] then a[1..] else a, b[1..], i - 1, x);
      }
    }
  }

  lemma {:induction false} SubTaken<T>(a: seq<T>, b: seq<T>, i: nat)
    requires Sub(a, b) && i < |b| && b[i] !in a
    ensures Sub(a, b[..i] + b[i + 1..])
    decreases |b|
  {
    var c := b[..i] + b[i + 1..];
    if a != [] {
      if i == 0 {
        assert c == b[1..];
      } else {
        assert c[0] == b[0] && c[1..] == b[1..][..i - 1] + b[1..][i..];
        SubTaken(if a[0] == b[0] then a[1..] else a, b[1..], i - 1);
      }
    }
  }

  function Ids(list: seq<Rq>): (r: seq<nat>)
    ensures |r| == |list|
  {
    seq(|list|, i requires 0 <= i < |list| => list[i].id)
  }

  lemma IdsConcat(s: seq<Rq>, t: seq<Rq>)
    ensures Ids(s + t) == Ids(s) + Ids(t)
  {
  }

  lemma IdsInserted(s: seq<Rq>, rq: Rq, t: seq<Rq>, a: seq<nat>)
    requires Sub(a, Ids(s + t))
    ensures Sub(a, Ids(s + ([rq] + t)))
  {
    IdsConcat(s, t);
    IdsConcat([rq], t);
    IdsConcat(s, [rq] + t);
    SubInserted(a, Ids(s + t), |s|, rq.id);
    assert Ids(s + t)[..|s|] == Ids(s) && Ids(s + t)[|s|..] == Ids(t);
    assert Ids([rq]) == [rq.id];
  }

  lemma IdsTaken(s: seq<Rq>, rq: Rq, t: seq<Rq>, a: seq<nat>)
    requires Sub(a, Ids(s + ([rq] + t))) && rq.id !in a
    ensures Sub(a, Ids(s + t))
  {
    IdsConcat(s, t);
    IdsConcat([rq], t);
    IdsConcat(s, [rq] + t);
    assert Ids([rq]) == [rq.id];
    var all := Ids(s) + ([rq.id] + Ids(t));
    SubTaken(a, all, |s|);
    assert all[..|s|] == Ids(s) && all[|s| + 1..] == Ids(t);
  }

  /** What happens to the dispatch queue while the boundary stays: the elevator sorts a request
      in; one is put at the front (also when requeued) or at the back, which makes it a soft
      barrier; the driver is shown the first one, which is started then; and a started one is
      taken off. */
  datatype Op = Sort(rq: Rq) | Front(rq: Rq) | Back(rq: Rq) | Start | Take(k: nat)

  function Do(list: seq<Rq>, op: Op, boundary: nat): seq<Rq> {
    match op
    case Sort(rq) => Sorted(list, rq, boundary)
    case Front(rq) => [rq.(soft := true)] + list
    case Back(rq) => list + [rq.(soft := true)]
    case Start => if list == [] then [] else [list[0].(started := true)] + list[1..]
    case Take(k) => if k < |list| && list[k].started then list[..k] + list[k + 1..] else list
  }

  function Run(list: seq<Rq>, ops: seq<Op>, boundary: nat): seq<Rq>
    decreases |ops|
  {
    if ops == [] then list else Run(Do(list, ops[0], boundary), ops[1..], boundary)
  }

  predicate NoneStarted(list: seq<Rq>) {
    list == [] || (!list[0].started && NoneStarted(list[1..]))
  }

  /** Before a started request there are only fixed ones. */
  predicate Led(list: seq<Rq>) {
    list == [] || if Fixed(list[0]) then Led(list[1..]) else NoneStarted(list)
  }

  predicate NotStarted(op: Op) {
    (op.Sort? || op.Front? || op.Back?) ==> !op.rq.started
  }

  lemma {:induction false} NoneStartedInserted(s: seq<Rq>, rq: Rq, t: seq<Rq>)
    requires NoneStarted(s + t) && !rq.started
    ensures NoneStarted(s + ([rq] + t))
  {
    if s == [] {
      assert s + t == t && s + ([rq] + t) == [rq] + t;
      assert ([rq] + t)[1..] == t;
    } else {
      assert (s + t)[1..] == s[1..] + t && (s + ([rq] + t))[1..] == s[1..] + ([rq] + t);
      NoneStartedInserted(s[1..], rq, t);
    }
  }

  /** A request that is not started may go behind all the started ones. */
  lemma {:induction false} LedInserted(s: seq<Rq>, rq: Rq, t: seq<Rq>)
    requires Led(s + t) && NoneStarted(t) && !rq.started
    ensures Led(s + ([rq] + t))
  {
    if s == [] {
      assert s + t == t && s + ([rq] + t) == [rq] + t;
      assert ([rq] + t)[1..] == t;
      NoneStartedLed(t);
    } else {
      assert (s + t)[1..] == s[1..] + t && (s + ([rq] + t))[1..] == s[1..] + ([rq] + t);
      if Fixed(s[0]) {
        LedInserted(s[1..], rq, t);
      } else {
        NoneStartedInserted(s, rq, t);
      }
    }
  }

  lemma {:induction false} NoneStartedLed(t: seq<Rq>)
    requires NoneStarted(t)
    ensures Led(t)
  {
    if t != [] {
      NoneStartedLed(t[1..]);
    }
  }

  lemma {:induction false} PassedNotStarted(list: seq<Rq>, rq: Rq, boundary: nat, i: nat)
    requires i <= |list| && Passes(list, rq, boundary, i)
    ensures NoneStarted(list[i..])
    decreases |list| - i
  {
    if i < |list| {
      PassedNotStarted(list, rq, boundary, i + 1);
      assert list[i..][1..] == list[i + 1..];
      assert !Stops(rq, list[i], boundary);
    }
  }

  /** Taking off a started request joins no two runs. */
  lemma {:induction false} TakeKeeps(list: seq<Rq>, k: nat, boundary: nat)
    requires Ordered(list, boundary) && Led(list) && k < |list| && list[k].started
    ensures Ordered(list[..k] + list[k + 1..], boundary) && Led(list[..k] + list[k + 1..])
  {
    if k == 0 {
      assert list[..k] + list[k + 1..] == list[1..];
    } else if Fixed(list[0]) {
      TakeKeeps(list[1..], k - 1, boundary);
      var rest := list[1..][..k - 1] + list[1..][k..];
      assert list[..k] + list[k + 1..] == [list[0]] + rest;
      OrderedConcat([list[0]], rest, boundary);
      assert ([list[0]] + rest)[1..] == rest;
    } else {
      StartedAt(list, k);
    }
  }

  lemma {:induction false} StartedAt(list: seq<Rq>, k: nat)
    requires NoneStarted(list) && k < |list|
    ensures !list[k].started
  {
    if k > 0 {
      StartedAt(list[1..], k - 1);
    }
  }

  lemma DoKeeps(list: seq<Rq>, op: Op, boundary: nat)
    requires Ordered(list, boundary) && Led(list) && NotStarted(op)
    ensures Ordered(Do(list, op, boundary), boundary) && Led(Do(list, op, boundary))
  {
    match op
    case Sort(rq) =>
      SortedOrdered(list, rq, boundary);
      var i := Place(list, rq, boundary);
      PlaceIsUnique(list, rq, boundary, i);
      PassedNotStarted(list, rq, boundary, i);
      assert list == list[..i] + list[i..];
      LedInserted(list[..i], rq, list[i..]);
    case Front(rq) =>
      assert Do(list, op, boundary)[1..] == list;
    case Back(rq) =>
      var barrier := rq.(soft := true);
      OrderedConcat(list, [barrier], boundary);
      assert list + [] == list && list + ([barrier] + []) == list + [barrier];
      LedInserted(list, barrier, []);
    case Start =>
      if list != [] {
        assert Do(list, op, boundary)[1..] == list[1..];
        if !Fixed(list[0]) {
          NoneStartedLed(list[1..]);
        }
      }
    case Take(k) =>
      if k < |list| && list[k].started {
        TakeKeeps(list, k, boundary);
      }
  }

  /** Over every series of operations, each run stays in one-way order from the boundary. */
  lemma {:induction false} RunKeeps(list: seq<Rq>, ops: seq<Op>, boundary: nat)
    requires Ordered(list, boundary) && Led(list) && forall op :: op in ops ==> NotStarted(op)
    ensures Ordered(Run(list, ops, boundary), boundary) && Led(Run(list, ops, boundary))
    decreases |ops|
  {
    if ops != [] {
      DoKeeps(list, ops[0], boundary);
      RunKeeps(Do(list, ops[0], boundary), ops[1..], boundary);
    }
  }

  /** The operation does not take off one of these requests. */
  predicate Leaves(list: seq<Rq>, op: Op, a: seq<nat>) {
    op.Take? && op.k < |list| ==> list[op.k].id !in a
  }

  lemma DoKeepsOrder(list: seq<Rq>, op: Op, boundary: nat, a: seq<nat>)
    requires Sub(a, Ids(list)) && Leaves(list, op, a)
    ensures Sub(a, Ids(Do(list, op, boundary)))
  {
    match op
    case Sort(rq) =>
      var i := Place(list, rq, boundary);
      assert list == list[..i] + list[i..];
      IdsInserted(list[..i], rq, list[i..], a);
    case Front(rq) =>
      assert [] + list == list;
      IdsInserted([], rq.(soft := true), list, a);
      assert [] + ([rq.(soft := true)] + list) == [rq.(soft := true)] + list;
    case Back(rq) =>
      assert list + [] == list;
      IdsInserted(list, rq.(soft := true), [], a);
      assert [rq.(soft := true)] + [] == [rq.(soft := true)];
    case Start =>
      if list != [] {
        assert Ids(Do(list, op, boundary)) == Ids(list) by {
          assert Do(list, op, boundary)[1..] == list[1..];
        }
      }
    case Take(k) =>
      if k < |list| && list[k].started {
        assert list == list[..k] + ([list[k]] + list[k + 1..]);
        IdsTaken(list[..k], list[k], list[k + 1..], a);
      }
  }

  predicate AllLeave(list: seq<Rq>, ops: seq<Op>, boundary: nat, a: seq<nat>)
    decreases |ops|
  {
    ops == [] || (Leaves(list, ops[0], a) && AllLeave(Do(list, ops[0], boundary), ops[1..], boundary, a))
  }

  /** Requests in the queue keep their order for as long as they are in it: whatever was ahead
      of a request when it was sorted in is never passed by it, and nothing else is reordered. */
  lemma {:induction false} RunKeepsOrder(list: seq<Rq>, ops: seq<Op>, boundary: nat, a: seq<nat>)
    requires Sub(a, Ids(list)) && AllLeave(list, ops, boundary, a)
    ensures Sub(a, Ids(Run(list, ops, boundary)))
    decreases |ops|
  {
    if ops != [] {
      DoKeepsOrder(list, ops[0], boundary, a);
      RunKeepsOrder(Do(list, ops[0], boundary), ops[1..], boundary, a);
    }
  }

  /** Every fixed request, and every request of the other kind, is ahead of one sorted in later,
      and stays there. */
  lemma NeverPassed(list: seq<Rq>, k: nat, rq: Rq, ops: seq<Op>, boundary: nat)
    requires k < |list| && (Fixed(list[k]) || !SameKind(list[k], rq))
    requires AllLeave(Sorted(list, rq, boundary), ops, boundary, [list[k].id, rq.id])
    ensures Sub([list[k].id, rq.id], Ids(Run(Sorted(list, rq, boundary), ops, boundary)))
  {
    var i := Place(list, rq, boundary);
    if i <= k {
      PassesOnlyLater(list, rq, boundary, k);
    }
    assert list[..i] == list[..k] + ([list[k]] + list[k + 1..i]);
    var pair := [list[k].id, rq.id];
    IdsConcat(list[..i], [rq] + list[i..]);
    IdsConcat(list[..k], [list[k]] + list[k + 1..i]);
    PairSub(Ids(list[..k]), list[k].id, Ids(list[k + 1..i]), rq.id, Ids(list[i..]));
    IdsConcat([list[k]], list[k + 1..i]);
    IdsConcat([rq], list[i..]);
    assert Ids([list[k]]) == [list[k].id] && Ids([rq]) == [rq.id];
    RunKeepsOrder(Sorted(list, rq, boundary), ops, boundary, pair);
  }

  lemma {:induction false} PairSub(s: seq<nat>, x: nat, t: seq<nat>, y: nat, u: seq<nat>)
    ensures Sub([x, y], (s + ([x] + t)) + ([y] + u))
    decreases |s| + |t|
  {
    var all := (s + ([x] + t)) + ([y] + u);
    if s == [] {
      assert all[1..] == t + ([y] + u);
      OneSub(t, y, u);
      assert [x, y][1..] == [y];
    } else {
      assert all[0] == s[0] && all[1..] == (s[1..] + ([x] + t)) + ([y] + u);
      PairSub(s[1..], x, t, y, u);
      if s[0] == x {
        SubTail([x, y], all[1..]);
      }
    }
  }

  lemma {:induction false} OneSub(t: seq<nat>, y: nat, u: seq<nat>)
    ensures Sub([y], t + ([y] + u))
  {
    var all := t + ([y] + u);
    assert [y][1..] == [];
    if t != [] && t[0] != y {
      assert all[1..] == t[1..] + ([y] + u);
      OneSub(t[1..], y, u);
    }
  }

  // ----- The queue -----

  class DispatchQueue {
    var queueHead: seq<Rq>
    var endSector: nat
    var boundaryRq: Option<nat>
    var nrSorted: int

    constructor ()
      ensures queueHead == [] && endSector == 0 && boundaryRq == None && nrSorted == 0
    {
      queueHead, endSector, boundaryRq, nrSorted := [], 0, None, 0;
    }

    /** elv_dispatch_sort */
    method DispatchSort(rq: Rq)
      modifies this`queueHead, this`nrSorted
      ensures queueHead == Sorted(old(queueHead), rq, endSector) && nrSorted == old(nrSorted) - 1
      ensures Ordered(old(queueHead), endSector) ==> Ordered(queueHead, endSector)
    {
      nrSorted := nrSorted - 1;
      var boundary, i := endSector, |queueHead|;
      while i > 0
        invariant 0 <= i <= |queueHead| && Passes(queueHead, rq, boundary, i)
      {
        var pos := queueHead[i - 1];
        if rq.discard != pos.discard {
          break;
        }
        if rq.write != pos.write {
          break;
        }
        if Fixed(pos) {
          break;
        }
        if rq.pos >= boundary {
          if pos.pos < boundary {
            i := i - 1;
            continue;
          }
        } else {
          if pos.pos >= boundary {
            break;
          }
        }
        if rq.pos >= pos.pos {
          break;
        }
        i := i - 1;
      }
      PlaceIsUnique(queueHead, rq, boundary, i);
      if Ordered(queueHead, boundary) {
        SortedOrdered(queueHead, rq, boundary);
      }
      queueHead := queueHead[..i] + ([rq] + queueHead[i..]);
    }

    /** The part of blk_peek_request that marks the first request and moves the boundary: what
        is behind it stays in order if and only if the boundary passes, of each run, all
        requests or none. */
    method StartFirst()
      requires queueHead != []
      modifies this`queueHead, this`endSector, this`boundaryRq
      ensures queueHead == Do(old(queueHead), Start, old(endSector))
      ensures var rq := old(queueHead)[0];
              if old(boundaryRq).None? || old(boundaryRq) == Some(rq.id)
              then endSector == rq.pos + rq.sectors && boundaryRq == None
              else endSector == old(endSector) && boundaryRq == old(boundaryRq)
      ensures Ordered(old(queueHead), old(endSector))
              ==> (Ordered(queueHead[1..], endSector)
                   <==> SameSide(queueHead[1..], Lower(old(endSector), endSector), Upper(old(endSector), endSector)))
      ensures |queueHead| > 1 && OneRun(old(queueHead)) && Ordered(old(queueHead), old(endSector))
              && endSector != old(endSector)
              ==> var rest := queueHead[1..];
                  (Ordered(rest, endSector)
                   <==> AllInside(Sectors(rest), queueHead[0].pos, endSector)
                        || NoneInside(Sectors(rest), queueHead[0].pos, endSector))
    {
      var rq := queueHead[0];
      var rest := queueHead[1..];
      if Ordered(queueHead, endSector) {
        BoundaryMoves(rest, endSector, rq.pos + rq.sectors);
        BoundaryMoves(rest, endSector, endSector);
      }
      queueHead := [rq.(started := true)] + rest;
      if boundaryRq.None? || boundaryRq == Some(rq.id) {
        if OneRun(old(queueHead)) && Ordered(old(queueHead), old(endSector)) {
          RunSweeps(old(queueHead), endSector);
          RunSweeps(rest, rq.pos + rq.sectors);
          HeadAdvances(rq.pos, rq.pos + rq.sectors, Sectors(rest), endSector);
        }
        endSector := rq.pos + rq.sectors;
        boundaryRq := None;
      }
    }
  }
}
