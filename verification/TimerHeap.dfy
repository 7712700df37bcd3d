/** The timer heap of the select loop: a complete binary min-heap held together only by
    left/right/up links, a `top` pointer and a `last` pointer, and the walks that find the
    next and the previous level-order slot by counting steps up and down. */
module TimerHeap {

  datatype Time = Time(sec: int, usec: int)

  /** cmp_timeval: seconds first, then microseconds. */
  function CmpTimeval(t1: Time, t2: Time): (r: int)
    ensures r < 0 <==> t1.sec < t2.sec || (t1.sec == t2.sec && t1.usec < t2.usec)
    ensures r == 0 <==> t1 == t2
  {
    if t1.sec < t2.sec then -1
    else if t1.sec > t2.sec then 1
    else if t1.usec < t2.usec then -1
    else if t1.usec > t2.usec then 1
    else 0
  }

  predicate Le(t1: Time, t2: Time) {
    CmpTimeval(t1, t2) <= 0
  }

  const MILLION := 1000000

  function Micros(t: Time): int {
    t.sec * MILLION + t.usec
  }

  /** The difference of two times, forced to zero when it would be negative. */
  method DiffTimeval(left: Time, right: Time) returns (dest: Time)
    ensures CmpTimeval(left, right) < 0 ==> dest == Time(0, 0)
    ensures CmpTimeval(left, right) >= 0 ==> Micros(dest) == Micros(left) - Micros(right) && dest.usec >= 0
    ensures 0 <= left.usec < MILLION && 0 <= right.usec < MILLION ==> dest.sec >= 0 && dest.usec < MILLION
    ensures 0 <= left.usec < MILLION && 0 <= right.usec < MILLION && CmpTimeval(left, right) > 0 ==> Micros(dest) > 0
  {
    if left.sec < right.sec || (left.sec == right.sec && left.usec < right.usec) {
      return Time(0, 0);
    }
    var sec, usec := left.sec - right.sec, left.usec - right.usec;
    while usec < 0
      invariant sec * MILLION + usec == Micros(left) - Micros(right)
      invariant 0 <= left.usec < MILLION && 0 <= right.usec < MILLION ==>
                  -MILLION < usec < MILLION && (sec > 0 || (sec == 0 && usec >= 0))
      decreases -usec
    {
      usec := usec + MILLION;
      sec := sec - 1;
    }
    return Time(sec, usec);
  }

  datatype Status = Done | Busy | TimedOut

  class Timer {
    var timeout: Time
    var inHeap: bool
    var left: Timer?
    var right: Timer?
    var up: Timer?
    ghost var slot: nat  // where the timer sits in level order, while it is in a heap

    constructor ()
      ensures !inHeap
    {
      timeout := Time(0, 0);
      inHeap := false;
      left, right, up := null, null, null;
    }
  }

  /** What a handler may do to the heap while it runs. */
  datatype Action = Start(t: Timer, at: Time) | Stop(t: Timer)

  /** A timer fired at reading `now` of the clock, when `timeout` was its time. */
  datatype Firing = Firing(t: Timer, timeout: Time, now: Time)

  function Actions(handlers: seq<seq<Action>>): nat {
    if handlers == [] then 0 else |handlers[0]| + Actions(handlers[1..])
  }

  /** What is left of `handlers` after `k` firings. */
  function Rest(handlers: seq<seq<Action>>, k: nat): seq<seq<Action>> {
    if k < |handlers| then handlers[k..] else []
  }

  lemma RestStep(handlers: seq<seq<Action>>, k: nat)
    ensures Actions(Rest(handlers, k)) == (if k < |handlers| then |handlers[k]| else 0) + Actions(Rest(handlers, k + 1))
  {
    if k < |handlers| {
      assert handlers[k..][1..] == handlers[k + 1..];
      assert k + 1 == |handlers| ==> handlers[k + 1..] == [];
    }
  }

  ghost predicate FiredWhenDue(fired: seq<Firing>, clock: nat -> Time) {
    forall k :: 0 <= k < |fired| ==> fired[k].now == clock(k) && Le(fired[k].timeout, fired[k].now)
  }

  /** The timers of the heap with their timeouts. */
  type Armed = map<Timer, Time>

  ghost function ArmedOf(s: set<Timer>): Armed
    reads s`timeout
  {
    map u | u in s :: u.timeout
  }

  /** What an action makes of the heap: a timer that is in it cannot be started. */
  ghost function Acted(h: Armed, x: Action): Armed {
    match x
    case Start(t, at) => if t in h then h else h[t := at]
    case Stop(t) => h - {t}
  }

  ghost function ActedAll(h: Armed, actions: seq<Action>): Armed {
    if actions == [] then h
    else Acted(ActedAll(h, actions[..|actions| - 1]), actions[|actions| - 1])
  }

  function HandlerOf(handlers: seq<seq<Action>>, k: nat): seq<Action> {
    if k < |handlers| then handlers[k] else []
  }

  /** One firing: of the timers in the heap `before` it is a minimum, and `after` is what its
      handler makes of the others. */
  ghost predicate FiresAs(f: Firing, actions: seq<Action>, before: Armed, after: Armed) {
    && f.t in before && before[f.t] == f.timeout
    && (forall u :: u in before ==> Le(f.timeout, before[u]))
    && after == ActedAll(before - {f.t}, actions)
  }

  /** `heaps` are the heaps before each firing and after the last one. */
  ghost predicate Traced(fired: seq<Firing>, handlers: seq<seq<Action>>, heaps: seq<Armed>) {
    && |heaps| == |fired| + 1
    && forall k :: 0 <= k < |fired| ==> FiresAs(fired[k], HandlerOf(handlers, k), heaps[k], heaps[k + 1])
  }

  /** The log of the firing loop. */
  ghost predicate Logged(fired: seq<Firing>, clock: nat -> Time, handlers: seq<seq<Action>>, heaps: seq<Armed>) {
    FiredWhenDue(fired, clock) && Traced(fired, handlers, heaps)
  }

  ghost predicate FiredInOrder(fired: seq<Firing>) {
    forall i, j :: 0 <= i < j < |fired| ==> Le(fired[i].timeout, fired[j].timeout)
  }

  ghost function FiredTimers(fired: seq<Firing>): set<Timer> {
    set f | f in fired :: f.t
  }

  lemma LogGrows(fired: seq<Firing>, f: Firing, clock: nat -> Time, handlers: seq<seq<Action>>, heaps: seq<Armed>,
      after: Armed)
    requires Logged(fired, clock, handlers, heaps) && f.now == clock(|fired|) && Le(f.timeout, f.now)
    requires FiresAs(f, HandlerOf(handlers, |fired|), heaps[|fired|], after)
    ensures Logged(fired + [f], clock, handlers, heaps + [after])
  {
    var fired', heaps' := fired + [f], heaps + [after];
    forall k | 0 <= k < |fired'| ensures FiresAs(fired'[k], HandlerOf(handlers, k), heaps'[k], heaps'[k + 1]) {
      assert k < |fired| ==> FiresAs(fired[k], HandlerOf(handlers, k), heaps[k], heaps[k + 1]);
    }
  }

  /** The timers fired in order so far, and those left, are the ones there were. */
  ghost predicate InTurn(fired: seq<Firing>, left: set<Timer>, size: nat, was: set<Timer>, n: nat) {
    FiredInOrder(fired) && |fired| + size == n && was == left + FiredTimers(fired)
  }

  lemma InTurnGrows(fired: seq<Firing>, f: Firing, left: set<Timer>, size: nat, was: set<Timer>, n: nat)
    requires InTurn(fired, left, size, was, n) && f.t in left && size > 0
    requires fired != [] ==> Le(fired[|fired| - 1].timeout, f.timeout)
    ensures InTurn(fired + [f], left - {f.t}, size - 1, was, n)
  {
    assert forall g :: g in fired + [f] <==> g in fired || g == f;
    assert FiredTimers(fired + [f]) == FiredTimers(fired) + {f.t};
  }

  // ----- The level-order view -----

  ghost function Slot(a: seq<Timer>, k: nat): Timer? {
    if k < |a| then a[k] else null
  }

  ghost function Parent(a: seq<Timer>, k: nat): Timer?
    requires k <= |a|
  {
    if k == 0 then null else a[(k - 1) / 2]
  }

  /** What a timer stores about its place in the heap. */
  datatype Links = Links(left: Timer?, right: Timer?, up: Timer?, slot: nat)

  ghost function LinksOf(t: Timer): Links
    reads t`left, t`right, t`up, t`slot
  {
    Links(t.left, t.right, t.up, t.slot)
  }

  /** The links that slot `k` must hold: its neighbours in level order. */
  ghost function Expected(a: seq<Timer>, k: nat): Links
    requires k < |a|
  {
    Links(Slot(a, 2 * k + 1), Slot(a, 2 * k + 2), Parent(a, k), k)
  }

  ghost predicate NodeOk(a: seq<Timer>, k: nat)
    requires k < |a|
    reads a`left, a`right, a`up, a`slot
  {
    LinksOf(a[k]) == Expected(a, k)
  }

  ghost predicate Linked(a: seq<Timer>)
    reads a`left, a`right, a`up, a`slot
  {
    forall k :: 0 <= k < |a| ==> NodeOk(a, k)
  }

  /** The edge above slot `k` respects the order on timeouts. */
  ghost predicate EdgeOk(a: seq<Timer>, k: nat)
    requires k < |a|
    reads a`timeout
  {
    k > 0 ==> Le(a[(k - 1) / 2].timeout, a[k].timeout)
  }

  ghost predicate Ordered(a: seq<Timer>)
    reads a`timeout
  {
    forall k :: 0 <= k < |a| ==> EdgeOk(a, k)
  }

  ghost function Elems(a: seq<Timer>): set<Timer> {
    set t | t in a
  }

  /** The root is a minimum: no timer in the heap times out before it. */
  lemma {:induction false} TopIsMinimum(a: seq<Timer>, k: nat)
    requires Ordered(a) && k < |a|
    ensures Le(a[0].timeout, a[k].timeout)
  {
    if k > 0 {
      TopIsMinimum(a, (k - 1) / 2);
      assert EdgeOk(a, k);
    }
  }

  ghost function Exchange(a: seq<Timer>, i: nat, j: nat): (b: seq<Timer>)
    requires i < |a| && j < |a|
  {
    a[i := a[j]][j := a[i]]
  }

  lemma ExchangeKeeps(a: seq<Timer>, i: nat, j: nat)
    requires i < |a| && j < |a|
    ensures Elems(Exchange(a, i, j)) == Elems(a)
  {
    var b := Exchange(a, i, j);
    assert b[i] == a[j] && b[j] == a[i];
    forall t ensures t in a <==> t in b {
      if t in a {
        var k :| 0 <= k < |a| && a[k] == t;
        assert b[if k == i then j else if k == j then i else k] == t;
      }
      if t in b {
        var k :| 0 <= k < |b| && b[k] == t;
        assert a[if k == i then j else if k == j then i else k] == t;
      }
    }
  }

  /** The slot reached from `c` by `u` steps to the left. */
  ghost function LeftWalk(c: nat, u: nat): (r: nat)
    ensures u > 0 ==> r > c
    decreases u
  {
    if u == 0 then c else LeftWalk(2 * c + 1, u - 1)
  }

  /** The slot reached from `c` by `u` steps to the right. */
  ghost function RightWalk(c: nat, u: nat): (r: nat)
    ensures u > 0 ==> r > c
    decreases u
  {
    if u == 0 then c else RightWalk(2 * c + 2, u - 1)
  }

  lemma {:induction false} LeftWalkStep(c: nat, u: nat)
    ensures LeftWalk(c, u + 1) == 2 * LeftWalk(c, u) + 1
    decreases u
  {
    if u > 0 {
      LeftWalkStep(2 * c + 1, u - 1);
    }
  }

  /** `u` levels down, the leftmost slot under `c + 1` comes right after the rightmost
      slot under `c`. */
  lemma {:induction false} WalksMeet(c: nat, u: nat)
    ensures LeftWalk(c + 1, u) == RightWalk(c, u) + 1
    decreases u
  {
    if u > 0 {
      WalksMeet(2 * c + 2, u - 1);
    }
  }

  // ----- The heap -----

  /** Which child a timer is can be read off its slot. */
  lemma ChildSide(a: seq<Timer>, c: nat)
    requires Linked(a) && 0 < c < |a|
    ensures a[c].up == a[(c - 1) / 2] && a[c].slot == c
    ensures a[c].up.left == a[c] <==> c == 2 * ((c - 1) / 2) + 1
    ensures a[c].up.right == a[c] <==> c == 2 * ((c - 1) / 2) + 2
    ensures a[c].up.left == a[2 * ((c - 1) / 2) + 1]
    ensures a[c].up.right == Slot(a, 2 * ((c - 1) / 2) + 2)
  {
    var p := (c - 1) / 2;
    assert NodeOk(a, c) && NodeOk(a, p) && NodeOk(a, 2 * p + 1);
    assert 2 * p + 2 < |a| ==> NodeOk(a, 2 * p + 2);
  }

  // ----- Relinking, seen on the set of nodes -----

  /** The links of `t` and of its neighbours answer each other. */
  ghost predicate Consistent(t: Timer, s: set<Timer>)
    reads t, s
  {
    && (t.left != null ==> t.left in s && t.left.up == t && t.left != t.right)
    && (t.right != null ==> t.right in s && t.right.up == t)
    && (t.up != null ==> t.up in s && (t.up.left == t || t.up.right == t))
    && t.up != t && t.left != t && t.right != t
  }

  ghost predicate AllConsistent(s: set<Timer>)
    reads s
  {
    forall t :: t in s ==> Consistent(t, s)
  }

  lemma LinkedIsConsistent(a: seq<Timer>)
    requires Linked(a)
    ensures AllConsistent(Elems(a))
  {
    forall t | t in Elems(a) ensures Consistent(t, Elems(a)) {
      var k :| 0 <= k < |a| && a[k] == t;
      assert NodeOk(a, k);
      if k > 0 { ChildSide(a, k); }
      if 2 * k + 1 < |a| { ChildSide(a, 2 * k + 1); }
      if 2 * k + 2 < |a| { ChildSide(a, 2 * k + 2); }
    }
  }

  /** A link that led to `x` leads to `y`. */
  ghost function Redirect(t: Timer?, x: Timer, y: Timer): Timer? {
    if t == x then y else t
  }

  /** `x` and `y` trade names. */
  ghost function Rename(t: Timer?, x: Timer, y: Timer): Timer? {
    if t == x then y else if t == y then x else t
  }

  ghost function Namesake(t: Timer, x: Timer, y: Timer): Timer {
    if t == x then y else if t == y then x else t
  }

  ghost function RenameLinks(l: Links, x: Timer, y: Timer): Links {
    Links(Rename(l.left, x, y), Rename(l.right, x, y), Rename(l.up, x, y), l.slot)
  }

  /** The namesake of `t` holds the links that `t` held, renamed. */
  ghost predicate Relinked(t: Timer, was: Links, x: Timer, y: Timer)
    reads Namesake(t, x, y)
  {
    var n := Namesake(t, x, y);
    n.left == Rename(was.left, x, y) && n.right == Rename(was.right, x, y) && n.up == Rename(was.up, x, y)
  }

  ghost predicate OnlyAt(a: seq<Timer>, i: nat)
    requires i < |a|
  {
    forall m :: 0 <= m < |a| && a[m] == a[i] ==> m == i
  }

  lemma SlotIsUnique(a: seq<Timer>, i: nat)
    requires Linked(a) && i < |a|
    ensures OnlyAt(a, i)
  {
    assert NodeOk(a, i);
    forall m | 0 <= m < |a| && a[m] == a[i] ensures m == i {
      assert NodeOk(a, m);
    }
  }

  /** The links expected in slot `k`, renamed, are held by the namesake of its timer. */
  ghost predicate RelinkedAt(a: seq<Timer>, i: nat, j: nat, k: nat)
    requires i < |a| && j < |a| && k < |a|
    reads Namesake(a[k], a[i], a[j])
  {
    LinksOf(Namesake(a[k], a[i], a[j])) == RenameLinks(Expected(a, k), a[i], a[j])
  }

  /** Two timers that trade names in every link have traded slots. */
  lemma RenamedIsExchanged(a: seq<Timer>, i: nat, j: nat)
    requires i < |a| && j < |a| && OnlyAt(a, i) && OnlyAt(a, j)
    requires forall k :: 0 <= k < |a| ==> RelinkedAt(a, i, j, k)
    ensures Linked(Exchange(a, i, j))
  {
    var b := Exchange(a, i, j);
    forall k | 0 <= k < |b| ensures NodeOk(b, k) {
      assert RelinkedAt(a, i, j, k);
      assert b[k] == Namesake(a[k], a[i], a[j]);
    }
  }

  // ----- Growing, shrinking and substituting in level order -----

  lemma LinkedAppend(a: seq<Timer>, e: Timer)
    requires a != [] && e !in a
    requires LinksOf(e) == Links(null, null, a[(|a| - 1) / 2], |a|)
    requires forall k :: 0 <= k < |a| ==> AppendedAt(a, e, k)
    ensures Linked(a + [e])
  {
    var b := a + [e];
    forall k | 0 <= k < |b| ensures NodeOk(b, k) {
      if k < |a| {
        assert AppendedAt(a, e, k);
        assert b[k] == a[k];
      }
    }
  }

  /** Slot `k` holds its links, with `e` as the child in the slot after the last one. */
  ghost predicate AppendedAt(a: seq<Timer>, e: Timer, k: nat)
    requires k < |a|
    reads a[k]
  {
    var l := Expected(a, k);
    LinksOf(a[k])
        == l.(left := if 2 * k + 1 == |a| then e else l.left, right := if 2 * k + 2 == |a| then e else l.right)
  }

  lemma LinkedTruncate(a: seq<Timer>)
    requires |a| > 1
    requires forall k :: 0 <= k < |a| - 1 ==> TruncatedAt(a, k)
    ensures Linked(a[..|a| - 1])
  {
    var b := a[..|a| - 1];
    forall k | 0 <= k < |b| ensures NodeOk(b, k) {
      assert TruncatedAt(a, k);
    }
  }

  /** Slot `k` holds its links, with no child in the last slot. */
  ghost predicate TruncatedAt(a: seq<Timer>, k: nat)
    requires k < |a|
    reads a[k]
  {
    var l := Expected(a, k);
    LinksOf(a[k])
        == l.(left := if 2 * k + 2 == |a| then null else l.left, right := if 2 * k + 3 == |a| then null else l.right)
  }

  ghost function RedirectLinks(l: Links, x: Timer, y: Timer): Links {
    Links(Redirect(l.left, x, y), Redirect(l.right, x, y), Redirect(l.up, x, y), l.slot)
  }

  ghost predicate SubstitutedAt(a: seq<Timer>, i: nat, y: Timer, k: nat)
    requires i < |a| && k < |a|
    reads if k == i then y else a[k]
  {
    LinksOf(if k == i then y else a[k]) == RedirectLinks(Expected(a, k), a[i], y)
  }

  lemma LinkedSubstitute(a: seq<Timer>, i: nat, y: Timer)
    requires i < |a| && OnlyAt(a, i)
    requires forall k :: 0 <= k < |a| ==> SubstitutedAt(a, i, y, k)
    ensures Linked(a[i := y])
  {
    var b := a[i := y];
    forall k | 0 <= k < |b| ensures NodeOk(b, k) {
      assert SubstitutedAt(a, i, y, k);
    }
  }

  lemma SubstitutedElems(a: seq<Timer>, i: nat, y: Timer)
    requires i < |a| && OnlyAt(a, i)
    ensures Elems(a[i := y]) == Elems(a) - {a[i]} + {y}
  {
    var b := a[i := y];
    assert b[i] == y;
    forall t | t in a && t != a[i] ensures t in b {
      var k :| 0 <= k < |a| && a[k] == t;
      assert b[k] == t;
    }
  }

  lemma RemovedLast(a: seq<Timer>)
    requires a != [] && OnlyAt(a, |a| - 1) && Ordered(a)
    ensures Elems(a[..|a| - 1]) == Elems(a) - {a[|a| - 1]}
    ensures Ordered(a[..|a| - 1])
  {
    var b := a[..|a| - 1];
    forall k | 0 <= k < |b| ensures EdgeOk(b, k) {
      assert EdgeOk(a, k);
    }
  }

  // ----- Heap order with one timer out of place -----

  /** Ordered except that the timer in slot `i` may come before its ancestors. */
  ghost predicate UpHole(a: seq<Timer>, i: nat)
    requires i < |a|
    reads a`timeout
  {
    && (forall k :: 0 <= k < |a| && k != i ==> EdgeOk(a, k))
    && (forall k :: 0 < k < |a| && (k - 1) / 2 == i && i > 0 ==> Le(a[(i - 1) / 2].timeout, a[k].timeout))
  }

  /** Ordered except that the timer in slot `i` may come after its descendants. */
  ghost predicate DownHole(a: seq<Timer>, i: nat)
    requires i < |a|
    reads a`timeout
  {
    && (forall k :: 0 <= k < |a| && (k == 0 || (k - 1) / 2 != i) ==> EdgeOk(a, k))
    && (forall k :: 0 < k < |a| && (k - 1) / 2 == i && i > 0 ==> Le(a[(i - 1) / 2].timeout, a[k].timeout))
  }

  lemma UpStep(a: seq<Timer>, i: nat)
    requires 0 < i < |a| && UpHole(a, i) && Le(a[i].timeout, a[(i - 1) / 2].timeout)
    ensures UpHole(Exchange(a, i, (i - 1) / 2), (i - 1) / 2)
  {
    var p := (i - 1) / 2;
    var b := Exchange(a, i, p);
    assert EdgeOk(a, p);
    forall k | 0 <= k < |b| && k != p ensures EdgeOk(b, k) {
      if k != i { assert EdgeOk(a, k); }
    }
    forall k | 0 < k < |b| && (k - 1) / 2 == p && p > 0 ensures Le(b[(p - 1) / 2].timeout, b[k].timeout) {
      if k != i { assert EdgeOk(a, k); }
    }
  }

  ghost predicate BeforeChildren(a: seq<Timer>, t: Timer, i: nat)
    reads t`timeout, a`timeout
  {
    forall k :: 0 < k < |a| && (k - 1) / 2 == i ==> Le(t.timeout, a[k].timeout)
  }

  lemma DownStep(a: seq<Timer>, i: nat, c: nat)
    requires 0 < c < |a| && (c - 1) / 2 == i && DownHole(a, i)
    requires Le(a[c].timeout, a[i].timeout) && BeforeChildren(a, a[c], i)
    ensures DownHole(Exchange(a, c, i), c)
  {
    var b := Exchange(a, c, i);
    forall k | 0 <= k < |b| && (k == 0 || (k - 1) / 2 != c) ensures EdgeOk(b, k) {
      if k > 0 && (k - 1) / 2 != i { assert EdgeOk(a, k); }
    }
    forall k | 0 < k < |b| && (k - 1) / 2 == c ensures Le(b[(c - 1) / 2].timeout, b[k].timeout) {
      assert EdgeOk(a, k);
    }
  }

  lemma ReplacedHole(a: seq<Timer>, i: nat, y: Timer)
    requires i < |a| && Ordered(a)
    ensures i > 0 && Le(y.timeout, a[(i - 1) / 2].timeout) ==> UpHole(a[i := y], i)
    ensures (i > 0 ==> Le(a[(i - 1) / 2].timeout, y.timeout)) ==> DownHole(a[i := y], i)
  {
    assert EdgeOk(a, i);
    var b := a[i := y];
    forall k | 0 <= k < |b| && k != i && (k == 0 || (k - 1) / 2 != i) ensures EdgeOk(b, k) {
      assert EdgeOk(a, k);
    }
    forall k | 0 < k < |b| && (k - 1) / 2 == i
      ensures i > 0 ==> Le(b[(i - 1) / 2].timeout, b[k].timeout)
      ensures Le(a[i].timeout, a[k].timeout)
    {
      assert EdgeOk(a, k);
    }
  }

  /** The timer side of a selector: its heap and the timers allocated for it. */
  class Selector {
    var top: Timer?
    var last: Timer?
    ghost var a: seq<Timer>         // the heap, in level order
    ghost var timers: set<Timer>  // every timer that belongs to this selector

    ghost predicate Shape()
      reads this, a
    {
      && Linked(a)
      && top == Slot(a, 0)
      && last == (if a == [] then null else a[|a| - 1])
    }

    ghost predicate Valid()
      reads this, a
    {
      Shape() && Ordered(a)
    }

    /** `inHeap` means membership, for every timer of the selector. */
    ghost predicate ValidTimers()
      reads this, a, timers
    {
      && Valid()
      && Elems(a) <= timers
      && forall t :: t in timers ==> (t.inHeap <==> t in Elems(a))
    }

    constructor ()
      ensures ValidTimers() && a == [] && timers == {}
    {
      top, last, a, timers := null, null, [], {};
    }

    method StepsLeft(curr0: Timer, steps: nat, ghost c0: nat) returns (curr: Timer)
      requires Shape() && c0 < |a| && curr0 == a[c0] && LeftWalk(c0, steps) < |a|
      ensures curr == a[LeftWalk(c0, steps)]
    {
      curr := curr0;
      var upcount: nat := steps;
      ghost var c: nat := c0;
      while upcount != 0
        invariant c < |a| && curr == a[c]
        invariant LeftWalk(c, upcount) == LeftWalk(c0, steps)
      {
        assert NodeOk(a, c);
        curr := curr.left;
        upcount := upcount - 1;
        c := 2 * c + 1;
      }
    }

    method StepsRight(curr0: Timer, steps: nat, ghost c0: nat) returns (curr: Timer)
      requires Shape() && c0 < |a| && curr0 == a[c0] && RightWalk(c0, steps) < |a|
      ensures curr == a[RightWalk(c0, steps)]
    {
      curr := curr0;
      var upcount: nat := steps;
      ghost var c: nat := c0;
      while upcount != 0
        invariant c < |a| && curr == a[c]
        invariant RightWalk(c, upcount) == RightWalk(c0, steps)
      {
        assert NodeOk(a, c);
        curr := curr.right;
        upcount := upcount - 1;
        c := 2 * c + 2;
      }
    }

    /** While a right node, go up. */
    method UpFromRight(curr0: Timer) returns (curr: Timer, upcount: nat, ghost c: nat)
      requires Shape() && a != [] && curr0 == a[|a| - 1]
      ensures c < |a| && curr == a[c] && RightWalk(c, upcount) == |a| - 1
      ensures c == 2 * ((c - 1) / 2) + 2 ==> c == 0
    {
      curr, upcount, c := curr0, 0, |a| - 1;
      assert NodeOk(a, c);
      while curr.up != null && curr.up.right == curr
        invariant c < |a| && curr == a[c] && NodeOk(a, c)
        invariant RightWalk(c, upcount) == |a| - 1
        decreases c
      {
        ChildSide(a, c);
        upcount := upcount + 1;
        curr := curr.up;
        c := (c - 1) / 2;
        assert NodeOk(a, c);
      }
      if c > 0 { ChildSide(a, c); }
    }

    /** While a left node, go up. */
    method UpFromLeft(curr0: Timer) returns (curr: Timer, upcount: nat, ghost c: nat)
      requires Shape() && a != [] && curr0 == a[|a| - 1]
      ensures c < |a| && curr == a[c] && LeftWalk(c, upcount) == |a| - 1
      ensures c != 2 * ((c - 1) / 2) + 1
    {
      curr, upcount, c := curr0, 0, |a| - 1;
      assert NodeOk(a, c);
      while curr.up != null && curr.up.left == curr
        invariant c < |a| && curr == a[c] && NodeOk(a, c)
        invariant LeftWalk(c, upcount) == |a| - 1
        decreases c
      {
        ChildSide(a, c);
        upcount := upcount + 1;
        curr := curr.up;
        c := (c - 1) / 2;
        assert NodeOk(a, c);
      }
      if c > 0 { ChildSide(a, c); }
    }

    /** Finds the slot after the last one: the parent it hangs from and the side. */
    method FindNextPos(curr0: Timer) returns (parent: Timer, isLeft: bool)
      requires Shape() && a != [] && curr0 == a[|a| - 1]
      ensures parent == a[(|a| - 1) / 2]
      ensures isLeft <==> |a| == 2 * ((|a| - 1) / 2) + 1
    {
      assert NodeOk(a, |a| - 1);
      if |a| > 1 { ChildSide(a, |a| - 1); }
      if curr0.up != null && curr0.up.left == curr0 {
        return curr0.up, false;
      }
      var curr, upcount, c := UpFromRight(curr0);
      assert NodeOk(a, c);
      WalksMeet(c, upcount);
      if curr.up != null {
        ChildSide(a, c);
        curr := curr.up.right;
        upcount := upcount - 1;
        c := c + 1;
      }
      LeftWalkStep(c, upcount);
      parent := StepsLeft(curr, upcount, c);
      isLeft := true;
    }

    /** Finds the slot before the last one. */
    method FindPrevElem(curr0: Timer) returns (prev: Timer)
      requires Shape() && |a| > 1 && curr0 == a[|a| - 1]
      ensures prev == a[|a| - 2]
    {
      ChildSide(a, |a| - 1);
      if curr0.up != null && curr0.up.right == curr0 {
        return curr0.up.left;
      }
      var curr, upcount, c := UpFromLeft(curr0);
      assert NodeOk(a, c);
      if curr.up != null {
        ChildSide(a, c);
        WalksMeet(c - 1, upcount);
        curr := curr.up.left;
        c := c - 1;
      } else {
        WalksMeet(0, upcount - 1);
        upcount := upcount - 1;
      }
      prev := StepsRight(curr, upcount, c);
    }

    // ----- Moving a timer up or down -----

    method Adopt(child: Timer?, parent: Timer)
      modifies (if child == null then {} else {child})`up
      ensures child != null ==> child.up == parent
    {
      if child != null {
        child.up := parent;
      }
    }

    /** Points the link that leads to `x` (from its parent, or from the top) at `y`. */
    method ReplaceBelow(x: Timer, y: Timer)
      requires x.up != null ==> x.up != x && (x.up.left == x || x.up.right == x)
      modifies this`top, (if x.up == null then {} else {x.up})`left, (if x.up == null then {} else {x.up})`right
      ensures top == if x.up == null then y else old(top)
      ensures x.up != null ==> x.up.left == (if old(x.up.left) == x then y else old(x.up.left))
      ensures x.up != null ==> x.up.right == (if old(x.up.left) == x then old(x.up.right) else y)
    {
      if x.up != null {
        if x.up.left == x {
          x.up.left := y;
        } else {
          x.up.right := y;
        }
      } else {
        top := y;
      }
    }

    /** `elem` takes its parent's place, with the parent as its child. */
    method Lift(elem: Timer, parent: Timer, ghost s: set<Timer>)
      requires elem in s && parent in s && elem.up == parent && parent.up != elem
      requires AllConsistent(s)
      modifies this`top, s`left, s`right, s`up
      ensures top == if old(parent.up) == null then elem else old(top)
      ensures elem.left == (if old(parent.left) == elem then parent else old(parent.left))
      ensures elem.right == (if old(parent.left) == elem then old(parent.right) else parent)
      ensures elem.up == old(parent.up)
      ensures forall t :: t in s && t != elem ==> t.left == Redirect(old(t.left), parent, elem)
      ensures forall t :: t in s && t != elem ==> t.right == Redirect(old(t.right), parent, elem)
      ensures forall t :: t in s && t != elem ==> t.up == Redirect(old(t.up), parent, elem)
    {
      assert Consistent(elem, s);
      assert Consistent(parent, s);
      if parent.left == elem {
        elem.left := parent;
        elem.right := parent.right;
        Adopt(elem.right, elem);
      } else {
        elem.right := parent;
        elem.left := parent.left;
        Adopt(elem.left, elem);
      }
      elem.up := parent.up;
      ReplaceBelow(parent, elem);
      forall t | t in s ensures old(Consistent(t, s)) {}
    }

    /** `parent` goes below `elem` and takes over the two given children. */
    method Sink(elem: Timer, parent: Timer, tmp1: Timer?, tmp2: Timer?, ghost s: set<Timer>)
      requires elem in s && parent in s
      requires tmp1 != null ==> tmp1 in s && tmp1 != parent
      requires tmp2 != null ==> tmp2 in s && tmp2 != parent
      modifies parent`left, parent`right, s`up
      ensures parent.left == tmp1 && parent.right == tmp2 && parent.up == elem
      ensures forall t :: t in s && t != parent ==> t.up == if t == tmp1 || t == tmp2 then parent else old(t.up)
    {
      parent.up := elem;
      parent.left := tmp1;
      Adopt(parent.left, parent);
      parent.right := tmp2;
      Adopt(parent.right, parent);
    }

    method SwapLinks(elem: Timer, ghost s: set<Timer>)
      requires elem in s && elem.up != null && elem.up.up != elem
      requires AllConsistent(s)
      modifies this`top, s`left, s`right, s`up
      ensures top == if old(elem.up.up) == null then elem else old(top)
      ensures forall t :: t in s ==> Relinked(t, old(LinksOf(t)), elem, old(elem.up))
    {
      var parent := elem.up;
      assert Consistent(elem, s);
      assert Consistent(parent, s);
      var tmp1 := elem.left;
      var tmp2 := elem.right;
      assert tmp1 != null ==> Consistent(tmp1, s);
      assert tmp2 != null ==> Consistent(tmp2, s);
      Lift(elem, parent, s);
      Sink(elem, parent, tmp1, tmp2, s);
      forall t | t in s ensures old(Consistent(t, s)) {}
    }

    method RelinkWithParent(elem: Timer, ghost b: seq<Timer>, ghost i: nat)
      requires Linked(b) && 0 < i < |b| && elem == b[i] && top == b[0]
      modifies this`top, b`left, b`right, b`up, b`slot
      ensures Linked(Exchange(b, i, (i - 1) / 2))
      ensures top == Exchange(b, i, (i - 1) / 2)[0]
    {
      ghost var p := (i - 1) / 2;
      LinkedIsConsistent(b);
      SlotIsUnique(b, i);
      SlotIsUnique(b, p);
      assert NodeOk(b, i);
      assert NodeOk(b, p);
      assert p > 0 ==> NodeOk(b, (p - 1) / 2);
      var parent := elem.up;
      SwapLinks(elem, Elems(b));
      elem.slot := p;
      parent.slot := i;
      forall k | 0 <= k < |b| ensures RelinkedAt(b, i, p, k) {
        assert old(NodeOk(b, k));
        assert b[k] in Elems(b);
      }
      RenamedIsExchanged(b, i, p);
    }

    /** Exchanges a timer with its parent, link by link. */
    method SwapWithParent(elem: Timer, ghost i: nat)
      requires Shape() && 0 < i < |a| && elem == a[i]
      modifies this`top, this`last, this`a, Elems(a)`left, Elems(a)`right, Elems(a)`up, Elems(a)`slot
      ensures a == Exchange(old(a), i, (i - 1) / 2)
      ensures Shape()
    {
      ghost var b := a;
      assert NodeOk(b, i);
      SlotIsUnique(b, i);
      var parent := elem.up;
      RelinkWithParent(elem, b, i);
      if last == elem {
        last := parent;
      }
      a := Exchange(b, i, (i - 1) / 2);
    }

    method SwapUpOnce(elem: Timer, ghost i: nat)
      requires Shape() && 0 < i < |a| && elem == a[i] && UpHole(a, i)
      requires Le(elem.timeout, a[(i - 1) / 2].timeout)
      modifies this`top, this`last, this`a, Elems(a)`left, Elems(a)`right, Elems(a)`up, Elems(a)`slot
      ensures Shape() && Elems(a) == old(Elems(a)) && |a| == old(|a|)
      ensures elem == a[(i - 1) / 2] && UpHole(a, (i - 1) / 2)
    {
      UpStep(a, i);
      ExchangeKeeps(a, i, (i - 1) / 2);
      SwapWithParent(elem, i);
    }

    /** send_up: moves the timer up until its parent is no later. */
    method SendUp(elem: Timer, ghost i0: nat)
      requires Shape() && i0 < |a| && elem == a[i0] && UpHole(a, i0)
      modifies this`top, this`last, this`a, Elems(a)`left, Elems(a)`right, Elems(a)`up, Elems(a)`slot
      ensures Valid() && Elems(a) == old(Elems(a)) && |a| == old(|a|)
    {
      ghost var i: nat := i0;
      assert NodeOk(a, i);
      var parent := elem.up;
      while parent != null && CmpTimeval(elem.timeout, parent.timeout) < 0
        invariant Shape() && i < |a| && elem == a[i] && parent == Parent(a, i) && UpHole(a, i)
        invariant Elems(a) == old(Elems(a)) && |a| == old(|a|)
        decreases i
      {
        SwapUpOnce(elem, i);
        i := (i - 1) / 2;
        assert NodeOk(a, i);
        parent := elem.up;
      }
      assert EdgeOk(a, i);
    }

    /** `child` takes its parent's place seen from above, with the parent below it. */
    method Hoist(elem: Timer, child: Timer, ghost s: set<Timer>)
      requires elem in s && child in s && child.up == elem && child.left != elem && child.right != elem
      requires AllConsistent(s)
      modifies this`top, s`left, s`right, s`up
      ensures top == if old(elem.up) == null then child else old(top)
      ensures forall t :: t in s ==> t.up == if t == child then old(elem.up) else if t == elem then child else old(t.up)
      ensures forall t :: t in s ==> t.left == Redirect(old(t.left), elem, child)
      ensures forall t :: t in s ==> t.right == Redirect(old(t.right), elem, child)
    {
      assert Consistent(elem, s);
      assert Consistent(child, s);
      ReplaceBelow(elem, child);
      child.up := elem.up;
      elem.up := child;
      forall t | t in s ensures old(Consistent(t, s)) {}
    }

    /** The children taken over point back. */
    method Settle(child: Timer, sibling: Timer?, elem: Timer, ghost s: set<Timer>)
      requires sibling != null ==> sibling in s && sibling != elem.left && sibling != elem.right
      requires elem.left != null ==> elem.left in s
      requires elem.right != null ==> elem.right in s
      modifies s`up
      ensures forall t :: t in s ==>
                t.up == if t == sibling then child else if t == elem.left || t == elem.right then elem else old(t.up)
    {
      Adopt(sibling, child);
      Adopt(elem.left, elem);
      Adopt(elem.right, elem);
    }

    /** The relinking of send_down when `elem` goes below its right child. */
    method SwapWithRight(elem: Timer, right: Timer, ghost s: set<Timer>)
      requires elem in s && elem.right == right && right.right != elem && right.left != elem
      requires AllConsistent(s)
      modifies this`top, s`left, s`right, s`up
      ensures top == if old(elem.up) == null then right else old(top)
      ensures forall t :: t in s ==> Relinked(t, old(LinksOf(t)), right, elem)
    {
      assert Consistent(elem, s);
      assert Consistent(right, s);
      var tmp1 := right.left;
      var tmp2 := right.right;
      assert tmp1 != null ==> Consistent(tmp1, s);
      assert tmp2 != null ==> Consistent(tmp2, s);
      assert elem.left != null ==> Consistent(elem.left, s);
      Hoist(elem, right, s);
      right.left := elem.left;
      right.right := elem;
      elem.left := tmp1;
      elem.right := tmp2;
      Settle(right, right.left, elem, s);
      forall t | t in s ensures old(Consistent(t, s)) {}
    }

    /** The same for its left child. */
    method SwapWithLeft(elem: Timer, left: Timer, ghost s: set<Timer>)
      requires elem in s && elem.left == left && left.right != elem && left.left != elem
      requires AllConsistent(s)
      modifies this`top, s`left, s`right, s`up
      ensures top == if old(elem.up) == null then left else old(top)
      ensures forall t :: t in s ==> Relinked(t, old(LinksOf(t)), left, elem)
    {
      assert Consistent(elem, s);
      assert Consistent(left, s);
      var tmp1 := left.left;
      var tmp2 := left.right;
      assert tmp1 != null ==> Consistent(tmp1, s);
      assert tmp2 != null ==> Consistent(tmp2, s);
      assert elem.right != null ==> Consistent(elem.right, s);
      Hoist(elem, left, s);
      left.left := elem;
      left.right := elem.right;
      elem.left := tmp1;
      elem.right := tmp2;
      Settle(left, left.right, elem, s);
      forall t | t in s ensures old(Consistent(t, s)) {}
    }

    method RelinkWithChild(elem: Timer, child: Timer, isRight: bool, ghost b: seq<Timer>, ghost i: nat, ghost c: nat)
      requires Linked(b) && c < |b| && c == (if isRight then 2 * i + 2 else 2 * i + 1)
      requires elem == b[i] && child == b[c] && top == b[0]
      modifies this`top, b`left, b`right, b`up, b`slot
      ensures Linked(Exchange(b, c, i))
      ensures top == Exchange(b, c, i)[0]
    {
      LinkedIsConsistent(b);
      SlotIsUnique(b, i);
      SlotIsUnique(b, c);
      assert NodeOk(b, i);
      assert NodeOk(b, c);
      assert i > 0 ==> NodeOk(b, (i - 1) / 2);
      if isRight {
        SwapWithRight(elem, child, Elems(b));
      } else {
        SwapWithLeft(elem, child, Elems(b));
      }
      child.slot := i;
      elem.slot := c;
      forall k | 0 <= k < |b| ensures RelinkedAt(b, c, i, k) {
        assert old(NodeOk(b, k));
        assert b[k] in Elems(b);
      }
      RenamedIsExchanged(b, c, i);
    }

    /** Exchanges a timer with one of its children, link by link. */
    method SwapWithChild(elem: Timer, child: Timer, isRight: bool, ghost i: nat, ghost c: nat)
      requires Shape() && c < |a| && c == (if isRight then 2 * i + 2 else 2 * i + 1) && elem == a[i] && child == a[c]
      modifies this`top, this`last, this`a, Elems(a)`left, Elems(a)`right, Elems(a)`up, Elems(a)`slot
      ensures a == Exchange(old(a), c, i)
      ensures Shape()
    {
      ghost var b := a;
      SlotIsUnique(b, c);
      RelinkWithChild(elem, child, isRight, b, i, c);
      if last == child {
        last := elem;
      }
      a := Exchange(b, c, i);
    }

    method SwapDownOnce(elem: Timer, child: Timer, isRight: bool, ghost i: nat, ghost c: nat)
      requires Shape() && c < |a| && c == (if isRight then 2 * i + 2 else 2 * i + 1)
      requires elem == a[i] && child == a[c] && DownHole(a, i)
      requires Le(child.timeout, elem.timeout) && BeforeChildren(a, child, i)
      modifies this`top, this`last, this`a, Elems(a)`left, Elems(a)`right, Elems(a)`up, Elems(a)`slot
      ensures Shape() && Elems(a) == old(Elems(a)) && |a| == old(|a|)
      ensures elem == a[c] && DownHole(a, c)
    {
      DownStep(a, i, c);
      ExchangeKeeps(a, c, i);
      SwapWithChild(elem, child, isRight, i, c);
    }

    /** The smaller child, if `elem` times out after it. */
    method ChooseBelow(elem: Timer, left: Timer, ghost i: nat) returns (child: Timer?, isRight: bool, ghost c: nat)
      requires Shape() && 2 * i + 1 < |a| && elem == a[i] && left == a[2 * i + 1]
      ensures c == if isRight then 2 * i + 2 else 2 * i + 1
      ensures child == null ==> BeforeChildren(a, elem, i)
      ensures child != null ==> c < |a| && child == a[c]
      ensures child != null ==> Le(child.timeout, elem.timeout) && BeforeChildren(a, child, i)
    {
      assert NodeOk(a, i);
      var right := elem.right;
      isRight := right != null && CmpTimeval(left.timeout, right.timeout) > 0;
      if isRight {
        child, c := if CmpTimeval(elem.timeout, right.timeout) > 0 then right else null, 2 * i + 2;
      } else {
        child, c := if CmpTimeval(elem.timeout, left.timeout) > 0 then left else null, 2 * i + 1;
      }
    }

    /** send_down: moves the timer down until no child is earlier. */
    method SendDown(elem: Timer, ghost i0: nat)
      requires Shape() && i0 < |a| && elem == a[i0] && DownHole(a, i0)
      modifies this`top, this`last, this`a, Elems(a)`left, Elems(a)`right, Elems(a)`up, Elems(a)`slot
      ensures Valid() && Elems(a) == old(Elems(a)) && |a| == old(|a|)
    {
      ghost var i: nat := i0;
      assert NodeOk(a, i);
      var left := elem.left;
      while left != null
        invariant Shape() && i < |a| && elem == a[i] && left == Slot(a, 2 * i + 1) && DownHole(a, i)
        invariant Elems(a) == old(Elems(a)) && |a| == old(|a|)
        decreases |a| - i
      {
        var child, isRight, c := ChooseBelow(elem, left, i);
        if child == null { break; }
        SwapDownOnce(elem, child, isRight, i, c);
        i := c;
        assert NodeOk(a, i);
        left := elem.left;
      }
      assert BeforeChildren(a, elem, i);
    }

    // ----- Adding and removing -----

    /** Hangs `elem` in the slot after the last one. */
    method Attach(elem: Timer)
      requires Shape() && a != [] && elem !in a && elem.left == elem.right == null
      modifies this`top, this`last, this`a, Elems(a)`left, Elems(a)`right, elem`up, elem`slot
      ensures Shape() && a == old(a) + [elem]
    {
      ghost var n := |a|;
      var parent, isLeft := FindNextPos(last);
      if isLeft {
        parent.left := elem;
      } else {
        parent.right := elem;
      }
      elem.up := parent;
      last := elem;
      elem.slot := n;
      forall k | 0 <= k < n ensures AppendedAt(a, elem, k) {
        assert old(NodeOk(a, k));
        assert old(NodeOk(a, (n - 1) / 2));
      }
      LinkedAppend(a, elem);
      a := a + [elem];
    }

    /** add_to_heap */
    method Add(elem: Timer)
      requires Valid() && elem !in a
      modifies this`top, this`last, this`a, (Elems(a) + {elem})`left, (Elems(a) + {elem})`right, (Elems(a) + {elem})`up,
               (Elems(a) + {elem})`slot
      ensures Valid() && Elems(a) == old(Elems(a)) + {elem} && |a| == old(|a|) + 1
    {
      elem.left := null;
      elem.right := null;
      elem.up := null;
      if top == null {
        assert a == [];
        top := elem;
        last := elem;
        elem.slot := 0;
        a := [elem];
        return;
      }
      ghost var b := a;
      forall k | 0 <= k < |a| ensures NodeOk(a, k) {
        assert old(NodeOk(a, k));
      }
      Attach(elem);
      forall k | 0 <= k < |a| && k != |b| ensures EdgeOk(a, k) {
        assert EdgeOk(b, k);
      }
      assert Elems(a) == Elems(b) + {elem};
      assert NodeOk(a, |b|);
      if CmpTimeval(elem.timeout, elem.up.timeout) < 0 {
        SendUp(elem, |b|);
      }
    }

    /** Unhooks the last timer from its parent. */
    method Detach(elem: Timer)
      requires Shape() && |a| > 1 && elem == last
      modifies this`top, this`last, this`a, Elems(a)`left, Elems(a)`right
      ensures Shape() && a == old(a)[..|old(a)| - 1]
    {
      last := FindPrevElem(elem);
      UnlinkLast(elem);
      a := a[..|a| - 1];
    }

    method UnlinkLast(elem: Timer)
      requires Linked(a) && |a| > 1 && elem == a[|a| - 1]
      modifies Elems(a)`left, Elems(a)`right
      ensures Linked(a[..|a| - 1])
    {
      ghost var n := |a|;
      ghost var p := (n - 2) / 2;
      ChildSide(a, n - 1);
      SlotIsUnique(a, p);
      if elem.up.left == elem {
        elem.up.left := null;
      } else {
        elem.up.right := null;
      }
      forall k | 0 <= k < n - 1 ensures TruncatedAt(a, k) {
        assert old(NodeOk(a, k));
      }
      LinkedTruncate(a);
    }

    /** `y` takes the place of `x`, which keeps its stale links. */
    method Substitute(x: Timer, y: Timer, ghost b: seq<Timer>, ghost i: nat)
      requires Linked(b) && i < |b| && x == b[i] && y !in b && top == b[0]
      modifies this`top, (Elems(b) + {y})`left, (Elems(b) + {y})`right, (Elems(b) + {y})`up, y`slot
      ensures Linked(b[i := y]) && top == b[i := y][0]
    {
      LinkedIsConsistent(b);
      SlotIsUnique(b, i);
      assert NodeOk(b, i);
      SubstituteLinks(x, y, Elems(b));
      y.slot := i;
      forall k | 0 <= k < |b| ensures SubstitutedAt(b, i, y, k) {
        assert old(NodeOk(b, k));
        assert b[k] in Elems(b);
      }
      LinkedSubstitute(b, i, y);
    }

    /** The children of `x` become those of `y`. */
    method TakeChildren(x: Timer, y: Timer, ghost s: set<Timer>)
      requires x in s && y !in s && x.left != x && x.right != x
      requires (x.left != null ==> x.left in s) && (x.right != null ==> x.right in s)
      modifies y`left, y`right, s`up
      ensures y.left == x.left && y.right == x.right
      ensures forall t :: t in s ==> t.up == if t == x.left || t == x.right then y else old(t.up)
    {
      Adopt(x.left, y);
      Adopt(x.right, y);
      y.left := x.left;
      y.right := x.right;
    }

    method SubstituteLinks(x: Timer, y: Timer, ghost s: set<Timer>)
      requires AllConsistent(s) && x in s && y !in s
      modifies this`top, (s + {y})`left, (s + {y})`right, (s + {y})`up
      ensures top == if old(x.up) == null then y else old(top)
      ensures y.left == old(x.left) && y.right == old(x.right) && y.up == old(x.up)
      ensures forall t :: t in s && t != x ==> t.left == Redirect(old(t.left), x, y)
      ensures forall t :: t in s && t != x ==> t.right == Redirect(old(t.right), x, y)
      ensures forall t :: t in s && t != x ==> t.up == Redirect(old(t.up), x, y)
    {
      assert Consistent(x, s);
      assert x.left != null ==> Consistent(x.left, s);
      assert x.right != null ==> Consistent(x.right, s);
      ReplaceBelow(x, y);
      y.up := x.up;
      TakeChildren(x, y, s);
      forall t | t in s ensures old(Consistent(t, s)) {}
    }

    method PopLast()
      requires Valid() && |a| > 1
      modifies this`top, this`last, this`a, Elems(a)`left, Elems(a)`right
      ensures Valid() && a == old(a)[..|old(a)| - 1]
      ensures Elems(a) == old(Elems(a)) - {old(last)}
    {
      SlotIsUnique(a, |a| - 1);
      RemovedLast(a);
      Detach(last);
    }

    method Place(x: Timer, y: Timer, ghost i: nat)
      requires Shape() && i < |a| && x == a[i] && y !in a
      modifies this`top, this`last, this`a, (Elems(a) + {y})`left, (Elems(a) + {y})`right, (Elems(a) + {y})`up,
               (Elems(a) + {y})`slot
      ensures Shape() && a == old(a)[i := y]
    {
      SlotIsUnique(a, i);
      Substitute(x, y, a, i);
      if last == x {
        last := y;
      }
      a := a[i := y];
    }

    /** Sticks `y` into the place of `x` and propagates it to the right place in the tree. */
    method PutInPlace(x: Timer, y: Timer, ghost i: nat)
      requires Valid() && i < |a| && x == a[i] && y !in a
      modifies this`top, this`last, this`a, (Elems(a) + {y})`left, (Elems(a) + {y})`right, (Elems(a) + {y})`up,
               (Elems(a) + {y})`slot
      ensures Valid() && Elems(a) == old(Elems(a)) - {x} + {y} && |a| == old(|a|)
    {
      SlotIsUnique(a, i);
      ReplacedHole(a, i, y);
      SubstitutedElems(a, i, y);
      Place(x, y, i);
      assert NodeOk(a, i);
      if y.up != null && CmpTimeval(y.timeout, y.up.timeout) < 0 {
        SendUp(y, i);
      } else {
        SendDown(y, i);
      }
    }

    /** remove_from_heap, for any timer in the heap. */
    method Remove(elem: Timer)
      requires Valid() && elem in a
      modifies this`top, this`last, this`a, Elems(a)`left, Elems(a)`right, Elems(a)`up, Elems(a)`slot
      ensures Valid() && Elems(a) == old(Elems(a)) - {elem} && |a| == old(|a|) - 1
    {
      var toInsert := last;
      ghost var n := |a|;
      assert NodeOk(a, n - 1);
      if toInsert.up == null {
        top := null;
        last := null;
        a := [];
        return;
      }
      PopLast();
      if elem == toInsert {
        return;
      }
      assert elem in Elems(a) && toInsert !in Elems(a);
      ghost var i: nat :| i < |a| && a[i] == elem;
      PutInPlace(elem, toInsert, i);
    }

    // ----- Timers -----

    /** sel_alloc_timer */
    method AllocTimer() returns (t: Timer)
      requires ValidTimers()
      modifies this`timers
      ensures ValidTimers() && fresh(t) && timers == old(timers) + {t} && !t.inHeap
    {
      t := new Timer();
      timers := timers + {t};
    }

    /** sel_start_timer: refused while the timer is in the heap. */
    method StartTimer(t: Timer, timeout: Time) returns (status: Status)
      requires ValidTimers() && t in timers
      modifies this`top, this`last, this`a, timers
      ensures ValidTimers() && (status == Busy <==> old(t.inHeap)) && status != TimedOut
      ensures status == Busy ==> a == old(a) && forall u :: u in timers ==> u.timeout == old(u.timeout)
      ensures status == Done ==> Elems(a) == old(Elems(a)) + {t} && |a| == old(|a|) + 1 && t.timeout == timeout
      ensures forall u :: u in timers && u != t ==> u.timeout == old(u.timeout)
      ensures ArmedOf(Elems(a)) == Acted(old(ArmedOf(Elems(a))), Start(t, timeout))
    {
      if t.inHeap {
        return Busy;
      }
      t.timeout := timeout;
      Add(t);
      t.inHeap := true;
      return Done;
    }

    /** sel_stop_timer: refused while the timer is not in the heap. */
    method StopTimer(t: Timer) returns (status: Status)
      requires ValidTimers() && t in timers
      modifies this`top, this`last, this`a, timers`inHeap, timers`left, timers`right, timers`up, timers`slot
      ensures ValidTimers() && (status == TimedOut <==> !old(t.inHeap)) && status != Busy
      ensures status == TimedOut ==> a == old(a)
      ensures status == Done ==> Elems(a) == old(Elems(a)) - {t} && |a| == old(|a|) - 1
      ensures ArmedOf(Elems(a)) == Acted(old(ArmedOf(Elems(a))), Stop(t))
    {
      if !t.inHeap {
        return TimedOut;
      }
      Remove(t);
      t.inHeap := false;
      return Done;
    }

    /** One turn of the firing loop, before the handler runs: the timer that fires has
        expired, and nothing in the heap was due before it. */
    method FireTop(now: Time) returns (t: Timer)
      requires ValidTimers() && top != null && Le(top.timeout, now)
      modifies this`top, this`last, this`a, timers`inHeap, timers`left, timers`right, timers`up, timers`slot
      ensures ValidTimers() && t == old(top) && !t.inHeap && Le(t.timeout, now)
      ensures Elems(a) == old(Elems(a)) - {t} && |a| == old(|a|) - 1 && t in old(Elems(a))
      ensures forall u :: u in Elems(a) ==> Le(t.timeout, u.timeout)
    {
      t := top;
      TopLeads();
      Remove(t);
      t.inHeap := false;
    }

    /** What the handler of a fired timer does to the heap. */
    method RunHandler(actions: seq<Action>)
      requires ValidTimers() && forall x :: x in actions ==> x.t in timers
      modifies this`top, this`last, this`a, timers
      ensures ValidTimers() && |a| <= old(|a|) + |actions|
      ensures actions == [] ==> a == old(a) && forall u :: u in timers ==> u.timeout == old(u.timeout)
      ensures ArmedOf(Elems(a)) == ActedAll(old(ArmedOf(Elems(a))), actions)
    {
      for i := 0 to |actions|
        invariant ValidTimers() && |a| <= old(|a|) + i
        invariant ArmedOf(Elems(a)) == ActedAll(old(ArmedOf(Elems(a))), actions[..i])
        invariant i == 0 ==> a == old(a) && forall u :: u in timers ==> u.timeout == old(u.timeout)
      {
        var status;
        match actions[i] {
          case Start(t, at) => status := StartTimer(t, at);
          case Stop(t) => status := StopTimer(t);
        }
        assert actions[..i + 1][..i] == actions[..i];
      }
      assert actions[..|actions|] == actions;
    }

    /** One full turn of the firing loop: the timer at the top fires, then its handler runs. */
    method FireAndHandle(now: Time, actions: seq<Action>) returns (f: Firing)
      requires ValidTimers() && top != null && Le(top.timeout, now)
      requires forall x :: x in actions ==> x.t in timers
      modifies this`top, this`last, this`a, timers
      ensures ValidTimers() && f == Firing(old(top), old(top.timeout), now)
      // the timer that fires is a minimum, whatever its handler does then
      ensures FiresAs(f, actions, old(ArmedOf(Elems(a))), ArmedOf(Elems(a)))
      ensures |a| <= old(|a|) - 1 + |actions|
      ensures actions == [] ==> Elems(a) == old(Elems(a)) - {f.t} && |a| == old(|a|) - 1
      ensures actions == [] ==> f.t in old(Elems(a)) && forall u :: u in Elems(a) ==> Le(f.timeout, u.timeout)
    {
      TopLeads();
      var t := FireTop(now);
      f := Firing(t, t.timeout, now);
      assert ArmedOf(Elems(a)) == old(ArmedOf(Elems(a))) - {t};
      RunHandler(actions);
    }

    /** As long as no handler touches the heap, the timers fire in order and none is lost. */
    ghost predicate Undisturbed(fired: seq<Firing>, was: set<Timer>, n: nat)
      reads this, a
    {
      && InTurn(fired, Elems(a), |a|, was, n)
      && (fired != [] ==> forall u :: u in Elems(a) ==> Le(fired[|fired| - 1].timeout, u.timeout))
    }

    /** One turn of the loop, logged. */
    method FireNext(clock: nat -> Time, handlers: seq<seq<Action>>, fired0: seq<Firing>,
      ghost heaps0: seq<Armed>, ghost was: set<Timer>, ghost n: nat)
      returns (fired: seq<Firing>, ghost heaps: seq<Armed>)
      requires ValidTimers() && top != null && CmpTimeval(clock(|fired0|), top.timeout) >= 0
      requires forall h, x :: h in handlers && x in h ==> x.t in timers
      requires Logged(fired0, clock, handlers, heaps0) && heaps0[|fired0|] == ArmedOf(Elems(a))
      requires handlers == [] ==> Undisturbed(fired0, was, n)
      modifies this`top, this`last, this`a, timers
      ensures ValidTimers() && Logged(fired, clock, handlers, heaps) && (handlers == [] ==> Undisturbed(fired, was, n))
      ensures |fired| == |fired0| + 1 && heaps == heaps0 + [ArmedOf(Elems(a))]
      ensures |a| + Actions(Rest(handlers, |fired|)) < old(|a|) + Actions(Rest(handlers, |fired0|))
    {
      ghost var left, size := Elems(a), |a|;
      var now := clock(|fired0|);
      TopLeads();
      RestStep(handlers, |fired0|);
      ghost var first := top.timeout;
      assert handlers == [] ==> fired0 != [] ==> Le(fired0[|fired0| - 1].timeout, first);
      var firing := FireAndHandle(now, HandlerOf(handlers, |fired0|));
      LogGrows(fired0, firing, clock, handlers, heaps0, ArmedOf(Elems(a)));
      if handlers == [] {
        InTurnGrows(fired0, firing, left, size, was, n);
      }
      fired, heaps := fired0 + [firing], heaps0 + [ArmedOf(Elems(a))];
    }

    /** The firing loop.  `clock(k)` is the k-th reading of the clock and `handlers[k]` what the
        k-th handler does to the heap. */
    method FireDue(clock: nat -> Time, handlers: seq<seq<Action>>)
      returns (fired: seq<Firing>, ghost heaps: seq<Armed>)
      requires ValidTimers() && top != null
      requires forall h, x :: h in handlers && x in h ==> x.t in timers
      modifies this`top, this`last, this`a, timers
      ensures ValidTimers() && FiredWhenDue(fired, clock)
      // from the heap before the call to the heap after it, each firing is of a minimum
      ensures Traced(fired, handlers, heaps)
      ensures heaps[0] == old(ArmedOf(Elems(a))) && heaps[|fired|] == ArmedOf(Elems(a))
      ensures top != null ==> CmpTimeval(clock(|fired|), top.timeout) < 0
      // when no handler touches the heap, the timers fire in order and none is lost
      ensures handlers == [] ==> InTurn(fired, Elems(a), |a|, old(Elems(a)), old(|a|))
    {
      fired, heaps := [], [ArmedOf(Elems(a))];
      while CmpTimeval(clock(|fired|), top.timeout) >= 0
        invariant ValidTimers() && top != null && Logged(fired, clock, handlers, heaps)
        invariant heaps[0] == old(ArmedOf(Elems(a))) && heaps[|fired|] == ArmedOf(Elems(a))
        invariant handlers == [] ==> Undisturbed(fired, old(Elems(a)), old(|a|))
        decreases |a| + Actions(Rest(handlers, |fired|))
      {
        fired, heaps := FireNext(clock, handlers, fired, heaps, old(Elems(a)), old(|a|));
        if top == null {
          return;
        }
      }
    }

    /** Fires every timer that is due, and returns how long to wait for the timer that is next,
        if there is one. */
    method FireTimers(clock: nat -> Time, handlers: seq<seq<Action>>)
      returns (fired: seq<Firing>, next: Timer?, wait: Time, ghost heaps: seq<Armed>)
      requires ValidTimers()
      requires forall h, x :: h in handlers && x in h ==> x.t in timers
      modifies this`top, this`last, this`a, timers
      ensures ValidTimers() && FiredWhenDue(fired, clock)
      // from the heap before the call to the heap after it, each firing is of a minimum
      ensures Traced(fired, handlers, heaps)
      ensures heaps[0] == old(ArmedOf(Elems(a))) && heaps[|fired|] == ArmedOf(Elems(a))
      // what is left is not due yet, and `wait` is the time to the earliest of it
      ensures next == null <==> a == []
      ensures next != null ==> next in Elems(a) && CmpTimeval(clock(|fired|), next.timeout) < 0
      ensures next != null ==> forall u :: u in Elems(a) ==> Le(next.timeout, u.timeout)
      ensures next != null ==> Micros(wait) == Micros(next.timeout) - Micros(clock(|fired|))
      // when no handler touches the heap, the timers fire in order and none is lost
      ensures handlers == [] ==> InTurn(fired, Elems(a), |a|, old(Elems(a)), old(|a|))
    {
      fired, wait, heaps := [], Time(0, 0), [ArmedOf(Elems(a))];
      if top != null {
        fired, heaps := FireDue(clock, handlers);
      }
      next := top;
      if top != null {
        TopLeads();
        wait := DiffTimeval(top.timeout, clock(|fired|));
      }
    }

    lemma TopLeads()
      requires Valid() && top != null
      ensures top in Elems(a) && forall u :: u in Elems(a) ==> Le(top.timeout, u.timeout)
    {
      forall u | u in Elems(a) ensures Le(top.timeout, u.timeout) {
        var k :| 0 <= k < |a| && a[k] == u;
        TopIsMinimum(a, k);
      }
    }
  }
}
