/** Merging of cooperating CFQ queues: each queue may point to the one its processes are to
    move to, and holds a reference for every process that may still come along the chain. */
module CfqMerge {
  import opened Wrappers

  // ----- Chains of queues -----

  predicate InRange(link: seq<Option<nat>>) {
    forall a :: 0 <= a < |link| && link[a].Some? ==> link[a].value < |link|
  }

  /** Every link leads to a higher rank. */
  predicate Ranked(link: seq<Option<nat>>, rank: seq<nat>) {
    && |rank| == |link| && InRange(link)
    && forall a :: 0 <= a < |link| && link[a].Some? ==> rank[a] < rank[link[a].value]
  }

  ghost predicate Acyclic(link: seq<Option<nat>>) {
    exists rank :: Ranked(link, rank)
  }

  /** The queue n links on from q. */
  function Walk(link: seq<Option<nat>>, q: nat, n: nat): Option<nat>
    decreases n
  {
    if n == 0 then Some(q) else if q < |link| && link[q].Some? then Walk(link, link[q].value, n - 1) else None
  }

  lemma {:induction false} WalkRises(link: seq<Option<nat>>, rank: seq<nat>, q: nat, n: nat)
    requires Ranked(link, rank) && q < |link|
    ensures Walk(link, q, n).Some? ==> Walk(link, q, n).value < |link| && rank[Walk(link, q, n).value] >= rank[q] + n
    decreases n
  {
    if n > 0 && link[q].Some? {
      WalkRises(link, rank, link[q].value, n - 1);
    }
  }

  /** No walk along the links comes back, and every one ends. */
  lemma NoWayBack(link: seq<Option<nat>>, q: nat, n: nat)
    requires Acyclic(link) && q < |link| && n > 0
    ensures Walk(link, q, n) != Some(q)
  {
    var rank :| Ranked(link, rank);
    WalkRises(link, rank, q, n);
  }

  function Top(rank: seq<nat>): (m: nat)
    ensures forall k :: 0 <= k < |rank| ==> rank[k] <= m
  {
    if rank == [] then 0 else
      var m := Top(rank[1..]);
      assert rank == [rank[0]] + rank[1..];
      if rank[0] > m then rank[0] else m
  }

  lemma WalksEnd(link: seq<Option<nat>>, q: nat)
    requires Acyclic(link) && q < |link|
    ensures exists n: nat :: Walk(link, q, n).None?
  {
    var rank :| Ranked(link, rank);
    WalkRises(link, rank, q, Top(rank) + 1);
    assert Walk(link, q, Top(rank) + 1).None?;
  }

  /** The last queue of the chain. */
  ghost function End(link: seq<Option<nat>>, rank: seq<nat>, q: nat): (r: nat)
    requires Ranked(link, rank) && q < |link|
    ensures r < |link| && link[r].None?
    decreases Top(rank) - rank[q]
  {
    if link[q].None? then q else End(link, rank, link[q].value)
  }

  lemma {:induction false} EndOnChain(link: seq<Option<nat>>, rank: seq<nat>, q: nat)
    requires Ranked(link, rank) && q < |link|
    ensures OnChain(link, rank, q, End(link, rank, q))
    decreases Top(rank) - rank[q]
  {
    if link[q].Some? {
      EndOnChain(link, rank, link[q].value);
    }
  }

  /** The rank of the target of a new link. */
  function Raised(rank: seq<nat>, a: nat, b: nat): seq<nat>
    requires a < |rank| && b < |rank|
  {
    if rank[b] > rank[a] then rank else rank[b := rank[a] + 1]
  }

  /** A link between two ends keeps the graph acyclic if and only if the ends differ. */
  lemma LinkAcyclic(link: seq<Option<nat>>, rank: seq<nat>, a: nat, b: nat)
    requires Ranked(link, rank) && a < |link| && b < |link| && link[a].None? && link[b].None?
    ensures a != b ==> Ranked(link[a := Some(b)], Raised(rank, a, b))
    ensures Acyclic(link[a := Some(b)]) <==> a != b
  {
    var link' := link[a := Some(b)];
    if a == b {
      assert Walk(link', a, 1) == Walk(link', a, 0) == Some(a);
      if Acyclic(link') {
        NoWayBack(link', a, 1);
      }
    } else {
      assert Ranked(link', Raised(rank, a, b));
    }
  }

  // ----- References -----

  /** cfqq_process_refs of each queue: its references less those of its requests. */
  function ProcessRefs(ref: seq<int>, io: seq<nat>): (pr: seq<int>)
    requires |ref| == |io|
    ensures |pr| == |ref|
  {
    seq(|ref|, i requires 0 <= i < |ref| => ref[i] - io[i])
  }

  /** What the first n queues that point to q would bring along. */
  function In(pr: seq<int>, link: seq<Option<nat>>, q: nat, n: nat): int
    requires n <= |pr| == |link|
  {
    if n == 0 then 0 else In(pr, link, q, n - 1) + (if link[n - 1] == Some(q) then pr[n - 1] else 0)
  }

  /** How many of the first n processes use q. */
  function Own(proc: seq<Option<nat>>, q: nat, n: nat): nat
    requires n <= |proc|
  {
    if n == 0 then 0 else Own(proc, q, n - 1) + (if proc[n - 1] == Some(q) then 1 else 0)
  }

  /** The references of a queue beyond those of its processes, and of the processes that are to
      come along a link. */
  function Slack(pr: seq<int>, link: seq<Option<nat>>, proc: seq<Option<nat>>, q: nat): int
    requires q < |pr| == |link|
  {
    pr[q] - Own(proc, q, |proc|) - In(pr, link, q, |pr|)
  }

  predicate Covered(pr: seq<int>, link: seq<Option<nat>>, proc: seq<Option<nat>>) {
    && |pr| == |link|
    && (forall q :: 0 <= q < |pr| ==> pr[q] >= 0 && Slack(pr, link, proc, q) >= 0)
  }

  /** Every reference is accounted for. */
  predicate Balanced(pr: seq<int>, link: seq<Option<nat>>, proc: seq<Option<nat>>) {
    && |pr| == |link|
    && (forall q :: 0 <= q < |pr| ==> Slack(pr, link, proc, q) == 0)
  }

  lemma {:induction false} InPut(pr: seq<int>, link: seq<Option<nat>>, q: nat, n: nat, a: nat, v: int)
    requires n <= |pr| == |link| && a < |pr|
    ensures In(pr[a := v], link, q, n) == In(pr, link, q, n) + (if a < n && link[a] == Some(q) then v - pr[a] else 0)
  {
    if n > 0 {
      InPut(pr, link, q, n - 1, a, v);
    }
  }

  lemma {:induction false} InLinked(pr: seq<int>, link: seq<Option<nat>>, q: nat, n: nat, a: nat, b: nat)
    requires n <= |pr| == |link| && a < |pr| && link[a].None?
    ensures In(pr, link[a := Some(b)], q, n) == In(pr, link, q, n) + (if a < n && q == b then pr[a] else 0)
  {
    if n > 0 {
      InLinked(pr, link, q, n - 1, a, b);
    }
  }

  lemma {:induction false} InGrown(pr: seq<int>, link: seq<Option<nat>>, q: nat, n: nat, v: int)
    requires n <= |pr| == |link|
    ensures In(pr + [v], link + [None], q, n) == In(pr, link, q, n)
  {
    if n > 0 {
      InGrown(pr, link, q, n - 1, v);
    }
  }

  lemma {:induction false} InOutside(pr: seq<int>, link: seq<Option<nat>>, q: nat, n: nat)
    requires n <= |pr| == |link| && InRange(link) && q >= |link|
    ensures In(pr, link, q, n) == 0
  {
    if n > 0 {
      InOutside(pr, link, q, n - 1);
    }
  }

  lemma {:induction false} InAtLeast(pr: seq<int>, link: seq<Option<nat>>, q: nat, n: nat, a: nat)
    requires n <= |pr| == |link| && forall k :: 0 <= k < |pr| ==> pr[k] >= 0
    ensures In(pr, link, q, n) >= 0 && (a < n && link[a] == Some(q) ==> In(pr, link, q, n) >= pr[a])
  {
    if n > 0 {
      InAtLeast(pr, link, q, n - 1, a);
    }
  }

  lemma {:induction false} OwnSet(proc: seq<Option<nat>>, q: nat, n: nat, p: nat, x: Option<nat>)
    requires n <= |proc| && p < |proc|
    ensures Own(proc[p := x], q, n)
            == Own(proc, q, n) - (if p < n && proc[p] == Some(q) then 1 else 0)
               + (if p < n && x == Some(q) then 1 else 0)
  {
    if n > 0 {
      OwnSet(proc, q, n - 1, p, x);
    }
  }

  predicate Users(proc: seq<Option<nat>>, queues: nat) {
    forall p :: 0 <= p < |proc| && proc[p].Some? ==> proc[p].value < queues
  }

  lemma {:induction false} OwnOutside(proc: seq<Option<nat>>, q: nat, n: nat, queues: nat)
    requires n <= |proc| && Users(proc, queues) && q >= queues
    ensures Own(proc, q, n) == 0
  {
    if n > 0 {
      OwnOutside(proc, q, n - 1, queues);
    }
  }

  // ----- One reference dropped, and one dropped all along a chain -----

  function Put(pr: seq<int>, c: nat): seq<int>
    requires c < |pr|
  {
    pr[c := pr[c] - 1]
  }

  lemma PutSlack(pr: seq<int>, link: seq<Option<nat>>, proc: seq<Option<nat>>, c: nat, q: nat)
    requires q < |pr| == |link| && c < |pr|
    ensures Slack(Put(pr, c), link, proc, q)
            == Slack(pr, link, proc, q) - (if q == c then 1 else 0) + (if link[c] == Some(q) then 1 else 0)
  {
    InPut(pr, link, q, |pr|, c, pr[c] - 1);
  }

  ghost function PutAlong(pr: seq<int>, link: seq<Option<nat>>, rank: seq<nat>, c: nat): (r: seq<int>)
    requires Ranked(link, rank) && c < |pr| == |link|
    ensures |r| == |pr|
    decreases Top(rank) - rank[c]
  {
    if link[c].None? then Put(pr, c) else PutAlong(Put(pr, c), link, rank, link[c].value)
  }

  /** Along a chain the drops cancel, but for the first queue. */
  lemma {:induction false} PutAlongSlack(pr: seq<int>, link: seq<Option<nat>>, rank: seq<nat>, proc: seq<Option<nat>>,
      c: nat, q: nat)
    requires Ranked(link, rank) && c < |pr| == |link| && q < |pr|
    ensures Slack(PutAlong(pr, link, rank, c), link, proc, q) == Slack(pr, link, proc, q) - (if q == c then 1 else 0)
    decreases Top(rank) - rank[c]
  {
    PutSlack(pr, link, proc, c, q);
    if link[c].Some? {
      PutAlongSlack(Put(pr, c), link, rank, proc, link[c].value, q);
    }
  }

  ghost predicate OnChain(link: seq<Option<nat>>, rank: seq<nat>, c: nat, q: nat)
    requires Ranked(link, rank) && c < |link|
    decreases Top(rank) - rank[c]
  {
    q == c || (link[c].Some? && OnChain(link, rank, link[c].value, q))
  }

  lemma {:induction false} OnChainRises(link: seq<Option<nat>>, rank: seq<nat>, c: nat, q: nat)
    requires Ranked(link, rank) && c < |link| && OnChain(link, rank, c, q)
    ensures q < |link| && rank[q] >= rank[c]
    decreases Top(rank) - rank[c]
  {
    if q != c {
      OnChainRises(link, rank, link[c].value, q);
    }
  }

  /** Exactly the queues of the chain lose a reference, one each. */
  lemma {:induction false} PutAlongAt(pr: seq<int>, link: seq<Option<nat>>, rank: seq<nat>, c: nat, q: nat)
    requires Ranked(link, rank) && c < |pr| == |link| && q < |pr|
    ensures PutAlong(pr, link, rank, c)[q] == pr[q] - (if OnChain(link, rank, c, q) then 1 else 0)
    decreases Top(rank) - rank[c]
  {
    if link[c].Some? {
      PutAlongAt(Put(pr, c), link, rank, link[c].value, q);
      if OnChain(link, rank, link[c].value, q) {
        OnChainRises(link, rank, link[c].value, q);
      }
    }
  }

  lemma {:induction false} PutAlongRefs(ref: seq<int>, io: seq<nat>, link: seq<Option<nat>>, rank: seq<nat>, c: nat)
    requires Ranked(link, rank) && c < |ref| == |link| == |io|
    ensures ProcessRefs(PutAlong(ref, link, rank, c), io) == PutAlong(ProcessRefs(ref, io), link, rank, c)
    decreases Top(rank) - rank[c]
  {
    assert ProcessRefs(Put(ref, c), io) == Put(ProcessRefs(ref, io), c);
    if link[c].Some? {
      PutAlongRefs(Put(ref, c), io, link, rank, link[c].value);
    }
  }

  /** All along the chain of a queue that a process may still come through, there are process
      references. */
  lemma {:induction false} ChainAlive(pr: seq<int>, link: seq<Option<nat>>, rank: seq<nat>, proc: seq<Option<nat>>,
      c: nat, q: nat)
    requires Ranked(link, rank) && Covered(pr, link, proc) && c < |link| && pr[c] > 0 && OnChain(link, rank, c, q)
    ensures q < |pr| && pr[q] > 0
    decreases Top(rank) - rank[c]
  {
    if q != c {
      InAtLeast(pr, link, link[c].value, |pr|, c);
      assert Slack(pr, link, proc, link[c].value) >= 0;
      ChainAlive(pr, link, rank, proc, link[c].value, q);
    }
  }

  lemma {:induction false} OwnPositive(proc: seq<Option<nat>>, q: nat, n: nat, p: nat)
    requires p < n <= |proc| && proc[p] == Some(q)
    ensures Own(proc, q, n) >= 1
  {
    if p < n - 1 {
      OwnPositive(proc, q, n - 1, p);
    }
  }

  /** The queue of a process, and every queue it may still be moved to, is alive. */
  lemma ProcessAlive(pr: seq<int>, link: seq<Option<nat>>, rank: seq<nat>, proc: seq<Option<nat>>, p: nat, q: nat)
    requires Ranked(link, rank) && Covered(pr, link, proc) && Users(proc, |pr|)
    requires p < |proc| && proc[p].Some? && OnChain(link, rank, proc[p].value, q)
    ensures q < |pr| && pr[q] > 0
  {
    var x := proc[p].value;
    OwnPositive(proc, x, |proc|, p);
    InAtLeast(pr, link, x, |pr|, 0);
    assert Slack(pr, link, proc, x) >= 0;
    ChainAlive(pr, link, rank, proc, x, q);
  }

  lemma {:induction false} OwnNone(proc: seq<Option<nat>>, q: nat, n: nat)
    requires n <= |proc| && forall p :: 0 <= p < |proc| ==> proc[p].None?
    ensures Own(proc, q, n) == 0
  {
    if n > 0 {
      OwnNone(proc, q, n - 1);
    }
  }

  /** When every reference is accounted for and the processes are gone, only requests hold the
      queues. */
  lemma {:induction false} NothingLeaks(pr: seq<int>, link: seq<Option<nat>>, rank: seq<nat>, proc: seq<Option<nat>>,
      q: nat)
    requires Ranked(link, rank) && Balanced(pr, link, proc) && q < |pr| && forall p :: 0 <= p < |proc| ==> proc[p].None?
    ensures pr[q] == 0
    decreases rank[q], 1, 0
  {
    OwnNone(proc, q, |proc|);
    NothingComes(pr, link, rank, proc, q, |pr|);
    assert Slack(pr, link, proc, q) == 0;
  }

  lemma {:induction false} NothingComes(pr: seq<int>, link: seq<Option<nat>>, rank: seq<nat>, proc: seq<Option<nat>>,
      q: nat, n: nat)
    requires Ranked(link, rank) && Balanced(pr, link, proc) && q < |pr| && n <= |pr|
    requires forall p :: 0 <= p < |proc| ==> proc[p].None?
    ensures In(pr, link, q, n) == 0
    decreases rank[q], 0, n
  {
    if n > 0 {
      NothingComes(pr, link, rank, proc, q, n - 1);
      if link[n - 1] == Some(q) {
        NothingLeaks(pr, link, rank, proc, n - 1);
      }
    }
  }

  lemma {:induction false} InNothing(pr: seq<int>, link: seq<Option<nat>>, q: nat, n: nat)
    requires n <= |pr| == |link| && forall k :: 0 <= k < |pr| ==> pr[k] == 0
    ensures In(pr, link, q, n) == 0
  {
    if n > 0 {
      InNothing(pr, link, q, n - 1);
    }
  }

  /** Once the processes are gone, a queue with a reference in excess is held for good. */
  lemma ExcessHolds(pr: seq<int>, link: seq<Option<nat>>, proc: seq<Option<nat>>, q: nat)
    requires Covered(pr, link, proc) && q < |pr| && forall p :: 0 <= p < |proc| ==> proc[p].None?
    ensures pr[q] >= Slack(pr, link, proc, q)
  {
    OwnNone(proc, q, |proc|);
    InAtLeast(pr, link, q, |pr|, 0);
  }

  /** Once the processes are gone, only requests hold the queues if and only if no reference is
      in excess anywhere. */
  lemma NothingLeaksExactly(pr: seq<int>, link: seq<Option<nat>>, rank: seq<nat>, proc: seq<Option<nat>>)
    requires Ranked(link, rank) && |pr| == |link| && forall p :: 0 <= p < |proc| ==> proc[p].None?
    ensures (forall q :: 0 <= q < |pr| ==> pr[q] == 0) <==> Balanced(pr, link, proc)
  {
    if Balanced(pr, link, proc) {
      forall q | 0 <= q < |pr| ensures pr[q] == 0 {
        NothingLeaks(pr, link, rank, proc, q);
      }
    }
    if forall q :: 0 <= q < |pr| ==> pr[q] == 0 {
      forall q | 0 <= q < |pr| ensures Slack(pr, link, proc, q) == 0 {
        OwnNone(proc, q, |proc|);
        InNothing(pr, link, q, |pr|);
      }
    }
  }

  // ----- What the operations do to the slack -----

  /** A link between two ends, with a reference for each process that may come along it. */
  lemma LinkSlack(pr: seq<int>, link: seq<Option<nat>>, proc: seq<Option<nat>>, a: nat, b: nat, q: nat)
    requires q < |pr| == |link| && a < |pr| && b < |pr| && a != b && link[a].None? && link[b].None?
    ensures Slack(pr[b := pr[b] + pr[a]], link[a := Some(b)], proc, q) == Slack(pr, link, proc, q)
  {
    var pr' := pr[b := pr[b] + pr[a]];
    InPut(pr, link, q, |pr|, b, pr[b] + pr[a]);
    InLinked(pr', link, q, |pr|, a, b);
  }

  /** A process moves on along the link; its old queue loses a reference. */
  lemma MoveSlack(pr: seq<int>, link: seq<Option<nat>>, proc: seq<Option<nat>>, p: nat, q: nat)
    requires q < |pr| == |link| && p < |proc| && proc[p].Some? && proc[p].value < |pr| && link[proc[p].value].Some?
    ensures Slack(Put(pr, proc[p].value), link, proc[p := link[proc[p].value]], q) == Slack(pr, link, proc, q)
  {
    PutSlack(pr, link, proc, proc[p].value, q);
    OwnSet(proc, q, |proc|, p, link[proc[p].value]);
  }

  /** A process leaves its queue, which loses a reference: what was to come along a link is in
      excess then. */
  lemma LeaveSlack(pr: seq<int>, link: seq<Option<nat>>, proc: seq<Option<nat>>, p: nat, q: nat)
    requires q < |pr| == |link| && p < |proc| && proc[p].Some? && proc[p].value < |pr|
    ensures Slack(Put(pr, proc[p].value), link, proc[p := None], q)
            == Slack(pr, link, proc, q) + (if link[proc[p].value] == Some(q) then 1 else 0)
  {
    PutSlack(pr, link, proc, proc[p].value, q);
    OwnSet(proc, q, |proc|, p, None);
  }

  /** A new queue with its first process. */
  lemma NewSlack(pr: seq<int>, link: seq<Option<nat>>, proc: seq<Option<nat>>, p: nat, q: nat)
    requires q <= |pr| == |link| && InRange(link) && Users(proc, |pr|) && p < |proc| && proc[p].None?
    ensures Slack(pr + [1], link + [None], proc[p := Some(|pr|)], q) == if q == |pr| then 0
            else Slack(pr, link, proc, q)
  {
    OwnSet(proc, q, |proc|, p, Some(|pr|));
    InGrown(pr, link, q, |pr|, 1);
    if q == |pr| {
      OwnOutside(proc, q, |proc|, |pr|);
      InOutside(pr, link, q, |pr|);
    }
  }

  /** The slack of every queue. */
  function Slacks(pr: seq<int>, link: seq<Option<nat>>, proc: seq<Option<nat>>): (s: seq<int>)
    requires |pr| == |link|
    ensures |s| == |pr|
  {
    seq(|pr|, q requires 0 <= q < |pr| => Slack(pr, link, proc, q))
  }

  predicate NonNegative(s: seq<int>) {
    forall q :: 0 <= q < |s| ==> s[q] >= 0
  }

  lemma CoveredBySlacks(pr: seq<int>, link: seq<Option<nat>>, proc: seq<Option<nat>>)
    requires |pr| == |link|
    ensures Covered(pr, link, proc) <==> NonNegative(pr) && NonNegative(Slacks(pr, link, proc))
  {
    var s := Slacks(pr, link, proc);
    assert forall q :: 0 <= q < |pr| ==> s[q] == Slack(pr, link, proc, q);
  }

  /** The state after a process has left: one reference dropped all along its chain. */
  ghost function Left(pr: seq<int>, link: seq<Option<nat>>, rank: seq<nat>, x: nat): (r: seq<int>)
    requires Ranked(link, rank) && x < |pr| == |link|
    ensures |r| == |pr|
  {
    if link[x].None? then Put(pr, x) else Put(PutAlong(pr, link, rank, link[x].value), x)
  }

  lemma LeftSlacks(pr: seq<int>, link: seq<Option<nat>>, rank: seq<nat>, proc: seq<Option<nat>>, p: nat)
    requires Ranked(link, rank) && |pr| == |link| && p < |proc| && proc[p].Some? && proc[p].value < |pr|
    ensures Slacks(Left(pr, link, rank, proc[p].value), link, proc[p := None]) == Slacks(pr, link, proc)
  {
    var x := proc[p].value;
    forall q | 0 <= q < |pr| ensures Slack(Left(pr, link, rank, x), link, proc[p := None], q)
        == Slack(pr, link, proc, q) {
      if link[x].Some? {
        PutAlongSlack(pr, link, rank, proc, link[x].value, q);
        LeaveSlack(PutAlong(pr, link, rank, link[x].value), link, proc, p, q);
      } else {
        LeaveSlack(pr, link, proc, p, q);
      }
    }
  }

  lemma NotOnOwnChain(link: seq<Option<nat>>, rank: seq<nat>, x: nat)
    requires Ranked(link, rank) && x < |link| && link[x].Some?
    ensures !OnChain(link, rank, link[x].value, x)
  {
    if OnChain(link, rank, link[x].value, x) {
      OnChainRises(link, rank, link[x].value, x);
    }
  }

  lemma LeftAt(pr: seq<int>, link: seq<Option<nat>>, rank: seq<nat>, x: nat, q: nat)
    requires Ranked(link, rank) && x < |pr| == |link| && q < |pr|
    ensures Left(pr, link, rank, x)[q] == pr[q] - (if OnChain(link, rank, x, q) then 1 else 0)
  {
    if link[x].Some? {
      PutAlongAt(pr, link, rank, link[x].value, q);
      NotOnOwnChain(link, rank, x);
      PutAlongAt(pr, link, rank, link[x].value, x);
    }
  }

  lemma LeftCovered(pr: seq<int>, link: seq<Option<nat>>, rank: seq<nat>, proc: seq<Option<nat>>, p: nat)
    requires Ranked(link, rank) && Covered(pr, link, proc) && Users(proc, |pr|) && p < |proc| && proc[p].Some?
    ensures Covered(Left(pr, link, rank, proc[p].value), link, proc[p := None])
  {
    var x := proc[p].value;
    CoveredBySlacks(pr, link, proc);
    LeftSlacks(pr, link, rank, proc, p);
    CoveredBySlacks(Left(pr, link, rank, x), link, proc[p := None]);
    forall q | 0 <= q < |pr| ensures Left(pr, link, rank, x)[q] >= 0 {
      LeftAt(pr, link, rank, x, q);
      if OnChain(link, rank, x, q) {
        ProcessAlive(pr, link, rank, proc, p, q);
      }
    }
  }

  lemma LeftRefs(ref: seq<int>, io: seq<nat>, link: seq<Option<nat>>, rank: seq<nat>, x: nat)
    requires Ranked(link, rank) && x < |ref| == |link| == |io|
    ensures ProcessRefs(Left(ref, link, rank, x), io) == Left(ProcessRefs(ref, io), link, rank, x)
  {
    if link[x].Some? {
      PutAlongRefs(ref, io, link, rank, link[x].value);
    }
  }

  lemma LinkKeeps(pr: seq<int>, link: seq<Option<nat>>, proc: seq<Option<nat>>, a: nat, b: nat)
    requires Covered(pr, link, proc) && a < |pr| && b < |pr| && a != b && link[a].None? && link[b].None?
    ensures var pr', link' := pr[b := pr[b] + pr[a]], link[a := Some(b)];
            Covered(pr', link', proc) && Slacks(pr', link', proc) == Slacks(pr, link, proc)
  {
    var pr', link' := pr[b := pr[b] + pr[a]], link[a := Some(b)];
    forall q | 0 <= q < |pr| ensures Slack(pr', link', proc, q) == Slack(pr, link, proc, q) {
      LinkSlack(pr, link, proc, a, b, q);
    }
  }

  lemma MoveKeeps(pr: seq<int>, link: seq<Option<nat>>, proc: seq<Option<nat>>, p: nat)
    requires Covered(pr, link, proc) && Users(proc, |pr|) && p < |proc| && proc[p].Some? && link[proc[p].value].Some?
    ensures var pr', proc' := Put(pr, proc[p].value), proc[p := link[proc[p].value]];
            pr[proc[p].value] > 0 && Covered(pr', link, proc') && Slacks(pr', link, proc') == Slacks(pr, link, proc)
  {
    var x := proc[p].value;
    var pr', proc' := Put(pr, x), proc[p := link[x]];
    OwnPositive(proc, x, |proc|, p);
    InAtLeast(pr, link, x, |pr|, 0);
    assert Slack(pr, link, proc, x) >= 0;
    forall q | 0 <= q < |pr| ensures Slack(pr', link, proc', q) == Slack(pr, link, proc, q) {
      MoveSlack(pr, link, proc, p, q);
    }
  }

  lemma NewKeeps(pr: seq<int>, link: seq<Option<nat>>, proc: seq<Option<nat>>, p: nat)
    requires Covered(pr, link, proc) && InRange(link) && Users(proc, |pr|) && p < |proc| && proc[p].None?
    ensures var pr', link', proc' := pr + [1], link + [None], proc[p := Some(|pr|)];
            Covered(pr', link', proc') && Slacks(pr', link', proc') == Slacks(pr, link, proc) + [0]
  {
    var pr', link', proc' := pr + [1], link + [None], proc[p := Some(|pr|)];
    forall q | 0 <= q <= |pr| ensures Slack(pr', link', proc', q) == if q == |pr| then 0 else Slack(pr, link, proc, q) {
      NewSlack(pr, link, proc, p, q);
    }
  }

  /** A process that leaves without dropping the references along its chain leaves one too many
      on the next queue. */
  lemma LeaveKeeps(pr: seq<int>, link: seq<Option<nat>>, proc: seq<Option<nat>>, p: nat)
    requires Covered(pr, link, proc) && InRange(link) && Users(proc, |pr|) && p < |proc| && proc[p].Some?
    ensures var x := proc[p].value;
            var pr', proc', was := Put(pr, x), proc[p := None], Slacks(pr, link, proc);
            && pr[x] > 0 && Covered(pr', link, proc')
            && Slacks(pr', link, proc') == if link[x].None? then was else was[link[x].value := was[link[x].value] + 1]
  {
    var x := proc[p].value;
    var pr', proc' := Put(pr, x), proc[p := None];
    OwnPositive(proc, x, |proc|, p);
    InAtLeast(pr, link, x, |pr|, 0);
    assert Slack(pr, link, proc, x) >= 0;
    forall q | 0 <= q < |pr| ensures Slack(pr', link, proc', q) == Slack(pr, link, proc, q)
        + (if link[x] == Some(q) then 1 else 0) {
      LeaveSlack(pr, link, proc, p, q);
    }
  }

  /** The queues from c on still have references. */
  ghost predicate ChainHeld(ref: seq<int>, link: seq<Option<nat>>, rank: seq<nat>, c: nat)
    requires Ranked(link, rank) && c < |ref| == |link|
  {
    forall q :: 0 <= q < |ref| && OnChain(link, rank, c, q) ==> ref[q] > 0
  }

  lemma ChainHeldOn(ref: seq<int>, link: seq<Option<nat>>, rank: seq<nat>, c: nat)
    requires Ranked(link, rank) && c < |ref| == |link| && ChainHeld(ref, link, rank, c) && link[c].Some?
    ensures ref[c] > 0 && ChainHeld(Put(ref, c), link, rank, link[c].value)
  {
    assert OnChain(link, rank, c, c);
    NotOnOwnChain(link, rank, c);
    forall q | 0 <= q < |ref| && OnChain(link, rank, link[c].value, q) ensures Put(ref, c)[q] > 0 {
      assert OnChain(link, rank, c, q);
    }
  }

  // ----- The scheduler's queues -----

  class Pool {
    var ref: seq<int>
    var ioRefs: seq<nat>
    var newCfqq: seq<Option<nat>>
    var proc: seq<Option<nat>>
    ghost var rank: seq<nat>

    ghost predicate Shaped()
      reads this
    {
      |ref| == |ioRefs| == |newCfqq| && Ranked(newCfqq, rank) && Users(proc, |ref|)
    }

    /** No cycle of queues, and references for every process that uses a queue or may come
        to it. */
    ghost predicate Valid()
      reads this
    {
      Shaped() && Covered(ProcessRefs(ref, ioRefs), newCfqq, proc)
    }

    ghost function Excess(): seq<int>
      requires Shaped()
      reads this
    {
      Slacks(ProcessRefs(ref, ioRefs), newCfqq, proc)
    }

    constructor (processes: nat)
      ensures Valid() && ref == [] && |proc| == processes && Excess() == []
    {
      ref, ioRefs, newCfqq, rank := [], [], [], [];
      proc := seq(processes, _ => None);
    }

    /** cfq_get_queue for a process without one. */
    method GetQueue(p: nat)
      requires Valid() && p < |proc| && proc[p].None?
      modifies this
      ensures Valid() && Excess() == old(Excess()) + [0]
      ensures ref == old(ref) + [1] && ioRefs == old(ioRefs) + [0] && newCfqq == old(newCfqq) + [None]
      ensures proc == old(proc)[p := Some(|old(ref)|)]
    {
      ghost var pr := ProcessRefs(ref, ioRefs);
      NewKeeps(pr, newCfqq, proc, p);
      proc := proc[p := Some(|ref|)];
      ref, ioRefs, newCfqq := ref + [1], ioRefs + [0], newCfqq + [None];
      rank := rank + [0];
      assert ProcessRefs(ref, ioRefs) == pr + [1];
    }

    /** The end of cfq_set_request: a request holds a reference. */
    method SetRequest(q: nat)
      requires Valid() && q < |ref|
      modifies this`ref, this`ioRefs
      ensures Valid() && Excess() == old(Excess())
      ensures ref == old(ref)[q := old(ref[q]) + 1] && ioRefs == old(ioRefs)[q := old(ioRefs[q]) + 1]
    {
      ioRefs := ioRefs[q := ioRefs[q] + 1];
      ref := ref[q := ref[q] + 1];
      assert ProcessRefs(ref, ioRefs) == old(ProcessRefs(ref, ioRefs));
    }

    /** cfq_put_queue: the references never run out below zero. */
    method PutQueue(q: nat)
      requires q < |ref| && ref[q] > 0
      modifies this`ref
      ensures ref == Put(old(ref), q)
    {
      ref := ref[q := ref[q] - 1];
    }

    /** cfq_put_request */
    method PutRequest(q: nat)
      requires Valid() && q < |ref| && ioRefs[q] > 0
      modifies this`ref, this`ioRefs
      ensures Valid() && Excess() == old(Excess())
      ensures ref == Put(old(ref), q) && ioRefs == old(ioRefs)[q := old(ioRefs[q]) - 1]
    {
      assert ProcessRefs(ref, ioRefs)[q] >= 0;
      ioRefs := ioRefs[q := ioRefs[q] - 1];
      PutQueue(q);
      assert ProcessRefs(ref, ioRefs) == old(ProcessRefs(ref, ioRefs));
    }

    ghost predicate MergeIdle(cfqq: nat, coop: nat)
      requires Shaped() && cfqq < |ref| && coop < |ref|
      reads this
    {
      var pr := ProcessRefs(ref, ioRefs);
      pr[coop] == 0 || End(newCfqq, rank, coop) == cfqq || pr[cfqq] == 0
    }

    /** The new state is a link from a to b, and as many references on b as a has processes. */
    ghost predicate Linked(ref0: seq<int>, link0: seq<Option<nat>>, a: nat, b: nat, pr: seq<int>)
      requires a < |ref0| == |link0| == |pr| && b < |ref0|
      reads this
    {
      ref == ref0[b := ref0[b] + pr[a]] && newCfqq == link0[a := Some(b)]
    }

    /** Each arm at the end of cfq_setup_merge. */
    method LinkQueues(a: nat, b: nat)
      requires Valid() && a < |ref| && b < |ref| && a != b && newCfqq[a].None? && newCfqq[b].None?
      modifies this`ref, this`newCfqq, this`rank
      ensures Valid() && Excess() == old(Excess())
      ensures Linked(old(ref), old(newCfqq), a, b, old(ProcessRefs(ref, ioRefs)))
    {
      ghost var pr := ProcessRefs(ref, ioRefs);
      LinkAcyclic(newCfqq, rank, a, b);
      LinkKeeps(pr, newCfqq, proc, a, b);
      rank := Raised(rank, a, b);
      newCfqq := newCfqq[a := Some(b)];
      ref := ref[b := ref[b] + (ref[a] - ioRefs[a])];
      assert ProcessRefs(ref, ioRefs) == pr[b := pr[b] + pr[a]];
    }

    /** cfq_setup_merge for an active queue without a link and another queue: a link from the
        one with fewer process references, or nothing if one has none or they are linked. */
    method SetupMerge(cfqq: nat, coop: nat)
      requires Valid() && cfqq < |ref| && coop < |ref| && newCfqq[cfqq].None? && cfqq != coop
      modifies this`ref, this`newCfqq, this`rank
      ensures Valid() && Excess() == old(Excess())
      ensures old(MergeIdle(cfqq, coop)) ==> ref == old(ref) && newCfqq == old(newCfqq)
      ensures !old(MergeIdle(cfqq, coop)) ==>
                var end, pr := old(End(newCfqq, rank, coop)), old(ProcessRefs(ref, ioRefs));
                if pr[end] >= pr[cfqq] then Linked(old(ref), old(newCfqq), cfqq, end, pr)
                else Linked(old(ref), old(newCfqq), end, cfqq, pr)
    {
      ghost var pr := ProcessRefs(ref, ioRefs);
      if ref[coop] - ioRefs[coop] == 0 {
        return;
      }
      var last := coop;
      while newCfqq[last].Some?
        invariant 0 <= last < |ref| && last != cfqq && End(newCfqq, rank, coop) == End(newCfqq, rank, last)
        decreases Top(rank) - rank[last]
      {
        if newCfqq[last].value == cfqq {
          return;
        }
        last := newCfqq[last].value;
      }
      var processRefs, newProcessRefs := ref[cfqq] - ioRefs[cfqq], ref[last] - ioRefs[last];
      if processRefs == 0 || newProcessRefs == 0 {
        EndOnChain(newCfqq, rank, coop);
        ChainAlive(pr, newCfqq, rank, proc, coop, last);
        return;
      }
      if newProcessRefs >= processRefs {
        LinkQueues(cfqq, last);
      } else {
        LinkQueues(last, cfqq);
      }
    }

    /** cfq_merge_cfqqs: the process moves on. */
    method MergeCfqqs(p: nat)
      requires Valid() && p < |proc| && proc[p].Some? && newCfqq[proc[p].value].Some?
      modifies this`ref, this`proc
      ensures Valid() && Excess() == old(Excess())
      ensures ref == Put(old(ref), old(proc[p]).value) && proc == old(proc)[p := newCfqq[old(proc[p]).value]]
    {
      ghost var pr := ProcessRefs(ref, ioRefs);
      MoveKeeps(pr, newCfqq, proc, p);
      var cfqq := proc[p].value;
      proc := proc[p := newCfqq[cfqq]];
      PutQueue(cfqq);
      assert ProcessRefs(ref, ioRefs) == Put(pr, cfqq);
    }

    /** cfq_put_cooperator: drops a reference on every queue after this one in the chain; the
        chain does not come back. */
    method PutCooperator(cfqq: nat)
      requires Shaped() && cfqq < |ref| && (newCfqq[cfqq].Some? ==> ChainHeld(ref, newCfqq, rank, newCfqq[cfqq].value))
      modifies this`ref
      ensures ref == if newCfqq[cfqq].None? then old(ref) else PutAlong(old(ref), newCfqq, rank, newCfqq[cfqq].value)
    {
      var cur := newCfqq[cfqq];
      while cur.Some?
        invariant |ref| == |newCfqq|
        invariant cur.Some?
                  ==> cur.value < |ref| && rank[cur.value] > rank[cfqq] && ChainHeld(ref, newCfqq, rank, cur.value)
        invariant newCfqq[cfqq].None? ==> cur.None? && ref == old(ref)
        invariant newCfqq[cfqq].Some? ==> PutAlong(old(ref), newCfqq, rank, newCfqq[cfqq].value)
                                          == if cur.None? then ref else PutAlong(ref, newCfqq, rank, cur.value)
        decreases if cur.Some? then 1 + Top(rank) - rank[cur.value] else 0
      {
        if cur.value == cfqq {
          assert false;
        }
        var next := newCfqq[cur.value];
        if next.Some? {
          ChainHeldOn(ref, newCfqq, rank, cur.value);
        }
        assert OnChain(newCfqq, rank, cur.value, cur.value);
        PutQueue(cur.value);
        cur := next;
      }
    }

    /** cfq_exit_cfqq when a process goes: exactly the queues of its chain lose a reference, and
        no reference is left over. */
    method ExitCfqq(p: nat)
      requires Valid() && p < |proc| && proc[p].Some?
      modifies this`ref, this`proc
      ensures Valid() && Excess() == old(Excess()) && proc == old(proc)[p := None]
      ensures ref == Left(old(ref), newCfqq, rank, old(proc[p]).value)
    {
      ghost var pr := ProcessRefs(ref, ioRefs);
      var cfqq := proc[p].value;
      LeftSlacks(pr, newCfqq, rank, proc, p);
      LeftCovered(pr, newCfqq, rank, proc, p);
      LeftRefs(ref, ioRefs, newCfqq, rank, cfqq);
      forall q | 0 <= q < |ref| && OnChain(newCfqq, rank, cfqq, q) ensures ref[q] > 0 {
        ProcessAlive(pr, newCfqq, rank, proc, p, q);
      }
      assert OnChain(newCfqq, rank, cfqq, cfqq);
      if newCfqq[cfqq].Some? {
        NotOnOwnChain(newCfqq, rank, cfqq);
        PutAlongAt(ref, newCfqq, rank, newCfqq[cfqq].value, cfqq);
      }
      PutCooperator(cfqq);
      PutQueue(cfqq);
      proc := proc[p := None];
    }

    /** split_cfqq: the last process keeps the queue, any other leaves it. */
    method SplitCfqq(p: nat) returns (kept: bool)
      requires Valid() && p < |proc| && proc[p].Some?
      modifies this`ref, this`proc
      ensures Valid() && Excess() == old(Excess())
      ensures kept <==> old(ref[proc[p].value]) - ioRefs[old(proc[p].value)] == 1
      ensures kept ==> ref == old(ref) && proc == old(proc)
      ensures !kept ==> proc == old(proc)[p := None] && ref == Left(old(ref), newCfqq, rank, old(proc[p]).value)
    {
      var cfqq := proc[p].value;
      kept := ref[cfqq] - ioRefs[cfqq] == 1;
      if !kept {
        ExitCfqq(p);
      }
    }

    /** changed_cgroup drops the reference on the queue only: what was to come along its link is
        never dropped. */
    method ChangedCgroup(p: nat)
      requires Valid() && p < |proc| && proc[p].Some?
      modifies this`ref, this`proc
      ensures Valid() && proc == old(proc)[p := None] && ref == Put(old(ref), old(proc[p]).value)
      ensures var x, excess := old(proc[p]).value, old(Excess());
              Excess() == if newCfqq[x].None? then excess else excess[newCfqq[x].value := excess[newCfqq[x].value] + 1]
    {
      ghost var pr := ProcessRefs(ref, ioRefs);
      LeaveKeeps(pr, newCfqq, proc, p);
      var cfqq := proc[p].value;
      proc := proc[p := None];
      PutQueue(cfqq);
      assert ProcessRefs(ref, ioRefs) == Put(pr, cfqq);
    }
  }

  /** Two processes with a queue each. */
  method Pair() returns (pool: Pool)
    ensures fresh(pool) && pool.Valid() && pool.ref == [1, 1] && pool.ioRefs == [0, 0]
    ensures pool.newCfqq == [None, None] && pool.proc == [Some(0), Some(1)]
  {
    pool := new Pool(2);
    pool.GetQueue(0);
    assert pool.ref == [1] && pool.ioRefs == [0] && pool.newCfqq == [None];
    pool.GetQueue(1);
  }

  /** The first queue is to merge with the second. */
  method MergingPair() returns (pool: Pool)
    ensures fresh(pool) && pool.Valid() && pool.ref == [1, 2] && pool.ioRefs == [0, 0]
    ensures pool.newCfqq == [Some(1), None] && pool.proc == [Some(0), Some(1)]
  {
    pool := Pair();
    ghost var pr := ProcessRefs(pool.ref, pool.ioRefs);
    assert pr == [1, 1] && End(pool.newCfqq, pool.rank, 1) == 1;
    assert !pool.MergeIdle(0, 1);
    pool.SetupMerge(0, 1);
    assert pool.Linked([1, 1], [None, None], 0, 1, pr);
  }

  /** A run that leaks: the first process changes its group and the second one exits.  Both are
      gone, and a reference on the second queue is left. */
  method LeakRun() returns (refs: seq<int>, users: seq<Option<nat>>)
    ensures refs == [0, 1] && users == [None, None]
  {
    var pool := MergingPair();
    pool.ChangedCgroup(0);
    assert pool.ref == [0, 2];
    pool.ExitCfqq(1);
    refs, users := pool.ref, pool.proc;
  }
}
