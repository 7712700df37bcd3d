/** Which request the CFQ scheduler serves next: a choice between two requests, and a search
    that looks only at the neighbours of the last one. */
module CfqChoice {
  import opened Wrappers

  datatype Rq = Rq(id: nat, pos: nat, sync: bool, meta: bool)

  /** cfq_back_max, in KiB, and cfq_back_penalty. */
  datatype Tunables = Tunables(backMax: nat, backPenalty: nat)

  /** A request too far behind the head to seek back for. */
  predicate Wraps(t: Tunables, pos: nat, last: nat) {
    pos < last && pos + t.backMax * 2 < last
  }

  function Distance(t: Tunables, pos: nat, last: nat): int {
    if pos >= last then pos - last else (last - pos) * t.backPenalty
  }

  /** cfq_choose_req */
  function ChooseReq(t: Tunables, rq1: Option<Rq>, rq2: Option<Rq>, last: nat): Option<Rq> {
    if rq1.None? || rq1 == rq2 then rq2
    else if rq2.None? then rq1
    else
      var a, b := rq1.value, rq2.value;
      if a.sync && !b.sync then rq1
      else if b.sync && !a.sync then rq2
      else if a.meta && !b.meta then rq1
      else if b.meta && !a.meta then rq2
      else
        var wrap1, wrap2 := Wraps(t, a.pos, last), Wraps(t, b.pos, last);
        if !wrap1 && !wrap2 then
          var d1, d2 := Distance(t, a.pos, last), Distance(t, b.pos, last);
          if d1 < d2 then rq1 else if d2 < d1 then rq2 else if a.pos >= b.pos then rq1 else rq2
        else if wrap2 && !wrap1 then rq1
        else if wrap1 && !wrap2 then rq2
        else if a.pos <= b.pos then rq1 else rq2
  }

  // ----- The order behind the choice -----

  /** a is to be served no later than b: sync first, then metadata, then what needs no wrap,
      by distance; among those that wrap, from the lowest sector up. */
  predicate NoWorse(t: Tunables, last: nat, a: Rq, b: Rq) {
    if a.sync != b.sync then a.sync
    else if a.meta != b.meta then a.meta
    else if Wraps(t, a.pos, last) != Wraps(t, b.pos, last) then Wraps(t, b.pos, last)
    else if Wraps(t, a.pos, last) then a.pos <= b.pos
    else Nearer(Distance(t, a.pos, last), a.pos, Distance(t, b.pos, last), b.pos)
  }

  predicate Nearer(da: int, a: nat, db: int, b: nat) {
    da < db || (da == db && a >= b)
  }

  /** It is a total order on requests at distinct sectors. */
  lemma NoWorseOrders(t: Tunables, last: nat, a: Rq, b: Rq, c: Rq)
    ensures NoWorse(t, last, a, b) || NoWorse(t, last, b, a)
    ensures NoWorse(t, last, a, b) && NoWorse(t, last, b, a) ==> a.pos == b.pos && a.sync == b.sync && a.meta == b.meta
    ensures NoWorse(t, last, a, b) && NoWorse(t, last, b, c) ==> NoWorse(t, last, a, c)
  {
  }

  /** The choice is the least of the two, whichever comes first. */
  lemma ChooseIsLeast(t: Tunables, rq1: Option<Rq>, rq2: Option<Rq>, last: nat)
    ensures var r := ChooseReq(t, rq1, rq2, last);
            && (r.None? <==> rq1.None? && rq2.None?)
            && (r.Some? ==> r == rq1 || r == rq2)
            && (rq1.Some? ==> r.Some? && NoWorse(t, last, r.value, rq1.value))
            && (rq2.Some? ==> r.Some? && NoWorse(t, last, r.value, rq2.value))
  {
  }

  // ----- The neighbours suffice -----

  ghost predicate Sorted(s: seq<Rq>) {
    forall i, j :: 0 <= i < j < |s| ==> s[i].pos < s[j].pos
  }

  /** cfq_find_next_rq: the neighbours of s[i], or the first request instead of a missing
      next one. */
  function FindNextRq(t: Tunables, s: seq<Rq>, i: nat): Option<Rq>
    requires i < |s|
  {
    var prev := if i > 0 then Some(s[i - 1]) else None;
    var next := if i + 1 < |s| then Some(s[i + 1]) else if i != 0 then Some(s[0]) else None;
    ChooseReq(t, next, prev, s[i].pos)
  }

  ghost predicate OneClass(s: seq<Rq>, i: nat) {
    forall j, k :: 0 <= j < |s| && 0 <= k < |s| && j != i && k != i ==> s[j].sync == s[k].sync && s[j].meta == s[k].meta
  }

  /** A request in the list other than s[i]. */
  predicate Other(s: seq<Rq>, i: nat, r: Option<Rq>) {
    r.Some? && exists k :: 0 <= k < |s| && k != i && s[k] == r.value
  }

  lemma FindNextIsOther(t: Tunables, s: seq<Rq>, i: nat)
    requires i < |s|
    ensures |s| == 1 ==> FindNextRq(t, s, i).None?
    ensures |s| > 1 ==> Other(s, i, FindNextRq(t, s, i))
  {
    if |s| > 1 {
      var prev := if i > 0 then Some(s[i - 1]) else None;
      var next := if i + 1 < |s| then Some(s[i + 1]) else Some(s[0]);
      ChooseIsLeast(t, next, prev, s[i].pos);
    }
  }

  lemma PenaltyGrows(t: Tunables, a: nat, b: nat, last: nat)
    requires a <= b < last
    ensures Distance(t, b, last) <= Distance(t, a, last)
  {
    assert (last - a) * t.backPenalty == (last - b) * t.backPenalty + (b - a) * t.backPenalty;
  }

  /** Behind the head: the nearest one is best unless it wraps, and then the first one is. */
  lemma BehindBest(t: Tunables, s: seq<Rq>, i: nat, k: nat)
    requires Sorted(s) && OneClass(s, i) && k < i < |s|
    ensures NoWorse(t, s[i].pos, s[i - 1], s[k])
            || (Wraps(t, s[i - 1].pos, s[i].pos) && NoWorse(t, s[i].pos, s[0], s[k]))
  {
    PenaltyGrows(t, s[k].pos, s[i - 1].pos, s[i].pos);
    assert k == 0 || s[0].pos < s[k].pos;
    assert k == i - 1 || s[k].pos < s[i - 1].pos;
  }

  /** In one class, the neighbours' choice is the least of all that remain. */
  lemma FindNextIsLeast(t: Tunables, s: seq<Rq>, i: nat, k: nat)
    requires Sorted(s) && OneClass(s, i) && i < |s| && k < |s| && k != i
    ensures FindNextRq(t, s, i).Some? && NoWorse(t, s[i].pos, FindNextRq(t, s, i).value, s[k])
  {
    var last := s[i].pos;
    var prev := if i > 0 then Some(s[i - 1]) else None;
    var next := if i + 1 < |s| then Some(s[i + 1]) else Some(s[0]);
    var r := FindNextRq(t, s, i);
    ChooseIsLeast(t, next, prev, last);
    if k > i {
      assert k == i + 1 || s[i + 1].pos < s[k].pos;
      assert NoWorse(t, last, s[i + 1], s[k]);
      NoWorseOrders(t, last, r.value, s[i + 1], s[k]);
    } else {
      BehindBest(t, s, i, k);
      NoWorseOrders(t, last, r.value, s[i - 1], s[k]);
      NoWorseOrders(t, last, r.value, next.value, s[k]);
      if i + 1 < |s| && !NoWorse(t, last, s[i - 1], s[k]) {
        assert s[k].pos < s[i + 1].pos;
        assert NoWorse(t, last, s[i + 1], s[k]);
      }
    }
  }

  // ----- Several classes -----

  predicate ClassNoWorse(a: Rq, b: Rq) {
    if a.sync != b.sync then a.sync else a.meta || !b.meta
  }

  /** s[k] belongs to the best class that remains. */
  predicate Best(s: seq<Rq>, i: nat, k: nat) {
    k < |s| && k != i && forall j :: 0 <= j < |s| && j != i ==> ClassNoWorse(s[k], s[j])
  }

  /** The first request of the best class from j on. */
  function FirstBest(s: seq<Rq>, i: nat, j: nat): (k: nat)
    requires j <= |s|
    ensures j <= k <= |s| && (k < |s| ==> Best(s, i, k)) && forall x :: j <= x < k ==> !Best(s, i, x)
    decreases |s| - j
  {
    if j == |s| || Best(s, i, j) then j else FirstBest(s, i, j + 1)
  }

  /** The last request of the best class before j, if there is one. */
  function LastBest(s: seq<Rq>, i: nat, j: nat): (k: int)
    requires j <= |s|
    ensures -1 <= k < j && (k >= 0 ==> Best(s, i, k)) && forall x :: k < x < j ==> !Best(s, i, x)
  {
    if j == 0 then -1 else if Best(s, i, j - 1) then j - 1 else LastBest(s, i, j - 1)
  }

  lemma {:induction false} SomeBest(s: seq<Rq>, i: nat, j: nat)
    requires i < |s| && j < |s| && j != i
    ensures exists k: nat :: Best(s, i, k)
  {
    var k: nat := j;
    for x := 0 to |s|
      invariant 0 <= k < |s| && k != i && forall y :: 0 <= y < x && y != i ==> ClassNoWorse(s[k], s[y])
    {
      if x != i && !ClassNoWorse(s[k], s[x]) {
        k := x;
      }
    }
    assert Best(s, i, k);
  }

  /** Where the request to be served next stands, read off the places of the best class: the
      nearest one ahead, or the nearest one behind, or the first one when all of them are too
      far behind. */
  function Goal(t: Tunables, s: seq<Rq>, i: nat): int
    requires i < |s|
  {
    var ahead, behind := FirstBest(s, i, i + 1), LastBest(s, i, i);
    if ahead < |s| && (behind < 0 || NoWorse(t, s[i].pos, s[ahead], s[behind])) then ahead
    else if behind >= 0 && Wraps(t, s[behind].pos, s[i].pos) then FirstBest(s, i, 0)
    else behind
  }

  lemma GoalIsBest(t: Tunables, s: seq<Rq>, i: nat)
    requires i < |s| && |s| > 1
    ensures 0 <= Goal(t, s, i) < |s| && Best(s, i, Goal(t, s, i))
  {
    SomeBest(s, i, if i == 0 then 1 else 0);
    var k: nat :| Best(s, i, k);
    assert k < i || i + 1 <= k;
  }

  lemma AheadBest(t: Tunables, s: seq<Rq>, i: nat, k: nat)
    requires Sorted(s) && i < k < |s| && Best(s, i, k)
    ensures var a := FirstBest(s, i, i + 1); a < |s| && NoWorse(t, s[i].pos, s[a], s[k])
  {
    var a := FirstBest(s, i, i + 1);
    assert a == k || s[a].pos < s[k].pos;
  }

  lemma BehindBestOf(t: Tunables, s: seq<Rq>, i: nat, k: nat)
    requires Sorted(s) && k < i < |s| && Best(s, i, k)
    ensures var b, f := LastBest(s, i, i), FirstBest(s, i, 0);
            && b >= 0 && f < i
            && (if Wraps(t, s[b].pos, s[i].pos) then NoWorse(t, s[i].pos, s[f], s[k])
                else NoWorse(t, s[i].pos, s[b], s[k]))
  {
    var b, f := LastBest(s, i, i), FirstBest(s, i, 0);
    assert k <= b && f <= k;
    assert k == b || s[k].pos < s[b].pos;
    assert f == k || s[f].pos < s[k].pos;
    PenaltyGrows(t, s[k].pos, s[b].pos, s[i].pos);
  }

  lemma GoalIsLeastOfBest(t: Tunables, s: seq<Rq>, i: nat, k: nat)
    requires Sorted(s) && i < |s| && Best(s, i, k)
    ensures 0 <= Goal(t, s, i) < |s| && NoWorse(t, s[i].pos, s[Goal(t, s, i)], s[k])
  {
    var g, last := Goal(t, s, i), s[i].pos;
    GoalIsBest(t, s, i);
    var a, b := FirstBest(s, i, i + 1), LastBest(s, i, i);
    if k > i {
      AheadBest(t, s, i, k);
      if b >= 0 {
        NoWorseOrders(t, last, s[a], s[b], s[k]);
        NoWorseOrders(t, last, s[b], s[a], s[k]);
      }
    } else {
      BehindBestOf(t, s, i, k);
      if a < |s| {
        NoWorseOrders(t, last, s[a], s[b], s[k]);
      }
    }
  }

  /** It is the least of all that remain. */
  lemma GoalIsLeast(t: Tunables, s: seq<Rq>, i: nat, k: nat)
    requires Sorted(s) && i < |s| && k < |s| && k != i
    ensures 0 <= Goal(t, s, i) < |s| && NoWorse(t, s[i].pos, s[Goal(t, s, i)], s[k])
  {
    GoalIsBest(t, s, i);
    var g := Goal(t, s, i);
    if Best(s, i, k) {
      GoalIsLeastOfBest(t, s, i, k);
    } else {
      var j :| 0 <= j < |s| && j != i && !ClassNoWorse(s[k], s[j]);
      assert ClassNoWorse(s[g], s[j]) && ClassNoWorse(s[g], s[k]);
    }
  }

  /** r is the least of the requests that remain. */
  ghost predicate Least(t: Tunables, s: seq<Rq>, i: nat, r: Option<Rq>)
    requires i < |s|
  {
    r.Some? && forall k :: 0 <= k < |s| && k != i ==> NoWorse(t, s[i].pos, r.value, s[k])
  }

  /** The neighbours of s[i], and the first request when there is no next one. */
  predicate Seen(s: seq<Rq>, i: nat, k: int) {
    k == i + 1 || k == i - 1 || (k == 0 && i + 1 == |s|)
  }

  /** Whatever the classes, the search finds the least of all that remain if and only if the
      request of the best class that is to be served next is a neighbour. */
  lemma FindNextIsLeastExactly(t: Tunables, s: seq<Rq>, i: nat)
    requires Sorted(s) && i < |s| && |s| > 1
    ensures Least(t, s, i, FindNextRq(t, s, i)) <==> Seen(s, i, Goal(t, s, i))
  {
    var last, g, r := s[i].pos, Goal(t, s, i), FindNextRq(t, s, i);
    GoalIsBest(t, s, i);
    var prev := if i > 0 then Some(s[i - 1]) else None;
    var next := if i + 1 < |s| then Some(s[i + 1]) else Some(s[0]);
    ChooseIsLeast(t, next, prev, last);
    if Seen(s, i, g) {
      forall k | 0 <= k < |s| && k != i ensures NoWorse(t, last, r.value, s[k]) {
        GoalIsLeast(t, s, i, k);
        NoWorseOrders(t, last, r.value, s[g], s[k]);
      }
    }
    if Least(t, s, i, r) {
      var c := if r == prev then i - 1 else if i + 1 < |s| then i + 1 else 0;
      assert s[c] == r.value;
      GoalIsLeast(t, s, i, c);
      NoWorseOrders(t, last, s[c], s[g], s[c]);
      assert c < g ==> s[c].pos < s[g].pos;
      assert g < c ==> s[g].pos < s[c].pos;
    }
  }

  /** With metadata among other requests, the search can miss the least. */
  lemma MetadataMissed()
    ensures var s := [Rq(1, 10, true, true), Rq(2, 50, true, false), Rq(3, 100, true, false), Rq(4, 150, true, false)];
            var t := Tunables(16384, 2);
            Sorted(s) && FindNextRq(t, s, 2) == Some(s[3]) && !NoWorse(t, 100, s[3], s[0])
  {
    assert Distance(Tunables(16384, 2), 50, 100) == 100;
  }
}
