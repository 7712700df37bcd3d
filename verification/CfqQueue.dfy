/** One queue of the CFQ scheduler: its sorted requests, the one to be served next, and
    whether it is on the round-robin list and on the tree where cooperators are looked up. */
module CfqQueue {
  import opened Wrappers
  import opened CfqChoice

  function Cut(s: seq<Rq>, i: nat): seq<Rq>
    requires i < |s|
  {
    s[..i] + s[i + 1..]
  }

  lemma CutSorted(s: seq<Rq>, i: nat)
    requires Sorted(s) && i < |s|
    ensures Sorted(Cut(s, i))
  {
  }

  lemma CutHas(s: seq<Rq>, i: nat, r: Rq)
    requires Sorted(s) && i < |s| && r in s && r != s[i]
    ensures r in Cut(s, i)
  {
    var k :| 0 <= k < |s| && s[k] == r;
    assert Cut(s, i)[if k < i then k else k - 1] == r;
  }

  lemma CutCounts(s: seq<Rq>, i: nat)
    requires i < |s|
    ensures multiset(s) == multiset(Cut(s, i)) + multiset{s[i]}
  {
    assert s == s[..i] + [s[i]] + s[i + 1..];
  }

  /** Where a request at this sector stands or would stand. */
  function Slot(s: seq<Rq>, pos: nat): (i: nat)
    ensures i <= |s| && (forall k :: 0 <= k < i ==> s[k].pos < pos) && (i < |s| ==> s[i].pos >= pos)
  {
    if s == [] || s[0].pos >= pos then 0 else 1 + Slot(s[1..], pos)
  }

  function Inserted(s: seq<Rq>, rq: Rq): seq<Rq> {
    var i := Slot(s, rq.pos);
    s[..i] + [rq] + s[i..]
  }

  /** No request at this sector. */
  predicate Free(s: seq<Rq>, pos: nat) {
    var i := Slot(s, pos);
    i < |s| ==> s[i].pos != pos
  }

  lemma {:induction false} InsertedSorted(s: seq<Rq>, rq: Rq)
    requires Sorted(s) && Free(s, rq.pos)
    ensures Sorted(Inserted(s, rq))
  {
    var i, r := Slot(s, rq.pos), Inserted(s, rq);
    forall j, k | 0 <= j < k < |r| ensures r[j].pos < r[k].pos {
      if j == i {
        assert k == i + 1 || s[i].pos < s[k - 1].pos;
      }
    }
  }

  lemma InsertedCounts(s: seq<Rq>, rq: Rq)
    ensures multiset(Inserted(s, rq)) == multiset(s) + multiset{rq}
  {
    var i := Slot(s, rq.pos);
    assert s == s[..i] + s[i..];
  }

  lemma InsertedHas(s: seq<Rq>, rq: Rq, x: Rq)
    requires x in s || x == rq
    ensures x in Inserted(s, rq)
  {
    InsertedCounts(s, rq);
    assert x in multiset(Inserted(s, rq));
  }

  /** Taking off the request at a sector leaves none there. */
  lemma CutFrees(s: seq<Rq>, pos: nat, i: nat)
    requires Sorted(s) && i < |s| && s[i].pos == pos
    ensures Free(Cut(s, i), pos)
  {
    var c := Cut(s, i);
    forall k | 0 <= k < |c| ensures c[k].pos != pos {
      assert c[k] == if k < i then s[k] else s[k + 1];
    }
  }

  class Queue {
    const tunables: Tunables
    const idleClass: bool
    var sortList: seq<Rq>
    var nextRq: Option<Rq>
    var onRr: bool
    var onTree: bool

    constructor (tunables: Tunables, idleClass: bool)
      ensures Valid() && sortList == [] && !onRr && this.tunables == tunables && this.idleClass == idleClass
    {
      this.tunables, this.idleClass := tunables, idleClass;
      sortList, nextRq, onRr, onTree := [], None, false, false;
    }

    /** What holds even while a request is being repositioned. */
    ghost predicate Loose()
      reads this
    {
      Sorted(sortList) && (sortList != [] ==> onRr) && (onTree ==> onRr && !idleClass)
    }

    /** The next request is one of the sorted ones, if there are any; an empty queue is not on
        the tree. */
    ghost predicate Valid()
      reads this
    {
      && Loose()
      && (nextRq.Some? <==> sortList != [])
      && (nextRq.Some? ==> nextRq.value in sortList)
      && (onTree ==> sortList != [])
    }

    /** A queue that is looking for a cooperator has run empty; the one it finds is on the tree,
        so it is another one. */
    lemma CooperatorDiffers(other: Queue)
      requires Valid() && other.Valid() && sortList == [] && other.onTree
      ensures other != this
    {
    }

    /** cfq_prio_tree_add; taken: another queue of this priority has its next request at the
        same sector. */
    method PrioTreeAdd(taken: bool)
      modifies this`onTree
      ensures onTree == (!idleClass && nextRq.Some? && !taken)
    {
      onTree := false;
      if idleClass {
        return;
      }
      if nextRq.None? {
        return;
      }
      onTree := !taken;
    }

    /** cfq_resort_rr_list */
    method ResortRrList(taken: bool)
      modifies this`onTree
      ensures onTree == if onRr then !idleClass && nextRq.Some? && !taken else old(onTree)
    {
      if onRr {
        PrioTreeAdd(taken);
      }
    }

    /** cfq_add_cfqq_rr */
    method AddCfqqRr(taken: bool)
      requires !onRr
      modifies this`onRr, this`onTree
      ensures onRr && onTree == (!idleClass && nextRq.Some? && !taken)
    {
      onRr := true;
      ResortRrList(taken);
    }

    /** cfq_del_cfqq_rr */
    method DelCfqqRr()
      requires onRr
      modifies this`onRr, this`onTree
      ensures !onRr && !onTree
    {
      onRr := false;
      if onTree {
        onTree := false;
      }
    }

    /** cfq_del_rq_rb */
    method DelRqRb(i: nat)
      requires i < |sortList|
      modifies this`sortList, this`onTree
      ensures sortList == Cut(old(sortList), i)
      ensures onTree == (old(onTree) && !(onRr && sortList == []))
    {
      sortList := Cut(sortList, i);
      if onRr && sortList == [] {
        if onTree {
          onTree := false;
        }
      }
    }

    /** cfq_remove_request */
    method RemoveRequest(i: nat)
      requires Valid() && i < |sortList|
      modifies this`sortList, this`nextRq, this`onTree
      ensures Valid() && sortList == Cut(old(sortList), i)
      ensures nextRq == if old(nextRq) == Some(old(sortList)[i]) then FindNextRq(tunables, old(sortList), i)
              else old(nextRq)
    {
      if nextRq == Some(sortList[i]) {
        nextRq := FindNextRq(tunables, sortList, i);
        FindNextLeft(i);
      } else {
        CutHas(sortList, i, nextRq.value);
      }
      CutSorted(sortList, i);
      DelRqRb(i);
    }

    lemma FindNextLeft(i: nat)
      requires Sorted(sortList) && i < |sortList|
      ensures var r := FindNextRq(tunables, sortList, i);
              (r.Some? <==> Cut(sortList, i) != []) && (r.Some? ==> r.value in Cut(sortList, i))
    {
      FindNextIsOther(tunables, sortList, i);
      var r := FindNextRq(tunables, sortList, i);
      if r.Some? {
        var k :| 0 <= k < |sortList| && k != i && sortList[k] == r.value;
        assert r.value != sortList[i] by {
          assert k < i ==> sortList[k].pos < sortList[i].pos;
          assert i < k ==> sortList[i].pos < sortList[k].pos;
        }
        CutHas(sortList, i, r.value);
      }
    }

    /** cfq_dispatch_insert: the next request becomes the best one after this. */
    method DispatchInsert(i: nat)
      requires Loose() && i < |sortList|
      modifies this`sortList, this`nextRq, this`onTree
      ensures Valid() && sortList == Cut(old(sortList), i)
      ensures nextRq == FindNextRq(tunables, old(sortList), i)
    {
      nextRq := FindNextRq(tunables, sortList, i);
      FindNextLeft(i);
      CutSorted(sortList, i);
      DelRqRb(i);
    }

    /** The next request is a sorted one, or this one. */
    ghost predicate NextOk(rq: Rq)
      reads this
    {
      nextRq.Some? ==> nextRq.value in sortList || nextRq.value == rq
    }

    /** Dispatches the request at a sector. */
    method Evict(i: nat) returns (evicted: Rq)
      requires Loose() && i < |sortList|
      modifies this`sortList, this`nextRq, this`onTree
      ensures Valid() && evicted == old(sortList)[i] && Free(sortList, evicted.pos) && |sortList| < |old(sortList)|
      ensures multiset(sortList) + multiset([evicted]) == multiset(old(sortList))
    {
      evicted := sortList[i];
      CutCounts(sortList, i);
      CutFrees(sortList, evicted.pos, i);
      DispatchInsert(i);
    }

    /** The loop of cfq_add_rq_rb: a request at the same sector is dispatched to make room. */
    method MakeRoom(rq: Rq) returns (dispatched: seq<Rq>)
      requires Loose() && NextOk(rq)
      modifies this`sortList, this`nextRq, this`onTree
      ensures Loose() && NextOk(rq) && Free(sortList, rq.pos)
      ensures multiset(sortList) + multiset(dispatched) == multiset(old(sortList))
      ensures if Free(old(sortList), rq.pos) then dispatched == [] && sortList == old(sortList) && nextRq == old(nextRq)
              else |dispatched| == 1 && dispatched[0].pos == rq.pos
    {
      dispatched := [];
      while !Free(sortList, rq.pos)
        invariant if dispatched == [] then Loose() && NextOk(rq) && sortList == old(sortList) && nextRq == old(nextRq)
                  else Valid() && Free(sortList, rq.pos) && |dispatched| == 1 && dispatched[0].pos == rq.pos
        invariant dispatched != [] ==> !Free(old(sortList), rq.pos)
        invariant multiset(sortList) + multiset(dispatched) == multiset(old(sortList))
        decreases |sortList|
      {
        var alias := Evict(Slot(sortList, rq.pos));
        dispatched := dispatched + [alias];
      }
    }

    /** elv_rb_add, when there is room. */
    method Link(rq: Rq)
      requires Loose() && NextOk(rq) && Free(sortList, rq.pos)
      modifies this`sortList
      ensures Sorted(sortList) && rq in sortList && (nextRq.Some? ==> nextRq.value in sortList)
      ensures multiset(sortList) == multiset(old(sortList)) + multiset{rq}
    {
      InsertedSorted(sortList, rq);
      InsertedCounts(sortList, rq);
      InsertedHas(sortList, rq, rq);
      if nextRq.Some? {
        InsertedHas(sortList, rq, nextRq.value);
      }
      sortList := Inserted(sortList, rq);
    }

    /** The end of cfq_add_rq_rb: is this request a better one to serve next? */
    method Reconsider(rq: Rq, lastPosition: nat, taken: bool)
      requires Sorted(sortList) && rq in sortList && (nextRq.Some? ==> nextRq.value in sortList)
      requires onTree ==> onRr && !idleClass
      modifies this`nextRq, this`onRr, this`onTree
      ensures Valid() && NoWorse(tunables, lastPosition, nextRq.value, rq)
      ensures old(nextRq).Some? ==> NoWorse(tunables, lastPosition, nextRq.value, old(nextRq).value)
    {
      if !onRr {
        AddCfqqRr(taken);
      }
      var prev := nextRq;
      ChooseIsLeast(tunables, nextRq, Some(rq), lastPosition);
      nextRq := ChooseReq(tunables, nextRq, Some(rq), lastPosition);
      if prev != nextRq {
        PrioTreeAdd(taken);
      }
    }

    /** cfq_add_rq_rb */
    method AddRqRb(rq: Rq, lastPosition: nat, taken: bool) returns (dispatched: seq<Rq>)
      requires Loose() && NextOk(rq)
      modifies this
      ensures Valid() && rq in sortList
      ensures multiset(sortList) + multiset(dispatched) == multiset(old(sortList)) + multiset{rq}
      ensures Free(old(sortList), rq.pos) <==> dispatched == []
      ensures NoWorse(tunables, lastPosition, nextRq.value, rq)
      ensures dispatched == [] && old(nextRq).Some? ==> NoWorse(tunables, lastPosition, nextRq.value, old(nextRq).value)
    {
      dispatched := MakeRoom(rq);
      Link(rq);
      Reconsider(rq, lastPosition, taken);
    }

    /** cfq_reposition_rq_rb, after a front merge has moved the request's first sector. */
    method RepositionRqRb(i: nat, rq: Rq, lastPosition: nat, taken: bool) returns (dispatched: seq<Rq>)
      requires Valid() && i < |sortList|
      modifies this
      ensures Valid() && rq in sortList
      ensures multiset(sortList) + multiset(dispatched) == multiset(Cut(old(sortList), i)) + multiset{rq}
    {
      CutSorted(sortList, i);
      if nextRq == Some(sortList[i]) {
        nextRq := Some(rq);
      } else {
        CutHas(sortList, i, nextRq.value);
      }
      sortList := Cut(sortList, i);
      dispatched := AddRqRb(rq, lastPosition, taken);
    }

    /** cfq_merged_requests: sortList[j] has been merged into sortList[i]. */
    method MergedRequests(i: nat, j: nat)
      requires Valid() && i < |sortList| && j < |sortList| && i != j
      modifies this`sortList, this`nextRq, this`onTree
      ensures Valid() && sortList == Cut(old(sortList), j)
      ensures nextRq == if old(nextRq) == Some(old(sortList)[j]) then Some(old(sortList)[i]) else old(nextRq)
    {
      assert sortList[i] != sortList[j] by {
        assert i < j ==> sortList[i].pos < sortList[j].pos;
        assert j < i ==> sortList[j].pos < sortList[i].pos;
      }
      if nextRq == Some(sortList[j]) {
        nextRq := Some(sortList[i]);
      }
      RemoveRequest(j);
    }

    /** The part of __cfq_slice_expired that touches the lists. */
    method SliceExpired(taken: bool)
      requires Valid()
      modifies this`onRr, this`onTree
      ensures Valid() && (onRr <==> sortList != [])
    {
      if onRr && sortList == [] {
        DelCfqqRr();
      }
      ResortRrList(taken);
    }

    /** __cfq_forced_dispatch_cfqq: all that was queued is dispatched, each request once. */
    method ForcedDispatch(taken: bool) returns (dispatched: seq<Rq>)
      requires Valid()
      modifies this
      ensures Valid() && sortList == [] && !onRr && multiset(dispatched) == multiset(old(sortList))
    {
      dispatched := [];
      while nextRq.Some?
        invariant Valid() && multiset(dispatched) + multiset(sortList) == multiset(old(sortList))
        decreases |sortList|
      {
        var i := Slot(sortList, nextRq.value.pos);
        SlotFinds(i);
        CutCounts(sortList, i);
        dispatched := dispatched + [sortList[i]];
        DispatchInsert(i);
      }
      SliceExpired(taken);
    }

    lemma SlotFinds(i: nat)
      requires Valid() && nextRq.Some? && i == Slot(sortList, nextRq.value.pos)
      ensures i < |sortList| && sortList[i] == nextRq.value
    {
      var k :| 0 <= k < |sortList| && sortList[k] == nextRq.value;
      assert forall m :: 0 <= m < k ==> sortList[m].pos < sortList[k].pos;
    }
  }
}
