/** Lists of block requests: kept in sector order, and kept in the order they came. */
module SortedLists {
  import opened Wrappers

  datatype Rq = Rq(id: nat, write: bool, pos: nat, expire: int)

  // ----- Membership -----

  /** No request twice. */
  ghost predicate Once(s: seq<Rq>) {
    s == [] || (Absent(s[1..], s[0].id) && Once(s[1..]))
  }

  ghost predicate Absent(s: seq<Rq>, id: nat) {
    forall k :: 0 <= k < |s| ==> s[k].id != id
  }

  function Without(s: seq<Rq>, id: nat): seq<Rq> {
    if s == [] then [] else if s[0].id == id then Without(s[1..], id) else [s[0]] + Without(s[1..], id)
  }

  lemma {:induction false} WithoutHas(s: seq<Rq>, id: nat, x: Rq)
    ensures x in Without(s, id) <==> x in s && x.id != id
  {
    if s != [] {
      WithoutHas(s[1..], id, x);
      assert s == [s[0]] + s[1..];
    }
  }

  lemma WithoutAbsent(s: seq<Rq>, id: nat, other: nat)
    ensures Absent(Without(s, id), id)
    ensures Absent(s, other) ==> Absent(Without(s, id), other)
  {
    forall k | 0 <= k < |Without(s, id)| ensures Without(s, id)[k] in s && Without(s, id)[k].id != id {
      WithoutHas(s, id, Without(s, id)[k]);
    }
  }

  lemma {:induction false} WithoutOnce(s: seq<Rq>, id: nat)
    requires Once(s)
    ensures Once(Without(s, id))
  {
    if s != [] {
      WithoutOnce(s[1..], id);
      WithoutAbsent(s[1..], id, s[0].id);
      var w := [s[0]] + Without(s[1..], id);
      assert w[1..] == Without(s[1..], id);
    }
  }

  lemma {:induction false} SnocOnce(s: seq<Rq>, rq: Rq)
    requires Once(s) && Absent(s, rq.id)
    ensures Once(s + [rq])
  {
    if s == [] {
      assert s + [rq] == [rq];
    } else {
      SnocOnce(s[1..], rq);
      assert (s + [rq])[1..] == s[1..] + [rq];
    }
  }

  // ----- Sector order -----

  ghost predicate Sorted(s: seq<Rq>) {
    s == [] || (Above(s[1..], s[0].pos) && Sorted(s[1..]))
  }

  /** Every request lies beyond `pos`. */
  ghost predicate Above(s: seq<Rq>, pos: int) {
    forall k :: 0 <= k < |s| ==> s[k].pos > pos
  }

  /** elv_rb_find, and the search of elv_rb_add: the request at a sector. */
  function Find(s: seq<Rq>, pos: nat): (r: Option<Rq>)
    ensures r.Some? ==> r.value in s && r.value.pos == pos
    ensures r.None? ==> forall x :: x in s ==> x.pos != pos
  {
    if s == [] then None else if s[0].pos == pos then Some(s[0]) else
      assert s == [s[0]] + s[1..];
      Find(s[1..], pos)
  }

  /** The link of elv_rb_add. */
  function Insert(s: seq<Rq>, rq: Rq): seq<Rq> {
    if s == [] || rq.pos < s[0].pos then [rq] + s else [s[0]] + Insert(s[1..], rq)
  }

  lemma {:induction false} InsertHas(s: seq<Rq>, rq: Rq, x: Rq)
    ensures x in Insert(s, rq) <==> x in s || x == rq
  {
    if s != [] && rq.pos >= s[0].pos {
      InsertHas(s[1..], rq, x);
      assert s == [s[0]] + s[1..];
    }
  }

  lemma AboveHas(s: seq<Rq>, pos: int)
    ensures Above(s, pos) <==> forall x :: x in s ==> x.pos > pos
  {
  }

  lemma {:induction false} InsertSorted(s: seq<Rq>, rq: Rq)
    requires Sorted(s) && Find(s, rq.pos).None?
    ensures Sorted(Insert(s, rq))
  {
    if s == [] || rq.pos < s[0].pos {
      assert ([rq] + s)[1..] == s;
    } else {
      InsertSorted(s[1..], rq);
      assert ([s[0]] + Insert(s[1..], rq))[1..] == Insert(s[1..], rq);
      forall x | x in Insert(s[1..], rq) ensures x.pos > s[0].pos {
        InsertHas(s[1..], rq, x);
      }
      AboveHas(Insert(s[1..], rq), s[0].pos);
    }
  }

  lemma {:induction false} WithoutSorted(s: seq<Rq>, id: nat)
    requires Sorted(s)
    ensures Sorted(Without(s, id))
  {
    if s != [] {
      WithoutSorted(s[1..], id);
      var w := Without(s[1..], id);
      assert ([s[0]] + w)[1..] == w;
      forall x | x in w ensures x.pos > s[0].pos {
        WithoutHas(s[1..], id, x);
      }
      AboveHas(w, s[0].pos);
    }
  }

  /** rb_next: the first request beyond a sector. */
  function Latter(s: seq<Rq>, pos: nat): (r: Option<Rq>)
    ensures r.Some? ==> r.value in s && r.value.pos > pos
  {
    if s == [] then None else if s[0].pos > pos then Some(s[0]) else
      assert s == [s[0]] + s[1..];
      Latter(s[1..], pos)
  }

  /** In a sorted list it is the nearest one. */
  lemma {:induction false} LatterIsNearest(s: seq<Rq>, pos: nat, x: Rq)
    requires Sorted(s) && x in s && x.pos > pos
    ensures Latter(s, pos).Some? && Latter(s, pos).value.pos <= x.pos
  {
    assert s == [s[0]] + s[1..];
    if s[0].pos <= pos {
      LatterIsNearest(s[1..], pos, x);
    }
  }

  // ----- Expiry order -----

  ghost predicate ByExpiry(s: seq<Rq>) {
    s == [] || (NotBefore(s[1..], s[0].expire) && ByExpiry(s[1..]))
  }

  ghost predicate NotBefore(s: seq<Rq>, time: int) {
    forall k :: 0 <= k < |s| ==> s[k].expire >= time
  }

  ghost predicate NotAfter(s: seq<Rq>, time: int) {
    forall k :: 0 <= k < |s| ==> s[k].expire <= time
  }

  lemma {:induction false} WithoutByExpiry(s: seq<Rq>, id: nat)
    requires ByExpiry(s)
    ensures ByExpiry(Without(s, id))
  {
    if s != [] {
      WithoutByExpiry(s[1..], id);
      var w := Without(s[1..], id);
      assert ([s[0]] + w)[1..] == w;
      forall k | 0 <= k < |w| ensures w[k].expire >= s[0].expire {
        WithoutHas(s[1..], id, w[k]);
      }
    }
  }

  lemma {:induction false} SnocByExpiry(s: seq<Rq>, rq: Rq)
    requires ByExpiry(s) && NotAfter(s, rq.expire)
    ensures ByExpiry(s + [rq])
  {
    if s == [] {
      assert s + [rq] == [rq];
    } else {
      SnocByExpiry(s[1..], rq);
      assert (s + [rq])[1..] == s[1..] + [rq];
    }
  }
}
