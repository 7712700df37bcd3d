/** The tag map of a queue: which tags are taken, by which requests, and in which order the
    requests were started. */
module Tags {
  import opened Wrappers

  /** A request that holds a tag. */
  datatype Busy = Busy(id: nat, tag: nat)

  const EBUSY: int := 16
  const ENOMEM: int := 12

  // ----- The map, the index and the busy list -----

  ghost predicate OnceEach(busy: seq<Busy>) {
    busy == [] || (NotBusy(busy[1..], busy[0].id) && OnceEach(busy[1..]))
  }

  ghost predicate NotBusy(busy: seq<Busy>, id: nat) {
    forall b :: b in busy ==> b.id != id
  }

  /** For one tag: the bit is set if and only if the index slot is filled, if and only if a
      busy request holds it, and that is the one in the slot. */
  ghost predicate SlotOk(bits: seq<bool>, index: seq<Option<nat>>, busy: seq<Busy>, t: nat) {
    && t < |bits| == |index|
    && (bits[t] <==> index[t].Some?)
    && (index[t].Some? ==> Busy(index[t].value, t) in busy)
    && (forall b :: b in busy && b.tag == t ==> index[t] == Some(b.id))
  }

  ghost predicate Consistent(bits: seq<bool>, index: seq<Option<nat>>, busy: seq<Busy>) {
    && |bits| == |index| && OnceEach(busy)
    && (forall b :: b in busy ==> b.tag < |bits|)
    && (forall t :: 0 <= t < |bits| ==> SlotOk(bits, index, busy, t))
  }

  /** No two live requests share a tag. */
  lemma TagsDiffer(bits: seq<bool>, index: seq<Option<nat>>, busy: seq<Busy>, a: Busy, b: Busy)
    requires Consistent(bits, index, busy) && a in busy && b in busy && a.id != b.id
    ensures a.tag != b.tag
  {
    assert SlotOk(bits, index, busy, a.tag);
  }

  /** A bit is set exactly when some busy request holds the tag. */
  lemma BitIsHolder(bits: seq<bool>, index: seq<Option<nat>>, busy: seq<Busy>, t: nat)
    requires Consistent(bits, index, busy) && t < |bits|
    ensures bits[t] <==> exists b :: b in busy && b.tag == t
  {
    assert SlotOk(bits, index, busy, t);
    if bits[t] {
      assert Busy(index[t].value, t) in busy;
    }
  }

  lemma StartedConsistent(bits: seq<bool>, index: seq<Option<nat>>, busy: seq<Busy>, id: nat, tag: nat)
    requires Consistent(bits, index, busy) && NotBusy(busy, id) && tag < |bits| && !bits[tag]
    ensures Consistent(bits[tag := true], index[tag := Some(id)], [Busy(id, tag)] + busy)
  {
    var bits', index', busy' := bits[tag := true], index[tag := Some(id)], [Busy(id, tag)] + busy;
    assert busy'[1..] == busy;
    forall t | 0 <= t < |bits'| ensures SlotOk(bits', index', busy', t) {
      assert SlotOk(bits, index, busy, t);
    }
  }

  function Ended(busy: seq<Busy>, id: nat): seq<Busy> {
    if busy == [] then [] else if busy[0].id == id then busy[1..] else [busy[0]] + Ended(busy[1..], id)
  }

  lemma {:induction false} EndedHas(busy: seq<Busy>, id: nat, b: Busy)
    requires OnceEach(busy)
    ensures b in Ended(busy, id) <==> b in busy && b.id != id
  {
    if busy != [] {
      assert busy == [busy[0]] + busy[1..];
      if busy[0].id != id {
        EndedHas(busy[1..], id, b);
      }
    }
  }

  lemma {:induction false} EndedOnce(busy: seq<Busy>, id: nat)
    requires OnceEach(busy)
    ensures OnceEach(Ended(busy, id))
  {
    if busy != [] && busy[0].id != id {
      EndedOnce(busy[1..], id);
      assert Ended(busy, id)[1..] == Ended(busy[1..], id);
      forall b | b in Ended(busy[1..], id) ensures b.id != busy[0].id {
        EndedHas(busy[1..], id, b);
      }
    }
  }

  lemma EndedConsistent(bits: seq<bool>, index: seq<Option<nat>>, busy: seq<Busy>, b: Busy)
    requires Consistent(bits, index, busy) && b in busy
    ensures b.tag < |bits| && bits[b.tag] && index[b.tag] == Some(b.id)
    ensures Consistent(bits[b.tag := false], index[b.tag := None], Ended(busy, b.id))
  {
    assert SlotOk(bits, index, busy, b.tag);
    EndedOnce(busy, b.id);
    var bits', index', busy' := bits[b.tag := false], index[b.tag := None], Ended(busy, b.id);
    forall x ensures x in busy' <==> x in busy && x.id != b.id {
      EndedHas(busy, b.id, x);
    }
    forall t | 0 <= t < |bits'| ensures SlotOk(bits', index', busy', t) {
      assert SlotOk(bits, index, busy, t);
      if t != b.tag && index[t].Some? && index[t].value == b.id {
        OnceSame(busy, Busy(index[t].value, t), b);
      }
    }
  }

  lemma {:induction false} OnceSame(busy: seq<Busy>, a: Busy, b: Busy)
    requires OnceEach(busy) && a in busy && b in busy && a.id == b.id
    ensures a == b
  {
    assert busy == [busy[0]] + busy[1..];
    if a in busy[1..] && b in busy[1..] {
      OnceSame(busy[1..], a, b);
    }
  }

  function Padded<T>(s: seq<T>, n: nat, x: T): seq<T> {
    if n <= |s| then s else s + seq(n - |s|, _ => x)
  }

  lemma GrownConsistent(bits: seq<bool>, index: seq<Option<nat>>, busy: seq<Busy>, depth: nat)
    requires Consistent(bits, index, busy) && depth >= |bits|
    ensures Consistent(Padded(bits, depth, false), Padded(index, depth, None), busy)
  {
    forall t | 0 <= t < depth ensures SlotOk(Padded(bits, depth, false), Padded(index, depth, None), busy, t) {
      if t < |bits| {
        assert SlotOk(bits, index, busy, t);
      }
    }
  }

  // ----- Which tags a request may take -----

  /** The tags below this may be taken: the last two are kept for sync requests. */
  function Limit(maxDepth: nat, sync: bool): nat {
    if sync || maxDepth <= 1 then maxDepth else if maxDepth == 2 then 1 else maxDepth - 2
  }

  predicate AllSet(bits: seq<bool>, n: nat) {
    forall t :: 0 <= t < n && t < |bits| ==> bits[t]
  }

  /** init_tag_map: no more than twice the requests of the queue. */
  function Clipped(depth: nat, nrRequests: nat): nat {
    if depth > 2 * nrRequests then 2 * nrRequests else depth
  }

  /** The highest cell that copying the first n cells of a table stores to. */
  function HighCopy(n: nat): (h: int)
  {
    if n == 0 then -1 else Max(HighCopy(n - 1), n - 1)
  }

  function Max(a: int, b: int): int {
    if a < b then b else a
  }

  lemma {:induction false} HighCopyIs(n: nat)
    ensures HighCopy(n) == n - 1
  {
    if n > 0 {
      HighCopyIs(n - 1);
    }
  }

  /** Every store of the copy of the index is in the new table. */
  predicate CopyFits(realDepth: nat, newDepth: nat, nrRequests: nat) {
    newDepth <= realDepth || HighCopy(realDepth) < Clipped(newDepth, nrRequests)
  }

  /** It does unless the depth is to grow although the queue has shrunk below half of it. */
  lemma CopyFitsExactly(realDepth: nat, newDepth: nat, nrRequests: nat)
    ensures CopyFits(realDepth, newDepth, nrRequests) <==> !(newDepth > realDepth && 2 * nrRequests < realDepth)
  {
    HighCopyIs(realDepth);
  }

  const BITS_PER_LONG: nat := 64

  /** The longs of a bitmap: ALIGN(depth, BITS_PER_LONG) / BITS_PER_LONG. */
  function Longs(depth: nat): nat {
    (depth + BITS_PER_LONG - 1) / BITS_PER_LONG
  }

  /** Every store of the copy of the bitmap, which is made in whole longs, is in the new one. */
  predicate MapCopyFits(realDepth: nat, newDepth: nat, nrRequests: nat) {
    newDepth <= realDepth || HighCopy(Longs(realDepth)) < Longs(Clipped(newDepth, nrRequests))
  }

  /** The bitmap is the more lenient one: it overruns only where the index does, and only if the
      clipped depth takes fewer longs. */
  lemma MapCopyFitsExactly(realDepth: nat, newDepth: nat, nrRequests: nat)
    ensures MapCopyFits(realDepth, newDepth, nrRequests)
            <==> CopyFits(realDepth, newDepth, nrRequests) || Longs(realDepth) <= Longs(2 * nrRequests)
  {
    HighCopyIs(realDepth);
    HighCopyIs(Longs(realDepth));
    if realDepth <= Clipped(newDepth, nrRequests) {
      LongsGrow(realDepth, Clipped(newDepth, nrRequests));
    }
  }

  lemma LongsGrow(a: nat, b: nat)
    requires a <= b
    ensures Longs(a) <= Longs(b)
  {
  }

  /** An input that fails: 64 tags, grown to 128 after the queue was cut to 16 requests.  The
      index of 32 tags is stored to up to cell 63; the bitmap, one long, is not overrun. */
  lemma CopyOverruns()
    ensures !CopyFits(64, 128, 16) && Clipped(128, 16) == 32 && HighCopy(64) == 63 && MapCopyFits(64, 128, 16)
  {
    HighCopyIs(64);
    HighCopyIs(1);
  }

  // ----- Start order -----

  /** The requests in the order they were started: each was put at the front. */
  function StartOrder(busy: seq<Busy>): seq<nat> {
    if busy == [] then [] else StartOrder(busy[1..]) + [busy[0].id]
  }

  /** A request that starts comes last, and one that ends leaves the order of the others. */
  lemma StartOrderGrows(busy: seq<Busy>, b: Busy)
    ensures StartOrder([b] + busy) == StartOrder(busy) + [b.id]
  {
    assert ([b] + busy)[1..] == busy;
  }

  function Dropped(s: seq<nat>, id: nat): seq<nat> {
    if s == [] then [] else if s[0] == id then Dropped(s[1..], id) else [s[0]] + Dropped(s[1..], id)
  }

  lemma {:induction false} DroppedConcat(s: seq<nat>, u: seq<nat>, id: nat)
    ensures Dropped(s + u, id) == Dropped(s, id) + Dropped(u, id)
  {
    if s == [] {
      assert s + u == u;
    } else {
      DroppedConcat(s[1..], u, id);
      assert (s + u)[1..] == s[1..] + u;
    }
  }

  lemma {:induction false} DroppedNone(busy: seq<Busy>, id: nat)
    requires NotBusy(busy, id)
    ensures Dropped(StartOrder(busy), id) == StartOrder(busy)
  {
    if busy != [] {
      assert busy == [busy[0]] + busy[1..];
      DroppedNone(busy[1..], id);
      DroppedConcat(StartOrder(busy[1..]), [busy[0].id], id);
    }
  }

  lemma {:induction false} StartOrderEnds(busy: seq<Busy>, id: nat)
    requires OnceEach(busy)
    ensures StartOrder(Ended(busy, id)) == Dropped(StartOrder(busy), id)
  {
    if busy != [] {
      DroppedConcat(StartOrder(busy[1..]), [busy[0].id], id);
      if busy[0].id == id {
        DroppedNone(busy[1..], id);
        assert StartOrder(busy[1..]) + [] == StartOrder(busy[1..]);
      } else {
        StartOrderEnds(busy[1..], id);
        assert Ended(busy, id)[1..] == Ended(busy[1..], id);
      }
    }
  }

  // ----- The queue -----

  class TagQueue {
    var tagMap: array<bool>
    var tagIndex: array<Option<nat>>
    var maxDepth: nat
    var nrRequests: nat
    var busy: seq<Busy>
    var queueHead: seq<nat>

    ghost predicate Valid()
      reads this, tagMap, tagIndex
    {
      maxDepth <= tagMap.Length && Consistent(tagMap[..], tagIndex[..], busy)
    }

    /** blk_queue_init_tags for a queue without a map. */
    constructor (depth: nat, nrRequests: nat)
      ensures Valid() && fresh(tagMap) && fresh(tagIndex) && busy == [] && queueHead == []
      ensures maxDepth == tagMap.Length == Clipped(depth, nrRequests) && this.nrRequests == nrRequests
    {
      var clipped := Clipped(depth, nrRequests);
      tagMap := new bool[clipped](_ => false);
      tagIndex := new Option<nat>[clipped](_ => None);
      maxDepth, this.nrRequests, busy, queueHead := clipped, nrRequests, [], [];
    }

    /** find_first_zero_bit */
    method FindFirstZero(size: nat) returns (tag: nat)
      requires size <= tagMap.Length
      ensures tag <= size && AllSet(tagMap[..], tag) && (tag < size ==> !tagMap[tag])
    {
      tag := 0;
      while tag < size && tagMap[tag]
        invariant tag <= size && AllSet(tagMap[..], tag)
      {
        tag := tag + 1;
      }
    }

    /** blk_queue_start_tag: takes the first free tag the request may have. */
    method StartTag(id: nat, sync: bool, asyncInFlight: nat) returns (err: int)
      requires Valid() && NotBusy(busy, id)
      modifies this`busy, this`queueHead, tagMap, tagIndex
      ensures Valid() && (err == 0 || err == 1)
      ensures err == 1 <==> (!sync && maxDepth > 1 && asyncInFlight > Limit(maxDepth, sync))
                            || AllSet(old(tagMap[..]), Limit(maxDepth, sync))
      ensures err == 1 ==> busy == old(busy) && queueHead == old(queueHead)
      ensures err == 1 ==> tagMap[..] == old(tagMap[..]) && tagIndex[..] == old(tagIndex[..])
      ensures err == 0
              ==> busy != [] && busy[1..] == old(busy) && busy[0].id == id && queueHead == Dropped(old(queueHead), id)
                           && StartOrder(busy) == StartOrder(old(busy)) + [id]
      ensures err == 0 ==> var tag := busy[0].tag;
                           && tag < Limit(maxDepth, sync) && (!sync && maxDepth > 2 ==> tag < maxDepth - 2)
                           && !old(tagMap[..])[tag] && AllSet(old(tagMap[..]), tag)
                           && tagMap[..] == old(tagMap[..])[tag := true]
                           && tagIndex[..] == old(tagIndex[..])[tag := Some(id)]
    {
      var depth := maxDepth;
      if !sync && depth > 1 {
        depth := depth - 2;
        if depth == 0 {
          depth := 1;
        }
        if asyncInFlight > depth {
          return 1;
        }
      }
      var tag := FindFirstZero(depth);
      if tag >= depth {
        return 1;
      }
      StartedConsistent(tagMap[..], tagIndex[..], busy, id, tag);
      StartOrderGrows(busy, Busy(id, tag));
      tagMap[tag] := true;
      tagIndex[tag] := Some(id);
      queueHead := Dropped(queueHead, id);
      busy := [Busy(id, tag)] + busy;
      return 0;
    }

    /** blk_queue_end_tag: the tag is free again. */
    method EndTag(b: Busy)
      requires Valid() && b in busy
      modifies this`busy, tagMap, tagIndex
      ensures Valid() && b.tag < tagMap.Length && busy == Ended(old(busy), b.id)
      ensures StartOrder(busy) == Dropped(StartOrder(old(busy)), b.id)
      ensures tagMap[..] == old(tagMap[..])[b.tag := false] && tagIndex[..] == old(tagIndex[..])[b.tag := None]
    {
      EndedConsistent(tagMap[..], tagIndex[..], busy, b);
      StartOrderEnds(busy, b.id);
      busy := Ended(busy, b.id);
      tagIndex[b.tag] := None;
      if !tagMap[b.tag] {
        return;
      }
      tagMap[b.tag] := false;
    }

    /** blk_queue_resize_tags: shrinking only lowers the limit, growing takes the live tags
        along. */
    method ResizeTags(newDepth: nat, shared: bool, memory: bool) returns (err: int, ghost high: int)
      requires Valid() && (CopyFits(tagMap.Length, newDepth, nrRequests) || shared || !memory)
      modifies this`tagMap, this`tagIndex, this`maxDepth
      ensures Valid() && (fresh(tagMap) || tagMap == old(tagMap)) && (fresh(tagIndex) || tagIndex == old(tagIndex))
      ensures err == if newDepth <= old(tagMap.Length) then 0
                     else if shared then -EBUSY
                     else if !memory then -ENOMEM
                     else 0
      ensures tagMap.Length >= old(tagMap.Length)
      ensures forall t :: 0 <= t < old(tagMap.Length) ==>
                tagMap[t] == old(tagMap[t]) && tagIndex[t] == old(tagIndex[t])
      ensures err == 0
              ==> maxDepth == if newDepth <= old(tagMap.Length) then newDepth else Clipped(newDepth, nrRequests)
      ensures err != 0 ==> maxDepth == old(maxDepth) && tagMap == old(tagMap)
      // the highest cell of the new index that the copy stores to
      ensures err == 0 && newDepth > old(tagMap.Length) ==> high == HighCopy(old(tagMap.Length))
    {
      high := -1;
      if newDepth <= tagMap.Length {
        maxDepth := newDepth;
        return 0, high;
      }
      if shared {
        return -EBUSY, high;
      }
      if !memory {
        return -ENOMEM, high;
      }
      GrownConsistent(tagMap[..], tagIndex[..], busy, Clipped(newDepth, nrRequests));
      var oldMap, oldIndex := tagMap, tagIndex;
      var bits := new bool[Clipped(newDepth, nrRequests)](_ => false);
      var index := new Option<nat>[Clipped(newDepth, nrRequests)](_ => None);
      HighCopyIs(oldMap.Length);
      for t := 0 to oldMap.Length
        modifies bits, index
        invariant high == HighCopy(t)
        invariant forall k :: 0 <= k < bits.Length ==> bits[k] == (k < t && oldMap[k])
        invariant forall k :: 0 <= k < index.Length ==> index[k] == if k < t then oldIndex[k] else None
      {
        bits[t] := oldMap[t];
        index[t] := oldIndex[t];
        high := Max(high, t);
      }
      assert bits[..] == Padded(oldMap[..], bits.Length, false);
      assert index[..] == Padded(oldIndex[..], index.Length, None);
      tagMap, tagIndex, maxDepth := bits, index, bits.Length;
      return 0, high;
    }

    /** blk_queue_invalidate_tags, with no ordered sequence in progress: every tag is free, and
        the requests are back ahead of the queue in the order they were started. */
    method InvalidateTags()
      requires Valid()
      modifies this`busy, this`queueHead, tagMap, tagIndex
      ensures Valid() && busy == [] && forall t :: 0 <= t < tagMap.Length ==> !tagMap[t] && tagIndex[t] == None
      ensures queueHead == StartOrder(old(busy)) + old(queueHead)
    {
      assert StartOrder(busy) + queueHead == StartOrder(old(busy)) + old(queueHead);
      while busy != []
        invariant Valid() && StartOrder(busy) + queueHead == StartOrder(old(busy)) + old(queueHead)
        decreases |busy|
      {
        var b := busy[0];
        assert (StartOrder(busy[1..]) + [b.id]) + queueHead == StartOrder(busy[1..]) + ([b.id] + queueHead);
        EndTag(b);
        queueHead := [b.id] + queueHead;
      }
      forall t | 0 <= t < tagMap.Length ensures !tagMap[t] && tagIndex[t] == None {
        assert SlotOk(tagMap[..], tagIndex[..], busy, t);
      }
    }
  }
}
