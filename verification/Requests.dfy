/** Block requests as chains of bios: how their segment counts are kept through merges, and
    how they are mapped to scatterlists. */
module Requests {
  import opened Segments

  const SECTOR: nat := 512

  function Max(a: nat, b: nat): nat {
    if a > b then a else b
  }

  datatype Bio = Bio(
    id: nat,
    vecs: seq<Vec>,
    idx: nat,
    size: nat,
    sector: nat,
    segFront: nat,
    segBack: nat,
    physSegments: nat,
    segValid: bool,
    uptodate: bool
  )

  /** The vectors still to be done. */
  function Live(bio: Bio): seq<Vec> {
    if bio.idx <= |bio.vecs| then bio.vecs[bio.idx..] else []
  }

  predicate HasData(bio: Bio) {
    bio.idx < |bio.vecs|
  }

  ghost predicate AllData(bios: seq<Bio>) {
    forall k :: 0 <= k < |bios| ==> HasData(bios[k])
  }

  function LivesOf(bios: seq<Bio>): seq<seq<Vec>> {
    seq(|bios|, k requires 0 <= k < |bios| => Live(bios[k]))
  }

  /** The vectors of a chain of bios, in order. */
  function VecsOf(bios: seq<Bio>): seq<Vec> {
    Flatten(LivesOf(bios))
  }

  lemma VecsOfConcat(a: seq<Bio>, b: seq<Bio>)
    ensures VecsOf(a + b) == VecsOf(a) + VecsOf(b)
  {
    assert LivesOf(a + b) == LivesOf(a) + LivesOf(b);
    FlattenConcat(LivesOf(a), LivesOf(b));
  }

  lemma VecsOfOne(bio: Bio)
    ensures VecsOf([bio]) == Live(bio)
  {
    var l := LivesOf([bio]);
    assert Front(l) == [] && Last(l) == Live(bio);
    assert Flatten(l) == Flatten(Front(l)) + Last(l);
  }

  lemma VecsOfSnoc(bios: seq<Bio>, bio: Bio)
    ensures VecsOf(bios + [bio]) == VecsOf(bios) + Live(bio)
    ensures VecsOf([bio] + bios) == Live(bio) + VecsOf(bios)
  {
    VecsOfOne(bio);
    VecsOfConcat(bios, [bio]);
    VecsOfConcat([bio], bios);
  }

  // ----- Counting segments -----

  /** What the scan of __blk_recalc_rq_segments holds after some vectors. */
  datatype Scan = Scan(n: nat, segSize: nat, highprv: bool, prv: Vec, front: nat)

  function FirstSize(g: seq<Seg>): nat {
    if |g| >= 2 then Size(g[0]) else 0
  }

  /** The scan has counted the segments that the greedy rule makes of `done`, knows the size
      of the last one, and has recorded the size of the first one once it was complete. */
  ghost predicate Scanned(q: Limits, front0: nat, done: seq<Vec>, s: Scan) {
    var g := Greedy(Restricted(q), done);
    && s.n == |g| && s.front == Max(front0, FirstSize(g))
    && (done == [] ==> s.highprv)
    && (done != [] ==> g != [] && Last(g) != [] && s.segSize == Size(Last(g)))
    && (done != [] ==> s.prv == Last(done) == Last(Last(g)) && s.highprv == q.high(s.prv))
  }

  lemma ScanStep(q: Limits, front0: nat, done: seq<Vec>, s: Scan, v: Vec)
    requires Scanned(q, front0, done, s)
    ensures var joined := !(q.high(v) || s.highprv) && q.cluster && s.segSize + v.len <= q.maxSegmentSize
            && q.joins(s.prv, v);
            Scanned(q, front0, done + [v],
              if joined then s.(segSize := s.segSize + v.len, prv := v)
              else Scan(s.n + 1, v.len, q.high(v), v, if s.n == 1 then Max(s.front, s.segSize) else s.front))
  {
    var r := Restricted(q);
    GreedyIsPartition(r, done);
    GreedyIsPartition(r, done + [v]);
    assert Front(done + [v]) == done;
    var g := Greedy(r, done);
    assert g != [] ==> Front(Last(g) + [v]) == Last(g);
    assert Front([v]) == [];
  }

  method ScanBio(q: Limits, bio: Bio, s0: Scan, ghost front0: nat, ghost done: seq<Vec>) returns (s: Scan)
    requires HasData(bio) && Scanned(q, front0, done, s0)
    ensures Scanned(q, front0, done + Live(bio), s)
  {
    s := s0;
    ghost var seen := done;
    var i := bio.idx;
    assert bio.vecs[bio.idx..i] == [];
    while i < |bio.vecs|
      invariant bio.idx <= i <= |bio.vecs|
      invariant seen == done + bio.vecs[bio.idx..i] && Scanned(q, front0, seen, s)
    {
      var v := bio.vecs[i];
      var high := q.high(v);
      ScanStep(q, front0, seen, s, v);
      if !(high || s.highprv) && q.cluster && s.segSize + v.len <= q.maxSegmentSize && q.joins(s.prv, v) {
        s := s.(segSize := s.segSize + v.len, prv := v);
      } else {
        if s.n == 1 && s.segSize > s.front {
          s := s.(front := s.segSize);
        }
        s := Scan(s.n + 1, v.len, high, v, s.front);
      }
      assert bio.vecs[bio.idx..i + 1] == bio.vecs[bio.idx..i] + [v];
      seen := seen + [v];
      i := i + 1;
    }
    assert bio.vecs[bio.idx..i] == Live(bio);
  }

  /** The chain with the front size of its first bio and the back size of its last bio raised
      to the sizes of the first and the last segment. */
  function EndsRecorded(bios: seq<Bio>, g: seq<Seg>): seq<Bio>
    requires bios != [] && g != []
  {
    var b := bios[0 := bios[0].(segFront := Max(bios[0].segFront, Size(g[0])))];
    b[|b| - 1 := Last(b).(segBack := Max(Last(b).segBack, Size(Last(g))))]
  }

  method ScanBios(q: Limits, bios: seq<Bio>, front: nat) returns (s: Scan)
    requires bios != [] && AllData(bios)
    ensures VecsOf(bios) != [] && Scanned(q, front, VecsOf(bios), s)
  {
    s := Scan(0, 0, true, Vec(0, 0, 0), front);
    ghost var done: seq<Vec> := [];
    for k := 0 to |bios|
      invariant done == VecsOf(bios[..k]) && (k > 0 ==> done != [])
      invariant Scanned(q, front, done, s)
    {
      s := ScanBio(q, bios[k], s, front, done);
      assert bios[..k + 1] == bios[..k] + [bios[k]];
      VecsOfSnoc(bios[..k], bios[k]);
      done := done + Live(bios[k]);
    }
    assert bios[..|bios|] == bios;
  }

  /** __blk_recalc_rq_segments: counts the segments of a chain, and records the sizes of the
      first and the last one in the bios at its ends. */
  method RecalcSegments(q: Limits, bios: seq<Bio>) returns (n: nat, bios': seq<Bio>)
    requires AllData(bios)
    ensures n == |Greedy(Restricted(q), VecsOf(bios))|
    ensures bios == [] ==> bios' == []
    ensures bios != [] ==> n > 0 && bios' == EndsRecorded(bios, Greedy(Restricted(q), VecsOf(bios)))
  {
    if bios == [] {
      return 0, [];
    }
    var s := ScanBios(q, bios, bios[0].segFront);
    var front := s.front;
    if s.n == 1 && s.segSize > front {
      front := s.segSize;
    }
    bios' := bios[0 := bios[0].(segFront := front)];
    var bbio := bios'[|bios| - 1];
    if s.segSize > bbio.segBack {
      bbio := bbio.(segBack := s.segSize);
    }
    bios' := bios'[|bios| - 1 := bbio];
    n := s.n;
  }

  /** The same bios, but for what the segment count caches in them. */
  ghost predicate SameData(a: seq<Bio>, b: seq<Bio>) {
    && |a| == |b|
    && forall k :: 0 <= k < |a| ==>
         b[k] == a[k].(segFront := b[k].segFront, segBack := b[k].segBack, physSegments := b[k].physSegments,
                       segValid := b[k].segValid)
  }

  lemma SameDataSameVecs(a: seq<Bio>, b: seq<Bio>)
    requires SameData(a, b)
    ensures VecsOf(a) == VecsOf(b)
  {
    assert LivesOf(a) == LivesOf(b);
  }

  /** The cached count of a bio is right: its segments on their own, and bounds for the
      sizes of the first and the last one. */
  ghost predicate Counted(q: Limits, bio: Bio) {
    var g := Greedy(Restricted(q), Live(bio));
    g != [] && bio.physSegments == |g| && Size(g[0]) <= bio.segFront && Size(Last(g)) <= bio.segBack
  }

  /** A bio with the count of its own segments in it. */
  function Recounted(q: Limits, bio: Bio): Bio {
    var g := Greedy(Restricted(q), Live(bio));
    if g == [] then bio.(physSegments := 0, segValid := true)
    else EndsRecorded([bio], g)[0].(physSegments := |g|, segValid := true)
  }

  lemma RecountedIsCounted(q: Limits, bio: Bio)
    requires HasData(bio)
    ensures Counted(q, Recounted(q, bio)) && SameData([bio], [Recounted(q, bio)])
    ensures Recounted(q, bio).segFront >= bio.segFront && Recounted(q, bio).segBack >= bio.segBack
  {
    GreedyIsPartition(Restricted(q), Live(bio));
  }

  /** blk_recount_segments */
  method RecountSegments(q: Limits, bio: Bio) returns (bio': Bio)
    requires HasData(bio)
    ensures bio' == Recounted(q, bio)
  {
    VecsOfOne(bio);
    var n, bios := RecalcSegments(q, [bio]);
    bio' := bios[0].(physSegments := n, segValid := true);
  }

  /** A bio on its way to the device: all its vectors have data and add up to its size. */
  ghost predicate BioOk(bio: Bio) {
    HasData(bio) && bio.size == Size(Live(bio)) && Positive(Live(bio))
  }

  ghost predicate Positive(vecs: seq<Vec>) {
    vecs == [] || (vecs[0].len > 0 && Positive(vecs[1..]))
  }

  ghost predicate AllOk(bios: seq<Bio>) {
    bios == [] || (BioOk(bios[0]) && AllOk(bios[1..]))
  }

  lemma {:induction false} AllOkAt(bios: seq<Bio>, k: nat)
    requires AllOk(bios) && k < |bios|
    ensures BioOk(bios[k])
  {
    if k > 0 {
      AllOkAt(bios[1..], k - 1);
    }
  }

  lemma AllOkData(bios: seq<Bio>)
    requires AllOk(bios)
    ensures AllData(bios)
  {
    forall k | 0 <= k < |bios| ensures HasData(bios[k]) {
      AllOkAt(bios, k);
    }
  }

  lemma {:induction false} AllOkConcat(a: seq<Bio>, b: seq<Bio>)
    requires AllOk(a) && AllOk(b)
    ensures AllOk(a + b)
  {
    if a == [] {
      assert a + b == b;
    } else {
      AllOkConcat(a[1..], b);
      assert (a + b)[1..] == a[1..] + b;
    }
  }

  lemma AllOkOne(bio: Bio)
    requires BioOk(bio)
    ensures AllOk([bio])
  {
    assert [bio][1..] == [];
  }

  lemma BioOkSame(a: Bio, b: Bio)
    requires BioOk(a)
    requires b == a.(segFront := b.segFront, segBack := b.segBack, physSegments := b.physSegments,
                     segValid := b.segValid)
    ensures BioOk(b)
  {}

  lemma {:induction false} AllOkSame(a: seq<Bio>, b: seq<Bio>)
    requires AllOk(a) && SameData(a, b)
    ensures AllOk(b)
  {
    if a != [] {
      BioOkSame(a[0], b[0]);
      AllOkSame(a[1..], b[1..]);
    }
  }

  /** A chain of bios that add up to `len` bytes. */
  ghost predicate Chained(bios: seq<Bio>, len: nat) {
    AllOk(bios) && len == Size(VecsOf(bios))
  }

  /** `n` counts the segments of a partition the queue accepts, and the bios at the ends bound
      the sizes of its first and last segment. */
  ghost predicate Accounted(q: Limits, bios: seq<Bio>, part: seq<Seg>, n: nat) {
    && bios != [] && part != []
    && Partition(q, part, VecsOf(bios)) && n == |part|
    && Size(part[0]) <= bios[0].segFront && Size(Last(part)) <= Last(bios).segBack
  }

  lemma OwnPartition(q: Limits, bio: Bio)
    ensures Partition(q, Greedy(Restricted(q), Live(bio)), Live(bio))
  {
    GreedyIsPartition(Restricted(q), Live(bio));
    RestrictedIsPartition(q, Greedy(Restricted(q), Live(bio)), Live(bio));
  }

  /** Raising the bounds at the ends, and nothing else, keeps the account. */
  lemma AccountedRaised(q: Limits, a: seq<Bio>, b: seq<Bio>, part: seq<Seg>, n: nat)
    requires Accounted(q, a, part, n) && SameData(a, b)
    requires b[0].segFront >= a[0].segFront && Last(b).segBack >= Last(a).segBack
    ensures Accounted(q, b, part, n)
  {
    SameDataSameVecs(a, b);
  }

  lemma ChainedSame(a: seq<Bio>, b: seq<Bio>, len: nat)
    requires Chained(a, len) && SameData(a, b)
    ensures Chained(b, len)
  {
    SameDataSameVecs(a, b);
    AllOkSame(a, b);
  }

  /** A back merge: the bio's own segments come after those of the request. */
  lemma BackMergeAccounted(q: Limits, bios: seq<Bio>, part: seq<Seg>, n: nat, bio: Bio)
    requires Accounted(q, bios, part, n) && Counted(q, bio)
    ensures Accounted(q, bios + [bio], part + Greedy(Restricted(q), Live(bio)), n + bio.physSegments)
  {
    VecsOfSnoc(bios, bio);
    OwnPartition(q, bio);
    ConcatIsPartition(q, part, VecsOf(bios), Greedy(Restricted(q), Live(bio)), Live(bio));
  }

  /** A front merge: the bio's own segments come before those of the request. */
  lemma FrontMergeAccounted(q: Limits, bios: seq<Bio>, part: seq<Seg>, n: nat, bio: Bio)
    requires Accounted(q, bios, part, n) && Counted(q, bio)
    ensures Accounted(q, [bio] + bios, Greedy(Restricted(q), Live(bio)) + part, n + bio.physSegments)
  {
    VecsOfSnoc(bios, bio);
    OwnPartition(q, bio);
    ConcatIsPartition(q, Greedy(Restricted(q), Live(bio)), Live(bio), part, VecsOf(bios));
  }

  lemma BackMergeChained(bios: seq<Bio>, len: nat, bio: Bio)
    requires Chained(bios, len) && BioOk(bio)
    ensures Chained(bios + [bio], len + bio.size)
  {
    AllOkOne(bio);
    AllOkConcat(bios, [bio]);
    assert len + bio.size == Size(VecsOf(bios + [bio])) by {
      VecsOfSnoc(bios, bio);
      SizeSplit(VecsOf(bios), Live(bio));
    }
  }

  lemma FrontMergeChained(bios: seq<Bio>, len: nat, bio: Bio)
    requires Chained(bios, len) && BioOk(bio)
    ensures Chained([bio] + bios, len + bio.size)
  {
    AllOkOne(bio);
    AllOkConcat([bio], bios);
    assert len + bio.size == Size(VecsOf([bio] + bios)) by {
      VecsOfSnoc(bios, bio);
      SizeSplit(Live(bio), VecsOf(bios));
    }
  }

  lemma ConcatChained(a: seq<Bio>, la: nat, b: seq<Bio>, lb: nat)
    requires Chained(a, la) && Chained(b, lb)
    ensures Chained(a + b, la + lb)
  {
    AllOkConcat(a, b);
    assert la + lb == Size(VecsOf(a + b)) by {
      VecsOfConcat(a, b);
      SizeSplit(VecsOf(a), VecsOf(b));
    }
  }

  // ----- Merging two requests -----

  lemma EndsOfVecs(bios: seq<Bio>)
    requires bios != [] && AllData(bios)
    ensures VecsOf(bios) != [] && VecsOf(bios)[0] == Live(bios[0])[0] && Last(VecsOf(bios)) == Last(Live(Last(bios)))
  {
    var l := LivesOf(bios);
    assert l[0] != [] && Last(l) == Live(Last(bios)) && Last(l) != [];
    FlattenEnds(l);
  }

  /** The last segment of one request and the first of the next are one piece for the queue. */
  predicate PhysContig(q: Limits, bio: Bio, nxt: Bio)
    requires HasData(bio) ==> HasData(nxt)
  {
    && q.cluster
    && bio.segBack + nxt.segFront <= q.maxSegmentSize
    && (!HasData(bio) || q.joins(Last(bio.vecs), nxt.vecs[nxt.idx]))
  }

  /** The size of the segment two chains make where they join. */
  function JoinedSize(a: seq<Bio>, b: seq<Bio>): nat
    requires a != [] && b != []
  {
    Last(a).segBack + b[0].segFront
  }

  /** What ll_merge_requests_fn writes into the bios at the outer ends of two requests whose
      segments join. */
  function MarkFront(bios: seq<Bio>, n: nat, segSize: nat): seq<Bio>
    requires bios != []
  {
    if n == 1 then bios[0 := bios[0].(segFront := segSize)] else bios
  }

  function MarkBack(bios: seq<Bio>, n: nat, segSize: nat): seq<Bio>
    requires bios != []
  {
    if n == 1 then bios[|bios| - 1 := Last(bios).(segBack := segSize)] else bios
  }

  lemma MarkedSame(bios: seq<Bio>, n: nat, segSize: nat)
    requires bios != []
    ensures SameData(bios, MarkFront(bios, n, segSize)) && SameData(bios, MarkBack(bios, n, segSize))
  {}

  /** The marks are bounds even if the merge is then refused. */
  lemma MarkedAccounted(q: Limits, bios: seq<Bio>, part: seq<Seg>, n: nat, segSize: nat)
    requires Accounted(q, bios, part, n)
    ensures segSize >= Last(bios).segBack ==> Accounted(q, MarkFront(bios, n, segSize), part, n)
    ensures segSize >= bios[0].segFront ==> Accounted(q, MarkBack(bios, n, segSize), part, n)
  {
    MarkedSame(bios, n, segSize);
    SameDataSameVecs(bios, MarkFront(bios, n, segSize));
    SameDataSameVecs(bios, MarkBack(bios, n, segSize));
  }

  lemma JoinEnds(pa: seq<Seg>, pb: seq<Seg>, back: nat, front: nat)
    requires pa != [] && pb != [] && Size(Last(pa)) <= back && Size(pb[0]) <= front
    ensures |pa| == 1 ==> Size(JoinParts(pa, pb)[0]) <= back + front
    ensures |pa| > 1 ==> JoinParts(pa, pb)[0] == pa[0]
    ensures |pb| == 1 ==> Size(Last(JoinParts(pa, pb))) <= back + front
    ensures |pb| > 1 ==> Last(JoinParts(pa, pb)) == Last(pb)
  {
    SizeSplit(Last(pa), pb[0]);
  }

  lemma JoinedVecs(q: Limits, a: seq<Bio>, pa: seq<Seg>, b: seq<Bio>, pb: seq<Seg>)
    requires a != [] && b != [] && pa != [] && pb != [] && AllData(a) && AllData(b)
    requires Partition(q, pa, VecsOf(a)) && Partition(q, pb, VecsOf(b))
    requires Size(Last(pa)) <= Last(a).segBack && Size(pb[0]) <= b[0].segFront
    requires PhysContig(q, Last(a), b[0])
    ensures Partition(q, JoinParts(pa, pb), VecsOf(a) + VecsOf(b))
  {
    EndsOfVecs(a);
    EndsOfVecs(b);
    assert q.joins(Last(VecsOf(a)), VecsOf(b)[0]) by {
      assert HasData(Last(a)) && HasData(b[0]);
    }
    JoinIsPartition(q, pa, VecsOf(a), pb, VecsOf(b));
  }

  lemma MarkedVecs(a: seq<Bio>, na: nat, b: seq<Bio>, nb: nat, segSize: nat)
    requires a != [] && b != []
    ensures VecsOf(MarkFront(a, na, segSize) + MarkBack(b, nb, segSize)) == VecsOf(a) + VecsOf(b)
  {
    MarkedSame(a, na, segSize);
    MarkedSame(b, nb, segSize);
    SameDataSameVecs(a, MarkFront(a, na, segSize));
    SameDataSameVecs(b, MarkBack(b, nb, segSize));
    VecsOfConcat(MarkFront(a, na, segSize), MarkBack(b, nb, segSize));
  }

  lemma JoinAccounted(q: Limits, a: seq<Bio>, pa: seq<Seg>, na: nat, b: seq<Bio>, pb: seq<Seg>, nb: nat)
    requires Accounted(q, a, pa, na) && Accounted(q, b, pb, nb) && AllData(a) && AllData(b)
    requires PhysContig(q, Last(a), b[0])
    ensures na + nb >= 1
    ensures Accounted(q, MarkFront(a, na, JoinedSize(a, b)) + MarkBack(b, nb, JoinedSize(a, b)), JoinParts(pa, pb),
                      na + nb - 1)
  {
    JoinedVecs(q, a, pa, b, pb);
    MarkedVecs(a, na, b, nb, JoinedSize(a, b));
    JoinEnds(pa, pb, Last(a).segBack, b[0].segFront);
  }

  lemma AppendAccounted(q: Limits, a: seq<Bio>, pa: seq<Seg>, na: nat, b: seq<Bio>, pb: seq<Seg>, nb: nat)
    requires Accounted(q, a, pa, na) && Accounted(q, b, pb, nb)
    ensures Accounted(q, a + b, pa + pb, na + nb)
  {
    VecsOfConcat(a, b);
    ConcatIsPartition(q, pa, VecsOf(a), pb, VecsOf(b));
  }

  /** Whatever was merged, the count is enough for the greedy mapping. */
  lemma AccountCoversMapping(q: Limits, bios: seq<Bio>, part: seq<Seg>, n: nat)
    requires Accounted(q, bios, part, n)
    ensures |Greedy(q, VecsOf(bios))| <= n
  {
    GreedyStaysAhead(q, part, VecsOf(bios));
  }

  // ----- Mapping to a scatterlist -----

  datatype Sg = Sg(page: nat, offset: nat, length: nat)

  function SgOf(seg: Seg): Sg
    requires seg != []
  {
    Sg(seg[0].page, seg[0].offset, Size(seg))
  }

  /** The first entries describe the segments `g`, one each. */
  ghost predicate Mapped(entries: seq<Sg>, g: seq<Seg>) {
    && |g| <= |entries|
    && forall k :: 0 <= k < |g| ==> g[k] != [] && entries[k] == SgOf(g[k])
  }

  lemma {:induction false} GreedyGrows(q: Limits, a: seq<Vec>, b: seq<Vec>)
    ensures |Greedy(q, a)| <= |Greedy(q, a + b)|
    decreases b
  {
    if b == [] {
      assert a + b == a;
    } else {
      assert Front(a + b) == a + Front(b);
      GreedyGrows(q, a, Front(b));
    }
  }

  lemma MapStep(q: Limits, done: seq<Vec>, v: Vec)
    ensures var g := Greedy(q, done);
            Greedy(q, done + [v]) == if g != [] && CanJoin(q, Last(g), v) then Front(g) + [Last(g) + [v]] else g + [[v]]
    ensures done != []
            ==> Greedy(q, done) != [] && Last(Greedy(q, done)) != [] && Last(Last(Greedy(q, done))) == Last(done)
  {
    assert Front(done + [v]) == done;
    GreedyIsPartition(q, done);
    GreedyIsPartition(q, done + [v]);
  }

  /** `nsegs` entries describe the greedy segments of the vectors `done`, the last of which is
      `prv`. */
  ghost predicate MappedUpTo(q: Limits, entries: seq<Sg>, nsegs: nat, prv: Vec, done: seq<Vec>) {
    Mapped(entries, Greedy(q, done)) && nsegs == |Greedy(q, done)| && (done != [] ==> prv == Last(done))
  }

  /** One vector of blk_rq_map_sg: it grows the last entry or starts a new one. */
  method MapVec(q: Limits, v: Vec, prv: Vec, nsegs0: nat, sglist: array<Sg>, ghost done: seq<Vec>) returns (nsegs: nat)
    requires MappedUpTo(q, sglist[..], nsegs0, prv, done) && |Greedy(q, done + [v])| <= sglist.Length
    modifies sglist
    ensures MappedUpTo(q, sglist[..], nsegs, v, done + [v])
  {
    nsegs := nsegs0;
    ghost var g := Greedy(q, done);
    MapStep(q, done, v);
    if nsegs > 0 && q.cluster && sglist[nsegs - 1].length + v.len <= q.maxSegmentSize && q.joins(prv, v) {
      assert SgOf(Last(g) + [v]) == SgOf(Last(g)).(length := Size(Last(g)) + v.len) by {
        assert Front(Last(g) + [v]) == Last(g);
      }
      sglist[nsegs - 1] := sglist[nsegs - 1].(length := sglist[nsegs - 1].length + v.len);
    } else {
      SizeOne(v);
      sglist[nsegs] := Sg(v.page, v.offset, v.len);
      nsegs := nsegs + 1;
    }
  }

  lemma LivePrefix(q: Limits, bio: Bio, done: seq<Vec>, i: nat)
    requires bio.idx <= i < |bio.vecs|
    ensures done + bio.vecs[bio.idx..i + 1] == (done + bio.vecs[bio.idx..i]) + [bio.vecs[i]]
    ensures |Greedy(q, done + bio.vecs[bio.idx..i + 1])| <= |Greedy(q, done + Live(bio))|
  {
    assert bio.vecs[bio.idx..i + 1] == bio.vecs[bio.idx..i] + [bio.vecs[i]];
    assert done + Live(bio) == (done + bio.vecs[bio.idx..i + 1]) + bio.vecs[i + 1..];
    GreedyGrows(q, done + bio.vecs[bio.idx..i + 1], bio.vecs[i + 1..]);
  }

  method MapBio(q: Limits, bio: Bio, prv0: Vec, nsegs0: nat, sglist: array<Sg>, ghost done: seq<Vec>)
    returns (nsegs: nat, prv: Vec)
    requires HasData(bio)
    requires MappedUpTo(q, sglist[..], nsegs0, prv0, done) && |Greedy(q, done + Live(bio))| <= sglist.Length
    modifies sglist
    ensures MappedUpTo(q, sglist[..], nsegs, prv, done + Live(bio))
  {
    nsegs, prv := nsegs0, prv0;
    ghost var seen := done;
    var i := bio.idx;
    assert bio.vecs[bio.idx..i] == [];
    while i < |bio.vecs|
      invariant bio.idx <= i <= |bio.vecs|
      invariant seen == done + bio.vecs[bio.idx..i]
      invariant MappedUpTo(q, sglist[..], nsegs, prv, seen)
    {
      LivePrefix(q, bio, done, i);
      nsegs := MapVec(q, bio.vecs[i], prv, nsegs, sglist, seen);
      prv := bio.vecs[i];
      seen := seen + [prv];
      i := i + 1;
    }
    assert bio.vecs[bio.idx..i] == Live(bio);
  }

  lemma PrefixVecs(bios: seq<Bio>, k: nat)
    requires k < |bios|
    ensures VecsOf(bios[..k + 1]) == VecsOf(bios[..k]) + Live(bios[k])
    ensures VecsOf(bios) == (VecsOf(bios[..k]) + Live(bios[k])) + VecsOf(bios[k + 1..])
  {
    assert bios[..k + 1] == bios[..k] + [bios[k]];
    VecsOfSnoc(bios[..k], bios[k]);
    assert bios == bios[..k + 1] + bios[k + 1..];
    VecsOfConcat(bios[..k + 1], bios[k + 1..]);
  }

  lemma RoomForBio(q: Limits, bios: seq<Bio>, k: nat)
    requires k < |bios|
    ensures |Greedy(q, VecsOf(bios[..k]) + Live(bios[k]))| <= |Greedy(q, VecsOf(bios))|
  {
    PrefixVecs(bios, k);
    GreedyGrows(q, VecsOf(bios[..k]) + Live(bios[k]), VecsOf(bios[k + 1..]));
  }

  /** blk_rq_map_sg: the entries are the segments the greedy rule makes of the request's
      vectors, in order, if there is room for them. */
  method MapSg(q: Limits, bios: seq<Bio>, sglist: array<Sg>) returns (nsegs: nat)
    requires AllData(bios) && |Greedy(q, VecsOf(bios))| <= sglist.Length
    modifies sglist
    ensures nsegs == |Greedy(q, VecsOf(bios))| && Mapped(sglist[..], Greedy(q, VecsOf(bios)))
  {
    nsegs := 0;
    var prv := Vec(0, 0, 0);
    for k := 0 to |bios|
      invariant MappedUpTo(q, sglist[..], nsegs, prv, VecsOf(bios[..k]))
    {
      RoomForBio(q, bios, k);
      PrefixVecs(bios, k);
      nsegs, prv := MapBio(q, bios[k], prv, nsegs, sglist, VecsOf(bios[..k]));
    }
    assert bios[..|bios|] == bios;
  }
}
