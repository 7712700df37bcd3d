/** The request of the block layer, updated in place by merges and by completion. */
module BlockRequest {
  import opened Segments
  import opened Requests
  import opened Completion

  // ----- Requests as values -----

  datatype Rq = Rq(
    bios: seq<Bio>,
    n: nat,          // nr_phys_segments
    len: nat,
    sector: nat,
    write: bool,
    noMerge: bool,   // a flag that rules out merging is set
    special: bool
  )

  /** The chain adds up to the length, and `part` is a way to cut its vectors into the counted
      number of segments. */
  ghost predicate Accounts(q: Limits, r: Rq, part: seq<Seg>) {
    Chained(r.bios, r.len) && Accounted(q, r.bios, part, r.n)
  }

  ghost predicate Sound(q: Limits, r: Rq) {
    exists part :: Accounts(q, r, part)
  }

  /** bio_phys_segments and the checks of the merge functions: counted unless it was before. */
  function Ready(q: Limits, bio: Bio): Bio {
    if bio.segValid then bio else Recounted(q, bio)
  }

  ghost predicate BioReady(q: Limits, bio: Bio) {
    BioOk(bio) && (bio.segValid ==> Counted(q, bio))
  }

  /** A bio without data is not counted. */
  function FirstRequest(q: Limits, bio: Bio, write: bool): Rq {
    if HasData(bio) then
      var b := Ready(q, bio);
      Rq([b], b.physSegments, b.size, b.sector, write, false, false)
    else
      Rq([bio], 0, bio.size, bio.sector, write, false, false)
  }

  predicate TooLong(q: Limits, r: Rq, bytes: nat) {
    r.len / SECTOR + bytes / SECTOR > q.maxSectors
  }

  predicate Takes(q: Limits, r: Rq, bio: Bio) {
    !TooLong(q, r, bio.size) && r.n + Ready(q, bio).physSegments <= q.maxSegments
  }

  function Refreshed(q: Limits, r: Rq, k: nat): Rq
    requires k < |r.bios|
  {
    r.(bios := r.bios[k := Ready(q, r.bios[k])])
  }

  function Appended(r: Rq, bio: Bio): Rq {
    r.(bios := r.bios + [bio], n := r.n + bio.physSegments, len := r.len + bio.size)
  }

  function Prepended(r: Rq, bio: Bio): Rq {
    r.(bios := [bio] + r.bios, n := r.n + bio.physSegments, len := r.len + bio.size, sector := bio.sector)
  }

  function Closed(r: Rq): Rq {
    r.(noMerge := true)
  }

  function BackMerged(q: Limits, r: Rq, bio: Bio): Rq
    requires r.bios != []
  {
    if TooLong(q, r, bio.size) then Closed(r)
    else if Takes(q, r, bio) then Appended(Refreshed(q, r, |r.bios| - 1), Ready(q, bio))
    else Closed(Refreshed(q, r, |r.bios| - 1))
  }

  function FrontMerged(q: Limits, r: Rq, bio: Bio): Rq
    requires r.bios != []
  {
    if TooLong(q, r, bio.size) then Closed(r)
    else if Takes(q, r, bio) then Prepended(Refreshed(q, r, 0), Ready(q, bio))
    else Closed(Refreshed(q, r, 0))
  }

  lemma ReadyIs(q: Limits, bio: Bio)
    requires BioOk(bio)
    ensures SameData([bio], [Ready(q, bio)]) && BioOk(Ready(q, bio))
    ensures BioReady(q, bio) ==> Counted(q, Ready(q, bio))
    ensures Ready(q, bio).segFront >= bio.segFront && Ready(q, bio).segBack >= bio.segBack
  {
    RecountedIsCounted(q, bio);
    assert [bio][0] == bio && [Ready(q, bio)][0] == Ready(q, bio);
  }

  lemma OneBioAccounts(q: Limits, r: Rq, bio: Bio)
    requires BioOk(bio) && Counted(q, bio) && r.bios == [bio] && r.n == bio.physSegments && r.len == bio.size
    ensures Accounts(q, r, Greedy(Restricted(q), Live(bio)))
  {
    AllOkOne(bio);
    VecsOfOne(bio);
    OwnPartition(q, bio);
  }

  lemma FirstRequestSound(q: Limits, bio: Bio, write: bool)
    requires BioReady(q, bio)
    ensures Sound(q, FirstRequest(q, bio, write)) && SameData([bio], FirstRequest(q, bio, write).bios)
  {
    ReadyIs(q, bio);
    OneBioAccounts(q, FirstRequest(q, bio, write), Ready(q, bio));
  }

  lemma ReplacedSame(bios: seq<Bio>, k: nat, bio: Bio)
    requires k < |bios| && SameData([bios[k]], [bio])
    ensures SameData(bios, bios[k := bio])
  {
    assert [bios[k]][0] == bios[k] && [bio][0] == bio;
  }

  lemma ReplacedEnds(bios: seq<Bio>, k: nat, bio: Bio)
    requires k < |bios| && bio.segFront >= bios[k].segFront && bio.segBack >= bios[k].segBack
    ensures bios[k := bio][0].segFront >= bios[0].segFront && Last(bios[k := bio]).segBack >= Last(bios).segBack
  {}

  /** Counting a bio of the chain again keeps the account. */
  lemma RecountSound(q: Limits, r: Rq, part: seq<Seg>, k: nat)
    requires Accounts(q, r, part) && k < |r.bios|
    ensures Accounts(q, Refreshed(q, r, k), part)
  {
    AllOkAt(r.bios, k);
    var bio := Ready(q, r.bios[k]);
    ReadyIs(q, r.bios[k]);
    ReplacedSame(r.bios, k, bio);
    ReplacedEnds(r.bios, k, bio);
    AccountedRaised(q, r.bios, r.bios[k := bio], part, r.n);
    ChainedSame(r.bios, r.bios[k := bio], r.len);
  }

  lemma SameDataAdd(a: seq<Bio>, b: seq<Bio>, x: Bio, y: Bio)
    requires SameData(a, b) && SameData([x], [y])
    ensures SameData(a + [x], b + [y]) && SameData([x] + a, [y] + b)
  {
    assert [x][0] == x && [y][0] == y;
  }

  lemma AppendedAccounts(q: Limits, r: Rq, part: seq<Seg>, bio: Bio)
    requires Accounts(q, r, part) && BioOk(bio) && Counted(q, bio)
    ensures Accounts(q, Appended(r, bio), part + Greedy(Restricted(q), Live(bio)))
  {
    BackMergeChained(r.bios, r.len, bio);
    BackMergeAccounted(q, r.bios, part, r.n, bio);
  }

  lemma PrependedAccounts(q: Limits, r: Rq, part: seq<Seg>, bio: Bio)
    requires Accounts(q, r, part) && BioOk(bio) && Counted(q, bio)
    ensures Accounts(q, Prepended(r, bio), Greedy(Restricted(q), Live(bio)) + part)
  {
    FrontMergeChained(r.bios, r.len, bio);
    FrontMergeAccounted(q, r.bios, part, r.n, bio);
  }

  lemma BackMergeTakes(q: Limits, r: Rq, part: seq<Seg>, bio: Bio) returns (part': seq<Seg>)
    requires Accounts(q, r, part) && BioReady(q, bio)
    ensures Accounts(q, Appended(Refreshed(q, r, |r.bios| - 1), Ready(q, bio)), part')
  {
    RecountSound(q, r, part, |r.bios| - 1);
    ReadyIs(q, bio);
    AppendedAccounts(q, Refreshed(q, r, |r.bios| - 1), part, Ready(q, bio));
    part' := part + Greedy(Restricted(q), Live(Ready(q, bio)));
  }

  lemma FrontMergeTakes(q: Limits, r: Rq, part: seq<Seg>, bio: Bio) returns (part': seq<Seg>)
    requires Accounts(q, r, part) && BioReady(q, bio)
    ensures Accounts(q, Prepended(Refreshed(q, r, 0), Ready(q, bio)), part')
  {
    RecountSound(q, r, part, 0);
    ReadyIs(q, bio);
    PrependedAccounts(q, Refreshed(q, r, 0), part, Ready(q, bio));
    part' := Greedy(Restricted(q), Live(Ready(q, bio))) + part;
  }

  lemma ClosedSound(q: Limits, r: Rq, part: seq<Seg>)
    requires Accounts(q, r, part)
    ensures Sound(q, Closed(r))
  {
    assert Accounts(q, Closed(r), part);
  }

  /** A back merge keeps the account, whether the bio is taken or not. */
  lemma BackMergeSound(q: Limits, r: Rq, bio: Bio)
    requires Sound(q, r) && BioReady(q, bio)
    ensures Sound(q, BackMerged(q, r, bio))
  {
    var part :| Accounts(q, r, part);
    if TooLong(q, r, bio.size) {
      ClosedSound(q, r, part);
    } else if Takes(q, r, bio) {
      var part' := BackMergeTakes(q, r, part, bio);
    } else {
      RecountSound(q, r, part, |r.bios| - 1);
      ClosedSound(q, Refreshed(q, r, |r.bios| - 1), part);
    }
  }

  /** A front merge keeps the account, whether the bio is taken or not. */
  lemma FrontMergeSound(q: Limits, r: Rq, bio: Bio)
    requires Sound(q, r) && BioReady(q, bio)
    ensures Sound(q, FrontMerged(q, r, bio))
  {
    var part :| Accounts(q, r, part);
    if TooLong(q, r, bio.size) {
      ClosedSound(q, r, part);
    } else if Takes(q, r, bio) {
      var part' := FrontMergeTakes(q, r, part, bio);
    } else {
      RecountSound(q, r, part, 0);
      ClosedSound(q, Refreshed(q, r, 0), part);
    }
  }

  lemma SameDataSelf(bios: seq<Bio>)
    ensures SameData(bios, bios)
  {}

  lemma RefreshedSame(q: Limits, r: Rq, k: nat)
    requires AllOk(r.bios) && k < |r.bios|
    ensures SameData(r.bios, Refreshed(q, r, k).bios)
  {
    AllOkAt(r.bios, k);
    ReadyIs(q, r.bios[k]);
    ReplacedSame(r.bios, k, Ready(q, r.bios[k]));
  }

  lemma AppendedSame(q: Limits, r: Rq, k: nat, bio: Bio)
    requires AllOk(r.bios) && BioOk(bio) && k < |r.bios|
    ensures SameData(r.bios + [bio], Appended(Refreshed(q, r, k), Ready(q, bio)).bios)
    ensures SameData([bio] + r.bios, Prepended(Refreshed(q, r, k), Ready(q, bio)).bios)
  {
    RefreshedSame(q, r, k);
    ReadyIs(q, bio);
    SameDataAdd(r.bios, Refreshed(q, r, k).bios, bio, Ready(q, bio));
  }

  /** After a back merge the bio follows the chain, or the chain is as it was. */
  lemma BackMergeChain(q: Limits, r: Rq, bio: Bio)
    requires AllOk(r.bios) && BioOk(bio) && r.bios != []
    ensures Takes(q, r, bio) ==> SameData(r.bios + [bio], BackMerged(q, r, bio).bios)
    ensures !Takes(q, r, bio) ==> SameData(r.bios, BackMerged(q, r, bio).bios)
  {
    if Takes(q, r, bio) {
      AppendedSame(q, r, |r.bios| - 1, bio);
    } else if TooLong(q, r, bio.size) {
      SameDataSelf(r.bios);
    } else {
      RefreshedSame(q, r, |r.bios| - 1);
    }
  }

  /** After a front merge the bio leads the chain, or the chain is as it was. */
  lemma FrontMergeChain(q: Limits, r: Rq, bio: Bio)
    requires AllOk(r.bios) && BioOk(bio) && r.bios != []
    ensures Takes(q, r, bio) ==> SameData([bio] + r.bios, FrontMerged(q, r, bio).bios)
    ensures !Takes(q, r, bio) ==> SameData(r.bios, FrontMerged(q, r, bio).bios)
  {
    if Takes(q, r, bio) {
      AppendedSame(q, r, 0, bio);
    } else if TooLong(q, r, bio.size) {
      SameDataSelf(r.bios);
    } else {
      RefreshedSame(q, r, 0);
    }
  }

  // ----- Merging two requests -----

  predicate Mergeable(q: Limits, a: Rq, b: Rq) {
    && !a.noMerge && !b.noMerge && a.sector + a.len / SECTOR == b.sector && a.write == b.write
    && !a.special && !b.special && !TooLong(q, a, b.len)
  }

  predicate Joinable(a: Rq, b: Rq) {
    a.bios != [] && b.bios != [] && HasData(b.bios[0]) && a.n + b.n > 0
  }

  predicate Contiguous(q: Limits, a: Rq, b: Rq)
    requires Joinable(a, b)
  {
    PhysContig(q, Last(a.bios), b.bios[0])
  }

  /** The counts of two requests together, one less if their ends join. */
  function Total(q: Limits, a: Rq, b: Rq): nat
    requires Joinable(a, b)
  {
    a.n + b.n - if Contiguous(q, a, b) then 1 else 0
  }

  function FrontMarked(q: Limits, a: Rq, b: Rq): Rq
    requires Joinable(a, b)
  {
    if Contiguous(q, a, b) then a.(bios := MarkFront(a.bios, a.n, JoinedSize(a.bios, b.bios))) else a
  }

  function BackMarked(q: Limits, a: Rq, b: Rq): Rq
    requires Joinable(a, b)
  {
    if Contiguous(q, a, b) then b.(bios := MarkBack(b.bios, b.n, JoinedSize(a.bios, b.bios))) else b
  }

  function Concatenated(a: Rq, b: Rq, total: nat): Rq {
    a.(bios := a.bios + b.bios, n := total, len := a.len + b.len)
  }

  predicate Merges(q: Limits, a: Rq, b: Rq)
    requires Joinable(a, b)
  {
    Mergeable(q, a, b) && Total(q, a, b) <= q.maxSegments
  }

  lemma FrontMarkedAccounts(q: Limits, a: Rq, pa: seq<Seg>, b: Rq)
    requires Accounts(q, a, pa) && Joinable(a, b)
    ensures Accounts(q, FrontMarked(q, a, b), pa)
  {
    if Contiguous(q, a, b) {
      MarkedAccounted(q, a.bios, pa, a.n, JoinedSize(a.bios, b.bios));
      MarkedSame(a.bios, a.n, JoinedSize(a.bios, b.bios));
      ChainedSame(a.bios, MarkFront(a.bios, a.n, JoinedSize(a.bios, b.bios)), a.len);
    }
  }

  lemma BackMarkedAccounts(q: Limits, a: Rq, b: Rq, pb: seq<Seg>)
    requires Accounts(q, b, pb) && Joinable(a, b)
    ensures Accounts(q, BackMarked(q, a, b), pb)
  {
    if Contiguous(q, a, b) {
      MarkedAccounted(q, b.bios, pb, b.n, JoinedSize(a.bios, b.bios));
      MarkedSame(b.bios, b.n, JoinedSize(a.bios, b.bios));
      ChainedSame(b.bios, MarkBack(b.bios, b.n, JoinedSize(a.bios, b.bios)), b.len);
    }
  }

  /** The marks left by a refused merge keep both accounts. */
  lemma MarksSound(q: Limits, a: Rq, b: Rq)
    requires Sound(q, a) && Sound(q, b)
    ensures Joinable(a, b)
    ensures Sound(q, FrontMarked(q, a, b)) && Sound(q, BackMarked(q, a, b))
  {
    var pa :| Accounts(q, a, pa);
    var pb :| Accounts(q, b, pb);
    assert BioOk(b.bios[0]);
    FrontMarkedAccounts(q, a, pa, b);
    BackMarkedAccounts(q, a, b, pb);
  }

  lemma ConcatenatedAccounted(q: Limits, a: Rq, pa: seq<Seg>, b: Rq, pb: seq<Seg>) returns (part: seq<Seg>)
    requires Accounts(q, a, pa) && Accounts(q, b, pb) && Joinable(a, b)
    ensures Accounted(q, FrontMarked(q, a, b).bios + BackMarked(q, a, b).bios, part, Total(q, a, b))
  {
    if Contiguous(q, a, b) {
      AllOkData(a.bios);
      AllOkData(b.bios);
      JoinAccounted(q, a.bios, pa, a.n, b.bios, pb, b.n);
      part := JoinParts(pa, pb);
    } else {
      AppendAccounted(q, a.bios, pa, a.n, b.bios, pb, b.n);
      part := pa + pb;
    }
  }

  lemma ConcatenatedChained(q: Limits, a: Rq, pa: seq<Seg>, b: Rq, pb: seq<Seg>)
    requires Accounts(q, a, pa) && Accounts(q, b, pb) && Joinable(a, b)
    ensures Chained(FrontMarked(q, a, b).bios + BackMarked(q, a, b).bios,
                    FrontMarked(q, a, b).len + BackMarked(q, a, b).len)
  {
    FrontMarkedAccounts(q, a, pa, b);
    BackMarkedAccounts(q, a, b, pb);
    ConcatChained(FrontMarked(q, a, b).bios, a.len, BackMarked(q, a, b).bios, b.len);
  }

  lemma ConcatenatedSound(q: Limits, a: Rq, b: Rq, total: nat, part: seq<Seg>)
    requires Accounted(q, a.bios + b.bios, part, total) && Chained(a.bios + b.bios, a.len + b.len)
    ensures Sound(q, Concatenated(a, b, total))
  {
    assert Accounts(q, Concatenated(a, b, total), part);
  }

  /** Two merged requests are one sound request, with a segment less when their ends join. */
  lemma MergeSound(q: Limits, a: Rq, b: Rq)
    requires Sound(q, a) && Sound(q, b)
    ensures Joinable(a, b)
    ensures Sound(q, Concatenated(FrontMarked(q, a, b), BackMarked(q, a, b), Total(q, a, b)))
  {
    var pa :| Accounts(q, a, pa);
    var pb :| Accounts(q, b, pb);
    assert BioOk(b.bios[0]);
    var part := ConcatenatedAccounted(q, a, pa, b, pb);
    ConcatenatedChained(q, a, pa, b, pb);
    ConcatenatedSound(q, FrontMarked(q, a, b), BackMarked(q, a, b), Total(q, a, b), part);
  }

  // ----- Completion -----

  /** What a request is after its first `n` bytes are done: the rest of the chain, counted
      anew. */
  ghost function Updated(q: Limits, r: Rq, n: nat, error: int): Rq
    requires AllOk(r.bios)
  {
    if Remaining(r.bios, n, error) == [] then r.(bios := [], len := 0)
    else Recalculated(q, Cut(r, n, error))
  }

  ghost function Cut(r: Rq, n: nat, error: int): Rq
    requires AllOk(r.bios)
  {
    var left := Remaining(r.bios, n, error);
    r.(bios := left, len := Size(VecsOf(left)), sector := r.sector + n / SECTOR)
  }

  ghost function Recalculated(q: Limits, r: Rq): Rq {
    var g := Greedy(Restricted(q), VecsOf(r.bios));
    if r.bios == [] || g == [] then r else r.(bios := EndsRecorded(r.bios, g), n := |g|)
  }

  lemma RecordedSame(bios: seq<Bio>, g: seq<Seg>)
    requires bios != [] && g != []
    ensures SameData(bios, EndsRecorded(bios, g))
    ensures Size(g[0]) <= EndsRecorded(bios, g)[0].segFront && Size(Last(g)) <= Last(EndsRecorded(bios, g)).segBack
  {}

  lemma RecordedAccounted(q: Limits, bios: seq<Bio>, g: seq<Seg>)
    requires bios != [] && g == Greedy(Restricted(q), VecsOf(bios)) && g != []
    ensures Accounted(q, EndsRecorded(bios, g), g, |g|)
  {
    RecordedSame(bios, g);
    SameDataSameVecs(bios, EndsRecorded(bios, g));
    GreedyIsPartition(Restricted(q), VecsOf(bios));
    RestrictedIsPartition(q, g, VecsOf(bios));
  }

  lemma GreedyOfChain(q: Limits, bios: seq<Bio>)
    requires bios != [] && AllOk(bios)
    ensures Greedy(Restricted(q), VecsOf(bios)) != []
  {
    AllOkData(bios);
    EndsOfVecs(bios);
    GreedyIsPartition(Restricted(q), VecsOf(bios));
  }

  lemma RecalculatedSound(q: Limits, r: Rq)
    requires r.bios != [] && Chained(r.bios, r.len)
    ensures Sound(q, Recalculated(q, r)) && SameData(r.bios, Recalculated(q, r).bios)
  {
    var g := Greedy(Restricted(q), VecsOf(r.bios));
    GreedyOfChain(q, r.bios);
    RecordedSame(r.bios, g);
    ChainedSame(r.bios, EndsRecorded(r.bios, g), r.len);
    RecordedAccounted(q, r.bios, g);
    assert Accounts(q, Recalculated(q, r), g);
  }

  lemma CutChained(r: Rq, n: nat, error: int)
    requires AllOk(r.bios)
    ensures Chained(Cut(r, n, error).bios, Cut(r, n, error).len)
  {
    RemainingOk(r.bios, n, error);
  }

  /** A request that is not done is sound again. */
  lemma UpdatedSound(q: Limits, r: Rq, n: nat, error: int)
    requires AllOk(r.bios)
    ensures Updated(q, r, n, error).bios == [] || Sound(q, Updated(q, r, n, error))
  {
    if Remaining(r.bios, n, error) != [] {
      CutChained(r, n, error);
      RecalculatedSound(q, Cut(r, n, error));
    }
  }

  lemma UpdatedVecs(q: Limits, r: Rq, n: nat, error: int)
    requires AllOk(r.bios)
    ensures VecsOf(Updated(q, r, n, error).bios) == Drop(VecsOf(r.bios), n)
    ensures Updated(q, r, n, error).len == Size(VecsOf(Updated(q, r, n, error).bios))
  {
    RemainingVecs(r.bios, n, error);
    if Remaining(r.bios, n, error) != [] {
      CutChained(r, n, error);
      RecalculatedSound(q, Cut(r, n, error));
      SameDataSameVecs(Cut(r, n, error).bios, Recalculated(q, Cut(r, n, error)).bios);
    }
  }

  /** The bytes of the request are the old ones without the first `n`, and its length is their
      number. */
  lemma UpdatedBytes(q: Limits, r: Rq, n: nat, error: int)
    requires AllOk(r.bios)
    ensures var before, after := Stream(VecsOf(r.bios)), Stream(VecsOf(Updated(q, r, n, error).bios));
            after == (if n <= |before| then before[n..] else []) && Updated(q, r, n, error).len == |after|
  {
    UpdatedVecs(q, r, n, error);
    DropStream(VecsOf(r.bios), n);
    StreamLength(Drop(VecsOf(r.bios), n));
  }

  // ----- Completing in two calls -----

  /** What a call leaves is the rest of the chain, but for what was counted anew. */
  lemma UpdatedChain(q: Limits, r: Rq, n: nat, error: int)
    requires AllOk(r.bios)
    ensures var left, after := Remaining(r.bios, n, error), Updated(q, r, n, error);
            AllOk(left) && SameData(left, after.bios) && AllOk(after.bios)
  {
    RemainingOk(r.bios, n, error);
    if Remaining(r.bios, n, error) != [] {
      CutChained(r, n, error);
      RecalculatedSound(q, Cut(r, n, error));
      AllOkSame(Remaining(r.bios, n, error), Updated(q, r, n, error).bios);
    }
  }

  /** The count and the sector of a request that is not done. */
  lemma UpdatedCount(q: Limits, r: Rq, n: nat, error: int)
    requires AllOk(r.bios) && Updated(q, r, n, error).bios != []
    ensures var after := Updated(q, r, n, error);
            after.n == |Greedy(Restricted(q), Drop(VecsOf(r.bios), n))| && after.sector == r.sector + n / SECTOR
  {
    RemainingVecs(r.bios, n, error);
    CutChained(r, n, error);
    GreedyOfChain(q, Cut(r, n, error).bios);
  }

  lemma EndedInTwoCalls(q: Limits, r: Rq, m: nat, n: nat, error: int)
    requires AllOk(r.bios)
    ensures EndedBy(r.bios, m, error) + EndedBy(Updated(q, r, m, error).bios, n, error) == EndedBy(r.bios, m + n, error)
  {
    UpdatedChain(q, r, m, error);
    EndedSame(Remaining(r.bios, m, error), Updated(q, r, m, error).bios, n, error);
    EndedTwice(r.bios, m, n, error);
  }

  lemma LeftInTwoCalls(q: Limits, r: Rq, m: nat, n: nat, error: int)
    requires AllOk(r.bios)
    ensures AllOk(Updated(q, r, m, error).bios)
    ensures var two := Updated(q, Updated(q, r, m, error), n, error).bios;
            var one := Updated(q, r, m + n, error).bios;
            AlikeButSector(Bares(two), Bares(one)) && (Bares(two) == Bares(one) <==> SectorsAgree(r.bios, m, n))
  {
    var first := Updated(q, r, m, error);
    UpdatedChain(q, r, m, error);
    UpdatedChain(q, first, n, error);
    UpdatedChain(q, r, m + n, error);
    var left := Remaining(r.bios, m, error);
    RemainingSame(left, first.bios, n, error);
    SameDataBares(Remaining(left, n, error), Remaining(first.bios, n, error));
    SameDataBares(Remaining(first.bios, n, error), Updated(q, first, n, error).bios);
    SameDataBares(Remaining(r.bios, m + n, error), Updated(q, r, m + n, error).bios);
    RemainingTwice(r.bios, m, n, error);
    ViewsBares(Remaining(left, n, error), Remaining(r.bios, m + n, error));
  }

  /** Completing m bytes and then n, with the segments counted anew between the calls, against
      completing m + n at once: the same bios end, in the same order and with the same errors,
      the same bytes, length and count are left, and the same sector if and only if the odd
      bytes do not make up another one; the bios left are the same but for the sector of the
      first one, and that too in the cases of SectorsAgree. */
  lemma UpdatedTwice(q: Limits, r: Rq, m: nat, n: nat, error: int)
    requires AllOk(r.bios)
    ensures AllOk(Updated(q, r, m, error).bios)
    ensures EndedBy(r.bios, m, error) + EndedBy(Updated(q, r, m, error).bios, n, error) == EndedBy(r.bios, m + n, error)
    ensures var two, one := Updated(q, Updated(q, r, m, error), n, error), Updated(q, r, m + n, error);
            && VecsOf(two.bios) == VecsOf(one.bios) && two.len == one.len
            && (one.bios != [] ==> two.n == one.n && (two.sector == one.sector <==> m % SECTOR + n % SECTOR < SECTOR))
            && AlikeButSector(Bares(two.bios), Bares(one.bios))
            && (Bares(two.bios) == Bares(one.bios) <==> SectorsAgree(r.bios, m, n))
  {
    EndedInTwoCalls(q, r, m, n, error);
    LeftInTwoCalls(q, r, m, n, error);
    var first := Updated(q, r, m, error);
    UpdatedVecs(q, r, m, error);
    UpdatedVecs(q, first, n, error);
    UpdatedVecs(q, r, m + n, error);
    DropTwice(VecsOf(r.bios), m, n);
    var one := Updated(q, r, m + n, error);
    if one.bios != [] {
      assert |Bares(one.bios)| == |one.bios|;
      UpdatedCount(q, r, m + n, error);
      UpdatedCount(q, first, n, error);
      UpdatedCount(q, r, m, error);
      CarrySectors(m, n);
    }
  }

  lemma LeftLength(bios: seq<Bio>, n: nat, error: int)
    requires AllOk(bios) && Remaining(bios, n, error) != []
    ensures var left := Remaining(bios, n, error);
            && n <= Size(VecsOf(bios)) && Size(VecsOf(left)) == Size(VecsOf(bios)) - n
            && HasData(left[0]) && left[0].vecs[left[0].idx].len <= Size(VecsOf(left))
  {
    var left := Remaining(bios, n, error);
    RemainingOk(bios, n, error);
    RemainingVecs(bios, n, error);
    DropSize(VecsOf(bios), n);
    assert BioOk(left[0]);
    VecsOfHead(left);
    SizeSplit(Live(left[0]), VecsOf(left[1..]));
    SizeHead(Live(left[0]));
  }

  ghost predicate Stands(w: Walk) {
    StandsAt(w.bios, w.nextIdx, w.nr, w.bioNbytes)
  }

  /** What the end of blk_update_request makes of a request that is not done. */
  ghost function Rest(r: Rq, w: Walk, error: int): Rq
    requires Stands(w) && w.total <= r.len
  {
    var left := Leaves(w, error);
    var current := left[0].vecs[left[0].idx].len;
    var len := r.len - w.total;
    r.(bios := left, len := if len < current then current else len, sector := r.sector + w.total / SECTOR)
  }

  lemma RestIs(r: Rq, n: nat, error: int, w: Walk)
    requires AllOk(r.bios) && Stands(w) && w.total == n <= r.len && Leaves(w, error) == Remaining(r.bios, n, error)
    requires r.len - n == Size(VecsOf(Leaves(w, error)))
    requires Leaves(w, error)[0].vecs[Leaves(w, error)[0].idx].len <= r.len - n
    ensures Rest(r, w, error) == Cut(r, n, error)
  {}

  /** That is the request without its first bytes: the length never has to be corrected. */
  lemma RestIsCut(r: Rq, n: nat, error: int, w: Walk)
    requires Chained(r.bios, r.len) && Halted(r.bios, n, error, w) && w.bios != []
    ensures Stands(w) && w.total <= r.len && Rest(r, w, error) == Cut(r, n, error)
  {
    HaltedLeaves(r.bios, n, error, w);
    LeftLength(r.bios, n, error);
    RestIs(r, n, error, w);
  }

  lemma RestHasData(r: Rq, n: nat, error: int, w: Walk)
    requires Halted(r.bios, n, error, w) && w.bios != []
    ensures AllOk(r.bios) && Remaining(r.bios, n, error) != [] && AllData(Cut(r, n, error).bios)
  {
    HaltedLeaves(r.bios, n, error, w);
    CutChained(r, n, error);
    AllOkData(Cut(r, n, error).bios);
  }

  /** What the loop leaves to do. */
  ghost predicate Completed(r: Rq, n: nat, error: int, w: Walk) {
    && AllOk(r.bios) && w.ended == EndedBy(r.bios, n, error) && (w.bios == [] <==> Remaining(r.bios, n, error) == [])
    && (w.bios != []
        ==> Stands(w) && w.total <= r.len && Rest(r, w, error) == Cut(r, n, error) && AllData(Cut(r, n, error).bios))
  }

  method Complete(r: Rq, n: nat, error: int) returns (w: Walk)
    requires Chained(r.bios, r.len)
    ensures Completed(r, n, error, w)
  {
    w := EndBios(r.bios, n, error);
    HaltedEnds(r.bios, n, error, w);
    if w.bios != [] {
      RestIsCut(r, n, error, w);
      RestHasData(r, n, error, w);
    }
  }

  // ----- Whole histories -----

  /** What can happen to a request until it is done.  A refused merge leaves its marks on the
      request merged into (Refused) and on the one that was to be merged (Spared). */
  datatype History =
    | Begin(bio: Bio, write: bool)
    | Back(before: History, bio: Bio)
    | Front(before: History, bio: Bio)
    | Merge(before: History, next: History)
    | Refused(before: History, next: History)
    | Spared(before: History, next: History)
    | Done(before: History, bytes: nat, error: int)

  ghost function Replay(q: Limits, h: History): Rq {
    match h
    case Begin(bio, write) => FirstRequest(q, bio, write)
    case Back(before, bio) => var r := Replay(q, before); if r.bios == [] then r else BackMerged(q, r, bio)
    case Front(before, bio) => var r := Replay(q, before); if r.bios == [] then r else FrontMerged(q, r, bio)
    case Merge(before, next) =>
      var a, b := Replay(q, before), Replay(q, next);
      if Joinable(a, b) && Merges(q, a, b)
      then Concatenated(FrontMarked(q, a, b), BackMarked(q, a, b), Total(q, a, b))
      else a
    case Refused(before, next) =>
      var a, b := Replay(q, before), Replay(q, next);
      if Joinable(a, b) then FrontMarked(q, a, b) else a
    case Spared(before, next) =>
      var a, b := Replay(q, before), Replay(q, next);
      if Joinable(a, b) then BackMarked(q, a, b) else b
    case Done(before, bytes, error) =>
      var r := Replay(q, before);
      if AllOk(r.bios) then Updated(q, r, bytes, error) else r
  }

  ghost predicate AllReady(q: Limits, h: History) {
    match h
    case Begin(bio, _) => BioReady(q, bio)
    case Back(before, bio) => AllReady(q, before) && BioReady(q, bio)
    case Front(before, bio) => AllReady(q, before) && BioReady(q, bio)
    case Merge(before, next) => AllReady(q, before) && AllReady(q, next)
    case Refused(before, next) => AllReady(q, before) && AllReady(q, next)
    case Spared(before, next) => AllReady(q, before) && AllReady(q, next)
    case Done(before, _, _) => AllReady(q, before)
  }

  ghost predicate DoneOrSound(q: Limits, r: Rq) {
    r.bios == [] || Sound(q, r)
  }

  lemma JoinedSound(q: Limits, a: Rq, b: Rq)
    requires DoneOrSound(q, a) && DoneOrSound(q, b) && Joinable(a, b)
    ensures DoneOrSound(q, Concatenated(FrontMarked(q, a, b), BackMarked(q, a, b), Total(q, a, b)))
    ensures DoneOrSound(q, FrontMarked(q, a, b)) && DoneOrSound(q, BackMarked(q, a, b))
  {
    MergeSound(q, a, b);
    MarksSound(q, a, b);
  }

  lemma DoneSound(q: Limits, r: Rq, n: nat, error: int)
    requires AllOk(r.bios)
    ensures DoneOrSound(q, Updated(q, r, n, error))
  {
    UpdatedSound(q, r, n, error);
  }

  /** Through every sequence of merges, refused merges and partial completions a request keeps
      a true account of its bytes and its segments. */
  lemma {:induction false} HistorySound(q: Limits, h: History)
    requires AllReady(q, h)
    ensures DoneOrSound(q, Replay(q, h))
  {
    match h
    case Begin(bio, write) => FirstRequestSound(q, bio, write);
    case Back(before, bio) =>
      HistorySound(q, before);
      if Replay(q, before).bios != [] {
        BackMergeSound(q, Replay(q, before), bio);
      }
    case Front(before, bio) =>
      HistorySound(q, before);
      if Replay(q, before).bios != [] {
        FrontMergeSound(q, Replay(q, before), bio);
      }
    case Merge(before, next) =>
      HistorySound(q, before);
      HistorySound(q, next);
      if Joinable(Replay(q, before), Replay(q, next)) {
        JoinedSound(q, Replay(q, before), Replay(q, next));
      }
    case Refused(before, next) =>
      HistorySound(q, before);
      HistorySound(q, next);
      if Joinable(Replay(q, before), Replay(q, next)) {
        JoinedSound(q, Replay(q, before), Replay(q, next));
      }
    case Spared(before, next) =>
      HistorySound(q, before);
      HistorySound(q, next);
      if Joinable(Replay(q, before), Replay(q, next)) {
        JoinedSound(q, Replay(q, before), Replay(q, next));
      }
    case Done(before, bytes, error) =>
      HistorySound(q, before);
      if AllOk(Replay(q, before).bios) {
        DoneSound(q, Replay(q, before), bytes, error);
      }
  }

  /** A sound request counts at least as many segments as its mapping makes of it. */
  lemma SoundCoversMapping(q: Limits, r: Rq)
    requires Sound(q, r)
    ensures AllData(r.bios) && |Greedy(q, VecsOf(r.bios))| <= r.n
    ensures Partition(q, Greedy(q, VecsOf(r.bios)), VecsOf(r.bios))
  {
    var part :| Accounts(q, r, part);
    AllOkData(r.bios);
    AccountCoversMapping(q, r.bios, part, r.n);
    GreedyIsPartition(q, VecsOf(r.bios));
  }

  /** Whatever happened to a request, its count is enough for the scatterlist that the mapping
      makes of it, and the entries flatten to its vectors. */
  lemma HistoryCoversMapping(q: Limits, h: History)
    requires AllReady(q, h) && Replay(q, h).bios != []
    ensures var r := Replay(q, h);
            var g := Greedy(q, VecsOf(r.bios));
            |g| <= r.n && Partition(q, g, VecsOf(r.bios)) && r.len == Size(VecsOf(r.bios))
  {
    HistorySound(q, h);
    SoundCoversMapping(q, Replay(q, h));
    var part :| Accounts(q, Replay(q, h), part);
  }

  class Request {
    var bios: seq<Bio>
    var nrPhysSegments: nat
    var dataLen: nat
    var sector: nat
    var write: bool
    var noMerge: bool
    var special: bool
    var ended: seq<Ended>  // the bios this request has ended, in order

    function Value(): Rq
      reads this
    {
      Rq(bios, nrPhysSegments, dataLen, sector, write, noMerge, special)
    }

    /** init_request_from_bio and blk_rq_bio_prep */
    constructor (q: Limits, bio: Bio, write: bool)
      ensures Value() == FirstRequest(q, bio, write) && ended == []
    {
      var b, n := bio, 0;
      if HasData(bio) {
        b := CountedBio(q, bio);
        n := b.physSegments;
      }
      bios, nrPhysSegments, dataLen, sector := [b], n, b.size, b.sector;
      this.write, noMerge, special, ended := write, false, false, [];
    }

    static method CountedBio(q: Limits, bio: Bio) returns (b: Bio)
      requires HasData(bio)
      ensures b == Ready(q, bio) && b.size == bio.size && b.sector == bio.sector
    {
      b := bio;
      if !bio.segValid {
        b := RecountSegments(q, bio);
      }
    }

    method RecountAt(q: Limits, k: nat)
      requires k < |bios| && HasData(bios[k])
      modifies this`bios
      ensures Value() == Refreshed(q, old(Value()), k)
    {
      var bio := CountedBio(q, bios[k]);
      bios := bios[k := bio];
    }

    /** ll_new_hw_segment, for a bio that is counted. */
    method NewHwSegment(q: Limits, bio: Bio) returns (ok: bool)
      modifies this`nrPhysSegments, this`noMerge
      ensures ok <==> old(nrPhysSegments) + bio.physSegments <= q.maxSegments
      ensures Value() == if ok then old(Value()).(n := old(nrPhysSegments) + bio.physSegments) else Closed(old(Value()))
    {
      if nrPhysSegments + bio.physSegments > q.maxSegments {
        noMerge := true;
        return false;
      }
      nrPhysSegments := nrPhysSegments + bio.physSegments;
      return true;
    }

    method Append(q: Limits, bio: Bio) returns (ok: bool)
      modifies this
      ensures ok <==> old(nrPhysSegments) + bio.physSegments <= q.maxSegments
      ensures Value() == (if ok then Appended(old(Value()), bio) else Closed(old(Value()))) && ended == old(ended)
    {
      ok := NewHwSegment(q, bio);
      if ok {
        bios := bios + [bio];
        dataLen := dataLen + bio.size;
      }
    }

    method Prepend(q: Limits, bio: Bio) returns (ok: bool)
      modifies this
      ensures ok <==> old(nrPhysSegments) + bio.physSegments <= q.maxSegments
      ensures Value() == (if ok then Prepended(old(Value()), bio) else Closed(old(Value()))) && ended == old(ended)
    {
      ok := NewHwSegment(q, bio);
      if ok {
        bios := [bio] + bios;
        sector := bio.sector;
        dataLen := dataLen + bio.size;
      }
    }

    /** ll_back_merge_fn and the back merge of __make_request */
    method BackMerge(q: Limits, bio: Bio) returns (ok: bool)
      requires bios != [] && HasData(Last(bios)) && HasData(bio)
      modifies this
      ensures ok <==> Takes(q, old(Value()), bio)
      ensures Value() == BackMerged(q, old(Value()), bio) && ended == old(ended)
      ensures AllOk(old(bios)) && BioOk(bio) ==> SameData(if ok then old(bios) + [bio] else old(bios), bios)
    {
      ghost var r := Value();
      if AllOk(r.bios) && BioOk(bio) {
        BackMergeChain(q, r, bio);
      }
      if dataLen / SECTOR + bio.size / SECTOR > q.maxSectors {
        noMerge := true;
        return false;
      }
      RecountAt(q, |bios| - 1);
      assert Value() == Refreshed(q, r, |r.bios| - 1);
      var b := CountedBio(q, bio);
      ok := Append(q, b);
      assert Value() == BackMerged(q, r, bio);
    }

    /** ll_front_merge_fn and the front merge of __make_request */
    method FrontMerge(q: Limits, bio: Bio) returns (ok: bool)
      requires bios != [] && HasData(bios[0]) && HasData(bio)
      modifies this
      ensures ok <==> Takes(q, old(Value()), bio)
      ensures Value() == FrontMerged(q, old(Value()), bio) && ended == old(ended)
      ensures AllOk(old(bios)) && BioOk(bio) ==> SameData(if ok then [bio] + old(bios) else old(bios), bios)
    {
      if AllOk(bios) && BioOk(bio) {
        FrontMergeChain(q, Value(), bio);
      }
      if dataLen / SECTOR + bio.size / SECTOR > q.maxSectors {
        noMerge := true;
        return false;
      }
      var b := CountedBio(q, bio);
      ghost var r := Value();
      RecountAt(q, 0);
      assert Value() == Refreshed(q, r, 0);
      ok := Prepend(q, b);
    }

    /** ll_merge_requests_fn */
    method MergeSegments(q: Limits, next: Request) returns (ok: bool)
      requires next != this && Joinable(Value(), next.Value())
      modifies this`bios, this`nrPhysSegments, next`bios
      ensures var a, b := old(Value()), old(next.Value());
              if a.special || b.special || TooLong(q, a, b.len) then !ok && Value() == a && next.Value() == b
              else
                && (ok <==> Total(q, a, b) <= q.maxSegments)
                && next.Value() == BackMarked(q, a, b)
                && Value() == FrontMarked(q, a, b).(n := if ok then Total(q, a, b) else a.n)
    {
      var segSize := Last(bios).segBack + next.bios[0].segFront;
      if special || next.special {
        return false;
      }
      if dataLen / SECTOR + next.dataLen / SECTOR > q.maxSectors {
        return false;
      }
      var total := nrPhysSegments + next.nrPhysSegments;
      if PhysContig(q, Last(bios), next.bios[0]) {
        if nrPhysSegments == 1 {
          bios := bios[0 := bios[0].(segFront := segSize)];
        }
        if next.nrPhysSegments == 1 {
          next.bios := next.bios[|next.bios| - 1 := Last(next.bios).(segBack := segSize)];
        }
        total := total - 1;
      }
      if total > q.maxSegments {
        return false;
      }
      nrPhysSegments := total;
      return true;
    }

    /** attempt_merge */
    method AttemptMerge(q: Limits, next: Request) returns (ok: bool)
      requires next != this && Joinable(Value(), next.Value())
      modifies this, next
      ensures var a, b := old(Value()), old(next.Value());
              && (ok <==> Merges(q, a, b))
              && (ok ==>
                    && Value() == Concatenated(FrontMarked(q, a, b), BackMarked(q, a, b), Total(q, a, b))
                    && next.bios == [])
              && (!ok && Mergeable(q, a, b) ==> Value() == FrontMarked(q, a, b) && next.Value() == BackMarked(q, a, b))
              && (!ok && !Mergeable(q, a, b) ==> Value() == a && next.Value() == b)
      ensures ended == old(ended) && next.ended == old(next.ended)
    {
      if noMerge || next.noMerge || sector + dataLen / SECTOR != next.sector || write != next.write || next.special {
        return false;
      }
      ok := MergeSegments(q, next);
      if ok {
        bios := bios + next.bios;
        dataLen := dataLen + next.dataLen;
        next.bios := [];
      }
    }

    /** blk_rq_map_sg: a scatterlist as long as the counted segments takes the request. */
    method MapSegments(q: Limits, sglist: array<Sg>) returns (nsegs: nat)
      requires Sound(q, Value()) && sglist.Length >= nrPhysSegments
      modifies sglist
      ensures nsegs == |Greedy(q, VecsOf(bios))| <= nrPhysSegments && Mapped(sglist[..], Greedy(q, VecsOf(bios)))
    {
      SoundCoversMapping(q, Value());
      nsegs := MapSg(q, bios, sglist);
    }

    /** blk_recalc_rq_segments */
    method Recalc(q: Limits)
      requires AllData(bios)
      modifies this`bios, this`nrPhysSegments
      ensures old(bios) != [] ==> bios != [] && Value() == Recalculated(q, old(Value()))
    {
      nrPhysSegments, bios := RecalcSegments(q, bios);
    }

    /** The end of blk_update_request for a request that is not done. */
    method KeepRest(w: Walk, error: int)
      requires Stands(w) && w.total <= dataLen
      modifies this`bios, this`dataLen, this`sector
      ensures Value() == Rest(old(Value()), w, error)
    {
      bios := Leaves(w, error);
      dataLen := dataLen - w.total;
      sector := sector + w.total / SECTOR;
      var current := bios[0].vecs[bios[0].idx].len;
      if dataLen < current {
        dataLen := current;
      }
    }

    /** blk_update_request: the bios that the first `n` bytes cover are ended, in order, and the
        request is left with the rest. */
    method Update(q: Limits, n: nat, error: int) returns (more: bool)
      requires Chained(bios, dataLen)
      modifies this
      ensures Value() == if old(bios) == [] then old(Value()) else Updated(q, old(Value()), n, error)
      ensures ended == old(ended) + EndedBy(old(bios), n, error)
      ensures more <==> bios != []
    {
      if bios == [] {
        return false;
      }
      var w := Complete(Value(), n, error);
      ended := ended + w.ended;
      if w.bios == [] {
        bios := [];
        dataLen := 0;
        return false;
      }
      KeepRest(w, error);
      Recalc(q);
      return true;
    }
  }
}
