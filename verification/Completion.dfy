/** Partial completion of block requests, on values: which bytes are left of a chain of bios
    after its first bytes are done, and which bios have ended. */
module Completion {
  import opened Segments
  import opened Requests

  const EIO: int := -5

  // ----- Byte streams -----

  /** The bytes of a vector: where each one lies. */
  function VecBytes(v: Vec): seq<(nat, nat)> {
    seq(v.len, i requires 0 <= i => (v.page, v.offset + i))
  }

  function Stream(vecs: seq<Vec>): seq<(nat, nat)> {
    if vecs == [] then [] else VecBytes(vecs[0]) + Stream(vecs[1..])
  }

  lemma SizeHead(vecs: seq<Vec>)
    requires vecs != []
    ensures Size(vecs) == vecs[0].len + Size(vecs[1..])
  {
    SizeOne(vecs[0]);
    SizeSplit([vecs[0]], vecs[1..]);
    assert vecs == [vecs[0]] + vecs[1..];
  }

  lemma {:induction false} StreamLength(vecs: seq<Vec>)
    ensures |Stream(vecs)| == Size(vecs)
  {
    if vecs != [] {
      SizeHead(vecs);
      StreamLength(vecs[1..]);
    }
  }

  function Trim(v: Vec, n: nat): Vec
    requires n <= v.len
  {
    Vec(v.page, v.offset + n, v.len - n)
  }

  lemma TrimBytes(v: Vec, n: nat)
    requires n <= v.len
    ensures VecBytes(Trim(v, n)) == VecBytes(v)[n..]
  {
  }

  /** What is left of a list of vectors after its first `n` bytes. */
  function Drop(vecs: seq<Vec>, n: nat): seq<Vec> {
    if vecs == [] then []
    else if n < vecs[0].len then [Trim(vecs[0], n)] + vecs[1..]
    else Drop(vecs[1..], n - vecs[0].len)
  }

  /** Dropping bytes of the list drops bytes of the stream. */
  lemma {:induction false} DropStream(vecs: seq<Vec>, n: nat)
    ensures Stream(Drop(vecs, n)) == if n <= |Stream(vecs)| then Stream(vecs)[n..] else []
  {
    if vecs != [] {
      var v := vecs[0];
      if n < v.len {
        TrimBytes(v, n);
        assert ([Trim(v, n)] + vecs[1..])[1..] == vecs[1..];
        assert (VecBytes(v) + Stream(vecs[1..]))[n..] == VecBytes(v)[n..] + Stream(vecs[1..]);
      } else {
        DropStream(vecs[1..], n - v.len);
        assert n <= |Stream(vecs)| ==> (VecBytes(v) + Stream(vecs[1..]))[n..] == Stream(vecs[1..])[n - v.len..];
      }
    }
  }

  /** Dropping twice is dropping the sum. */
  lemma {:induction false} DropTwice(vecs: seq<Vec>, m: nat, n: nat)
    ensures Drop(Drop(vecs, m), n) == Drop(vecs, m + n)
  {
    if vecs != [] {
      var v := vecs[0];
      if m < v.len {
        assert ([Trim(v, m)] + vecs[1..])[1..] == vecs[1..];
      } else {
        DropTwice(vecs[1..], m - v.len, n);
      }
    }
  }

  lemma {:induction false} DropSize(vecs: seq<Vec>, n: nat)
    ensures Size(Drop(vecs, n)) == if n <= Size(vecs) then Size(vecs) - n else 0
  {
    if vecs != [] {
      SizeHead(vecs);
      if n < vecs[0].len {
        SizeHead(Drop(vecs, n));
        assert Drop(vecs, n)[1..] == vecs[1..];
      } else {
        DropSize(vecs[1..], n - vecs[0].len);
      }
    }
  }

  lemma {:induction false} DropConcat(a: seq<Vec>, b: seq<Vec>, n: nat)
    ensures n < Size(a) ==> Drop(a + b, n) == Drop(a, n) + b
    ensures n >= Size(a) ==> Drop(a + b, n) == Drop(b, n - Size(a))
  {
    if a == [] {
      assert a + b == b;
    } else {
      SizeHead(a);
      assert (a + b)[1..] == a[1..] + b;
      if n >= a[0].len {
        DropConcat(a[1..], b, n - a[0].len);
      } else {
        ConcatAssoc([Trim(a[0], n)], a[1..], b);
      }
    }
  }

  // ----- One bio -----

  lemma LiveNext(bio: Bio)
    requires HasData(bio)
    ensures Live(bio) == [bio.vecs[bio.idx]] + Live(bio.(idx := bio.idx + 1))
    ensures Size(Live(bio)) == bio.vecs[bio.idx].len + Size(Live(bio.(idx := bio.idx + 1)))
  {
    SizeHead(Live(bio));
    assert Live(bio)[1..] == Live(bio.(idx := bio.idx + 1));
  }

  /** A bio with its first `n` bytes passed over: whole vectors by the index, the rest by
      trimming the vector at the index. */
  function Passed(bio: Bio, n: nat): (p: Bio)
    requires HasData(bio) && n < Size(Live(bio))
    ensures p == bio.(idx := p.idx, vecs := p.vecs)
    decreases |bio.vecs| - bio.idx
  {
    var v := bio.vecs[bio.idx];
    if n < v.len then bio.(vecs := bio.vecs[bio.idx := Trim(v, n)])
    else
      LiveNext(bio);
      Passed(bio.(idx := bio.idx + 1), n - v.len)
  }

  lemma TrimmedLive(bio: Bio, n: nat)
    requires HasData(bio) && n < bio.vecs[bio.idx].len
    ensures var v := bio.vecs[bio.idx];
            Live(bio.(vecs := bio.vecs[bio.idx := Trim(v, n)])) == [Trim(v, n)] + Live(bio.(idx := bio.idx + 1))
  {
  }

  lemma {:induction false} PassedDrops(bio: Bio, n: nat)
    requires HasData(bio) && n < Size(Live(bio))
    ensures HasData(Passed(bio, n)) && Live(Passed(bio, n)) == Drop(Live(bio), n)
    decreases |bio.vecs| - bio.idx
  {
    var v := bio.vecs[bio.idx];
    var next := bio.(idx := bio.idx + 1);
    assert Drop(Live(bio), n) == if n < v.len then [Trim(v, n)] + Live(next) else Drop(Live(next), n - v.len) by {
      assert Live(bio)[0] == v && Live(bio)[1..] == Live(next);
    }
    if n >= v.len {
      LiveNext(bio);
      PassedDrops(next, n - v.len);
    } else {
      TrimmedLive(bio, n);
    }
  }

  lemma SizePrefix(vecs: seq<Vec>, k: nat)
    requires 0 < k <= |vecs|
    ensures Size(vecs[..k]) == vecs[0].len + Size(vecs[1..][..k - 1])
  {
    SizeHead(vecs[..k]);
    assert vecs[..k][1..] == vecs[1..][..k - 1];
  }

  /** A bio moved on by `k` whole vectors and `r` bytes of the next one. */
  function MovedTo(bio: Bio, k: nat, r: nat): Bio
    requires bio.idx + k < |bio.vecs| && r <= bio.vecs[bio.idx + k].len
  {
    bio.(idx := bio.idx + k, vecs := bio.vecs[bio.idx + k := Trim(bio.vecs[bio.idx + k], r)])
  }

  lemma PrefixNext(bio: Bio, k: nat)
    requires HasData(bio) && 0 < k <= |Live(bio)|
    ensures Size(Live(bio)[..k]) == bio.vecs[bio.idx].len + Size(Live(bio.(idx := bio.idx + 1))[..k - 1])
  {
    SizePrefix(Live(bio), k);
    assert Live(bio)[1..] == Live(bio.(idx := bio.idx + 1));
  }

  lemma MovedNext(bio: Bio, k: nat, r: nat)
    requires k > 0 && bio.idx + k < |bio.vecs| && r <= bio.vecs[bio.idx + k].len
    ensures MovedTo(bio.(idx := bio.idx + 1), k - 1, r) == MovedTo(bio, k, r)
  {}

  lemma {:induction false} PassedAt(bio: Bio, k: nat, r: nat, n: nat)
    requires HasData(bio) && bio.idx + k < |bio.vecs| && r < bio.vecs[bio.idx + k].len
    requires n == Size(Live(bio)[..k]) + r
    ensures n < Size(Live(bio)) && Passed(bio, n) == MovedTo(bio, k, r)
    decreases k
  {
    if k == 0 {
      assert Live(bio)[..0] == [];
      PassedHere(bio, r);
    } else {
      PrefixNext(bio, k);
      MovedNext(bio, k, r);
      var rest := n - bio.vecs[bio.idx].len;
      PassedAt(bio.(idx := bio.idx + 1), k - 1, r, rest);
      PassedStep(bio, rest);
    }
  }

  lemma PassedHere(bio: Bio, r: nat)
    requires HasData(bio) && r < bio.vecs[bio.idx].len
    ensures r < Size(Live(bio)) && Passed(bio, r) == MovedTo(bio, 0, r)
  {
    SizeHead(Live(bio));
  }

  lemma PassedStep(bio: Bio, n: nat)
    requires HasData(bio) && HasData(bio.(idx := bio.idx + 1)) && n < Size(Live(bio.(idx := bio.idx + 1)))
    ensures bio.vecs[bio.idx].len + n < Size(Live(bio))
    ensures Passed(bio, bio.vecs[bio.idx].len + n) == Passed(bio.(idx := bio.idx + 1), n)
  {
    SizeHead(Live(bio));
    assert Live(bio)[1..] == Live(bio.(idx := bio.idx + 1));
  }

  /** req_bio_endio on part of a bio, and the advance of its index and vector. */
  function Advance(bio: Bio, n: nat, error: int): Bio
    requires BioOk(bio) && n < bio.size
  {
    Passed(bio, n).(size := bio.size - n, sector := bio.sector + n / SECTOR, uptodate := bio.uptodate && error == 0)
  }

  datatype Ended = Ended(id: nat, error: int)

  /** The error bio_endio is called with. */
  function EndError(bio: Bio, error: int): int {
    if error != 0 then error else if !bio.uptodate then EIO else 0
  }

  // ----- A chain of bios -----

  /** What is left of a chain after its first `n` bytes. */
  ghost function Remaining(bios: seq<Bio>, n: nat, error: int): seq<Bio>
    requires AllOk(bios)
  {
    if bios == [] then []
    else if n >= bios[0].size then Remaining(bios[1..], n - bios[0].size, error)
    else if n == 0 then bios
    else HeadAdvanced(bios, n, error)
  }

  ghost function HeadAdvanced(bios: seq<Bio>, n: nat, error: int): seq<Bio>
    requires bios != [] && BioOk(bios[0]) && n < bios[0].size
  {
    [Advance(bios[0], n, error)] + bios[1..]
  }

  /** The bios that end with the first `n` bytes, in order. */
  ghost function EndedBy(bios: seq<Bio>, n: nat, error: int): seq<Ended>
  {
    if bios == [] || n < bios[0].size then []
    else [Ended(bios[0].id, EndError(bios[0], error))] + EndedBy(bios[1..], n - bios[0].size, error)
  }

  lemma VecsOfHead(bios: seq<Bio>)
    requires bios != []
    ensures VecsOf(bios) == Live(bios[0]) + VecsOf(bios[1..])
  {
    VecsOfSnoc(bios[1..], bios[0]);
    assert [bios[0]] + bios[1..] == bios;
  }

  lemma DropNone(bio: Bio)
    requires BioOk(bio)
    ensures Drop(Live(bio), 0) == Live(bio)
  {
    var l := Live(bio);
    assert l[0] == bio.vecs[bio.idx] && Trim(l[0], 0) == l[0];
    assert [l[0]] + l[1..] == l;
  }

  /** The vectors left are the old vectors without their first `n` bytes. */
  lemma {:induction false} RemainingVecs(bios: seq<Bio>, n: nat, error: int)
    requires AllOk(bios)
    ensures VecsOf(Remaining(bios, n, error)) == Drop(VecsOf(bios), n)
  {
    if bios != [] {
      var b := bios[0];
      VecsOfHead(bios);
      DropConcat(Live(b), VecsOf(bios[1..]), n);
      if n >= b.size {
        RemainingVecs(bios[1..], n - b.size, error);
      } else if n == 0 {
        DropNone(b);
      } else {
        PassedDrops(b, n);
        var r := Remaining(bios, n, error);
        VecsOfHead(r);
        assert r[1..] == bios[1..];
      }
    }
  }

  lemma {:induction false} DropPositive(vecs: seq<Vec>, n: nat)
    requires Positive(vecs)
    ensures Positive(Drop(vecs, n))
  {
    if vecs != [] {
      if n >= vecs[0].len {
        DropPositive(vecs[1..], n - vecs[0].len);
      } else {
        assert Drop(vecs, n)[1..] == vecs[1..];
      }
    }
  }

  lemma AdvanceOk(bio: Bio, n: nat, error: int)
    requires BioOk(bio) && n < bio.size
    ensures BioOk(Advance(bio, n, error))
  {
    PassedDrops(bio, n);
    DropSize(Live(bio), n);
    DropPositive(Live(bio), n);
  }

  lemma AdvancedHeadOk(bios: seq<Bio>, n: nat, error: int)
    requires bios != [] && AllOk(bios) && n < bios[0].size
    ensures AllOk(HeadAdvanced(bios, n, error))
  {
    AdvanceOk(bios[0], n, error);
    var r := HeadAdvanced(bios, n, error);
    assert r[1..] == bios[1..];
  }

  lemma {:induction false} RemainingOk(bios: seq<Bio>, n: nat, error: int)
    requires AllOk(bios)
    ensures AllOk(Remaining(bios, n, error))
  {
    if bios != [] {
      if n >= bios[0].size {
        RemainingOk(bios[1..], n - bios[0].size, error);
      } else if n > 0 {
        AdvancedHeadOk(bios, n, error);
      }
    }
  }

  /** The bios that end are the first ones of the chain, each with its own error. */
  lemma {:induction false} EndedAt(bios: seq<Bio>, n: nat, error: int, k: nat)
    requires k < |EndedBy(bios, n, error)|
    ensures k < |bios| && EndedBy(bios, n, error)[k] == Ended(bios[k].id, EndError(bios[k], error))
  {
    if k > 0 {
      EndedAt(bios[1..], n - bios[0].size, error, k - 1);
    }
  }

  /** Every bio has either ended or is left. */
  lemma {:induction false} EndedOrLeft(bios: seq<Bio>, n: nat, error: int)
    requires AllOk(bios)
    ensures |EndedBy(bios, n, error)| + |Remaining(bios, n, error)| == |bios|
  {
    if bios != [] && n >= bios[0].size {
      EndedOrLeft(bios[1..], n - bios[0].size, error);
    }
  }

  /** The bios left are the last ones of the chain, in the old order. */
  lemma {:induction false} LeftAt(bios: seq<Bio>, n: nat, error: int, k: nat)
    requires AllOk(bios) && k < |Remaining(bios, n, error)|
    ensures |EndedBy(bios, n, error)| + k < |bios|
    ensures Remaining(bios, n, error)[k].id == bios[|EndedBy(bios, n, error)| + k].id
  {
    EndedOrLeft(bios, n, error);
    if n >= bios[0].size {
      LeftAt(bios[1..], n - bios[0].size, error, k);
    }
  }

  lemma EndedNext(bios: seq<Bio>, n: nat, error: int, k: nat)
    requires bios != [] && n >= bios[0].size
    ensures |EndedBy(bios, n, error)| == 1 + |EndedBy(bios[1..], n - bios[0].size, error)|
  {}

  lemma PrefixSize(bios: seq<Bio>, k: nat)
    requires k < |bios| && BioOk(bios[0])
    ensures Size(VecsOf(bios[..k + 1])) == bios[0].size + Size(VecsOf(bios[1..][..k]))
  {
    VecsOfHead(bios[..k + 1]);
    assert bios[..k + 1][1..] == bios[1..][..k];
    SizeSplit(Live(bios[0]), VecsOf(bios[1..][..k]));
  }

  /** A bio ends exactly when its last byte completes. */
  lemma {:induction false} EndsWithLastByte(bios: seq<Bio>, n: nat, error: int, k: nat)
    requires AllOk(bios) && k < |bios|
    ensures k < |EndedBy(bios, n, error)| <==> Size(VecsOf(bios[..k + 1])) <= n
  {
    PrefixSize(bios, k);
    if n >= bios[0].size {
      EndedNext(bios, n, error, k);
      if k == 0 {
        assert VecsOf(bios[1..][..0]) == [];
      } else {
        EndsWithLastByte(bios[1..], n - bios[0].size, error, k - 1);
      }
    }
  }

  // ----- Completing in two steps -----

  /** A bio as far as its remaining bytes are concerned. */
  function View(bio: Bio): Bio {
    bio.(vecs := Live(bio), idx := 0)
  }

  function Views(bios: seq<Bio>): seq<Bio> {
    seq(|bios|, k requires 0 <= k < |bios| => View(bios[k]))
  }

  /** The sector of the bio that is cut comes out the same in two steps as in one: the two
      steps cut different bios, or their odd bytes do not make up another sector. */
  ghost predicate SectorsAgree(bios: seq<Bio>, m: nat, n: nat) {
    if bios == [] then true
    else if m >= bios[0].size then SectorsAgree(bios[1..], m - bios[0].size, n)
    else m + n >= bios[0].size || m % SECTOR + n % SECTOR < SECTOR
  }

  lemma {:induction false} EndedTwice(bios: seq<Bio>, m: nat, n: nat, error: int)
    requires AllOk(bios)
    ensures AllOk(Remaining(bios, m, error))
    ensures EndedBy(bios, m, error) + EndedBy(Remaining(bios, m, error), n, error) == EndedBy(bios, m + n, error)
  {
    RemainingOk(bios, m, error);
    if bios != [] {
      var b := bios[0];
      if m >= b.size {
        EndedTwice(bios[1..], m - b.size, n, error);
        ConcatAssoc([Ended(b.id, EndError(b, error))], EndedBy(bios[1..], m - b.size, error),
                    EndedBy(Remaining(bios, m, error), n, error));
      } else if m > 0 {
        assert Remaining(bios, m, error)[1..] == bios[1..];
      }
    }
  }

  /** What advancing a bio does to what is left of it. */
  lemma AdvanceIs(bio: Bio, n: nat, error: int)
    requires BioOk(bio) && n < bio.size
    ensures var a := Advance(bio, n, error);
            && Live(a) == Drop(Live(bio), n)
            && a == bio.(vecs := a.vecs, idx := a.idx, size := bio.size - n, sector := bio.sector + n / SECTOR,
                         uptodate := bio.uptodate && error == 0)
  {
    PassedDrops(bio, n);
  }

  lemma AdvanceTwice(bio: Bio, m: nat, n: nat, error: int)
    requires BioOk(bio) && m + n < bio.size
    ensures BioOk(Advance(bio, m, error)) && n < Advance(bio, m, error).size
    ensures var two, one := View(Advance(Advance(bio, m, error), n, error)), View(Advance(bio, m + n, error));
            && two == one.(sector := two.sector)
            && (two == one <==> m % SECTOR + n % SECTOR < SECTOR)
  {
    AdvanceOk(bio, m, error);
    AdvanceIs(bio, m, error);
    AdvanceIs(Advance(bio, m, error), n, error);
    AdvanceIs(bio, m + n, error);
    DropTwice(Live(bio), m, n);
    CarrySectors(m, n);
  }

  /** Whole sectors add up unless the odd bytes make up another one. */
  lemma CarrySectors(m: nat, n: nat)
    ensures m / SECTOR + n / SECTOR == (m + n) / SECTOR <==> m % SECTOR + n % SECTOR < SECTOR
  {
  }

  lemma BioNotEmpty(bio: Bio)
    requires BioOk(bio)
    ensures bio.size > 0
  {
    SizeHead(Live(bio));
  }

  /** The same bios, but for the sector of the first one. */
  ghost predicate AlikeButSector(a: seq<Bio>, b: seq<Bio>) {
    |a| == |b| && (a != [] ==> a[1..] == b[1..] && a[0] == b[0].(sector := a[0].sector))
  }

  lemma ViewsHead(x: Bio, y: Bio, rest: seq<Bio>)
    requires View(x) == View(y).(sector := x.sector)
    ensures AlikeButSector(Views([x] + rest), Views([y] + rest))
    ensures Views([x] + rest) == Views([y] + rest) <==> View(x) == View(y)
  {
    var a, b := Views([x] + rest), Views([y] + rest);
    assert a[0] == View(x) && b[0] == View(y);
    assert a[1..] == b[1..];
    assert View(x) == View(y) ==> a == b;
  }

  lemma CutTwiceInside(bios: seq<Bio>, m: nat, n: nat, error: int)
    requires AllOk(bios) && bios != [] && 0 < m && 0 < n && m + n < bios[0].size
    ensures AllOk(HeadAdvanced(bios, m, error))
    ensures var two := Views(Remaining(HeadAdvanced(bios, m, error), n, error));
            var one := Views(Remaining(bios, m + n, error));
            AlikeButSector(two, one) && (two == one <==> m % SECTOR + n % SECTOR < SECTOR)
  {
    var b := bios[0];
    AdvancedHeadOk(bios, m, error);
    AdvanceTwice(b, m, n, error);
    var r := HeadAdvanced(bios, m, error);
    assert r[1..] == bios[1..];
    ViewsHead(Advance(r[0], n, error), Advance(b, m + n, error), bios[1..]);
  }

  lemma CutTwiceAcross(bios: seq<Bio>, m: nat, n: nat, error: int)
    requires AllOk(bios) && bios != [] && m < bios[0].size && (n == 0 || m + n >= bios[0].size)
    ensures AllOk(HeadAdvanced(bios, m, error))
    ensures m > 0 ==> Remaining(HeadAdvanced(bios, m, error), n, error) == Remaining(bios, m + n, error)
  {
    AdvancedHeadOk(bios, m, error);
    var r := HeadAdvanced(bios, m, error);
    assert r[1..] == bios[1..] && r[0].size == bios[0].size - m;
  }

  /** What two steps leave, against what one step leaves. */
  ghost predicate TwiceIsOnce(bios: seq<Bio>, m: nat, n: nat, error: int, agree: bool)
    requires AllOk(bios) && AllOk(Remaining(bios, m, error))
  {
    var two, one := Views(Remaining(Remaining(bios, m, error), n, error)), Views(Remaining(bios, m + n, error));
    AlikeButSector(two, one) && (two == one <==> agree)
  }

  lemma CutTwice(bios: seq<Bio>, m: nat, n: nat, error: int)
    requires AllOk(bios) && bios != [] && m < bios[0].size && AllOk(Remaining(bios, m, error))
    ensures TwiceIsOnce(bios, m, n, error, m + n >= bios[0].size || m % SECTOR + n % SECTOR < SECTOR)
  {
    if m > 0 {
      if 0 < n && m + n < bios[0].size {
        CutTwiceInside(bios, m, n, error);
      } else {
        CutTwiceAcross(bios, m, n, error);
      }
    }
  }

  /** Completing m bytes and then n leaves what completing m + n leaves, but for the sector of
      the bio that is cut, and exactly that in the cases of SectorsAgree. */
  lemma {:induction false} RemainingTwice(bios: seq<Bio>, m: nat, n: nat, error: int)
    requires AllOk(bios)
    ensures AllOk(Remaining(bios, m, error))
    ensures TwiceIsOnce(bios, m, n, error, SectorsAgree(bios, m, n))
  {
    RemainingOk(bios, m, error);
    if bios != [] {
      if m >= bios[0].size {
        RemainingTwice(bios[1..], m - bios[0].size, n, error);
      } else {
        CutTwice(bios, m, n, error);
      }
    }
  }

  // ----- What counting the segments does not touch -----

  lemma {:induction false} PassedSame(a: Bio, b: Bio, n: nat)
    requires HasData(a) && n < Size(Live(a)) && SameData([a], [b])
    ensures HasData(b) && n < Size(Live(b)) && SameData([Passed(a, n)], [Passed(b, n)])
    decreases |a.vecs| - a.idx
  {
    assert [a][0] == a && [b][0] == b;
    if n >= a.vecs[a.idx].len {
      SizeHead(Live(a));
      LiveNext(a);
      LiveNext(b);
      var a', b' := a.(idx := a.idx + 1), b.(idx := b.idx + 1);
      assert [a'][0] == a' && [b'][0] == b';
      PassedSame(a', b', n - a.vecs[a.idx].len);
    }
  }

  lemma {:induction false} RemainingSame(a: seq<Bio>, b: seq<Bio>, n: nat, error: int)
    requires AllOk(a) && AllOk(b) && SameData(a, b)
    ensures SameData(Remaining(a, n, error), Remaining(b, n, error))
  {
    if a != [] {
      assert SameData(a[1..], b[1..]);
      if n >= a[0].size {
        RemainingSame(a[1..], b[1..], n - a[0].size, error);
      } else if n > 0 {
        HeadSame(a, b, n, error);
      }
    }
  }

  lemma HeadSame(a: seq<Bio>, b: seq<Bio>, n: nat, error: int)
    requires AllOk(a) && AllOk(b) && SameData(a, b) && a != [] && n < a[0].size
    ensures n < b[0].size && SameData(HeadAdvanced(a, n, error), HeadAdvanced(b, n, error))
  {
    assert [a[0]][0] == a[0] && [b[0]][0] == b[0];
    PassedSame(a[0], b[0], n);
    var x, y := Passed(a[0], n), Passed(b[0], n);
    assert [x][0] == x && [y][0] == y;
  }

  lemma {:induction false} EndedSame(a: seq<Bio>, b: seq<Bio>, n: nat, error: int)
    requires SameData(a, b)
    ensures EndedBy(a, n, error) == EndedBy(b, n, error)
  {
    if a != [] && n >= a[0].size {
      assert SameData(a[1..], b[1..]);
      EndedSame(a[1..], b[1..], n - a[0].size, error);
    }
  }

  /** A bio without what was counted for it. */
  function Bare(bio: Bio): Bio {
    View(bio).(segFront := 0, segBack := 0, physSegments := 0, segValid := false)
  }

  function Bares(bios: seq<Bio>): seq<Bio> {
    seq(|bios|, k requires 0 <= k < |bios| => Bare(bios[k]))
  }

  lemma SameDataBares(a: seq<Bio>, b: seq<Bio>)
    requires SameData(a, b)
    ensures Bares(a) == Bares(b)
  {
  }

  lemma ViewsBares(a: seq<Bio>, b: seq<Bio>)
    requires AlikeButSector(Views(a), Views(b))
    ensures AlikeButSector(Bares(a), Bares(b)) && (Bares(a) == Bares(b) <==> Views(a) == Views(b))
  {
    if a != [] {
      assert Views(a)[0] == View(a[0]) && Views(b)[0] == View(b[0]);
      assert Bares(a)[0] == Bare(a[0]) && Bares(b)[0] == Bare(b[0]);
      forall k | 0 < k < |a| ensures View(a[k]) == View(b[k]) {
        assert Views(a)[1..][k - 1] == Views(a)[k] && Views(b)[1..][k - 1] == Views(b)[k];
      }
    }
  }

  // ----- The loop of blk_update_request -----

  /** The loop stands `k` whole vectors into the first bio, which make up `done` bytes. */
  ghost predicate Inside(bios: seq<Bio>, k: nat, done: nat) {
    if k == 0 then done == 0
    else bios != [] && bios[0].idx + k < |bios[0].vecs| && done == Size(Live(bios[0])[..k])
  }

  lemma SizeUpTo(vecs: seq<Vec>, k: nat)
    requires k < |vecs|
    ensures Size(vecs[..k + 1]) == Size(vecs[..k]) + vecs[k].len
  {
    assert vecs[..k + 1] == vecs[..k] + [vecs[k]];
    SizeSplit(vecs[..k], [vecs[k]]);
    SizeOne(vecs[k]);
  }

  lemma SizeAt(vecs: seq<Vec>, k: nat)
    requires k <= |vecs|
    ensures Size(vecs) == Size(vecs[..k]) + Size(vecs[k..])
  {
    assert vecs == vecs[..k] + vecs[k..];
    SizeSplit(vecs[..k], vecs[k..]);
  }

  /** The next vector of the first bio lies within the bio, and passing it stays inside. */
  lemma InsideStep(bios: seq<Bio>, k: nat, done: nat, nr: nat)
    requires bios != [] && BioOk(bios[0]) && Inside(bios, k, done) && nr + done < bios[0].size
    ensures bios[0].idx + k < |bios[0].vecs|
    ensures var len := bios[0].vecs[bios[0].idx + k].len;
            len <= bios[0].size && (len <= nr ==> Inside(bios, k + 1, done + len))
  {
    var l := Live(bios[0]);
    SizeAt(l, k);
    SizeAt(l, k + 1);
    SizeUpTo(l, k);
    assert l[..0] == [];
    assert k + 1 == |l| ==> l[k + 1..] == [];
  }

  lemma PositiveAt(vecs: seq<Vec>, k: nat)
    requires Positive(vecs) && k < |vecs|
    ensures vecs[k].len > 0
  {
    if k > 0 {
      PositiveAt(vecs[1..], k - 1);
    }
  }

  /** With `x` bytes to go for the chain `bios`, the whole comes out as for the chain the loop
      started with. */
  ghost predicate Halfway(bios0: seq<Bio>, n: nat, error: int, bios: seq<Bio>, ended: seq<Ended>, x: nat) {
    && AllOk(bios0) && AllOk(bios)
    && Remaining(bios0, n, error) == Remaining(bios, x, error)
    && EndedBy(bios0, n, error) == ended + EndedBy(bios, x, error)
  }

  lemma HalfwayStart(bios: seq<Bio>, n: nat, error: int)
    requires AllOk(bios)
    ensures Halfway(bios, n, error, bios, [], n)
  {
    assert [] + EndedBy(bios, n, error) == EndedBy(bios, n, error);
  }

  lemma HalfwayNext(bios0: seq<Bio>, n: nat, error: int, bios: seq<Bio>, ended: seq<Ended>, x: nat)
    requires Halfway(bios0, n, error, bios, ended, x) && bios != [] && x >= bios[0].size
    ensures Halfway(bios0, n, error, bios[1..], ended + [Ended(bios[0].id, EndError(bios[0], error))], x - bios[0].size)
  {
    ConcatAssoc(ended, [Ended(bios[0].id, EndError(bios[0], error))], EndedBy(bios[1..], x - bios[0].size, error));
  }

  lemma HalfwayEnd(bios0: seq<Bio>, n: nat, error: int, bios: seq<Bio>, ended: seq<Ended>, x: nat)
    requires Halfway(bios0, n, error, bios, ended, x) && (bios == [] || x < bios[0].size)
    ensures ended == EndedBy(bios0, n, error)
    ensures Remaining(bios0, n, error) == if bios == [] || x == 0 then bios
            else [Advance(bios[0], x, error)] + bios[1..]
  {
    assert ended + [] == ended;
  }

  /** `nr` bytes of the next vector of the first bio are done as well. */
  ghost predicate StandsAt(bios: seq<Bio>, k: nat, nr: nat, done: nat) {
    && bios != [] && BioOk(bios[0]) && bios[0].idx + k < |bios[0].vecs| && nr < bios[0].vecs[bios[0].idx + k].len
    && done == Size(Live(bios[0])[..k]) + nr && done < bios[0].size
  }

  lemma InsideStands(bios: seq<Bio>, k: nat, done: nat, nr: nat)
    requires bios != [] && BioOk(bios[0]) && Inside(bios, k, done) && nr + done < bios[0].size
    ensures bios[0].idx + k < |bios[0].vecs|
    ensures nr < bios[0].vecs[bios[0].idx + k].len ==> StandsAt(bios, k, nr, done + nr)
    ensures nr == 0 ==> StandsAt(bios, k, 0, done)
  {
    InsideStep(bios, k, done, nr);
    var l := Live(bios[0]);
    assert l[..0] == [];
    PositiveAt(l, k);
  }

  /** The state of the loop: the rest of the chain, the bios ended, the bytes done in all, the
      bytes to go, and the vectors and bytes done in the first bio. */
  datatype Walk = Walk(bios: seq<Bio>, ended: seq<Ended>, total: nat, nr: nat, nextIdx: nat, bioNbytes: nat)

  /** The bytes to go from the start of the first bio. */
  function ToGo(w: Walk): nat {
    w.nr + w.bioNbytes
  }

  ghost predicate Placed(w: Walk, n: nat) {
    && Inside(w.bios, w.nextIdx, w.bioNbytes) && w.total + w.nr == n
    && (w.nextIdx > 0 ==> ToGo(w) < w.bios[0].size)
  }

  ghost predicate Walking(bios0: seq<Bio>, n: nat, error: int, w: Walk) {
    Halfway(bios0, n, error, w.bios, w.ended, ToGo(w)) && Placed(w, n)
  }

  /** Ends the first bio. */
  function NextBio(w: Walk, error: int): Walk
    requires w.bios != [] && w.nr >= w.bios[0].size
  {
    var bio := w.bios[0];
    Walk(w.bios[1..], w.ended + [Ended(bio.id, EndError(bio, error))], w.total + bio.size, w.nr - bio.size, 0, 0)
  }

  /** Passes the next vector of the first bio. */
  function NextVec(w: Walk, nbytes: nat): Walk
    requires nbytes <= w.nr
  {
    w.(nextIdx := w.nextIdx + 1, bioNbytes := w.bioNbytes + nbytes, total := w.total + nbytes, nr := w.nr - nbytes)
  }

  /** Stops within a vector. */
  function InVec(w: Walk): Walk {
    w.(bioNbytes := ToGo(w), total := w.total + w.nr)
  }

  lemma WalkBio(bios0: seq<Bio>, n: nat, error: int, w: Walk)
    requires Walking(bios0, n, error, w) && w.bios != [] && w.nr >= w.bios[0].size
    ensures Walking(bios0, n, error, NextBio(w, error))
  {
    HalfwayNext(bios0, n, error, w.bios, w.ended, w.nr);
  }

  /** The first bio has a vector to go, no longer than the bio. */
  lemma VecLength(w: Walk, n: nat)
    requires w.bios != [] && BioOk(w.bios[0]) && Placed(w, n) && w.nr < w.bios[0].size
    ensures ToGo(w) < w.bios[0].size
    ensures w.bios[0].idx + w.nextIdx < |w.bios[0].vecs|
    ensures w.bios[0].vecs[w.bios[0].idx + w.nextIdx].len <= w.bios[0].size
  {
    InsideStep(w.bios, w.nextIdx, w.bioNbytes, w.nr);
  }

  lemma VecPlaced(w: Walk, n: nat, len: nat)
    requires w.bios != [] && BioOk(w.bios[0]) && Placed(w, n) && ToGo(w) < w.bios[0].size
    requires w.bios[0].idx + w.nextIdx < |w.bios[0].vecs| && len == w.bios[0].vecs[w.bios[0].idx + w.nextIdx].len
    ensures len <= w.nr ==> Placed(NextVec(w, len), n) && ToGo(NextVec(w, len)) == ToGo(w)
    ensures w.nr < len ==> StandsAt(w.bios, w.nextIdx, w.nr, ToGo(w))
  {
    InsideStep(w.bios, w.nextIdx, w.bioNbytes, w.nr);
    InsideStands(w.bios, w.nextIdx, w.bioNbytes, w.nr);
  }

  /** The loop is over: nothing is left, or it stands within the first bio. */
  ghost predicate Halted(bios0: seq<Bio>, n: nat, error: int, w: Walk) {
    if w.bios == [] then Halfway(bios0, n, error, w.bios, w.ended, w.nr)
    else
      && Halfway(bios0, n, error, w.bios, w.ended, w.bioNbytes)
      && StandsAt(w.bios, w.nextIdx, w.nr, w.bioNbytes) && w.total == n
  }

  lemma WalkEnds(bios0: seq<Bio>, n: nat, error: int, w: Walk)
    requires Walking(bios0, n, error, w) && (w.bios == [] || w.nr == 0)
    ensures Halted(bios0, n, error, w)
  {
    if w.bios != [] {
      assert BioOk(w.bios[0]);
      BioNotEmpty(w.bios[0]);
      InsideStands(w.bios, w.nextIdx, w.bioNbytes, 0);
    }
  }

  /** Ends the bios that `n` bytes cover. */
  method EndBios(bios0: seq<Bio>, n: nat, error: int) returns (w: Walk)
    requires AllOk(bios0)
    ensures Halted(bios0, n, error, w)
  {
    w := Walk(bios0, [], 0, n, 0, 0);
    HalfwayStart(bios0, n, error);
    while w.bios != []
      invariant Walking(bios0, n, error, w)
      decreases |w.bios|, if w.bios == [] then 0 else |w.bios[0].vecs| - w.nextIdx
    {
      var bio := w.bios[0];
      if w.nr >= bio.size {
        WalkBio(bios0, n, error, w);
        w := NextBio(w, error);
      } else {
        assert BioOk(bio);
        VecLength(w, n);
        var nbytes := bio.vecs[bio.idx + w.nextIdx].len;
        VecPlaced(w, n, nbytes);
        if nbytes > w.nr {
          return InVec(w);
        }
        w := NextVec(w, nbytes);
      }
      if w.bios != [] && w.nr == 0 {
        break;
      }
    }
    WalkEnds(bios0, n, error, w);
  }

  /** req_bio_endio on the part of a bio that is done, and the advance of its index and
      vector. */
  function AdvancedBio(bio: Bio, k: nat, r: nat, done: nat, error: int): Bio
    requires bio.idx + k < |bio.vecs| && r <= bio.vecs[bio.idx + k].len && done <= bio.size
  {
    MovedTo(bio, k, r).(size := bio.size - done, sector := bio.sector + done / SECTOR,
                        uptodate := bio.uptodate && error == 0)
  }

  lemma AdvanceMoved(bio: Bio, k: nat, r: nat, error: int)
    requires BioOk(bio) && bio.idx + k < |bio.vecs| && r < bio.vecs[bio.idx + k].len
    ensures Size(Live(bio)[..k]) + r < bio.size
    ensures Advance(bio, Size(Live(bio)[..k]) + r, error) == AdvancedBio(bio, k, r, Size(Live(bio)[..k]) + r, error)
  {
    PassedAt(bio, k, r, Size(Live(bio)[..k]) + r);
  }

  lemma StandsAdvance(bios: seq<Bio>, k: nat, r: nat, done: nat, error: int)
    requires StandsAt(bios, k, r, done)
    ensures Advance(bios[0], done, error) == AdvancedBio(bios[0], k, r, done, error)
  {
    AdvanceMoved(bios[0], k, r, error);
  }

  /** The chain once the loop is over. */
  function Leaves(w: Walk, error: int): seq<Bio>
    requires w.bios != []
    requires w.bios[0].idx + w.nextIdx < |w.bios[0].vecs| && w.nr <= w.bios[0].vecs[w.bios[0].idx + w.nextIdx].len
    requires w.bioNbytes <= w.bios[0].size
  {
    if w.bioNbytes == 0 then w.bios else [AdvancedBio(w.bios[0], w.nextIdx, w.nr, w.bioNbytes, error)] + w.bios[1..]
  }

  lemma HaltedEnds(bios0: seq<Bio>, n: nat, error: int, w: Walk)
    requires Halted(bios0, n, error, w)
    ensures AllOk(bios0) && w.ended == EndedBy(bios0, n, error)
    ensures w.bios == [] ==> Remaining(bios0, n, error) == []
  {
    HalfwayEnd(bios0, n, error, w.bios, w.ended, if w.bios == [] then w.nr else w.bioNbytes);
  }

  lemma HaltedLeaves(bios0: seq<Bio>, n: nat, error: int, w: Walk)
    requires Halted(bios0, n, error, w) && w.bios != []
    ensures AllOk(bios0) && StandsAt(w.bios, w.nextIdx, w.nr, w.bioNbytes) && w.total == n
    ensures Remaining(bios0, n, error) == Leaves(w, error)
  {
    HalfwayEnd(bios0, n, error, w.bios, w.ended, w.bioNbytes);
    StandsAdvance(w.bios, w.nextIdx, w.nr, w.bioNbytes, error);
  }
}
