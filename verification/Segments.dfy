/** Physical segments of block requests: runs of bio vectors that a device can take as one
    piece, and the greedy rule by which they are counted and mapped. */
module Segments {

  datatype Vec = Vec(page: nat, offset: nat, len: nat)

  /** What a queue allows.  `joins` says that two adjacent vectors are physically mergeable
      and do not cross a segment boundary, `high` that a vector's page may be bounced. */
  datatype Limits = Limits(
    cluster: bool,
    maxSegmentSize: nat,
    maxSegments: nat,
    maxSectors: nat,
    joins: (Vec, Vec) -> bool,
    high: Vec -> bool
  )

  type Seg = seq<Vec>

  function Size(vecs: seq<Vec>): (n: nat)
  {
    if vecs == [] then 0 else Size(vecs[..|vecs| - 1]) + vecs[|vecs| - 1].len
  }

  lemma {:induction false} SizeSplit(a: seq<Vec>, b: seq<Vec>)
    ensures Size(a + b) == Size(a) + Size(b)
    decreases b
  {
    if b == [] {
      assert a + b == a;
    } else {
      assert (a + b)[..|a + b| - 1] == a + b[..|b| - 1];
      SizeSplit(a, b[..|b| - 1]);
    }
  }

  lemma SizeOne(v: Vec)
    ensures Size([v]) == v.len
  {
    assert [v][..0] == [];
  }

  function Last<T>(s: seq<T>): T
    requires s != []
  {
    s[|s| - 1]
  }

  function Front<T>(s: seq<T>): seq<T>
    requires s != []
  {
    s[..|s| - 1]
  }

  function Flatten<T>(part: seq<seq<T>>): seq<T>
  {
    if part == [] then [] else Flatten(Front(part)) + Last(part)
  }

  lemma ConcatAssoc<T>(a: seq<T>, b: seq<T>, c: seq<T>)
    ensures (a + b) + c == a + (b + c)
  {
  }

  lemma {:induction false} FlattenConcat<T>(a: seq<seq<T>>, b: seq<seq<T>>)
    ensures Flatten(a + b) == Flatten(a) + Flatten(b)
    decreases b
  {
    if b == [] {
      assert a + b == a;
    } else {
      assert Front(a + b) == a + Front(b) && Last(a + b) == Last(b);
      FlattenConcat(a, Front(b));
      ConcatAssoc(Flatten(a), Flatten(Front(b)), Last(b));
    }
  }

  // ----- Segments a queue accepts -----

  /** Every vector joins the one after it. */
  ghost predicate Joined(q: Limits, seg: Seg) {
    |seg| <= 1 || (Joined(q, Front(seg)) && q.joins(Last(Front(seg)), Last(seg)))
  }

  /** One vector on its own, or several that the queue allows as one piece. */
  ghost predicate SegOk(q: Limits, seg: Seg) {
    seg != [] && (|seg| > 1 ==> q.cluster && Size(seg) <= q.maxSegmentSize && Joined(q, seg))
  }

  ghost predicate Partition(q: Limits, part: seq<Seg>, vecs: seq<Vec>) {
    Flatten(part) == vecs && forall i :: 0 <= i < |part| ==> SegOk(q, part[i])
  }

  // ----- The greedy rule -----

  predicate CanJoin(q: Limits, seg: Seg, v: Vec) {
    seg != [] && q.cluster && Size(seg) + v.len <= q.maxSegmentSize && q.joins(Last(seg), v)
  }

  function Extend(q: Limits, part: seq<Seg>, v: Vec): seq<Seg> {
    if part != [] && CanJoin(q, Last(part), v) then Front(part) + [Last(part) + [v]] else part + [[v]]
  }

  /** Each vector goes into the last segment if it can, and starts a new one if not. */
  function Greedy(q: Limits, vecs: seq<Vec>): seq<Seg> {
    if vecs == [] then [] else Extend(q, Greedy(q, Front(vecs)), Last(vecs))
  }

  lemma FlattenReplaceLast<T>(part: seq<seq<T>>, s: seq<T>)
    requires part != []
    ensures Flatten(Front(part) + [s]) == Flatten(Front(part)) + s
    ensures Flatten(part + [s]) == Flatten(part) + s
  {
    assert Front(Front(part) + [s]) == Front(part);
    assert Front(part + [s]) == part;
  }

  lemma GrownOk(q: Limits, seg: Seg, v: Vec)
    requires SegOk(q, seg) && CanJoin(q, seg, v)
    ensures SegOk(q, seg + [v])
  {
    assert Front(seg + [v]) == seg;
    SizeSplit(seg, [v]);
    SizeOne(v);
  }

  lemma ExtendFlattens(q: Limits, part: seq<Seg>, v: Vec)
    ensures Flatten(Extend(q, part, v)) == Flatten(part) + [v]
  {
    if part == [] {
      assert Flatten([[v]]) == [v];
    } else if CanJoin(q, Last(part), v) {
      FlattenReplaceLast(part, Last(part) + [v]);
      ConcatAssoc(Flatten(Front(part)), Last(part), [v]);
    } else {
      assert Front(part + [[v]]) == part;
    }
  }

  lemma ExtendOk(q: Limits, part: seq<Seg>, v: Vec)
    requires forall i :: 0 <= i < |part| ==> SegOk(q, part[i])
    ensures forall i :: 0 <= i < |Extend(q, part, v)| ==> SegOk(q, Extend(q, part, v)[i])
  {
    if part != [] && CanJoin(q, Last(part), v) {
      GrownOk(q, Last(part), v);
    }
  }

  lemma ExtendKeeps(q: Limits, part: seq<Seg>, vecs: seq<Vec>, v: Vec)
    requires Partition(q, part, vecs)
    ensures Partition(q, Extend(q, part, v), vecs + [v])
  {
    ExtendFlattens(q, part, v);
    ExtendOk(q, part, v);
  }

  lemma ExtendEnds(q: Limits, part: seq<Seg>, v: Vec)
    ensures Extend(q, part, v) != [] && Last(Extend(q, part, v)) != [] && Last(Last(Extend(q, part, v))) == v
  {}

  /** The greedy rule yields segments the queue accepts, which flatten to the vectors. */
  lemma {:induction false} GreedyIsPartition(q: Limits, vecs: seq<Vec>)
    ensures Partition(q, Greedy(q, vecs), vecs)
    ensures vecs != []
            ==> Greedy(q, vecs) != [] && Last(Greedy(q, vecs)) != [] && Last(Last(Greedy(q, vecs))) == Last(vecs)
  {
    if vecs != [] {
      GreedyIsPartition(q, Front(vecs));
      ExtendKeeps(q, Greedy(q, Front(vecs)), Front(vecs), Last(vecs));
      ExtendEnds(q, Greedy(q, Front(vecs)), Last(vecs));
      assert Front(vecs) + [Last(vecs)] == vecs;
    }
  }

  /** `g` has fewer segments than `p`, or as many and the last one no larger. */
  ghost predicate Ahead(g: seq<Seg>, p: seq<Seg>) {
    |g| < |p| || (|g| == |p| && (p != [] ==> Size(Last(g)) <= Size(Last(p))))
  }

  /** A partition without its last vector. */
  ghost function Shortened(part: seq<Seg>): seq<Seg>
    requires part != [] && Last(part) != []
  {
    if |Last(part)| == 1 then Front(part) else Front(part) + [Front(Last(part))]
  }

  lemma ShortenedIsPartition(q: Limits, part: seq<Seg>, vecs: seq<Vec>)
    requires Partition(q, part, vecs) && part != []
    ensures Last(part) != [] && vecs != [] && Last(vecs) == Last(Last(part))
    ensures Partition(q, Shortened(part), Front(vecs))
  {
    var s := Last(part);
    assert SegOk(q, s);
    FlattenReplaceLast(part, Front(s));
    assert s == Front(s) + [Last(s)];
    assert Front(vecs) == Flatten(Front(part)) + Front(s);
  }

  /** The greedy rule stays ahead of every other way to cut the vectors into segments. */
  lemma {:induction false} GreedyStaysAhead(q: Limits, part: seq<Seg>, vecs: seq<Vec>)
    requires Partition(q, part, vecs)
    ensures Ahead(Greedy(q, vecs), part)
    decreases |vecs|
  {
    if part != [] {
      ShortenedIsPartition(q, part, vecs);
      GreedyStaysAhead(q, Shortened(part), Front(vecs));
      GreedyIsPartition(q, Front(vecs));
      AheadStep(q, Greedy(q, Front(vecs)), part, Front(vecs), Last(vecs));
    }
  }

  lemma AheadStep(q: Limits, g: seq<Seg>, part: seq<Seg>, vecs: seq<Vec>, v: Vec)
    requires part != [] && SegOk(q, Last(part)) && Last(Last(part)) == v
    requires Ahead(g, Shortened(part)) && Partition(q, g, vecs)
    requires vecs != [] ==> g != [] && Last(g) != [] && Last(Last(g)) == Last(vecs)
    requires |Last(part)| > 1 ==> vecs != [] && Last(vecs) == Last(Front(Last(part)))
    ensures Ahead(Extend(q, g, v), part)
  {
    var s := Last(part);
    assert Size(s) == Size(Front(s)) + v.len;
    assert Front([v]) == [];
    if g != [] {
      assert Front(Last(g) + [v]) == Last(g);
    }
    if |s| > 1 {
      assert q.joins(Last(Front(s)), v);
    }
  }

  // ----- Putting partitions together -----

  lemma ConcatIsPartition(q: Limits, p1: seq<Seg>, v1: seq<Vec>, p2: seq<Seg>, v2: seq<Vec>)
    requires Partition(q, p1, v1) && Partition(q, p2, v2)
    ensures Partition(q, p1 + p2, v1 + v2)
  {
    FlattenConcat(p1, p2);
  }

  /** The last segment of one partition and the first of the other become one. */
  ghost function JoinParts(p1: seq<Seg>, p2: seq<Seg>): (p: seq<Seg>)
    requires p1 != [] && p2 != []
    ensures |p| == |p1| + |p2| - 1
  {
    Front(p1) + [Last(p1) + p2[0]] + p2[1..]
  }

  lemma FlattenHead<T>(p: seq<seq<T>>)
    requires p != []
    ensures Flatten(p) == p[0] + Flatten(p[1..])
  {
    assert p == [p[0]] + p[1..];
    FlattenConcat([p[0]], p[1..]);
    assert Front([p[0]]) == [];
    assert Flatten([p[0]]) == p[0];
  }

  lemma JoinFlattens<T>(p1: seq<seq<T>>, p2: seq<seq<T>>)
    requires p1 != [] && p2 != []
    ensures Flatten(Front(p1) + [Last(p1) + p2[0]] + p2[1..]) == Flatten(p1) + Flatten(p2)
  {
    var a, b := Last(p1), p2[0];
    var x, y := Flatten(Front(p1)), Flatten(p2[1..]);
    assert Flatten(Front(p1) + [a + b] + p2[1..]) == (x + (a + b)) + y by {
      FlattenReplaceLast(p1, a + b);
      FlattenConcat(Front(p1) + [a + b], p2[1..]);
    }
    FlattenHead(p2);
    ConcatAssoc(x, a, b);
    ConcatAssoc(x + a, b, y);
  }

  lemma {:induction false} JoinedConcat(q: Limits, a: Seg, b: Seg)
    requires a != [] && b != [] && Joined(q, a) && Joined(q, b) && q.joins(Last(a), b[0])
    ensures Joined(q, a + b)
    decreases b
  {
    assert Front(a + b) == a + Front(b);
    if |b| > 1 {
      JoinedConcat(q, a, Front(b));
      assert Last(a + Front(b)) == Last(Front(b));
    } else {
      assert a + Front(b) == a;
    }
  }

  lemma FlattenEnds<T>(part: seq<seq<T>>)
    requires part != [] && part[0] != [] && Last(part) != []
    ensures Flatten(part) != [] && Flatten(part)[0] == part[0][0] && Last(Flatten(part)) == Last(Last(part))
  {
    FlattenHead(part);
  }

  lemma JoinIsPartition(q: Limits, p1: seq<Seg>, v1: seq<Vec>, p2: seq<Seg>, v2: seq<Vec>)
    requires Partition(q, p1, v1) && Partition(q, p2, v2) && v1 != [] && v2 != []
    requires p1 != [] && p2 != []
    requires q.cluster && Size(Last(p1)) + Size(p2[0]) <= q.maxSegmentSize && q.joins(Last(v1), v2[0])
    ensures Partition(q, JoinParts(p1, p2), v1 + v2)
  {
    var a, b := Last(p1), p2[0];
    assert SegOk(q, p1[0]) && SegOk(q, a) && SegOk(q, b) && SegOk(q, Last(p2));
    FlattenEnds(p1);
    FlattenEnds(p2);
    SizeSplit(a, b);
    JoinedConcat(q, a, b);
    JoinFlattens(p1, p2);
  }

  /** A queue that in addition never joins a vector whose page may be bounced. */
  function Restricted(q: Limits): Limits {
    q.(joins := (a, b) => q.joins(a, b) && !q.high(a) && !q.high(b))
  }

  lemma {:induction false} RestrictedJoined(q: Limits, seg: Seg)
    requires Joined(Restricted(q), seg)
    ensures Joined(q, seg)
  {
    if |seg| > 1 {
      RestrictedJoined(q, Front(seg));
    }
  }

  lemma RestrictedIsPartition(q: Limits, part: seq<Seg>, vecs: seq<Vec>)
    requires Partition(Restricted(q), part, vecs)
    ensures Partition(q, part, vecs)
  {
    forall i | 0 <= i < |part| ensures SegOk(q, part[i]) {
      assert SegOk(Restricted(q), part[i]);
      if |part[i]| > 1 {
        RestrictedJoined(q, part[i]);
      }
    }
  }
}
