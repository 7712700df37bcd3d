/** The deadline scheduler: the same requests in sector order and in order of expiry, taken in
    batches that may not starve writes. */
module Deadline {
  import opened Wrappers
  import opened SortedLists

  // ----- State -----

  /** The requests of one direction, sorted and in the order of their expiry. */
  datatype Side = Side(sort: seq<Rq>, fifo: seq<Rq>)

  datatype Settings = Settings(readExpire: nat, writeExpire: nat, fifoBatch: nat, writesStarved: int)

  datatype Dd = Dd(
    rd: Side,
    wr: Side,
    nextRead: Option<nat>,
    nextWrite: Option<nat>,
    batching: nat,
    starved: nat,
    out: seq<Rq>)  // the dispatch queue, oldest first

  const EMPTY := Dd(Side([], []), Side([], []), None, None, 0, 0, [])

  function Of(dd: Dd, write: bool): Side {
    if write then dd.wr else dd.rd
  }

  function With(dd: Dd, write: bool, side: Side): Dd {
    if write then dd.(wr := side) else dd.(rd := side)
  }

  function NextOf(dd: Dd, write: bool): Option<nat> {
    if write then dd.nextWrite else dd.nextRead
  }

  /** next_rq of one direction set, of the other cleared. */
  function OnlyNext(dd: Dd, write: bool, next: Option<nat>): Dd {
    if write then dd.(nextRead := None, nextWrite := next) else dd.(nextRead := next, nextWrite := None)
  }

  function Id(rq: Option<Rq>): Option<nat> {
    match rq
    case None => None
    case Some(r) => Some(r.id)
  }

  // ----- Sides -----

  /** The two lists hold the same requests, but for one that may be missing in the first. */
  ghost predicate Same(s: seq<Rq>, t: seq<Rq>, missing: Option<Rq>) {
    forall x :: x in t <==> x in s || missing == Some(x)
  }

  ghost predicate OneWay(s: seq<Rq>, write: bool) {
    forall x :: x in s ==> x.write == write
  }

  /** Both lists hold the same requests, each once and all of one direction; one may be off the
      sorted list while its sector changes. */
  ghost predicate SideOk(side: Side, write: bool, missing: Option<Rq>) {
    Sorted(side.sort) && Once(side.fifo) && Same(side.sort, side.fifo, missing) && OneWay(side.fifo, write)
  }

  function Gone(side: Side, id: nat): Side {
    Side(Without(side.sort, id), Without(side.fifo, id))
  }

  lemma GoneOk(side: Side, write: bool, id: nat, missing: Option<Rq>)
    requires SideOk(side, write, missing) && (missing.Some? ==> missing.value.id != id)
    ensures SideOk(Gone(side, id), write, missing)
  {
    WithoutSorted(side.sort, id);
    WithoutOnce(side.fifo, id);
    forall x ensures x in Gone(side, id).sort <==> x in side.sort && x.id != id {
      WithoutHas(side.sort, id, x);
    }
    forall x ensures x in Gone(side, id).fifo <==> x in side.fifo && x.id != id {
      WithoutHas(side.fifo, id, x);
    }
  }

  /** A request that is on the fifo comes to the sorted list. */
  function Linked(side: Side, rq: Rq): Side {
    side.(sort := Insert(side.sort, rq))
  }

  lemma LinkedOk(side: Side, rq: Rq)
    requires SideOk(side, rq.write, Some(rq)) && Find(side.sort, rq.pos).None?
    ensures SideOk(Linked(side, rq), rq.write, None)
  {
    InsertSorted(side.sort, rq);
    forall x ensures x in Linked(side, rq).sort <==> x in side.sort || x == rq {
      InsertHas(side.sort, rq, x);
    }
  }

  function Entered(side: Side, rq: Rq): Side {
    Side(Insert(side.sort, rq), side.fifo + [rq])
  }

  lemma EnteredOk(side: Side, rq: Rq)
    requires SideOk(side, rq.write, None) && Find(side.sort, rq.pos).None? && Absent(side.fifo, rq.id)
    ensures SideOk(Entered(side, rq), rq.write, None)
  {
    InsertSorted(side.sort, rq);
    SnocOnce(side.fifo, rq);
    forall x ensures x in Entered(side, rq).sort <==> x in side.sort || x == rq {
      InsertHas(side.sort, rq, x);
    }
  }

  /** The request `rq` in place of the one with its number. */
  function Replaced(s: seq<Rq>, rq: Rq): seq<Rq> {
    if s == [] then [] else [if s[0].id == rq.id then rq else s[0]] + Replaced(s[1..], rq)
  }

  lemma {:induction false} ReplacedHas(s: seq<Rq>, rq: Rq, x: Rq)
    ensures x in Replaced(s, rq) <==> (x in s && x.id != rq.id) || (x == rq && !Absent(s, rq.id))
  {
    if s != [] {
      ReplacedHas(s[1..], rq, x);
      assert s == [s[0]] + s[1..];
      AbsentHead(s, rq.id);
    }
  }

  lemma AbsentHead(s: seq<Rq>, id: nat)
    requires s != []
    ensures Absent(s, id) <==> s[0].id != id && Absent(s[1..], id)
  {
    if s[0].id != id && Absent(s[1..], id) {
      forall k | 0 <= k < |s| ensures s[k].id != id {
        if k > 0 {
          assert s[k] == s[1..][k - 1];
        }
      }
    }
  }

  lemma {:induction false} ReplacedAbsent(s: seq<Rq>, rq: Rq, id: nat)
    ensures Absent(Replaced(s, rq), id) <==> Absent(s, id)
  {
    if s != [] {
      ReplacedAbsent(s[1..], rq, id);
      AbsentHead(s, id);
      AbsentHead(Replaced(s, rq), id);
      assert Replaced(s, rq)[1..] == Replaced(s[1..], rq);
    }
  }

  lemma {:induction false} ReplacedOnce(s: seq<Rq>, rq: Rq)
    requires Once(s)
    ensures Once(Replaced(s, rq))
  {
    if s != [] {
      ReplacedOnce(s[1..], rq);
      ReplacedAbsent(s[1..], rq, s[0].id);
      assert Replaced(s, rq)[1..] == Replaced(s[1..], rq);
    }
  }

  // ----- The invariant -----

  ghost function Ids(s: seq<Rq>): set<nat> {
    set x | x in s :: x.id
  }

  lemma IdsAbsent(s: seq<Rq>, id: nat)
    ensures id in Ids(s) <==> !Absent(s, id)
  {
  }

  lemma {:induction false} OnceDistinct(s: seq<Rq>, x: Rq, y: Rq)
    requires Once(s) && x in s && y in s && x.id == y.id
    ensures x == y
  {
    assert s == [s[0]] + s[1..];
    if x in s[1..] && y in s[1..] {
      OnceDistinct(s[1..], x, y);
    }
  }

  lemma IdsWithout(s: seq<Rq>, id: nat)
    ensures Ids(Without(s, id)) == Ids(s) - {id}
  {
    forall n ensures n in Ids(Without(s, id)) <==> n in Ids(s) - {id} {
      if n in Ids(s) - {id} {
        var x :| x in s && x.id == n;
        WithoutHas(s, id, x);
      }
      if n in Ids(Without(s, id)) {
        var x :| x in Without(s, id) && x.id == n;
        WithoutHas(s, id, x);
      }
    }
  }

  lemma IdsSnoc(s: seq<Rq>, rq: Rq)
    ensures Ids(s + [rq]) == Ids(s) + {rq.id}
  {
    assert forall x :: x in s + [rq] <==> x in s || x == rq;
  }

  lemma IdsReplaced(s: seq<Rq>, rq: Rq)
    ensures Ids(Replaced(s, rq)) == Ids(s)
  {
    forall n ensures n in Ids(Replaced(s, rq)) <==> n in Ids(s) {
      ReplacedAbsent(s, rq, n);
      IdsAbsent(s, n);
      IdsAbsent(Replaced(s, rq), n);
    }
  }

  /** Every request is in one place only. */
  ghost predicate Apart(dd: Dd) {
    && Once(dd.out) && Ids(dd.rd.fifo) !! Ids(dd.wr.fifo)
    && Ids(dd.rd.fifo) !! Ids(dd.out) && Ids(dd.wr.fifo) !! Ids(dd.out)
  }

  /** At most one next request is set, and it is queued. */
  ghost predicate NextOk(dd: Dd) {
    && (dd.nextRead.None? || dd.nextWrite.None?)
    && (dd.nextRead.Some? ==> dd.nextRead.value in Ids(dd.rd.fifo))
    && (dd.nextWrite.Some? ==> dd.nextWrite.value in Ids(dd.wr.fifo))
  }

  /** The invariant, with one request of direction `write` off its sorted list. */
  ghost predicate InvBut(dd: Dd, write: bool, missing: Option<Rq>) {
    && SideOk(dd.rd, false, if write then None else missing) && SideOk(dd.wr, true, if write then missing else None)
    && Apart(dd) && NextOk(dd)
  }

  ghost predicate Inv(dd: Dd) {
    SideOk(dd.rd, false, None) && SideOk(dd.wr, true, None) && Apart(dd) && NextOk(dd)
  }

  lemma InvButNone(dd: Dd, write: bool)
    ensures InvBut(dd, write, None) <==> Inv(dd)
  {
  }

  /** All requests that were ever given to the scheduler and not merged away. */
  ghost function Known(dd: Dd): set<nat> {
    Ids(dd.rd.fifo) + Ids(dd.wr.fifo) + Ids(dd.out)
  }

  // ----- deadline_move_request -----

  function Move(dd: Dd, rq: Rq): Dd {
    var side := Of(dd, rq.write);
    With(OnlyNext(dd, rq.write, Id(Latter(side.sort, rq.pos))), rq.write, Gone(side, rq.id)).(out := dd.out + [rq])
  }

  lemma MoveSides(dd: Dd, rq: Rq, missing: Option<Rq>)
    requires InvBut(dd, rq.write, missing) && (missing.Some? ==> missing.value.id != rq.id)
    ensures SideOk(Of(Move(dd, rq), rq.write), rq.write, missing)
    ensures Of(Move(dd, rq), !rq.write) == Of(dd, !rq.write)
  {
    GoneOk(Of(dd, rq.write), rq.write, rq.id, missing);
  }

  lemma MoveIds(dd: Dd, rq: Rq)
    requires Apart(dd) && rq in Of(dd, rq.write).fifo
    ensures Apart(Move(dd, rq)) && Known(Move(dd, rq)) == Known(dd)
    ensures Ids(Of(Move(dd, rq), rq.write).fifo) == Ids(Of(dd, rq.write).fifo) - {rq.id}
  {
    IdsWithout(Of(dd, rq.write).fifo, rq.id);
    IdsSnoc(dd.out, rq);
    assert rq.id !in Ids(dd.out);
    IdsAbsent(dd.out, rq.id);
    SnocOnce(dd.out, rq);
  }

  lemma MoveNext(dd: Dd, rq: Rq, missing: Option<Rq>)
    requires InvBut(dd, rq.write, missing) && rq in Of(dd, rq.write).sort
    ensures NextOk(Move(dd, rq))
  {
    var side := Of(dd, rq.write);
    MoveIds(dd, rq);
    var l := Latter(side.sort, rq.pos);
    if l.Some? {
      assert l.value in side.fifo && rq in side.fifo;
      if l.value.id == rq.id {
        OnceDistinct(side.fifo, l.value, rq);
      }
      assert l.value.id in Ids(side.fifo);
    }
  }

  /** The request goes to the dispatch queue, and the next one in sector order is up. */
  lemma MoveOk(dd: Dd, rq: Rq, missing: Option<Rq>)
    requires InvBut(dd, rq.write, missing) && rq in Of(dd, rq.write).sort
             && (missing.Some? ==> missing.value.id != rq.id)
    ensures InvBut(Move(dd, rq), rq.write, missing) && Known(Move(dd, rq)) == Known(dd)
  {
    MoveSides(dd, rq, missing);
    MoveIds(dd, rq);
    MoveNext(dd, rq, missing);
  }

  // ----- deadline_add_rq_rb -----

  /** A request already at the sector is moved to the dispatch queue. */
  function Cleared(dd: Dd, write: bool, pos: nat): Dd {
    match Find(Of(dd, write).sort, pos)
    case None => dd
    case Some(alias) => Move(dd, alias)
  }

  lemma {:induction false} SortedDistinct(s: seq<Rq>, x: Rq, y: Rq)
    requires Sorted(s) && x in s && y in s && x.pos == y.pos
    ensures x == y
  {
    assert s == [s[0]] + s[1..];
    AboveHas(s[1..], s[0].pos);
    if x in s[1..] && y in s[1..] {
      SortedDistinct(s[1..], x, y);
    }
  }

  /** Once it is, the sector is free: the loop is taken once at most. */
  lemma ClearedFree(dd: Dd, write: bool, pos: nat, missing: Option<Rq>)
    requires InvBut(dd, write, missing)
    ensures Find(Of(Cleared(dd, write, pos), write).sort, pos).None?
  {
    var side := Of(dd, write);
    var alias := Find(side.sort, pos);
    if alias.Some? {
      assert alias.value in side.fifo;
      forall x | x in Without(side.sort, alias.value.id) ensures x.pos != pos {
        WithoutHas(side.sort, alias.value.id, x);
        if x.pos == pos {
          SortedDistinct(side.sort, x, alias.value);
        }
      }
    }
  }

  lemma ClearedOk(dd: Dd, write: bool, pos: nat, missing: Option<Rq>)
    requires InvBut(dd, write, missing) && (missing.Some? ==> missing.value.id !in Ids(Of(dd, write).sort))
    ensures InvBut(Cleared(dd, write, pos), write, missing) && Known(Cleared(dd, write, pos)) == Known(dd)
  {
    var alias := Find(Of(dd, write).sort, pos);
    if alias.Some? {
      assert alias.value in Of(dd, write).fifo;
      MoveOk(dd, alias.value, missing);
    }
  }

  // ----- deadline_add_request -----

  function Expiry(s: Settings, write: bool): nat {
    if write then s.writeExpire else s.readExpire
  }

  function Enter(dd: Dd, rq: Rq): Dd {
    With(dd, rq.write, Entered(Of(dd, rq.write), rq))
  }

  function Stamped(s: Settings, rq: Rq, now: int): Rq {
    rq.(expire := now + Expiry(s, rq.write))
  }

  function Add(dd: Dd, s: Settings, rq: Rq, now: int): Dd {
    Enter(Cleared(dd, rq.write, rq.pos), Stamped(s, rq, now))
  }

  lemma EnterOk(dd: Dd, rq: Rq)
    requires Inv(dd) && rq.id !in Known(dd) && Find(Of(dd, rq.write).sort, rq.pos).None?
    ensures Inv(Enter(dd, rq)) && Known(Enter(dd, rq)) == Known(dd) + {rq.id}
  {
    IdsAbsent(Of(dd, rq.write).fifo, rq.id);
    EnteredOk(Of(dd, rq.write), rq);
    IdsSnoc(Of(dd, rq.write).fifo, rq);
  }

  lemma AddOk(dd: Dd, s: Settings, rq: Rq, now: int)
    requires Inv(dd) && rq.id !in Known(dd)
    ensures Inv(Add(dd, s, rq, now)) && Known(Add(dd, s, rq, now)) == Known(dd) + {rq.id}
  {
    InvButNone(dd, rq.write);
    ClearedOk(dd, rq.write, rq.pos, None);
    ClearedFree(dd, rq.write, rq.pos, None);
    InvButNone(Cleared(dd, rq.write, rq.pos), rq.write);
    EnterOk(Cleared(dd, rq.write, rq.pos), Stamped(s, rq, now));
  }

  // ----- deadline_merged_request, for a front merge -----

  /** The request is off the sorted list, and has its new sector. */
  function Unlinked(dd: Dd, rq: Rq, pos: nat): Dd {
    var side := Of(dd, rq.write);
    With(dd, rq.write, Side(Without(side.sort, rq.id), Replaced(side.fifo, rq.(pos := pos))))
  }

  function FrontMerged(dd: Dd, rq: Rq, pos: nat): Dd {
    var d := Cleared(Unlinked(dd, rq, pos), rq.write, pos);
    With(d, rq.write, Linked(Of(d, rq.write), rq.(pos := pos)))
  }

  lemma UnlinkedSide(side: Side, rq: Rq, rq': Rq)
    requires SideOk(side, rq.write, None) && rq in side.sort && rq'.id == rq.id && rq'.write == rq.write
    ensures SideOk(Side(Without(side.sort, rq.id), Replaced(side.fifo, rq')), rq.write, Some(rq'))
    ensures rq.id !in Ids(Without(side.sort, rq.id))
  {
    WithoutSorted(side.sort, rq.id);
    ReplacedOnce(side.fifo, rq');
    IdsWithout(side.sort, rq.id);
    assert rq in side.fifo;
    IdsAbsent(side.fifo, rq.id);
    forall x ensures x in Replaced(side.fifo, rq') <==> x in Without(side.sort, rq.id) || x == rq' {
      ReplacedHas(side.fifo, rq', x);
      WithoutHas(side.sort, rq.id, x);
    }
    forall x | x in Replaced(side.fifo, rq') ensures x.write == rq.write {
      WithoutHas(side.sort, rq.id, x);
    }
  }

  lemma UnlinkedOk(dd: Dd, rq: Rq, pos: nat)
    requires Inv(dd) && rq in Of(dd, rq.write).sort
    ensures InvBut(Unlinked(dd, rq, pos), rq.write, Some(rq.(pos := pos))) && Known(Unlinked(dd, rq, pos)) == Known(dd)
    ensures rq.id !in Ids(Of(Unlinked(dd, rq, pos), rq.write).sort)
  {
    UnlinkedSide(Of(dd, rq.write), rq, rq.(pos := pos));
    IdsReplaced(Of(dd, rq.write).fifo, rq.(pos := pos));
  }

  lemma LinkOk(dd: Dd, rq: Rq)
    requires InvBut(dd, rq.write, Some(rq)) && Find(Of(dd, rq.write).sort, rq.pos).None?
    ensures Inv(With(dd, rq.write, Linked(Of(dd, rq.write), rq)))
    ensures Known(With(dd, rq.write, Linked(Of(dd, rq.write), rq))) == Known(dd)
  {
    LinkedOk(Of(dd, rq.write), rq);
  }

  lemma FrontMergedOk(dd: Dd, rq: Rq, pos: nat)
    requires Inv(dd) && rq in Of(dd, rq.write).sort
    ensures Inv(FrontMerged(dd, rq, pos)) && Known(FrontMerged(dd, rq, pos)) == Known(dd)
  {
    var rq' := rq.(pos := pos);
    UnlinkedOk(dd, rq, pos);
    ClearedOk(Unlinked(dd, rq, pos), rq.write, pos, Some(rq'));
    ClearedFree(Unlinked(dd, rq, pos), rq.write, pos, Some(rq'));
    LinkOk(Cleared(Unlinked(dd, rq, pos), rq.write, pos), rq');
  }

  // ----- deadline_merged_requests -----

  /** The earlier expiry, and the earlier place in the fifo, for the request that stays. */
  function Joined(side: Side, rq: Rq, gone: Rq): Side {
    if gone.expire < rq.expire then
      var rq' := rq.(expire := gone.expire);
      Side(Replaced(side.sort, rq'), InPlace(Without(side.fifo, rq.id), gone.id, rq'))
    else side
  }

  /** The request `rq` next to the one with number `id`: list_move. */
  function InPlace(s: seq<Rq>, id: nat, rq: Rq): seq<Rq> {
    if s == [] then [] else if s[0].id == id then [s[0], rq] + s[1..] else [s[0]] + InPlace(s[1..], id, rq)
  }

  /** deadline_remove_request */
  function Removed(dd: Dd, rq: Rq): Dd {
    var side := Of(dd, rq.write);
    var d := if NextOf(dd, rq.write) == Some(rq.id) then SetNext(dd, rq.write, Id(Latter(side.sort, rq.pos))) else dd;
    With(d, rq.write, Gone(side, rq.id))
  }

  function SetNext(dd: Dd, write: bool, next: Option<nat>): Dd {
    if write then dd.(nextWrite := next) else dd.(nextRead := next)
  }

  function MergedRequests(dd: Dd, rq: Rq, gone: Rq): Dd {
    Removed(With(dd, rq.write, Joined(Of(dd, rq.write), rq, gone)), gone)
  }

  lemma {:induction false} InPlaceHas(s: seq<Rq>, id: nat, rq: Rq, x: Rq)
    requires id in Ids(s)
    ensures x in InPlace(s, id, rq) <==> x in s || x == rq
  {
    assert s == [s[0]] + s[1..];
    if s[0].id != id {
      InPlaceHas(s[1..], id, rq, x);
    }
  }

  lemma {:induction false} InPlaceOnce(s: seq<Rq>, id: nat, rq: Rq)
    requires Once(s) && Absent(s, rq.id) && id in Ids(s)
    ensures Once(InPlace(s, id, rq))
  {
    assert s == [s[0]] + s[1..];
    AbsentHead(s, rq.id);
    var p := InPlace(s, id, rq);
    if s[0].id == id {
      assert p[1..] == [rq] + s[1..] && p[1..][1..] == s[1..];
      AbsentHead(p[1..], s[0].id);
    } else {
      InPlaceOnce(s[1..], id, rq);
      assert p[1..] == InPlace(s[1..], id, rq);
      forall k | 0 <= k < |p[1..]| ensures p[1..][k].id != s[0].id {
        InPlaceHas(s[1..], id, rq, p[1..][k]);
      }
    }
  }

  lemma {:induction false} ReplacedSorted(s: seq<Rq>, rq: Rq)
    requires Sorted(s) && forall x :: x in s && x.id == rq.id ==> x.pos == rq.pos
    ensures Sorted(Replaced(s, rq))
  {
    if s != [] {
      assert s == [s[0]] + s[1..];
      ReplacedSorted(s[1..], rq);
      var p := Replaced(s, rq);
      assert p[1..] == Replaced(s[1..], rq);
      forall k | 0 <= k < |p[1..]| ensures p[1..][k].pos > p[0].pos {
        ReplacedHas(s[1..], rq, p[1..][k]);
        AboveHas(s[1..], s[0].pos);
        if p[1..][k] == rq && !Absent(s[1..], rq.id) {
          var j :| 0 <= j < |s[1..]| && s[1..][j].id == rq.id;
          assert s[1..][j] in s;
        }
      }
    }
  }

  lemma JoinedFifo(fifo: seq<Rq>, rq: Rq, rq': Rq, gone: Rq)
    requires Once(fifo) && rq in fifo && gone in fifo && rq.id != gone.id && rq'.id == rq.id
    ensures var f := InPlace(Without(fifo, rq.id), gone.id, rq');
            Once(f) && Ids(f) == Ids(fifo) && forall x :: x in f <==> (x in fifo && x.id != rq.id) || x == rq'
  {
    var w := Without(fifo, rq.id);
    WithoutOnce(fifo, rq.id);
    WithoutAbsent(fifo, rq.id, rq.id);
    WithoutHas(fifo, rq.id, gone);
    assert gone.id in Ids(w);
    InPlaceOnce(w, gone.id, rq');
    var f := InPlace(w, gone.id, rq');
    forall x ensures x in f <==> (x in fifo && x.id != rq.id) || x == rq' {
      InPlaceHas(w, gone.id, rq', x);
      WithoutHas(fifo, rq.id, x);
    }
  }

  lemma JoinedSort(sort: seq<Rq>, fifo: seq<Rq>, rq: Rq, rq': Rq)
    requires Sorted(sort) && Once(fifo) && Same(sort, fifo, None) && rq in sort && rq'.id == rq.id && rq'.pos == rq.pos
    ensures Sorted(Replaced(sort, rq'))
            && forall x :: x in Replaced(sort, rq') <==> (x in fifo && x.id != rq.id) || x == rq'
  {
    forall x | x in sort && x.id == rq'.id ensures x.pos == rq'.pos {
      OnceDistinct(fifo, x, rq);
    }
    ReplacedSorted(sort, rq');
    IdsAbsent(sort, rq.id);
    forall x ensures x in Replaced(sort, rq') <==> (x in fifo && x.id != rq.id) || x == rq' {
      ReplacedHas(sort, rq', x);
    }
  }

  lemma JoinedOk(side: Side, rq: Rq, gone: Rq)
    requires SideOk(side, rq.write, None) && rq in side.sort && gone in side.sort && rq.id != gone.id
    ensures SideOk(Joined(side, rq, gone), rq.write, None) && Ids(Joined(side, rq, gone).fifo) == Ids(side.fifo)
    ensures gone in Joined(side, rq, gone).sort
  {
    if gone.expire < rq.expire {
      var rq' := rq.(expire := gone.expire);
      assert rq in side.fifo && gone in side.fifo;
      JoinedFifo(side.fifo, rq, rq', gone);
      JoinedSort(side.sort, side.fifo, rq, rq');
    }
  }

  lemma RemovedSides(dd: Dd, rq: Rq)
    requires Inv(dd)
    ensures SideOk(Removed(dd, rq).rd, false, None) && SideOk(Removed(dd, rq).wr, true, None)
  {
    GoneOk(Of(dd, rq.write), rq.write, rq.id, None);
  }

  lemma RemovedIds(dd: Dd, rq: Rq)
    requires Apart(dd) && rq in Of(dd, rq.write).fifo
    ensures Apart(Removed(dd, rq)) && Known(Removed(dd, rq)) == Known(dd) - {rq.id}
    ensures Ids(Of(Removed(dd, rq), rq.write).fifo) == Ids(Of(dd, rq.write).fifo) - {rq.id}
  {
    IdsWithout(Of(dd, rq.write).fifo, rq.id);
  }

  lemma RemovedNext(dd: Dd, rq: Rq)
    requires Inv(dd) && rq in Of(dd, rq.write).sort
    ensures NextOk(Removed(dd, rq))
  {
    var side := Of(dd, rq.write);
    RemovedIds(dd, rq);
    var l := Latter(side.sort, rq.pos);
    if l.Some? {
      assert l.value in side.fifo && rq in side.fifo;
      if l.value.id == rq.id {
        OnceDistinct(side.fifo, l.value, rq);
      }
      assert l.value.id in Ids(side.fifo);
    }
  }

  lemma RemovedOk(dd: Dd, rq: Rq)
    requires Inv(dd) && rq in Of(dd, rq.write).sort
    ensures Inv(Removed(dd, rq)) && Known(Removed(dd, rq)) == Known(dd) - {rq.id}
  {
    assert rq in Of(dd, rq.write).fifo;
    RemovedSides(dd, rq);
    RemovedIds(dd, rq);
    RemovedNext(dd, rq);
  }

  lemma JoinOk(dd: Dd, rq: Rq, gone: Rq)
    requires Inv(dd) && rq in Of(dd, rq.write).sort && gone in Of(dd, rq.write).sort && rq.id != gone.id
    ensures var d := With(dd, rq.write, Joined(Of(dd, rq.write), rq, gone));
            Inv(d) && Known(d) == Known(dd) && gone in Of(d, rq.write).sort
  {
    JoinedOk(Of(dd, rq.write), rq, gone);
  }

  /** Merging two requests takes one of them away, and nothing else. */
  lemma MergedRequestsOk(dd: Dd, rq: Rq, gone: Rq)
    requires Inv(dd) && rq in Of(dd, rq.write).sort && gone in Of(dd, rq.write).sort && rq.id != gone.id
    ensures Inv(MergedRequests(dd, rq, gone)) && Known(MergedRequests(dd, rq, gone)) == Known(dd) - {gone.id}
  {
    JoinOk(dd, rq, gone);
    assert gone in Of(dd, rq.write).fifo;
    RemovedOk(With(dd, rq.write, Joined(Of(dd, rq.write), rq, gone)), gone);
  }

  // ----- deadline_dispatch_requests -----

  /** The request with a number. */
  function Lookup(s: seq<Rq>, id: nat): (rq: Option<Rq>)
    ensures rq.Some? ==> rq.value in s && rq.value.id == id
    ensures rq.None? ==> Absent(s, id)
  {
    if s == [] then None else if s[0].id == id then Some(s[0]) else
      AbsentHead(s, id);
      assert s == [s[0]] + s[1..];
      Lookup(s[1..], id)
  }

  function NextRq(dd: Dd, write: bool): Option<Rq> {
    match NextOf(dd, write)
    case None => None
    case Some(id) => Lookup(Of(dd, write).sort, id)
  }

  /** The request the batch goes on with. */
  function Current(dd: Dd): Option<Rq> {
    if dd.nextWrite.Some? then NextRq(dd, true) else NextRq(dd, false)
  }

  /** writes_starved, compared with an unsigned counter. */
  function Patience(s: Settings): nat {
    s.writesStarved % 0x1_0000_0000
  }

  predicate InBatch(dd: Dd, s: Settings) {
    Current(dd).Some? && dd.batching < s.fifoBatch
  }

  /** The direction of a new batch, and the state with its starvation count. */
  predicate TurnsToWrites(dd: Dd, s: Settings) {
    dd.wr.fifo != [] && (dd.rd.fifo == [] || dd.starved >= Patience(s))
  }

  function Counted(dd: Dd, s: Settings): Dd {
    if TurnsToWrites(dd, s) then dd.(starved := 0)
    else if dd.rd.fifo != [] && dd.wr.fifo != [] then dd.(starved := dd.starved + 1)
    else dd
  }

  /** deadline_check_fifo and the choice after it. */
  function Pick(dd: Dd, write: bool, now: int): Rq
    requires Of(dd, write).fifo != []
  {
    var next := NextRq(dd, write);
    if now > Of(dd, write).fifo[0].expire || next.None? then Of(dd, write).fifo[0] else next.value
  }

  predicate Idle(dd: Dd) {
    dd.rd.fifo == [] && dd.wr.fifo == []
  }

  function Chosen(dd: Dd, s: Settings, now: int): Rq
    requires !Idle(dd)
  {
    if InBatch(dd, s) then Current(dd).value else Pick(dd, TurnsToWrites(dd, s), now)
  }

  /** The counters after a choice. */
  function Charged(dd: Dd, s: Settings): Dd {
    if InBatch(dd, s) then dd.(batching := dd.batching + 1) else Counted(dd, s).(batching := 1)
  }

  function Dispatch(dd: Dd, s: Settings, now: int): Dd {
    if Idle(dd) then dd else Move(Charged(dd, s), Chosen(dd, s, now))
  }

  lemma NextRqOk(dd: Dd, write: bool)
    requires Inv(dd)
    ensures NextRq(dd, write).Some? <==> NextOf(dd, write).Some?
    ensures NextRq(dd, write).Some? ==> NextRq(dd, write).value in Of(dd, write).sort
  {
    if NextOf(dd, write).Some? {
      var x :| x in Of(dd, write).fifo && x.id == NextOf(dd, write).value;
      assert x in Of(dd, write).sort;
    }
  }

  lemma PickOk(dd: Dd, write: bool, now: int)
    requires Inv(dd) && Of(dd, write).fifo != []
    ensures Pick(dd, write, now) in Of(dd, write).sort && Pick(dd, write, now).write == write
  {
    NextRqOk(dd, write);
    assert Of(dd, write).fifo[0] in Of(dd, write).fifo;
  }

  lemma ChosenOk(dd: Dd, s: Settings, now: int)
    requires Inv(dd) && !Idle(dd)
    ensures Chosen(dd, s, now) in Of(dd, Chosen(dd, s, now).write).sort
    ensures !InBatch(dd, s) ==> Chosen(dd, s, now).write == TurnsToWrites(dd, s)
  {
    if InBatch(dd, s) {
      NextRqOk(dd, dd.nextWrite.Some?);
    } else {
      PickOk(dd, TurnsToWrites(dd, s), now);
    }
  }

  lemma ChargedOk(dd: Dd, s: Settings)
    ensures var c := Charged(dd, s); c == dd.(batching := c.batching, starved := c.starved)
    ensures Inv(dd) ==> Inv(Charged(dd, s))
  {
  }

  /** Dispatching takes one queued request to the end of the dispatch queue, unless there is
      none. */
  lemma DispatchOk(dd: Dd, s: Settings, now: int)
    requires Inv(dd)
    ensures Inv(Dispatch(dd, s, now)) && Known(Dispatch(dd, s, now)) == Known(dd)
    ensures !Idle(dd) ==> Dispatch(dd, s, now).out == dd.out + [Chosen(dd, s, now)]
  {
    if !Idle(dd) {
      ChosenOk(dd, s, now);
      ChargedOk(dd, s);
      var c, rq := Charged(dd, s), Chosen(dd, s, now);
      InvButNone(c, rq.write);
      MoveOk(c, rq, None);
      InvButNone(Move(c, rq), rq.write);
    }
  }

  // ----- Runs -----

  datatype Event =
    | Added(rq: Rq, now: int)
    | Fronted(id: nat, write: bool, pos: nat)
    | Coalesced(id: nat, gone: nat, write: bool)
    | Dispatched(now: int)

  /** What the block layer may do in a state: add a new request, merge into queued ones of one
      direction, dispatch at any time. */
  ghost predicate Enabled(dd: Dd, e: Event) {
    match e
    case Added(rq, _) => rq.id !in Known(dd)
    case Fronted(id, write, _) => id in Ids(Of(dd, write).fifo)
    case Coalesced(id, gone, write) => id != gone && id in Ids(Of(dd, write).fifo) && gone in Ids(Of(dd, write).fifo)
    case Dispatched(_) => true
  }

  function Step(dd: Dd, s: Settings, e: Event): Dd {
    match e
    case Added(rq, now) => Add(dd, s, rq, now)
    case Fronted(id, write, pos) =>
      (match Lookup(Of(dd, write).sort, id)
       case None => dd
       case Some(rq) => FrontMerged(dd, rq, pos))
    case Coalesced(id, gone, write) =>
      (match Lookup(Of(dd, write).sort, id)
       case None => dd
       case Some(rq) =>
         match Lookup(Of(dd, write).sort, gone)
         case None => dd
         case Some(other) => MergedRequests(dd, rq, other))
    case Dispatched(now) => Dispatch(dd, s, now)
  }

  lemma LookupOk(dd: Dd, write: bool, id: nat)
    requires Inv(dd) && id in Ids(Of(dd, write).fifo)
    ensures var rq := Lookup(Of(dd, write).sort, id);
            rq.Some? && rq.value in Of(dd, write).sort && rq.value.id == id && rq.value.write == write
  {
    var x :| x in Of(dd, write).fifo && x.id == id;
    assert x in Of(dd, write).sort;
    assert Lookup(Of(dd, write).sort, id).value in Of(dd, write).fifo;
  }

  /** Every step keeps the two views of the queued requests the same. */
  lemma StepOk(dd: Dd, s: Settings, e: Event)
    requires Inv(dd) && Enabled(dd, e)
    ensures Inv(Step(dd, s, e))
  {
    match e
    case Added(rq, now) => AddOk(dd, s, rq, now);
    case Fronted(id, write, pos) =>
      LookupOk(dd, write, id);
      FrontMergedOk(dd, Lookup(Of(dd, write).sort, id).value, pos);
    case Coalesced(id, gone, write) =>
      LookupOk(dd, write, id);
      LookupOk(dd, write, gone);
      MergedRequestsOk(dd, Lookup(Of(dd, write).sort, id).value, Lookup(Of(dd, write).sort, gone).value);
    case Dispatched(now) => DispatchOk(dd, s, now);
  }

  ghost predicate CanRun(dd: Dd, s: Settings, es: seq<Event>)
    decreases |es|
  {
    es == [] || (Enabled(dd, es[0]) && CanRun(Step(dd, s, es[0]), s, es[1..]))
  }

  function Run(dd: Dd, s: Settings, es: seq<Event>): Dd
    decreases |es|
  {
    if es == [] then dd else Run(Step(dd, s, es[0]), s, es[1..])
  }

  /** In every reachable state the sorted list and the fifo of each direction hold the same
      requests, at most one next request is set and it is queued, and every request is in one
      place. */
  lemma {:induction false} RunOk(dd: Dd, s: Settings, es: seq<Event>)
    requires Inv(dd) && CanRun(dd, s, es)
    ensures Inv(Run(dd, s, es))
    decreases |es|
  {
    if es != [] {
      StepOk(dd, s, es[0]);
      RunOk(Step(dd, s, es[0]), s, es[1..]);
    }
  }

  lemma EmptyOk()
    ensures Inv(EMPTY) && Known(EMPTY) == {}
  {
  }

  // ----- Starvation -----

  function Floor(n: int): nat {
    if n < 0 then 0 else n
  }

  /** A batch is at least one request. */
  function Batch(s: Settings): nat {
    if s.fifoBatch == 0 then 1 else s.fifoBatch
  }

  /** How many reads may still come before a write, while writes are queued. */
  function Credit(dd: Dd, s: Settings): nat {
    Floor(s.fifoBatch - dd.batching) + Floor(Patience(s) - dd.starved) * Batch(s)
  }

  lemma CreditBound(dd: Dd, s: Settings)
    ensures Credit(dd, s) <= (Patience(s) + 1) * Batch(s)
  {
    assert Floor(Patience(s) - dd.starved) * Batch(s) <= Patience(s) * Batch(s);
    assert (Patience(s) + 1) * Batch(s) == Patience(s) * Batch(s) + Batch(s);
  }

  lemma MoveKeepsCounters(dd: Dd, rq: Rq)
    ensures Move(dd, rq).batching == dd.batching && Move(dd, rq).starved == dd.starved
  {
  }

  /** Adding and merging, also when they move an alias, do not touch the counters. */
  lemma StepKeepsCredit(dd: Dd, s: Settings, e: Event)
    requires !e.Dispatched?
    ensures Credit(Step(dd, s, e), s) == Credit(dd, s)
  {
  }

  lemma NewBatchSpends(dd: Dd, s: Settings)
    requires dd.starved < Patience(s)
    ensures Credit(dd.(starved := dd.starved + 1, batching := 1), s) < Credit(dd, s)
  {
    var left := Patience(s) - dd.starved;
    assert left * Batch(s) == (left - 1) * Batch(s) + Batch(s);
  }

  /** A read dispatched while writes wait costs credit. */
  lemma ReadSpends(dd: Dd, s: Settings, now: int)
    requires Inv(dd) && dd.wr.fifo != [] && !Chosen(dd, s, now).write
    ensures Credit(Dispatch(dd, s, now), s) < Credit(dd, s)
  {
    ChosenOk(dd, s, now);
    MoveKeepsCounters(Charged(dd, s), Chosen(dd, s, now));
    if !InBatch(dd, s) {
      NewBatchSpends(dd, s);
    }
  }

  /** Every dispatch of the run finds a write queued and takes a read. */
  ghost predicate OnlyReads(dd: Dd, s: Settings, es: seq<Event>)
    decreases |es|
  {
    es == [] ||
    (&& (es[0].Dispatched? ==> dd.wr.fifo != [] && !Chosen(dd, s, es[0].now).write)
     && OnlyReads(Step(dd, s, es[0]), s, es[1..]))
  }

  function Dispatches(es: seq<Event>): nat {
    if es == [] then 0 else (if es[0].Dispatched? then 1 else 0) + Dispatches(es[1..])
  }

  lemma {:induction false} ReadsWithinCredit(dd: Dd, s: Settings, es: seq<Event>)
    requires Inv(dd) && CanRun(dd, s, es) && OnlyReads(dd, s, es)
    ensures Dispatches(es) <= Credit(dd, s)
    decreases |es|
  {
    if es != [] {
      StepOk(dd, s, es[0]);
      ReadsWithinCredit(Step(dd, s, es[0]), s, es[1..]);
      if es[0].Dispatched? {
        ReadSpends(dd, s, es[0].now);
      } else {
        StepKeepsCredit(dd, s, es[0]);
      }
    }
  }

  /** While a write stays queued, at most (writes_starved + 1) * fifo_batch dispatches in a row
      take a read, whatever is added, merged and moved between them. */
  lemma WritesNotStarved(dd: Dd, s: Settings, es: seq<Event>)
    requires Inv(dd) && CanRun(dd, s, es) && OnlyReads(dd, s, es)
    ensures Dispatches(es) <= (Patience(s) + 1) * Batch(s)
  {
    ReadsWithinCredit(dd, s, es);
    CreditBound(dd, s);
  }

  // ----- Expiry -----

  lemma {:induction false} ReplacedByExpiry(s: seq<Rq>, rq: Rq)
    requires ByExpiry(s) && forall x :: x in s && x.id == rq.id ==> x.expire == rq.expire
    ensures ByExpiry(Replaced(s, rq))
    ensures forall time :: NotAfter(s, time) ==> NotAfter(Replaced(s, rq), time)
    ensures forall time :: NotBefore(s, time) ==> NotBefore(Replaced(s, rq), time)
  {
    if s != [] {
      assert s == [s[0]] + s[1..];
      ReplacedByExpiry(s[1..], rq);
      assert Replaced(s, rq)[1..] == Replaced(s[1..], rq);
      SameTimes(s, rq);
    }
  }

  lemma {:induction false} SameTimes(s: seq<Rq>, rq: Rq)
    requires forall x :: x in s && x.id == rq.id ==> x.expire == rq.expire
    ensures |Replaced(s, rq)| == |s| && forall k :: 0 <= k < |s| ==> Replaced(s, rq)[k].expire == s[k].expire
  {
    if s != [] {
      assert s == [s[0]] + s[1..];
      SameTimes(s[1..], rq);
    }
  }

  lemma {:induction false} InPlaceByExpiry(s: seq<Rq>, id: nat, rq: Rq)
    requires ByExpiry(s) && Once(s) && exists x :: x in s && x.id == id && x.expire == rq.expire
    ensures ByExpiry(InPlace(s, id, rq))
  {
    assert s == [s[0]] + s[1..];
    var p := InPlace(s, id, rq);
    var x :| x in s && x.id == id && x.expire == rq.expire;
    if s[0].id == id {
      OnceDistinct(s, x, s[0]);
      assert p[1..] == [rq] + s[1..] && p[1..][1..] == s[1..];
    } else {
      InPlaceByExpiry(s[1..], id, rq);
      assert p[1..] == InPlace(s[1..], id, rq);
      assert id in Ids(s[1..]);
      forall k | 0 <= k < |p[1..]| ensures p[1..][k].expire >= s[0].expire {
        InPlaceHas(s[1..], id, rq, p[1..][k]);
        var j :| 0 <= j < |s[1..]| && s[1..][j] == x;
      }
    }
  }

  lemma NotAfterHas(s: seq<Rq>, time: int)
    ensures NotAfter(s, time) <==> forall x :: x in s ==> x.expire <= time
  {
  }

  /** The fifos are in order of expiry, and nothing expires later than a request added now. */
  ghost predicate Timely(dd: Dd, s: Settings, now: int) {
    && ByExpiry(dd.rd.fifo) && NotAfter(dd.rd.fifo, now + s.readExpire)
    && ByExpiry(dd.wr.fifo) && NotAfter(dd.wr.fifo, now + s.writeExpire)
  }

  lemma WithoutTimely(s: seq<Rq>, id: nat, time: int)
    requires ByExpiry(s) && NotAfter(s, time)
    ensures ByExpiry(Without(s, id)) && NotAfter(Without(s, id), time)
  {
    WithoutByExpiry(s, id);
    forall k | 0 <= k < |Without(s, id)| ensures Without(s, id)[k].expire <= time {
      WithoutHas(s, id, Without(s, id)[k]);
    }
  }

  lemma MoveTimely(dd: Dd, s: Settings, rq: Rq, now: int)
    requires Timely(dd, s, now)
    ensures Timely(Move(dd, rq), s, now)
  {
    WithoutTimely(Of(dd, rq.write).fifo, rq.id, now + Expiry(s, rq.write));
  }

  lemma ClearedTimely(dd: Dd, s: Settings, write: bool, pos: nat, now: int)
    requires Timely(dd, s, now)
    ensures Timely(Cleared(dd, write, pos), s, now)
  {
    var alias := Find(Of(dd, write).sort, pos);
    if alias.Some? {
      MoveTimely(dd, s, alias.value, now);
    }
  }

  lemma AddTimely(dd: Dd, s: Settings, rq: Rq, now: int)
    requires Timely(dd, s, now)
    ensures Timely(Add(dd, s, rq, now), s, now)
  {
    ClearedTimely(dd, s, rq.write, rq.pos, now);
    SnocByExpiry(Of(Cleared(dd, rq.write, rq.pos), rq.write).fifo, Stamped(s, rq, now));
  }

  lemma FrontMergedTimely(dd: Dd, s: Settings, rq: Rq, pos: nat, now: int)
    requires Inv(dd) && rq in Of(dd, rq.write).sort && Timely(dd, s, now)
    ensures Timely(FrontMerged(dd, rq, pos), s, now)
  {
    var fifo := Of(dd, rq.write).fifo;
    assert rq in fifo;
    forall x | x in fifo && x.id == rq.id ensures x.expire == rq.expire {
      OnceDistinct(fifo, x, rq);
    }
    ReplacedByExpiry(fifo, rq.(pos := pos));
    ClearedTimely(Unlinked(dd, rq, pos), s, rq.write, pos, now);
  }

  lemma JoinedTimely(side: Side, rq: Rq, gone: Rq, time: int)
    requires SideOk(side, rq.write, None) && rq in side.sort && gone in side.sort && rq.id != gone.id
    requires ByExpiry(side.fifo) && NotAfter(side.fifo, time)
    ensures ByExpiry(Joined(side, rq, gone).fifo) && NotAfter(Joined(side, rq, gone).fifo, time)
  {
    if gone.expire < rq.expire {
      var rq', w := rq.(expire := gone.expire), Without(side.fifo, rq.id);
      assert rq in side.fifo && gone in side.fifo;
      WithoutTimely(side.fifo, rq.id, time);
      WithoutOnce(side.fifo, rq.id);
      WithoutHas(side.fifo, rq.id, gone);
      InPlaceByExpiry(w, gone.id, rq');
      assert gone.id in Ids(w);
      NotAfterHas(side.fifo, time);
      forall x | x in InPlace(w, gone.id, rq') ensures x.expire <= time {
        InPlaceHas(w, gone.id, rq', x);
        WithoutHas(side.fifo, rq.id, x);
      }
      NotAfterHas(InPlace(w, gone.id, rq'), time);
    }
  }

  lemma MergedRequestsTimely(dd: Dd, s: Settings, rq: Rq, gone: Rq, now: int)
    requires Inv(dd) && rq in Of(dd, rq.write).sort && gone in Of(dd, rq.write).sort && rq.id != gone.id
             && Timely(dd, s, now)
    ensures Timely(MergedRequests(dd, rq, gone), s, now)
  {
    var time := now + Expiry(s, rq.write);
    assert gone in Of(dd, rq.write).fifo;
    JoinedTimely(Of(dd, rq.write), rq, gone, time);
    WithoutTimely(Joined(Of(dd, rq.write), rq, gone).fifo, gone.id, time);
  }

  lemma LaterTimely(dd: Dd, s: Settings, now: int, later: int)
    requires Timely(dd, s, now) && now <= later
    ensures Timely(dd, s, later)
  {
  }

  function Clock(e: Event, now: int): int {
    match e
    case Added(_, t) => t
    case Dispatched(t) => t
    case Fronted(_, _, _) => now
    case Coalesced(_, _, _) => now
  }

  /** With fixed settings and a clock that does not go back, the fifos stay in order of
      expiry. */
  lemma StepTimely(dd: Dd, s: Settings, e: Event, now: int)
    requires Inv(dd) && Enabled(dd, e) && Timely(dd, s, now) && now <= Clock(e, now)
    ensures Timely(Step(dd, s, e), s, Clock(e, now))
  {
    LaterTimely(dd, s, now, Clock(e, now));
    match e
    case Added(rq, t) => AddTimely(dd, s, rq, t);
    case Fronted(id, write, pos) =>
      LookupOk(dd, write, id);
      FrontMergedTimely(dd, s, Lookup(Of(dd, write).sort, id).value, pos, now);
    case Coalesced(id, gone, write) =>
      LookupOk(dd, write, id);
      LookupOk(dd, write, gone);
      MergedRequestsTimely(dd, s, Lookup(Of(dd, write).sort, id).value, Lookup(Of(dd, write).sort, gone).value, now);
    case Dispatched(t) =>
      if !Idle(dd) {
        ChargedOk(dd, s);
        MoveTimely(Charged(dd, s), s, Chosen(dd, s, t), t);
      }
  }

  /** The clock at the end of a run. */
  function LastClock(es: seq<Event>, now: int): int
    decreases |es|
  {
    if es == [] then now else LastClock(es[1..], Clock(es[0], now))
  }

  /** The clock does not go back during the run. */
  predicate Forward(es: seq<Event>, now: int)
    decreases |es|
  {
    es == [] || (now <= Clock(es[0], now) && Forward(es[1..], Clock(es[0], now)))
  }

  /** Over every run the fifos stay in order of expiry. */
  lemma {:induction false} RunTimely(dd: Dd, s: Settings, es: seq<Event>, now: int)
    requires Inv(dd) && CanRun(dd, s, es) && Timely(dd, s, now) && Forward(es, now)
    ensures Timely(Run(dd, s, es), s, LastClock(es, now))
    decreases |es|
  {
    if es != [] {
      StepOk(dd, s, es[0]);
      StepTimely(dd, s, es[0], now);
      RunTimely(Step(dd, s, es[0]), s, es[1..], Clock(es[0], now));
    }
  }

  lemma ExpiredHead(dd: Dd, s: Settings, now: int, x: Rq)
    requires Inv(dd) && Timely(dd, s, now) && !InBatch(dd, s)
    requires x in Of(dd, TurnsToWrites(dd, s)).fifo && now > x.expire
    ensures !Idle(dd) && Chosen(dd, s, now) in Of(dd, TurnsToWrites(dd, s)).fifo
    ensures forall y :: y in Of(dd, TurnsToWrites(dd, s)).fifo ==> Chosen(dd, s, now).expire <= y.expire
  {
    var fifo := Of(dd, TurnsToWrites(dd, s)).fifo;
    forall y | y in fifo ensures fifo[0].expire <= y.expire {
      assert fifo == [fifo[0]] + fifo[1..];
    }
  }

  /** In every reachable state: an expired request found at the start of a batch means that the
      one that expires first is taken. */
  lemma ExpiredFirst(s: Settings, es: seq<Event>, start: int, now: int, x: Rq)
    requires CanRun(EMPTY, s, es) && Forward(es, start) && LastClock(es, start) <= now
    requires !InBatch(Run(EMPTY, s, es), s)
    requires x in Of(Run(EMPTY, s, es), TurnsToWrites(Run(EMPTY, s, es), s)).fifo && now > x.expire
    ensures var dd := Run(EMPTY, s, es);
            var fifo := Of(dd, TurnsToWrites(dd, s)).fifo;
            && !Idle(dd) && Chosen(dd, s, now) in fifo
            && forall y :: y in fifo ==> Chosen(dd, s, now).expire <= y.expire
  {
    var dd := Run(EMPTY, s, es);
    EmptyOk();
    RunOk(EMPTY, s, es);
    RunTimely(EMPTY, s, es, start);
    LaterTimely(dd, s, LastClock(es, start), now);
    ExpiredHead(dd, s, now, x);
  }

  // ----- Draining -----

  function Queued(dd: Dd): nat {
    |dd.rd.fifo| + |dd.wr.fifo|
  }

  lemma {:induction false} WithoutShorter(s: seq<Rq>, id: nat)
    ensures |Without(s, id)| <= |s|
    ensures !Absent(s, id) ==> |Without(s, id)| < |s|
  {
    if s != [] {
      WithoutShorter(s[1..], id);
      AbsentHead(s, id);
    }
  }

  lemma DispatchShrinks(dd: Dd, s: Settings, now: int)
    requires Inv(dd) && !Idle(dd)
    ensures Queued(Dispatch(dd, s, now)) < Queued(dd)
  {
    ChosenOk(dd, s, now);
    ChargedOk(dd, s);
    var rq := Chosen(dd, s, now);
    assert rq in Of(dd, rq.write).fifo;
    IdsAbsent(Of(dd, rq.write).fifo, rq.id);
    WithoutShorter(Of(dd, rq.write).fifo, rq.id);
  }
}
