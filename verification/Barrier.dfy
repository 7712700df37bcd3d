/** The ordered-barrier protocol of the block layer in drain mode, as a transition system
    over its atomic steps: adding, dispatching, starting a sequence, issuing, completing
    and requeueing requests. */
module Barrier {

  // Positions of the QUEUE_ORDSEQ_* bits.
  const STARTED: nat := 0
  const DRAIN: nat := 1
  const PREFLUSH: nat := 2
  const BAR: nat := 3
  const POSTFLUSH: nat := 4
  const DONE: nat := 5

  /** A file system request, a request of another type, or one of the three requests of the
      sequence in progress.  `epoch` counts the barriers added before the request; it is
      history, which no step of the protocol looks at. */
  datatype Rq =
    | Fs(id: nat, epoch: nat, color: bool, barrier: bool, empty: bool)
    | Special(id: nat)
    | PreFlush
    | Bar
    | PostFlush

  predicate IsStage(rq: Rq) {
    rq.PreFlush? || rq.Bar? || rq.PostFlush?
  }

  function StageSeq(rq: Rq): nat
    requires IsStage(rq)
  {
    if rq.PreFlush? then PREFLUSH else if rq.Bar? then BAR else POSTFLUSH
  }

  /** blk_account_rq: the started requests that count as in flight. */
  predicate Accounted(rq: Rq) {
    rq.Fs? || rq.Bar?
  }

  /** How a barrier ended: its error, the errors its sequence reported, in order, and how
      often each bit was set. */
  datatype Ending = Ending(rq: Rq, error: int, reports: seq<int>, bits: multiset<nat>)

  datatype Queue = Queue(
    doPreflush: bool,
    doPostflush: bool,
    queue: seq<Rq>,
    elevator: set<Rq>,
    issued: set<Rq>,
    started: set<Rq>,
    soft: set<Rq>,
    inFlight: int,
    ordseq: set<nat>,
    orderr: int,
    orig: Rq,
    ordcolor: bool,
    // history
    nextId: nat,
    barriers: seq<Rq>,
    reports: seq<int>,
    bits: multiset<nat>,
    ended: seq<Ending>,
    broken: bool  // a BUG_ON or a WARN_ON fired
  )

  /** blk_ordered_cur_seq: the first bit that is not set. */
  function CurSeq(ordseq: set<nat>): (s: nat)
  {
    if STARTED !in ordseq then STARTED
    else if DRAIN !in ordseq then DRAIN
    else if PREFLUSH !in ordseq then PREFLUSH
    else if BAR !in ordseq then BAR
    else if POSTFLUSH !in ordseq then POSTFLUSH
    else DONE
  }

  predicate Color(rq: Rq) {
    rq.Fs? && rq.color
  }

  /** blk_ordered_req_seq */
  function ReqSeq(orig: Rq, rq: Rq): nat {
    if IsStage(rq) then StageSeq(rq)
    else if rq.Special? then DRAIN
    else if rq.color == Color(orig) then DRAIN
    else DONE
  }

  function Report(reports: seq<int>, error: int): seq<int> {
    if error != 0 then reports + [error] else reports
  }

  function SetBits(q: Queue, bits: set<nat>, error: int): Queue {
    q.(orderr := if error != 0 && q.orderr == 0 then error else q.orderr,
       reports := Report(q.reports, error),
       broken := q.broken || q.ordseq * bits != {},
       ordseq := q.ordseq + bits,
       bits := q.bits + multiset(bits))
  }

  function Close(q: Queue): Queue {
    q.(ordseq := {}, ended := q.ended + [Ending(q.orig, q.orderr, q.reports, q.bits)])
  }

  /** blk_ordered_complete_seq */
  function CompleteSeq(q: Queue, bits: set<nat>, error: int): Queue {
    var q1 := SetBits(q, bits, error);
    if CurSeq(q1.ordseq) != DONE then q1 else Close(q1)
  }

  /** The requests start_ordered puts at the head of the queue. */
  function Stages(q: Queue, rq: Rq): seq<Rq>
    requires rq.Fs?
  {
    (if q.doPreflush then [PreFlush] else []) +
    (if rq.empty then [] else [Bar]) +
    (if q.doPostflush && !rq.empty then [PostFlush] else [])
  }

  function Skipped(q: Queue, rq: Rq): set<nat>
    requires rq.Fs?
  {
    (if q.doPostflush && !rq.empty then {} else {POSTFLUSH}) +
    (if rq.empty then {BAR} else {}) +
    (if q.doPreflush then {} else {PREFLUSH}) +
    (if q.inFlight != 0 then {} else {DRAIN})
  }

  /** The state start_ordered builds before it completes the stages it skips. */
  function StackWith(q: Queue, stages: seq<Rq>): Queue
    requires q.queue != []
  {
    q.(queue := stages + q.queue[1..], orig := q.queue[0],
       orderr := 0, ordseq := q.ordseq + {STARTED}, reports := [], bits := multiset{STARTED})
  }

  function Stacked(q: Queue): Queue
    requires q.queue != [] && q.queue[0].Fs?
  {
    StackWith(q, Stages(q, q.queue[0]))
  }

  /** start_ordered, on the barrier at the head of the queue */
  function StartOrdered(q: Queue): Queue
    requires q.queue != [] && q.queue[0].Fs?
  {
    CompleteSeq(Stacked(q), Skipped(q, q.queue[0]), 0)
  }

  /** The drain check at the end of elv_completed_request. */
  function ElvCompleted(q: Queue): Queue {
    if q.ordseq != {} && q.inFlight == 0 && CurSeq(q.ordseq) == DRAIN &&
       (q.queue == [] || ReqSeq(q.orig, q.queue[0]) > DRAIN)
    then CompleteSeq(q, {DRAIN}, 0)
    else q
  }

  /** blk_do_ordered lets the head through, a sequence being in progress or the head not
      being a barrier. */
  predicate MayIssue(q: Queue)
    requires q.queue != []
  {
    var rq := q.queue[0];
    if q.ordseq == {} then !(rq.Fs? && rq.barrier)
    else rq.Special? || ReqSeq(q.orig, rq) <= CurSeq(q.ordseq)
  }

  /** The WARN_ON of blk_do_ordered. */
  function Warned(q: Queue): Queue
    requires q.queue != []
  {
    var rq := q.queue[0];
    q.(broken := q.broken || (q.ordseq != {} && !rq.Special? && ReqSeq(q.orig, rq) < CurSeq(q.ordseq)))
  }

  /** elv_dispatch_sort does not move a request ahead of these: the stages and the barriers
      are hard barriers, front or back inserted and requeued requests soft ones. */
  predicate Stops(q: Queue, rq: Rq) {
    IsStage(rq) || (rq.Fs? && rq.barrier) || rq in q.soft || rq in q.started
  }

  function Insert(s: seq<Rq>, p: nat, rq: Rq): (r: seq<Rq>)
    requires p <= |s|
  {
    s[..p] + [rq] + s[p..]
  }

  /** `q` with `rq` put into the dispatch queue. */
  function Enqueued(q: Queue, p: nat, rq: Rq, soft: set<Rq>, n: nat): Queue
    requires p <= |q.queue|
  {
    q.(queue := Insert(q.queue, p, rq), soft := soft, nextId := n)
  }

  /** Where elv_insert puts a requeued request while a sequence is in progress. */
  function RequeuePos(orig: Rq, s: seq<Rq>, rq: Rq, from: nat): (p: nat)
    requires from <= |s|
    ensures from <= p <= |s|
    ensures forall i :: from <= i < p ==> ReqSeq(orig, s[i]) < ReqSeq(orig, rq)
    ensures p < |s| ==> ReqSeq(orig, rq) <= ReqSeq(orig, s[p])
    decreases |s| - from
  {
    if from == |s| || ReqSeq(orig, rq) <= ReqSeq(orig, s[from]) then from
    else RequeuePos(orig, s, rq, from + 1)
  }

  function Release(q: Queue, rq: Rq): Queue {
    q.(issued := q.issued - {rq},
       started := q.started - {rq},
       inFlight := if Accounted(rq) then q.inFlight - 1 else q.inFlight)
  }

  datatype Event =
    | AddSorted(empty: bool)
    | AddBack(empty: bool)
    | AddBarrier(empty: bool)
    | AddSpecial(front: bool)
    | Dispatch(rq: Rq, pos: nat)
    | MergeAway(rq: Rq)
    | StartBarrier
    | Issue
    | Defer
    | Refuse
    | Complete(rq: Rq, error: int)
    | BarrierError(error: int)
    | Requeue(rq: Rq)

  function NewFs(q: Queue, barrier: bool, empty: bool): Rq {
    Fs(q.nextId, |q.barriers|, q.ordcolor, barrier, empty)
  }

  predicate Enabled(q: Queue, e: Event) {
    match e
    case AddSorted(_) => true
    case AddBack(_) => q.elevator == {}
    case AddBarrier(_) => q.elevator == {}
    case AddSpecial(front) => front || q.elevator == {}
    case Dispatch(rq, pos) =>
      rq in q.elevator && pos <= |q.queue| && forall j :: pos <= j < |q.queue| ==> !Stops(q, q.queue[j])
    case MergeAway(rq) => rq in q.elevator
    case StartBarrier => q.queue != [] && q.ordseq == {} && q.queue[0].Fs? && q.queue[0].barrier
    case Issue => q.queue != [] && MayIssue(q)
    case Defer => q.queue != [] && MayIssue(q)
    case Refuse => q.queue != []
    case Complete(rq, _) => rq in q.issued
    case BarrierError(error) => Bar in q.issued && error != 0
    case Requeue(rq) => rq in q.issued
  }

  function Step(q: Queue, e: Event): Queue
    requires Enabled(q, e)
  {
    match e
    case AddSorted(empty) =>
      q.(elevator := q.elevator + {NewFs(q, false, empty)}, nextId := q.nextId + 1)
    case AddBack(empty) =>
      var rq := NewFs(q, false, empty);
      Enqueued(q, |q.queue|, rq, q.soft + {rq}, q.nextId + 1)
    case AddBarrier(empty) =>
      var rq := NewFs(q, true, empty);
      WithBarrier(q, rq)
    case AddSpecial(front) =>
      var rq := Special(q.nextId);
      Enqueued(q, if front then 0 else |q.queue|, rq, q.soft + {rq}, q.nextId + 1)
    case Dispatch(rq, pos) =>
      q.(elevator := q.elevator - {rq}, queue := Insert(q.queue, pos, rq))
    case MergeAway(rq) =>
      ElvCompleted(q.(elevator := q.elevator - {rq}))
    case StartBarrier => StartOrdered(q)
    case Issue =>
      var rq := q.queue[0];
      Warned(q).(queue := q.queue[1..], issued := q.issued + {rq}, started := q.started + {rq},
         inFlight := if Accounted(rq) then q.inFlight + 1 else q.inFlight)
    case Defer => Warned(q).(started := q.started + {q.queue[0]})
    case Refuse => Warned(q)
    case Complete(rq, error) =>
      var q1 := ElvCompleted(Release(q, rq));
      if IsStage(rq) then CompleteSeq(q1, {StageSeq(rq)}, error) else q1
    case BarrierError(error) =>
      q.(orderr := if q.orderr == 0 then error else q.orderr, reports := Report(q.reports, error))
    case Requeue(rq) =>
      var q1 := Release(q, rq);
      var pos := if q.ordseq == {} then 0 else RequeuePos(q.orig, q.queue, rq, 0);
      q1.(soft := q1.soft + {rq}, queue := Insert(q1.queue, pos, rq))
  }

  function Init(doPreflush: bool, doPostflush: bool): Queue {
    Queue(doPreflush, doPostflush, [], {}, {}, {}, {}, 0, {}, 0, PreFlush, false,
          0, [], [], multiset{}, [], false)
  }

  // ----- The invariant -----

  predicate Running(q: Queue) {
    q.ordseq != {}
  }

  /** The number of barriers ended, which is the epoch being served. */
  function Epoch(q: Queue): nat {
    |q.ended|
  }

  /** `a` may stand before `b` in the dispatch queue while epoch `e` is served. */
  predicate Before(e: nat, a: Rq, b: Rq) {
    && a != b
    && (a.Fs? && b.Fs? ==> a.epoch <= b.epoch && (a.barrier ==> a.epoch < b.epoch))
    && (IsStage(a) && IsStage(b) ==> StageSeq(a) < StageSeq(b))
    && (IsStage(a) && b.Fs? ==> b.epoch > e)
    && (a.Fs? && IsStage(b) ==> a.epoch == e)
  }

  ghost predicate Arranged(e: nat, s: seq<Rq>) {
    forall i, j :: 0 <= i < j < |s| ==> Before(e, s[i], s[j])
  }

  /** What holds of a request wherever it is, `n` being the next number and `bs` the barriers
      added so far: the colour of a file system request is the parity of its epoch, and its
      number tells which barriers it came before. */
  ghost predicate Stamped(n: nat, bs: seq<Rq>, rq: Rq) {
    && (rq.Special? ==> rq.id < n)
    && (rq.Fs? ==>
          && rq.id < n && rq.epoch <= |bs|
          && rq.color == (rq.epoch % 2 == 1)
          && (rq.barrier ==> rq.epoch < |bs| && rq == bs[rq.epoch])
          && (forall e :: 0 <= e < |bs| && bs[e].Fs? ==>
                if rq.epoch <= e then rq == bs[e] || rq.id < bs[e].id else rq.id > bs[e].id))
  }

  ghost predicate Listed(n: nat, bs: seq<Rq>) {
    forall e :: 0 <= e < |bs| ==> bs[e].Fs? && bs[e].barrier && bs[e].epoch == e && Stamped(n, bs, bs[e])
  }

  ghost predicate QueueOk(q: Queue) {
    forall rq :: rq in q.queue ==>
      && Stamped(q.nextId, q.barriers, rq) && rq !in q.elevator && rq !in q.issued
      && (rq.Fs? ==> rq.epoch >= Epoch(q))
  }

  ghost predicate ElevatorOk(q: Queue) {
    forall rq :: rq in q.elevator ==>
      && Stamped(q.nextId, q.barriers, rq) && rq !in q.issued
      && rq.Fs? && !rq.barrier && rq.epoch == |q.barriers|
  }

  ghost predicate IssuedOk(q: Queue) {
    forall rq :: rq in q.issued ==>
      && Stamped(q.nextId, q.barriers, rq)
      && (rq.Fs? ==> !rq.barrier && rq.epoch == Epoch(q))
  }

  /** Every barrier that has not had its turn is queued. */
  ghost predicate PendingOk(q: Queue) {
    forall e :: (if Running(q) then Epoch(q) + 1 else Epoch(q)) <= e < |q.barriers| ==> q.barriers[e] in q.queue
  }

  ghost function AccountedIn(issued: set<Rq>): set<Rq> {
    set rq | rq in issued && Accounted(rq)
  }

  /** Requests are in one place, carry the right stamps, and every pending barrier is queued. */
  ghost predicate Placed(q: Queue) {
    && QueueOk(q) && ElevatorOk(q) && IssuedOk(q) && PendingOk(q)
    && Listed(q.nextId, q.barriers) && q.ordcolor == (|q.barriers| % 2 == 1) && Epoch(q) <= |q.barriers|
    && q.inFlight == |AccountedIn(q.issued)|
    && Arranged(Epoch(q), q.queue)
  }

  ghost predicate StageIs(q: Queue, rq: Rq)
    requires IsStage(rq)
  {
    && (StageSeq(rq) in q.ordseq <==> rq !in q.queue && rq !in q.issued)
    && (rq in q.issued ==> StageSeq(rq) == CurSeq(q.ordseq))
  }

  /** Requests of the barrier's own epoch are left only while the queue drains, and queued
      only because they were requeued. */
  ghost predicate DrainOk(q: Queue) {
    && (forall rq :: rq in q.queue && rq.Fs? && rq.epoch == Epoch(q) ==> rq in q.soft && DRAIN !in q.ordseq)
    && (forall rq :: rq in q.issued && rq.Fs? ==> DRAIN !in q.ordseq)
  }

  /** The sequence in progress. */
  ghost predicate SequencedCore(q: Queue) {
    && Running(q) && Epoch(q) < |q.barriers| && q.orig == q.barriers[Epoch(q)] && q.orig !in q.queue
    && STARTED in q.ordseq && q.ordseq <= {STARTED, DRAIN, PREFLUSH, BAR, POSTFLUSH}
    && StageIs(q, PreFlush) && StageIs(q, Bar) && StageIs(q, PostFlush)
    && DrainOk(q)
    && q.bits == multiset(q.ordseq)
    && q.orderr == FirstOf(q.reports)
  }

  ghost predicate NoStages(q: Queue) {
    forall rq :: rq in q.queue || rq in q.issued ==> !IsStage(rq)
  }

  ghost predicate Sequenced(q: Queue) {
    if Running(q) then SequencedCore(q) && CurSeq(q.ordseq) != DONE else NoStages(q)
  }

  function FirstOf(reports: seq<int>): int {
    if reports == [] then 0 else reports[0]
  }

  ghost predicate EndedInTurn(bs: seq<Rq>, x: Ending, e: nat) {
    e < |bs| && x.rq == bs[e] && x.error == FirstOf(x.reports)
        && x.bits == multiset{STARTED, DRAIN, PREFLUSH, BAR, POSTFLUSH}
  }

  /** Every barrier that ended did so in its turn, with the first error reported for it and
      with each bit of its sequence set once; no BUG_ON and no WARN_ON fired. */
  ghost predicate EndedWell(q: Queue) {
    && (forall e :: 0 <= e < |q.ended| ==> EndedInTurn(q.barriers, q.ended[e], e))
    && !q.broken
    && (forall k :: 0 <= k < |q.reports| ==> q.reports[k] != 0)
  }

  ghost predicate Inv(q: Queue) {
    Placed(q) && Sequenced(q) && EndedWell(q)
  }

  // ----- Arranging the dispatch queue -----

  lemma InsertArranged(e: nat, s: seq<Rq>, p: nat, rq: Rq)
    requires p <= |s| && Arranged(e, s)
    requires forall i :: 0 <= i < p ==> Before(e, s[i], rq)
    requires forall i :: p <= i < |s| ==> Before(e, rq, s[i])
    ensures Arranged(e, Insert(s, p, rq))
  {
    var r := Insert(s, p, rq);
    forall i, j | 0 <= i < j < |r| ensures Before(e, r[i], r[j]) {
      var i' := if i <= p then i else i - 1;
      var j' := if j <= p then j else j - 1;
      assert i != p ==> r[i] == s[i'];
      assert j != p ==> r[j] == s[j'];
    }
  }

  lemma InsertMembers(s: seq<Rq>, p: nat, rq: Rq)
    requires p <= |s|
    ensures forall x :: x in Insert(s, p, rq) <==> x in s || x == rq
  {
    var r := Insert(s, p, rq);
    assert r[p] == rq;
    forall x | x in s ensures x in r {
      var i :| 0 <= i < |s| && s[i] == x;
      assert r[if i < p then i else i + 1] == x;
    }
  }

  lemma TailMembers(e: nat, s: seq<Rq>)
    requires s != [] && Arranged(e, s)
    ensures forall x :: x in s[1..] <==> x in s && x != s[0]
    ensures forall x :: x in s[1..] ==> Before(e, s[0], x)
    ensures Arranged(e, s[1..])
  {
  }

  /** A queued request that comes after the head in epoch order. */
  lemma HeadFirst(e: nat, s: seq<Rq>, x: Rq)
    requires s != [] && Arranged(e, s) && x in s
    ensures x == s[0] || Before(e, s[0], x)
  {
  }

  // ----- What the head of the queue can be -----

  /** With no sequence in progress, a file system request at the head belongs to the epoch
      being served. */
  lemma HeadEpochIdle(q: Queue)
    requires Placed(q) && !Running(q) && q.queue != [] && q.queue[0].Fs?
    ensures q.queue[0].epoch == Epoch(q)
  {
    assert q.queue[0] in q.queue;
    if q.queue[0].epoch > Epoch(q) {
      HeadFirst(Epoch(q), q.queue, q.barriers[Epoch(q)]);
    }
  }

  /** A request two epochs on stands behind the barrier that comes next. */
  lemma NextBarrierBefore(q: Queue, i: nat)
    requires Placed(q) && SequencedCore(q)
    requires i < |q.queue| && q.queue[i].Fs? && q.queue[i].epoch >= Epoch(q) + 2
    ensures exists j :: 0 <= j < i && ReqSeq(q.orig, q.queue[j]) == DONE
  {
    var e := Epoch(q);
    assert q.queue[i] in q.queue;
    var b := q.barriers[e + 1];
    assert b in q.queue;
    var j :| 0 <= j < |q.queue| && q.queue[j] == b;
    assert j <= i || Before(e, q.queue[i], q.queue[j]);
    assert Stamped(q.nextId, q.barriers, b) && Stamped(q.nextId, q.barriers, q.orig);
    assert ReqSeq(q.orig, q.queue[j]) == DONE;
  }

  /** The one-bit colour suffices: a queued file system request whose colour matches the
      barrier's is of the barrier's own epoch, unless the next barrier stands before it. */
  lemma ColorTells(q: Queue, i: nat)
    requires Placed(q) && SequencedCore(q) && i < |q.queue| && q.queue[i].Fs?
    requires forall j :: 0 <= j < i ==> ReqSeq(q.orig, q.queue[j]) != DONE
    ensures ReqSeq(q.orig, q.queue[i]) == DRAIN <==> q.queue[i].epoch == Epoch(q)
  {
    assert q.queue[i] in q.queue;
    assert Stamped(q.nextId, q.barriers, q.queue[i]) && Stamped(q.nextId, q.barriers, q.orig);
    if q.queue[i].epoch >= Epoch(q) + 2 {
      NextBarrierBefore(q, i);
    }
  }

  // ----- Closing a sequence -----

  /** A sequence whose bits are all set can be closed: the barrier ends and the next epoch
      is served. */
  lemma CloseKeeps(q: Queue)
    requires Placed(q) && SequencedCore(q) && EndedWell(q) && CurSeq(q.ordseq) == DONE
    ensures Inv(Close(q))
  {
    var q' := Close(q);
    assert q.ordseq == {STARTED, DRAIN, PREFLUSH, BAR, POSTFLUSH};
    CloseKeepsPlaced(q);
  }

  lemma CloseKeepsPlaced(q: Queue)
    requires Placed(q) && SequencedCore(q) && CurSeq(q.ordseq) == DONE
    ensures Placed(Close(q))
  {
    var q' := Close(q);
    forall i, j | 0 <= i < j < |q'.queue| ensures Before(Epoch(q'), q'.queue[i], q'.queue[j]) {
      assert Before(Epoch(q), q.queue[i], q.queue[j]);
      assert q.queue[i] in q.queue && q.queue[j] in q.queue;
    }
  }

  ghost predicate Ready(q: Queue, bits: set<nat>) {
    && Running(q) && Epoch(q) < |q.barriers| && q.orig == q.barriers[Epoch(q)] && q.orig !in q.queue
    && STARTED in q.ordseq && q.ordseq + bits <= {STARTED, DRAIN, PREFLUSH, BAR, POSTFLUSH} && q.ordseq !! bits
    && q.bits == multiset(q.ordseq) && q.orderr == FirstOf(q.reports)
  }

  ghost predicate StagesReady(q: Queue) {
    StageIs(q, PreFlush) && StageIs(q, Bar) && StageIs(q, PostFlush) && DrainOk(q)
  }

  lemma SetBitsPlaced(q: Queue, bits: set<nat>, error: int)
    requires Placed(q)
    ensures Placed(SetBits(q, bits, error))
  {
  }

  lemma SetBitsSequenced(q: Queue, bits: set<nat>, error: int)
    requires Ready(q, bits) && EndedWell(q) && StagesReady(SetBits(q, bits, error))
    ensures SequencedCore(SetBits(q, bits, error))
  {
    var q1 := SetBits(q, bits, error);
    assert q1.bits == multiset(q1.ordseq);
  }

  lemma SetBitsEnded(q: Queue, bits: set<nat>, error: int)
    requires Ready(q, bits) && EndedWell(q)
    ensures EndedWell(SetBits(q, bits, error))
  {
  }

  /** Setting bits of the sequence in progress, none of them twice. */
  lemma CompleteSeqKeeps(q: Queue, bits: set<nat>, error: int)
    requires Placed(q) && EndedWell(q) && Ready(q, bits) && StagesReady(SetBits(q, bits, error))
    ensures Inv(CompleteSeq(q, bits, error))
  {
    var q1 := SetBits(q, bits, error);
    SetBitsPlaced(q, bits, error);
    SetBitsSequenced(q, bits, error);
    SetBitsEnded(q, bits, error);
    if CurSeq(q1.ordseq) == DONE {
      CloseKeeps(q1);
    }
  }

  /** The drain check completes the drain only when nothing of the barrier's epoch is left. */
  lemma ElvCompletedKeeps(q: Queue)
    requires Inv(q)
    ensures Inv(ElvCompleted(q))
  {
    if ElvCompleted(q) != q {
      DrainedWhenChecked(q);
      CompleteSeqKeeps(q, {DRAIN}, 0);
    }
  }

  lemma DrainedWhenChecked(q: Queue)
    requires Inv(q) && Running(q) && q.inFlight == 0 && CurSeq(q.ordseq) == DRAIN
    requires q.queue == [] || ReqSeq(q.orig, q.queue[0]) > DRAIN
    ensures forall rq :: rq in q.queue && rq.Fs? ==> rq.epoch > Epoch(q)
    ensures forall rq :: rq in q.issued ==> !rq.Fs? && !IsStage(rq)
  {
    forall rq | rq in q.queue && rq.Fs? ensures rq.epoch > Epoch(q) {
      HeadFirst(Epoch(q), q.queue, rq);
      assert q.queue[0] in q.queue;
      if q.queue[0].Fs? {
        ColorTells(q, 0);
      }
    }
    forall rq | rq in q.issued ensures !rq.Fs? && !IsStage(rq) {
      assert Accounted(rq) ==> rq in AccountedIn(q.issued);
    }
  }

  // ----- The steps keep the invariant -----

  lemma AddSortedKeeps(q: Queue, empty: bool)
    requires Inv(q)
    ensures Inv(Step(q, AddSorted(empty)))
  {
  }

  lemma AppendArranged(q: Queue, rq: Rq)
    requires Placed(q) && (Running(q) ==> Epoch(q) < |q.barriers|) && (!Running(q) ==> NoStages(q))
    requires rq !in q.queue && (rq.Special? || (rq.Fs? && rq.epoch == |q.barriers|))
    ensures Arranged(Epoch(q), Insert(q.queue, |q.queue|, rq))
  {
    forall i | 0 <= i < |q.queue| ensures Before(Epoch(q), q.queue[i], rq) {
      assert q.queue[i] in q.queue;
    }
    InsertArranged(Epoch(q), q.queue, |q.queue|, rq);
  }

  ghost predicate MayEnqueue(q: Queue, p: nat, rq: Rq, soft: set<Rq>, n: nat) {
    && p <= |q.queue| && q.nextId <= n && q.soft <= soft
    && !IsStage(rq) && rq !in q.queue && rq !in q.elevator && rq !in q.issued
    && Stamped(n, q.barriers, rq)
    && (rq.Fs? ==> rq.epoch >= Epoch(q) && !rq.barrier)
    && (Running(q) && rq.Fs? && rq.epoch == Epoch(q) ==> rq in soft && DRAIN !in q.ordseq)
    && Arranged(Epoch(q), Insert(q.queue, p, rq))
  }

  lemma EnqueueKeepsPlaced(q: Queue, p: nat, rq: Rq, soft: set<Rq>, n: nat)
    requires Placed(q) && MayEnqueue(q, p, rq, soft, n)
    ensures Placed(Enqueued(q, p, rq, soft, n))
  {
    InsertMembers(q.queue, p, rq);
  }

  lemma EnqueueKeepsSequenced(q: Queue, p: nat, rq: Rq, soft: set<Rq>, n: nat)
    requires Placed(q) && Sequenced(q) && MayEnqueue(q, p, rq, soft, n)
    ensures Sequenced(Enqueued(q, p, rq, soft, n))
  {
    InsertMembers(q.queue, p, rq);
    assert Running(q) ==> Stamped(q.nextId, q.barriers, q.orig);
  }

  lemma EnqueueKeeps(q: Queue, p: nat, rq: Rq, soft: set<Rq>, n: nat)
    requires Inv(q) && MayEnqueue(q, p, rq, soft, n)
    ensures Inv(Enqueued(q, p, rq, soft, n))
  {
    EnqueueKeepsPlaced(q, p, rq, soft, n);
    EnqueueKeepsSequenced(q, p, rq, soft, n);
  }

  lemma AppendKeeps(q: Queue, rq: Rq)
    requires Inv(q) && rq !in q.queue && rq !in q.elevator && rq !in q.issued
    requires rq.Special? || (rq.Fs? && !rq.barrier && rq.epoch == |q.barriers|)
    requires Stamped(q.nextId + 1, q.barriers, rq)
    ensures Inv(Enqueued(q, |q.queue|, rq, q.soft + {rq}, q.nextId + 1))
  {
    AppendArranged(q, rq);
    EnqueueKeeps(q, |q.queue|, rq, q.soft + {rq}, q.nextId + 1);
  }

  /** A number not given out yet belongs to no request. */
  lemma FreshNumber(q: Queue, rq: Rq)
    requires QueueOk(q) && ElevatorOk(q) && IssuedOk(q) && (rq.Fs? || rq.Special?) && rq.id == q.nextId
    ensures rq !in q.queue && rq !in q.elevator && rq !in q.issued
  {
  }

  lemma NewStamped(q: Queue, rq: Rq)
    requires Placed(q) && (rq == NewFs(q, false, rq.Fs? && rq.empty) || rq == Special(q.nextId))
    ensures Stamped(q.nextId + 1, q.barriers, rq)
  {
  }

  lemma AddBackKeeps(q: Queue, empty: bool)
    requires Inv(q) && Enabled(q, AddBack(empty))
    ensures Inv(Step(q, AddBack(empty)))
  {
    var rq := NewFs(q, false, empty);
    FreshNumber(q, rq);
    NewStamped(q, rq);
    AppendKeeps(q, rq);
  }

  lemma AddSpecialKeeps(q: Queue, front: bool)
    requires Inv(q) && Enabled(q, AddSpecial(front))
    ensures Inv(Step(q, AddSpecial(front)))
  {
    var rq := Special(q.nextId);
    NewSpecial(q, rq);
    if front {
      FrontSpecialKeeps(q, rq);
    } else {
      AppendKeeps(q, rq);
    }
  }

  lemma FrontSpecialKeeps(q: Queue, rq: Rq)
    requires Inv(q) && rq == Special(q.nextId)
    requires rq !in q.queue && rq !in q.elevator && rq !in q.issued && Stamped(q.nextId + 1, q.barriers, rq)
    ensures Inv(Enqueued(q, 0, rq, q.soft + {rq}, q.nextId + 1))
  {
    FrontKeeps(q, rq, q.nextId + 1);
  }

  lemma NewSpecial(q: Queue, rq: Rq)
    requires Placed(q) && rq == Special(q.nextId)
    ensures rq !in q.queue && rq !in q.elevator && rq !in q.issued && Stamped(q.nextId + 1, q.barriers, rq)
  {
    FreshNumber(q, rq);
    NewStamped(q, rq);
  }

  lemma FrontKeeps(q: Queue, rq: Rq, n: nat)
    requires Inv(q) && rq !in q.queue && rq !in q.elevator && rq !in q.issued && q.nextId <= n
    requires rq.Special? || (rq.Fs? && !rq.barrier && rq.epoch == Epoch(q))
    requires Stamped(n, q.barriers, rq)
    requires Running(q) && rq.Fs? ==> DRAIN !in q.ordseq
    ensures Inv(Enqueued(q, 0, rq, q.soft + {rq}, n))
  {
    FrontArranged(q, rq);
    EnqueueKeeps(q, 0, rq, q.soft + {rq}, n);
  }

  lemma FrontArranged(q: Queue, rq: Rq)
    requires Placed(q) && rq !in q.queue && (rq.Special? || (rq.Fs? && !rq.barrier && rq.epoch == Epoch(q)))
    ensures Arranged(Epoch(q), Insert(q.queue, 0, rq))
  {
    forall i | 0 <= i < |q.queue| ensures Before(Epoch(q), rq, q.queue[i]) {
      assert q.queue[i] in q.queue;
    }
    InsertArranged(Epoch(q), q.queue, 0, rq);
  }

  lemma StampedGrows(n: nat, bs: seq<Rq>, b: Rq, rq: Rq)
    requires Stamped(n, bs, rq) && b.Fs? && b.id == n && b.epoch == |bs|
    ensures Stamped(n + 1, bs + [b], rq)
  {
  }

  lemma BarrierListed(n: nat, bs: seq<Rq>, b: Rq)
    requires Listed(n, bs) && b.Fs? && b.id == n && b.epoch == |bs| && b.barrier && b.color == (|bs| % 2 == 1)
    ensures Listed(n + 1, bs + [b]) && Stamped(n + 1, bs + [b], b)
  {
    var bs' := bs + [b];
    forall e | 0 <= e < |bs'| ensures bs'[e].Fs? && bs'[e].barrier && bs'[e].epoch == e && Stamped(n + 1, bs', bs'[e]) {
      if e < |bs| {
        StampedGrows(n, bs, b, bs[e]);
      }
    }
  }

  /** The back insertion of a new barrier, elevator empty. */
  function WithBarrier(q: Queue, b: Rq): Queue {
    Enqueued(q, |q.queue|, b, q.soft + {b}, q.nextId + 1).(ordcolor := !q.ordcolor, barriers := q.barriers + [b])
  }

  ghost predicate NewBarrier(q: Queue, b: Rq) {
    && b.Fs? && b.id == q.nextId && b.epoch == |q.barriers| && b.barrier && b.color == (|q.barriers| % 2 == 1)
    && b !in q.queue && b !in q.issued && q.elevator == {}
  }

  lemma WithBarrierStamped(q: Queue, b: Rq)
    requires QueueOk(q) && IssuedOk(q) && Listed(q.nextId, q.barriers) && NewBarrier(q, b) && Epoch(q) <= |q.barriers|
    ensures var q' := WithBarrier(q, b); QueueOk(q') && IssuedOk(q') && ElevatorOk(q') && Listed(q'.nextId, q'.barriers)
  {
    BarrierListed(q.nextId, q.barriers, b);
    InsertMembers(q.queue, |q.queue|, b);
    forall rq | Stamped(q.nextId, q.barriers, rq) ensures Stamped(q.nextId + 1, q.barriers + [b], rq) {
      StampedGrows(q.nextId, q.barriers, b, rq);
    }
  }

  lemma WithBarrierPending(q: Queue, b: Rq)
    requires PendingOk(q)
    ensures PendingOk(WithBarrier(q, b))
  {
    InsertMembers(q.queue, |q.queue|, b);
  }

  lemma WithBarrierSequenced(q: Queue, b: Rq)
    requires Sequenced(q) && NewBarrier(q, b) && (Running(q) ==> b != q.orig)
    ensures Sequenced(WithBarrier(q, b))
  {
    InsertMembers(q.queue, |q.queue|, b);
  }

  lemma WithBarrierEnded(q: Queue, b: Rq)
    requires EndedWell(q)
    ensures EndedWell(WithBarrier(q, b))
  {
    var q' := WithBarrier(q, b);
    assert q'.ended == q.ended;
    forall e | 0 <= e < |q'.ended| ensures EndedInTurn(q'.barriers, q'.ended[e], e) {
      assert EndedInTurn(q.barriers, q.ended[e], e);
    }
  }

  lemma WithBarrierPlaced(q: Queue, b: Rq)
    requires Placed(q) && NewBarrier(q, b) && Arranged(Epoch(q), Insert(q.queue, |q.queue|, b))
    ensures Placed(WithBarrier(q, b))
  {
    WithBarrierStamped(q, b);
    WithBarrierPending(q, b);
  }

  lemma NewBarrierFits(q: Queue, b: Rq)
    requires Inv(q) && q.elevator == {} && b == NewFs(q, true, b.Fs? && b.empty)
    ensures NewBarrier(q, b) && Arranged(Epoch(q), Insert(q.queue, |q.queue|, b)) && (Running(q) ==> b != q.orig)
  {
    FreshNumber(q, b);
    AppendArranged(q, b);
    assert Running(q) ==> Stamped(q.nextId, q.barriers, q.orig);
  }

  lemma AddBarrierKeeps(q: Queue, empty: bool)
    requires Inv(q) && Enabled(q, AddBarrier(empty))
    ensures Inv(Step(q, AddBarrier(empty)))
  {
    var b := NewFs(q, true, empty);
    NewBarrierFits(q, b);
    WithBarrierPlaced(q, b);
    WithBarrierSequenced(q, b);
    WithBarrierEnded(q, b);
  }

  lemma DispatchKeeps(q: Queue, rq: Rq, pos: nat)
    requires Inv(q) && Enabled(q, Dispatch(rq, pos))
    ensures Inv(Step(q, Dispatch(rq, pos)))
  {
    var q0 := q.(elevator := q.elevator - {rq});
    assert Inv(q0);
    DispatchArranged(q, rq, pos);
    assert Running(q) ==> |q.barriers| > Epoch(q);
    EnqueueKeeps(q0, pos, rq, q.soft, q.nextId);
  }

  /** A request sorted in behind the last stop is arranged: what it may pass is of its own
      epoch. */
  lemma DispatchArranged(q: Queue, rq: Rq, pos: nat)
    requires Inv(q) && Enabled(q, Dispatch(rq, pos))
    ensures Arranged(Epoch(q), Insert(q.queue, pos, rq))
  {
    forall i | 0 <= i < pos ensures Before(Epoch(q), q.queue[i], rq) {
      assert q.queue[i] in q.queue;
    }
    forall i | pos <= i < |q.queue| ensures Before(Epoch(q), rq, q.queue[i]) {
      PassedIsCurrent(q, pos, i);
    }
    InsertArranged(Epoch(q), q.queue, pos, rq);
  }

  lemma BarrierBehind(e: nat, s: seq<Rq>, i: nat, j: nat)
    requires Arranged(e, s) && i < |s| && j < |s| && s[i].Fs? && s[j].Fs?
    requires s[j].barrier && s[i].epoch <= s[j].epoch
    ensures i <= j
  {
  }

  lemma StopBehind(q: Queue, i: nat)
    requires Inv(q) && i < |q.queue| && q.queue[i].Fs? && q.queue[i].epoch < |q.barriers|
    ensures exists j :: i <= j < |q.queue| && Stops(q, q.queue[j])
  {
    var x := q.queue[i];
    assert x in q.queue;
    if Running(q) && x.epoch == Epoch(q) {
      assert Stops(q, q.queue[i]);
    } else {
      var b := q.barriers[x.epoch];
      assert b in q.queue;
      var j :| 0 <= j < |q.queue| && q.queue[j] == b;
      BarrierBehind(Epoch(q), q.queue, i, j);
      assert Stops(q, q.queue[j]);
    }
  }

  lemma PassedIsCurrent(q: Queue, pos: nat, i: nat)
    requires Inv(q) && pos <= i < |q.queue| && forall j :: pos <= j < |q.queue| ==> !Stops(q, q.queue[j])
    ensures q.queue[i].Fs? ==> !q.queue[i].barrier && q.queue[i].epoch == |q.barriers|
    ensures q.queue[i] in q.queue && !IsStage(q.queue[i])
  {
    assert q.queue[i] in q.queue;
    if q.queue[i].Fs? && q.queue[i].epoch < |q.barriers| {
      StopBehind(q, i);
    }
  }

  lemma MergeAwayKeeps(q: Queue, rq: Rq)
    requires Inv(q) && Enabled(q, MergeAway(rq))
    ensures Inv(Step(q, MergeAway(rq)))
  {
    var q0 := q.(elevator := q.elevator - {rq});
    assert Inv(q0);
    ElvCompletedKeeps(q0);
  }

  lemma BarrierErrorKeeps(q: Queue, error: int)
    requires Inv(q) && Enabled(q, BarrierError(error))
    ensures Inv(Step(q, BarrierError(error)))
  {
    var q' := Step(q, BarrierError(error));
    assert Placed(q');
    assert SequencedCore(q');
  }

  /** The WARN_ON cannot fire. */
  lemma NeverWarned(q: Queue)
    requires Inv(q) && q.queue != []
    ensures Warned(q) == q
  {
    assert q.queue[0] in q.queue;
    if Running(q) && q.queue[0].Fs? {
      ColorTells(q, 0);
    }
  }

  /** What the head must be when it is let through while a sequence is in progress. */
  lemma HeadIssuable(q: Queue)
    requires Inv(q) && Running(q) && q.queue != [] && MayIssue(q)
    ensures IsStage(q.queue[0]) ==> StageSeq(q.queue[0]) == CurSeq(q.ordseq) && DRAIN in q.ordseq
    ensures q.queue[0].Fs? ==> !q.queue[0].barrier && q.queue[0].epoch == Epoch(q) && DRAIN !in q.ordseq
  {
    assert q.queue[0] in q.queue;
    if q.queue[0].Fs? {
      ColorTells(q, 0);
    }
  }

  lemma DeferKeeps(q: Queue)
    requires Inv(q) && Enabled(q, Defer)
    ensures Inv(Step(q, Defer))
  {
    NeverWarned(q);
    var q' := Step(q, Defer);
    assert Placed(q');
    assert Sequenced(q');
  }

  function Issued(q: Queue): Queue
    requires q.queue != []
  {
    var rq := q.queue[0];
    q.(queue := q.queue[1..], issued := q.issued + {rq}, started := q.started + {rq},
       inFlight := if Accounted(rq) then q.inFlight + 1 else q.inFlight)
  }

  lemma IssueKeeps(q: Queue)
    requires Inv(q) && Enabled(q, Issue)
    ensures Inv(Step(q, Issue))
  {
    NeverWarned(q);
    assert q.queue[0] in q.queue;
    if Running(q) { HeadIssuable(q); } else if q.queue[0].Fs? { HeadEpochIdle(q); }
    IssueKeepsPlaced(q);
    IssueKeepsSequenced(q);
  }

  lemma AccountedGrows(issued: set<Rq>, rq: Rq)
    requires rq !in issued
    ensures |AccountedIn(issued + {rq})| == |AccountedIn(issued)| + if Accounted(rq) then 1 else 0
  {
    assert AccountedIn(issued + {rq}) == AccountedIn(issued) + if Accounted(rq) then {rq} else {};
  }

  lemma IssueKeepsPlaced(q: Queue)
    requires Placed(q) && q.queue != []
    requires q.queue[0].Fs? ==> !q.queue[0].barrier && q.queue[0].epoch == Epoch(q)
    ensures Placed(Issued(q))
  {
    var rq := q.queue[0];
    assert rq in q.queue;
    var q' := Issued(q);
    assert Arranged(Epoch(q), q.queue[1..]) && q'.inFlight == |AccountedIn(q'.issued)| by {
      TailMembers(Epoch(q), q.queue);
      AccountedGrows(q.issued, rq);
    }
    assert PendingOk(q') && QueueOk(q') by {
      TailMembers(Epoch(q), q.queue);
      forall e | 0 <= e < |q.barriers| ensures q.barriers[e] != rq {}
    }
  }

  lemma IssueKeepsSequenced(q: Queue)
    requires Inv(q) && Enabled(q, Issue)
    ensures Sequenced(Issued(q))
  {
    assert q.queue[0] in q.queue;
    TailMembers(Epoch(q), q.queue);
    if Running(q) { HeadIssuable(q); }
  }

  // ----- Completing and requeueing -----

  lemma ReleaseKeepsPlaced(q: Queue, rq: Rq)
    requires Placed(q) && rq in q.issued
    ensures Placed(Release(q, rq))
  {
    assert AccountedIn(q.issued - {rq}) == AccountedIn(q.issued) - {rq};
  }

  lemma ReleaseKeeps(q: Queue, rq: Rq)
    requires Inv(q) && rq in q.issued && !IsStage(rq)
    ensures Inv(Release(q, rq))
  {
    ReleaseKeepsPlaced(q, rq);
  }

  lemma CompleteKeeps(q: Queue, rq: Rq, error: int)
    requires Inv(q) && rq in q.issued
    ensures Inv(Step(q, Complete(rq, error)))
  {
    if IsStage(rq) {
      CompleteStageKeeps(q, rq, error);
    } else {
      ReleaseKeeps(q, rq);
      ElvCompletedKeeps(Release(q, rq));
    }
  }

  /** Once its bit is set, a released stage is accounted for. */
  lemma StageReleased(q: Queue, rq: Rq, error: int)
    requires SequencedCore(q) && rq in q.issued && rq !in q.queue && IsStage(rq)
    ensures Ready(Release(q, rq), {StageSeq(rq)})
    ensures StagesReady(SetBits(Release(q, rq), {StageSeq(rq)}, error))
    ensures ElvCompleted(Release(q, rq)) == Release(q, rq)
  {
    assert rq == PreFlush || rq == Bar || rq == PostFlush;
  }

  lemma CompleteStageKeeps(q: Queue, rq: Rq, error: int)
    requires Placed(q) && SequencedCore(q) && EndedWell(q) && rq in q.issued && IsStage(rq)
    ensures Inv(Step(q, Complete(rq, error)))
  {
    StageReleased(q, rq, error);
    ReleaseKeepsPlaced(q, rq);
    CompleteSeqKeeps(Release(q, rq), {StageSeq(rq)}, error);
  }

  /** A requeued request that is not a stage goes to the front, sequence or not. */
  lemma RequeuedInFront(q: Queue, rq: Rq)
    requires Placed(q) && Sequenced(q) && rq in q.issued && !IsStage(rq)
    ensures Step(q, Requeue(rq)) == Enqueued(Release(q, rq), 0, rq, q.soft + {rq}, q.nextId)
  {
    assert Running(q) && rq.Fs? ==> Stamped(q.nextId, q.barriers, q.orig) && Stamped(q.nextId, q.barriers, rq);
  }

  lemma RequeueKeeps(q: Queue, rq: Rq)
    requires Inv(q) && rq in q.issued
    ensures Inv(Step(q, Requeue(rq)))
  {
    if IsStage(rq) {
      RequeueStageKeeps(q, rq);
    } else {
      RequeuedInFront(q, rq);
      ReleaseKeeps(q, rq);
      FrontKeeps(Release(q, rq), rq, q.nextId);
    }
  }

  /** A requeued stage goes back in front of the later stages and of every request that came
      after the barrier. */
  lemma RequeueStageArranged(q: Queue, rq: Rq)
    requires Inv(q) && rq in q.issued && IsStage(rq)
    ensures Arranged(Epoch(q), Insert(q.queue, RequeuePos(q.orig, q.queue, rq, 0), rq))
  {
    var q1 := Release(q, rq);
    var p := RequeuePos(q.orig, q.queue, rq, 0);
    forall i | 0 <= i < p ensures Before(Epoch(q), q.queue[i], rq) {
      assert q.queue[i] in q.queue;
      if q.queue[i].Fs? {
        ColorTells(q, i);
      }
    }
    forall i | p <= i < |q.queue| ensures Before(Epoch(q), rq, q.queue[i]) {
      assert q.queue[i] in q.queue;
    }
    InsertArranged(Epoch(q), q.queue, p, rq);
  }

  lemma RequeueStagePlaced(q: Queue, p: nat, rq: Rq)
    requires Placed(q) && p <= |q.queue| && IsStage(rq) && rq !in q.elevator && rq !in q.issued
    requires Arranged(Epoch(q), Insert(q.queue, p, rq))
    ensures Placed(Enqueued(q, p, rq, q.soft + {rq}, q.nextId))
  {
    InsertMembers(q.queue, p, rq);
  }

  lemma RequeueStageSequenced(q: Queue, p: nat, rq: Rq)
    requires SequencedCore(q) && CurSeq(q.ordseq) != DONE && p <= |q.queue| && IsStage(rq) && rq in q.issued
    requires !q.orig.PreFlush? && !q.orig.Bar? && !q.orig.PostFlush?
    ensures Sequenced(Enqueued(Release(q, rq), p, rq, q.soft + {rq}, q.nextId))
  {
    var q' := Enqueued(Release(q, rq), p, rq, q.soft + {rq}, q.nextId);
    InsertMembers(q.queue, p, rq);
    assert rq == PreFlush || rq == Bar || rq == PostFlush;
    assert StageIs(q', PreFlush) && StageIs(q', Bar) && StageIs(q', PostFlush);
  }

  lemma RequeueStageKeeps(q: Queue, rq: Rq)
    requires Inv(q) && rq in q.issued && IsStage(rq)
    ensures Inv(Step(q, Requeue(rq)))
  {
    assert Running(q) && rq !in q.elevator;
    var q1 := Release(q, rq);
    var p := RequeuePos(q.orig, q.queue, rq, 0);
    var q' := Enqueued(q1, p, rq, q.soft + {rq}, q.nextId);
    assert Step(q, Requeue(rq)) == q';
    assert Placed(q') by {
      ReleaseKeepsPlaced(q, rq);
      RequeueStageArranged(q, rq);
      RequeueStagePlaced(q1, p, rq);
    }
    assert Sequenced(q') by {
      RequeueStageSequenced(q, p, rq);
    }
  }

  // ----- Starting a sequence -----

  lemma StagesAre(q: Queue, rq: Rq)
    requires rq.Fs?
    ensures forall x :: x in Stages(q, rq) <==>
              (x == PreFlush && q.doPreflush) || (x == Bar && !rq.empty)
                  || (x == PostFlush && q.doPostflush && !rq.empty)
    ensures forall e :: Arranged(e, Stages(q, rq))
  {
  }

  lemma StackedArranged(e: nat, stages: seq<Rq>, s: seq<Rq>)
    requires Arranged(e, stages) && Arranged(e, s)
    requires forall x :: x in stages ==> IsStage(x)
    requires forall x :: x in s ==> !IsStage(x) && (x.Fs? ==> x.epoch > e)
    ensures Arranged(e, stages + s)
  {
    var r := stages + s;
    forall i, j | 0 <= i < j < |r| ensures Before(e, r[i], r[j]) {
      assert i < |stages| ==> r[i] in stages;
      assert j >= |stages| ==> r[j] in s;
    }
  }

  /** With no sequence in progress, a barrier at the head is the next one to be served, and
      everything behind it comes after it. */
  lemma HeadBarrier(q: Queue)
    requires Placed(q) && Enabled(q, StartBarrier)
    ensures Epoch(q) < |q.barriers| && q.queue[0] == q.barriers[Epoch(q)] && q.queue[0] !in q.queue[1..]
    ensures forall x :: x in q.queue[1..] && x.Fs? ==> x.epoch > Epoch(q)
  {
    assert q.queue[0] in q.queue;
    HeadEpochIdle(q);
    TailMembers(Epoch(q), q.queue);
  }

  lemma StackedPlaced(q: Queue, stages: seq<Rq>)
    requires Placed(q) && NoStages(q) && Enabled(q, StartBarrier)
    requires Arranged(Epoch(q), stages) && forall x :: x in stages ==> IsStage(x)
    ensures Placed(StackWith(q, stages))
  {
    HeadBarrier(q);
    assert forall x :: x in q.queue[1..] ==> x in q.queue;
    TailMembers(Epoch(q), q.queue);
    StackedArranged(Epoch(q), stages, q.queue[1..]);
  }

  lemma NoneInFlight(q: Queue, rq: Rq)
    requires q.inFlight == |AccountedIn(q.issued)| && q.inFlight == 0 && rq in q.issued
    ensures !Accounted(rq)
  {
    assert Accounted(rq) ==> rq in AccountedIn(q.issued);
  }

  /** A bit is skipped exactly when its request was not stacked. */
  lemma SkippedAre(q: Queue, rq: Rq)
    requires rq.Fs?
    ensures PREFLUSH in Skipped(q, rq) <==> PreFlush !in Stages(q, rq)
    ensures BAR in Skipped(q, rq) <==> Bar !in Stages(q, rq)
    ensures POSTFLUSH in Skipped(q, rq) <==> PostFlush !in Stages(q, rq)
    ensures DRAIN in Skipped(q, rq) <==> q.inFlight == 0
    ensures Skipped(q, rq) <= {DRAIN, PREFLUSH, BAR, POSTFLUSH}
  {
    StagesAre(q, rq);
  }

  lemma StackedStages(q: Queue, stages: seq<Rq>, bits: set<nat>)
    requires NoStages(q) && q.ordseq == {} && q.queue != []
    requires PREFLUSH in bits <==> PreFlush !in stages
    requires BAR in bits <==> Bar !in stages
    requires POSTFLUSH in bits <==> PostFlush !in stages
    ensures var q1 := SetBits(StackWith(q, stages), bits, 0);
            StageIs(q1, PreFlush) && StageIs(q1, Bar) && StageIs(q1, PostFlush)
  {
    assert forall x :: x in q.queue[1..] ==> x in q.queue;
  }

  lemma StackedDrain(q: Queue, stages: seq<Rq>, bits: set<nat>)
    requires q.queue != [] && q.ordseq == {} && q.inFlight == |AccountedIn(q.issued)|
    requires forall s :: s in stages ==> IsStage(s)
    requires forall x :: x in q.queue[1..] && x.Fs? ==> x.epoch > Epoch(q)
    requires DRAIN in bits ==> q.inFlight == 0
    ensures DrainOk(SetBits(StackWith(q, stages), bits, 0))
  {
    if q.inFlight == 0 {
      forall rq | rq in q.issued ensures !rq.Fs? {
        NoneInFlight(q, rq);
      }
    }
  }

  lemma StackedReady(q: Queue, stages: seq<Rq>, bits: set<nat>)
    requires Placed(q) && NoStages(q) && Enabled(q, StartBarrier)
    requires forall s :: s in stages ==> IsStage(s)
    requires bits <= {DRAIN, PREFLUSH, BAR, POSTFLUSH}
    ensures Ready(StackWith(q, stages), bits)
  {
    HeadBarrier(q);
  }

  lemma StartKeeps(q: Queue)
    requires Inv(q) && Enabled(q, StartBarrier)
    ensures Inv(Step(q, StartBarrier))
  {
    var stages := Stages(q, q.queue[0]);
    var skipped := Skipped(q, q.queue[0]);
    StagesAre(q, q.queue[0]);
    SkippedAre(q, q.queue[0]);
    StartKeepsWith(q, stages, skipped);
  }

  lemma StartKeepsWith(q: Queue, stages: seq<Rq>, bits: set<nat>)
    requires Inv(q) && Enabled(q, StartBarrier)
    requires Arranged(Epoch(q), stages) && forall x :: x in stages ==> IsStage(x)
    requires bits <= {DRAIN, PREFLUSH, BAR, POSTFLUSH} && (DRAIN in bits ==> q.inFlight == 0)
    requires PREFLUSH in bits <==> PreFlush !in stages
    requires BAR in bits <==> Bar !in stages
    requires POSTFLUSH in bits <==> PostFlush !in stages
    ensures Inv(CompleteSeq(StackWith(q, stages), bits, 0))
  {
    HeadBarrier(q);
    StackedPlaced(q, stages);
    StackedReady(q, stages, bits);
    StackedStages(q, stages, bits);
    StackedDrain(q, stages, bits);
    CompleteSeqKeeps(StackWith(q, stages), bits, 0);
  }

  lemma StagesHead(q: Queue, rq: Rq)
    requires rq.Fs?
    ensures Stages(q, rq) == [] <==> !q.doPreflush && rq.empty
    ensures Stages(q, rq) != [] ==> Stages(q, rq)[0] == if q.doPreflush then PreFlush else Bar
  {
  }

  lemma CurSkipped(q: Queue, rq: Rq)
    requires rq.Fs?
    ensures CurSeq({STARTED} + Skipped(q, rq)) ==
            if q.inFlight != 0 then DRAIN
            else if q.doPreflush then PREFLUSH
            else if !rq.empty then BAR
            else DONE
  {
    SkippedAre(q, rq);
    StagesAre(q, rq);
  }

  /** When nothing is in flight, the first request stacked may be issued at once; the
      sequence is over at once exactly when nothing was stacked either. */
  lemma StartedHead(q: Queue)
    requires Enabled(q, StartBarrier)
    ensures var q' := Step(q, StartBarrier); var stages := Stages(q, q.queue[0]);
            && q'.queue == stages + q.queue[1..]
            && (CurSeq({STARTED} + Skipped(q, q.queue[0])) == DONE <==> stages == [] && q.inFlight == 0)
            && (q.inFlight == 0 && stages != [] ==> q'.queue != [] && q'.queue[0] == stages[0] && MayIssue(q'))
  {
    StagesHead(q, q.queue[0]);
    CurSkipped(q, q.queue[0]);
    var stages, skipped := Stages(q, q.queue[0]), Skipped(q, q.queue[0]);
    StartedHeadWith(q, stages, skipped);
  }

  lemma StartedHeadWith(q: Queue, stages: seq<Rq>, bits: set<nat>)
    requires q.queue != [] && q.ordseq == {}
    ensures var q' := CompleteSeq(StackWith(q, stages), bits, 0);
            && q'.queue == stages + q.queue[1..]
            && (stages != [] && IsStage(stages[0]) && CurSeq({STARTED} + bits) == StageSeq(stages[0])
                ==> q'.queue != [] && q'.queue[0] == stages[0] && MayIssue(q'))
  {
  }

  // ----- Every run -----

  lemma StepKeeps(q: Queue, e: Event)
    requires Inv(q) && Enabled(q, e)
    ensures Inv(Step(q, e))
  {
    match e
    case AddSorted(empty) => AddSortedKeeps(q, empty);
    case AddBack(empty) => AddBackKeeps(q, empty);
    case AddBarrier(empty) => AddBarrierKeeps(q, empty);
    case AddSpecial(front) => AddSpecialKeeps(q, front);
    case Dispatch(rq, pos) => DispatchKeeps(q, rq, pos);
    case MergeAway(rq) => MergeAwayKeeps(q, rq);
    case StartBarrier => StartKeeps(q);
    case Issue => IssueKeeps(q);
    case Defer => DeferKeeps(q);
    case Refuse => NeverWarned(q);
    case Complete(rq, error) => CompleteKeeps(q, rq, error);
    case BarrierError(error) => BarrierErrorKeeps(q, error);
    case Requeue(rq) => RequeueKeeps(q, rq);
  }

  /** The states of a run, one more than its events: each event is enabled where it occurs. */
  ghost predicate IsRun(states: seq<Queue>, events: seq<Event>) {
    && |states| == |events| + 1
    && (exists pre, post :: states[0] == Init(pre, post))
    && (forall k :: 0 <= k < |events| ==> Enabled(states[k], events[k]) && states[k + 1] == Step(states[k], events[k]))
  }

  lemma {:induction false} RunKeeps(states: seq<Queue>, events: seq<Event>, k: nat)
    requires IsRun(states, events) && k < |states|
    ensures Inv(states[k])
  {
    if k > 0 {
      RunKeeps(states, events, k - 1);
      StepKeeps(states[k - 1], events[k - 1]);
      assert states[k - 1 + 1] == Step(states[k - 1], events[k - 1]);
    }
  }

  ghost predicate InSystem(q: Queue, rq: Rq) {
    rq in q.queue || rq in q.elevator || rq in q.issued
  }

  /** Over every run: when a stage of a barrier is issued, every earlier stage has completed
      (or was skipped) and no file system request that came before the barrier is queued or
      in flight. */
  lemma StageIssuedInTurn(states: seq<Queue>, events: seq<Event>, k: nat)
    requires IsRun(states, events) && k < |events| && events[k] == Issue && IsStage(states[k].queue[0])
    ensures var q := states[k];
            && q.orig.Fs? && q.orig.barrier && |q.ended| < |q.barriers| && q.orig == q.barriers[|q.ended|]
            && (forall s :: 0 <= s < StageSeq(q.queue[0]) ==> s in q.ordseq)
            && (forall rq :: rq in q.issued ==> !IsStage(rq))
            && (forall rq :: InSystem(q, rq) && rq.Fs? ==> rq.id > q.orig.id)
  {
    var q := states[k];
    RunKeeps(states, events, k);
    assert q.queue[0] in q.queue;
    HeadIssuable(q);
    assert Stamped(q.nextId, q.barriers, q.orig);
  }

  /** Over every run: when a file system request is issued, every barrier that came before it
      has ended; in particular none passes a barrier whose sequence is still in progress. */
  lemma FsIssuedAfterBarriers(states: seq<Queue>, events: seq<Event>, k: nat)
    requires IsRun(states, events) && k < |events| && events[k] == Issue && states[k].queue[0].Fs?
    ensures var q := states[k];
            && !q.queue[0].barrier
            && (forall e :: 0 <= e < |q.barriers| && q.barriers[e].Fs? && q.barriers[e].id < q.queue[0].id
                    ==> e < |q.ended|)
            && (q.ordseq != {} ==> q.orig.Fs? && q.queue[0].id < q.orig.id && CurSeq(q.ordseq) == DRAIN)
  {
    var q := states[k];
    RunKeeps(states, events, k);
    assert q.queue[0] in q.queue;
    if Running(q) {
      HeadIssuable(q);
      assert Stamped(q.nextId, q.barriers, q.orig);
    } else {
      HeadEpochIdle(q);
    }
  }

  /** Over every run: no BUG_ON and no WARN_ON fires, barriers end in the order they were
      added, each once, with the first error its sequence reported, and with every bit of
      the sequence set exactly once. */
  lemma BarriersEndOnce(states: seq<Queue>, events: seq<Event>, k: nat)
    requires IsRun(states, events) && k < |states|
    ensures var q := states[k];
            && !q.broken && |q.ended| <= |q.barriers|
            && (forall e :: 0 <= e < |q.ended| ==>
                  && q.ended[e].rq == q.barriers[e]
                  && q.ended[e].error == FirstOf(q.ended[e].reports)
                  && q.ended[e].bits == multiset{STARTED, DRAIN, PREFLUSH, BAR, POSTFLUSH})
            && (forall d, e :: 0 <= d < e < |q.barriers| ==> q.barriers[d] != q.barriers[e])
            && q.inFlight == |set rq | rq in q.issued && Accounted(rq)|
  {
    RunKeeps(states, events, k);
  }

  // ----- A sequence never stalls -----

  /** Requests of other types are queued as soft barriers, and a queue that drains with nothing
      issued has a request at its head that may go. */
  ghost predicate Live(q: Queue) {
    && SoftOk(q.queue, q.soft)
    && (Running(q) && DRAIN !in q.ordseq && q.issued == {} ==> HeadMayDrain(q))
  }

  ghost predicate SoftOk(s: seq<Rq>, soft: set<Rq>) {
    forall rq :: rq in s && rq.Special? ==> rq in soft
  }

  predicate HeadMayDrain(q: Queue) {
    q.queue != [] && ReqSeq(q.orig, q.queue[0]) <= DRAIN
  }

  /** The head of a queue that may drain stays the head: nothing is sorted in before it. */
  lemma HeadStops(q: Queue)
    requires Inv(q) && Live(q) && Running(q) && HeadMayDrain(q)
    ensures Stops(q, q.queue[0])
  {
    assert q.queue[0] in q.queue;
    if q.queue[0].Fs? {
      ColorTells(q, 0);
    }
  }

  lemma InsertLive(q: Queue, p: nat, rq: Rq, soft: set<Rq>, n: nat)
    requires Live(q) && p <= |q.queue| && q.soft <= soft && (rq.Special? ==> rq in soft)
    requires Running(q) && HeadMayDrain(q) && p == 0 ==> ReqSeq(q.orig, rq) <= DRAIN
    ensures Live(Enqueued(q, p, rq, soft, n))
  {
    InsertMembers(q.queue, p, rq);
    var r := Insert(q.queue, p, rq);
    assert r[0] == if p == 0 then rq else q.queue[0];
  }

  lemma DispatchLive(q: Queue, rq: Rq, pos: nat)
    requires Inv(q) && Live(q) && Enabled(q, Dispatch(rq, pos))
    ensures Live(Step(q, Dispatch(rq, pos)))
  {
    if Running(q) && HeadMayDrain(q) {
      HeadStops(q);
    }
    InsertLive(q.(elevator := q.elevator - {rq}), pos, rq, q.soft, q.nextId);
  }

  /** Setting the drain bit, or closing the sequence, leaves nothing to wait for. */
  lemma ElvCompletedLive(q: Queue)
    requires SoftOk(q.queue, q.soft) && (Running(q) ==> STARTED in q.ordseq)
    requires q.issued == {} ==> q.inFlight == 0
    ensures Live(ElvCompleted(q))
  {
  }

  lemma NoneAccounted(q: Queue)
    requires Placed(q) && q.issued == {}
    ensures q.inFlight == 0
  {
    assert AccountedIn(q.issued) == {};
  }

  lemma StackedSoft(s: seq<Rq>, stages: seq<Rq>, soft: set<Rq>)
    requires s != [] && SoftOk(s, soft) && forall x :: x in stages ==> IsStage(x)
    ensures SoftOk(stages + s[1..], soft)
  {
  }

  /** A sequence that waits for the drain right after it was started has something issued. */
  lemma StackedLive(q: Queue, stages: seq<Rq>, bits: set<nat>)
    requires q.queue != [] && q.ordseq == {} && SoftOk(stages + q.queue[1..], q.soft)
    requires DRAIN !in bits ==> q.issued != {}
    ensures Live(CompleteSeq(StackWith(q, stages), bits, 0))
  {
  }

  lemma StartLive(q: Queue)
    requires Placed(q) && Live(q) && Enabled(q, StartBarrier)
    ensures Live(Step(q, StartBarrier))
  {
    var stages, bits := Stages(q, q.queue[0]), Skipped(q, q.queue[0]);
    StagesAre(q, q.queue[0]);
    SkippedAre(q, q.queue[0]);
    StackedSoft(q.queue, stages, q.soft);
    if q.issued == {} {
      NoneAccounted(q);
    }
    StackedLive(q, stages, bits);
  }

  lemma ReleasedLive(q: Queue, rq: Rq)
    requires Placed(q) && Sequenced(q) && Live(q) && rq in q.issued
    ensures Live(ElvCompleted(Release(q, rq)))
  {
    var q0 := Release(q, rq);
    ReleaseKeepsPlaced(q, rq);
    if q0.issued == {} {
      NoneAccounted(q0);
    }
    ElvCompletedLive(q0);
  }

  lemma StageSetLive(q: Queue, bits: set<nat>, error: int)
    requires Live(q) && Running(q)
    ensures Live(CompleteSeq(q, bits, error))
  {
  }

  /** When a stage is issued, the drain is over. */
  lemma StageRuns(q: Queue, rq: Rq)
    requires Sequenced(q) && rq in q.issued && IsStage(rq)
    ensures Running(q) && DRAIN in q.ordseq && ElvCompleted(Release(q, rq)) == Release(q, rq)
  {
    assert Running(q) ==> StageIs(q, rq);
  }

  lemma CompleteLive(q: Queue, rq: Rq, error: int)
    requires Inv(q) && Live(q) && rq in q.issued
    ensures Live(Step(q, Complete(rq, error)))
  {
    ReleasedLive(q, rq);
    if IsStage(rq) {
      StageRuns(q, rq);
      StageSetLive(Release(q, rq), {StageSeq(rq)}, error);
    }
  }

  lemma InsertSoft(s: seq<Rq>, p: nat, rq: Rq, soft: set<Rq>)
    requires SoftOk(s, soft) && p <= |s|
    ensures SoftOk(Insert(s, p, rq), soft + {rq})
  {
    InsertMembers(s, p, rq);
  }

  /** An issued request that is not a stage drains. */
  lemma IssuedDrains(q: Queue, rq: Rq)
    requires Placed(q) && Sequenced(q) && Running(q) && rq in q.issued && !IsStage(rq)
    ensures ReqSeq(q.orig, rq) <= DRAIN
  {
    assert Stamped(q.nextId, q.barriers, q.orig) && Stamped(q.nextId, q.barriers, rq);
  }

  lemma FrontLive(q: Queue, rq: Rq, n: nat)
    requires SoftOk(q.queue, q.soft) && (Running(q) ==> ReqSeq(q.orig, rq) <= DRAIN)
    ensures Live(Enqueued(q, 0, rq, q.soft + {rq}, n))
  {
    InsertSoft(q.queue, 0, rq, q.soft);
    assert Insert(q.queue, 0, rq)[0] == rq;
  }

  lemma RequeueStageLive(q: Queue, rq: Rq)
    requires Sequenced(q) && Live(q) && rq in q.issued && IsStage(rq)
    ensures Live(Step(q, Requeue(rq)))
  {
    StageRuns(q, rq);
    InsertSoft(q.queue, RequeuePos(q.orig, q.queue, rq, 0), rq, q.soft);
  }

  lemma RequeueOtherLive(q: Queue, rq: Rq)
    requires Placed(q) && Sequenced(q) && Live(q) && rq in q.issued && !IsStage(rq)
    ensures Live(Enqueued(Release(q, rq), 0, rq, q.soft + {rq}, q.nextId))
  {
    if Running(q) {
      IssuedDrains(q, rq);
    }
    FrontLive(Release(q, rq), rq, q.nextId);
  }

  lemma RequeueLive(q: Queue, rq: Rq)
    requires Inv(q) && Live(q) && rq in q.issued
    ensures Live(Step(q, Requeue(rq)))
  {
    if IsStage(rq) {
      RequeueStageLive(q, rq);
    } else {
      RequeueOtherLive(q, rq);
      RequeuedInFront(q, rq);
    }
  }

  lemma IssueLive(q: Queue)
    requires Inv(q) && Live(q) && Enabled(q, Issue)
    ensures Live(Step(q, Issue))
  {
    TailMembers(Epoch(q), q.queue);
    assert q.queue[0] in Step(q, Issue).issued;
  }

  lemma WithBarrierLive(q: Queue, rq: Rq)
    requires Live(q) && rq.Fs?
    ensures Live(WithBarrier(q, rq))
  {
    InsertLive(q, |q.queue|, rq, q.soft + {rq}, q.nextId + 1);
  }

  lemma AddSpecialLive(q: Queue, front: bool)
    requires Live(q) && Enabled(q, AddSpecial(front))
    ensures Live(Step(q, AddSpecial(front)))
  {
    var rq := Special(q.nextId);
    InsertLive(q, if front then 0 else |q.queue|, rq, q.soft + {rq}, q.nextId + 1);
  }

  lemma AddBackLive(q: Queue, empty: bool)
    requires Live(q) && Enabled(q, AddBack(empty))
    ensures Live(Step(q, AddBack(empty)))
  {
    var rq := NewFs(q, false, empty);
    InsertLive(q, |q.queue|, rq, q.soft + {rq}, q.nextId + 1);
  }

  lemma StepLive(q: Queue, e: Event)
    requires Inv(q) && Live(q) && Enabled(q, e)
    ensures Live(Step(q, e))
  {
    match e
    case AddSorted(_) =>
    case AddBack(empty) => AddBackLive(q, empty);
    case AddBarrier(empty) => WithBarrierLive(q, NewFs(q, true, empty));
    case AddSpecial(front) => AddSpecialLive(q, front);
    case Dispatch(rq, pos) => DispatchLive(q, rq, pos);
    case MergeAway(rq) =>
      if q.issued == {} {
        NoneAccounted(q);
      }
      ElvCompletedLive(q.(elevator := q.elevator - {rq}));
    case StartBarrier => StartLive(q);
    case Issue => IssueLive(q);
    case Defer => NeverWarned(q);
    case Refuse => NeverWarned(q);
    case Complete(rq, error) => CompleteLive(q, rq, error);
    case BarrierError(_) =>
    case Requeue(rq) => RequeueLive(q, rq);
  }

  lemma {:induction false} RunLive(states: seq<Queue>, events: seq<Event>, k: nat)
    requires IsRun(states, events) && k < |states|
    ensures Inv(states[k]) && Live(states[k])
  {
    RunKeeps(states, events, k);
    if k > 0 {
      RunLive(states, events, k - 1);
      StepLive(states[k - 1], events[k - 1]);
      assert states[k - 1 + 1] == Step(states[k - 1], events[k - 1]);
    }
  }

  function StageOf(seqno: nat): Rq
    requires PREFLUSH <= seqno <= POSTFLUSH
    ensures IsStage(StageOf(seqno)) && StageSeq(StageOf(seqno)) == seqno
  {
    if seqno == PREFLUSH then PreFlush else if seqno == BAR then Bar else PostFlush
  }

  /** With nothing issued, the head of a sequence in progress may be issued. */
  lemma HeadMayGo(q: Queue)
    requires Inv(q) && Live(q) && Running(q) && q.issued == {}
    ensures q.queue != [] && MayIssue(q)
  {
    if DRAIN in q.ordseq {
      var stage := StageOf(CurSeq(q.ordseq));
      assert StageIs(q, PreFlush) && StageIs(q, Bar) && StageIs(q, PostFlush);
      assert stage in q.queue;
      HeadFirst(Epoch(q), q.queue, stage);
      assert q.queue[0] in q.queue;
    }
  }

  /** Over every run: a sequence never stalls.  As long as it is in progress, some request is
      issued, whose completion or requeueing is to come, or the head of the queue may be
      issued. */
  lemma NeverStalls(states: seq<Queue>, events: seq<Event>, k: nat)
    requires IsRun(states, events) && k < |states| && states[k].ordseq != {}
    ensures states[k].issued != {} || Enabled(states[k], Issue)
  {
    RunLive(states, events, k);
    if states[k].issued == {} {
      HeadMayGo(states[k]);
    }
  }
}
