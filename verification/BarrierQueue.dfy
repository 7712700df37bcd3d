/** The request queue the barrier protocol runs on, updated in place.  Every method is tied
    to the step of the transition system in module Barrier that it performs. */
module BarrierQueue {
  import opened Wrappers
  import opened Barrier

  /** A run of steps, each enabled where it occurs. */
  ghost predicate CanRun(q: Queue, events: seq<Event>)
    decreases |events|
  {
    events == [] || (Enabled(q, events[0]) && CanRun(Step(q, events[0]), events[1..]))
  }

  ghost function RunAll(q: Queue, events: seq<Event>): Queue
    requires CanRun(q, events)
    decreases |events|
  {
    if events == [] then q else RunAll(Step(q, events[0]), events[1..])
  }

  lemma {:induction false} RunSnoc(q: Queue, events: seq<Event>, e: Event)
    requires CanRun(q, events) && Enabled(RunAll(q, events), e)
    ensures CanRun(q, events + [e]) && RunAll(q, events + [e]) == Step(RunAll(q, events), e)
    decreases |events|
  {
    if events != [] {
      assert (events + [e])[1..] == events[1..] + [e];
      RunSnoc(Step(q, events[0]), events[1..], e);
    }
  }

  lemma Associate(a: seq<Rq>, b: seq<Rq>, c: seq<Rq>, rest: seq<Rq>)
    ensures a + (b + (c + rest)) == a + b + c + rest
  {
  }

  /** The sequence of the barrier at the head is over as soon as it is started. */
  predicate Ends(q: Queue)
    requires Enabled(q, StartBarrier)
  {
    Stages(q, q.queue[0]) == [] && q.inFlight == 0
  }

  lemma {:induction false} RunAllLive(q: Queue, events: seq<Event>)
    requires Inv(q) && Live(q) && CanRun(q, events)
    ensures Inv(RunAll(q, events)) && Live(RunAll(q, events))
    decreases |events|
  {
    if events != [] {
      StepKeeps(q, events[0]);
      StepLive(q, events[0]);
      RunAllLive(Step(q, events[0]), events[1..]);
    }
  }

  /** Why __elv_next_request has nothing to offer: the queue is empty, its head may not be
      issued, or a sequence has just been started and waits for the requests in flight. */
  ghost predicate Nothing(q: Queue, events: seq<Event>) {
    q.queue == [] || !MayIssue(q) || (events != [] && events[|events| - 1].StartBarrier? && q.inFlight != 0)
  }

  /** So in a live queue something is issued, or the queue is empty, or the head is a barrier
      whose turn it is. */
  lemma NothingWaits(q: Queue, events: seq<Event>)
    requires Inv(q) && Live(q) && Nothing(q, events)
    ensures q.queue == [] || q.issued != {} || Enabled(q, StartBarrier)
  {
    if q.queue != [] && q.issued == {} {
      NoneAccounted(q);
      if Running(q) {
        HeadMayGo(q);
      }
    }
  }

  /** struct request_queue: its fields are kept in one record, updated field by field. */
  class RequestQueue {
    var q: Queue

    constructor (doPreflush: bool, doPostflush: bool)
      ensures q == Init(doPreflush, doPostflush) && Inv(q) && Live(q)
    {
      q := Init(doPreflush, doPostflush);
    }

    // ----- blk-barrier.c -----

    method CompleteSeq(which: set<nat>, error: int) returns (finished: bool)
      modifies this
      ensures q == Barrier.CompleteSeq(old(q), which, error)
      ensures finished <==> CurSeq(old(q.ordseq) + which) == DONE
    {
      if error != 0 && q.orderr == 0 {
        q := q.(orderr := error);
      }
      q := q.(reports := Report(q.reports, error));
      if q.ordseq * which != {} {
        q := q.(broken := true);
      }
      q := q.(ordseq := q.ordseq + which, bits := q.bits + multiset(which));
      if CurSeq(q.ordseq) != DONE {
        return false;
      }
      q := q.(ordseq := {}, ended := q.ended + [Ending(q.orig, q.orderr, q.reports, q.bits)]);
      return true;
    }

    /** elv_insert at the front */
    method InsertFront(rq: Rq)
      modifies this
      ensures q == old(q).(queue := [rq] + old(q.queue))
    {
      q := q.(queue := [rq] + q.queue);
    }

    /** Queues one request of the sequence at the head, or collects its bit. */
    method StackStage(want: bool, rq: Rq, bit: nat, skip0: set<nat>, next0: Option<Rq>)
      returns (skip: set<nat>, next: Option<Rq>)
      modifies this
      ensures q == old(q).(queue := (if want then [rq] else []) + old(q.queue))
      ensures skip == skip0 + if want then {} else {bit}
      ensures next == if want then Some(rq) else next0
    {
      skip, next := skip0, next0;
      if want {
        InsertFront(rq);
        next := Some(rq);
      } else {
        skip := skip + {bit};
      }
    }

    /** Stacks the requests of the sequence at the head, in reverse order. */
    method StackStages(rq: Rq) returns (skip: set<nat>, next: Option<Rq>)
      requires rq.Fs?
      modifies this
      ensures q == old(q).(queue := Stages(old(q), rq) + old(q.queue))
      ensures skip == Skipped(old(q), rq)
      ensures next == if q.inFlight != 0 || Stages(old(q), rq) == [] then None else Some(Stages(old(q), rq)[0])
    {
      skip, next := StackStage(q.doPostflush && !rq.empty, PostFlush, POSTFLUSH, {}, None);
      skip, next := StackStage(!rq.empty, Bar, BAR, skip, next);
      skip, next := StackStage(q.doPreflush, PreFlush, PREFLUSH, skip, next);
      if q.inFlight != 0 {
        next := None;
      } else {
        skip := skip + {DRAIN};
      }
      Associate(if q.doPreflush then [PreFlush] else [], if rq.empty then [] else [Bar],
        if q.doPostflush && !rq.empty then [PostFlush] else [], old(q.queue));
    }

    /** Opens a sequence for the barrier at the head and stashes the barrier away. */
    method OpenSequence() returns (skip: set<nat>, next: Option<Rq>)
      requires Enabled(q, StartBarrier)
      modifies this
      ensures q == Stacked(old(q)) && skip == Skipped(old(q), old(q.queue)[0])
      ensures var stages := Stages(old(q), old(q.queue)[0]);
              next == if q.inFlight != 0 || stages == [] then None else Some(stages[0])
    {
      var rq := q.queue[0];
      q := q.(orderr := 0, reports := [], bits := multiset{STARTED});
      q := q.(ordseq := q.ordseq + {STARTED});
      q := q.(queue := q.queue[1..], orig := rq);
      skip, next := StackStages(rq);
    }

    /** Starts the sequence for the barrier at the head.  Returns whether there is still
        something to handle, and the request to issue right away, if any. */
    method StartOrdered() returns (alive: bool, next: Option<Rq>)
      requires Enabled(q, StartBarrier)
      modifies this
      ensures q == Step(old(q), StartBarrier)
      ensures alive <==> Stages(old(q), old(q.queue)[0]) != [] || q.inFlight != 0
      ensures !alive ==> q.queue == old(q.queue)[1..]
      ensures alive ==> q.ordseq != {} && (next.Some? <==> q.inFlight == 0)
      ensures alive && next.Some? ==> q.queue != [] && next.value == q.queue[0] && MayIssue(q)
    {
      StartedHead(q);
      var skip;
      skip, next := OpenSequence();
      var finished := CompleteSeq(skip, 0);
      alive := !finished;
    }

    /** blk_do_ordered on the head of the queue: whether it is still to be handled, and the
        request to issue, if one may be issued now. */
    method DoOrdered() returns (alive: bool, next: Option<Rq>)
      requires Inv(q) && q.queue != []
      modifies this
      ensures Inv(q)
      ensures q == if Enabled(old(q), StartBarrier) then Step(old(q), StartBarrier) else old(q)
      ensures alive <==> !(Enabled(old(q), StartBarrier) && Ends(old(q)))
      ensures !alive ==> q.queue == old(q.queue)[1..]
      ensures alive ==> !Enabled(q, StartBarrier)
      ensures alive ==> (next.Some? <==> if Enabled(old(q), StartBarrier) then q.inFlight == 0 else MayIssue(q))
      ensures alive && next.Some? ==> q.queue != [] && next.value == q.queue[0] && MayIssue(q)
    {
      var rq := q.queue[0];
      if q.ordseq == {} {
        if !(rq.Fs? && rq.barrier) {
          return true, Some(rq);
        }
        StartKeeps(q);
        alive, next := StartOrdered();
        return;
      }
      NeverWarned(q);
      if rq.Special? {
        return true, Some(rq);
      }
      q := q.(broken := q.broken || ReqSeq(q.orig, rq) < CurSeq(q.ordseq));
      if ReqSeq(q.orig, rq) > CurSeq(q.ordseq) {
        return true, None;
      }
      return true, Some(rq);
    }

    // ----- blk.h, blk-core.c -----

    /** One look at the head of the queue, as a step of the run from `q0`. */
    method TryHead(ghost q0: Queue, ghost events0: seq<Event>)
      returns (alive: bool, next: Option<Rq>, ghost events: seq<Event>)
      requires Inv(q) && q.queue != [] && CanRun(q0, events0) && RunAll(q0, events0) == q
      modifies this
      ensures Inv(q) && CanRun(q0, events) && RunAll(q0, events) == q
      ensures events == events0 || events == events0 + [StartBarrier]
      ensures !alive ==> |q.queue| < |old(q.queue)|
      ensures alive && next.Some? ==> q.queue != [] && next.value == q.queue[0] && Enabled(q, Issue)
      ensures alive && next.None? ==> Nothing(q, events) && !Enabled(q, StartBarrier)
    {
      ghost var was := q;
      alive, next := DoOrdered();
      events := events0;
      if Enabled(was, StartBarrier) {
        RunSnoc(q0, events0, StartBarrier);
        events := events0 + [StartBarrier];
      }
    }

    /** What the elevator dispatches, put into the queue. */
    method TakeDispatched(rq: Rq, pos: nat, ghost q0: Queue, ghost events0: seq<Event>)
      returns (ghost events: seq<Event>)
      requires Inv(q) && Enabled(q, Dispatch(rq, pos)) && CanRun(q0, events0) && RunAll(q0, events0) == q
      modifies this
      ensures Inv(q) && CanRun(q0, events) && RunAll(q0, events) == q && events == events0 + [Dispatch(rq, pos)]
    {
      StepKeeps(q, Dispatch(rq, pos));
      RunSnoc(q0, events0, Dispatch(rq, pos));
      events := events0 + [Dispatch(rq, pos)];
      q := q.(elevator := q.elevator - {rq}, queue := Insert(q.queue, pos, rq));
    }

    /** The loops of __elv_next_request.  `plan` is what the elevator dispatches when asked,
        request by request and with the position it sorts each to; it may refuse at any time. */
    method FindNext(plan: seq<(Rq, nat)>) returns (next: Option<Rq>, ghost events: seq<Event>)
      requires Inv(q)
      modifies this
      ensures Inv(q) && CanRun(old(q), events) && RunAll(old(q), events) == q
      ensures forall e :: e in events ==> e.StartBarrier? || e.Dispatch?
      ensures next.Some? ==> q.queue != [] && next.value == q.queue[0] && Enabled(q, Issue)
      ensures next.None? ==> Nothing(q, events) && !Enabled(q, StartBarrier)
    {
      events := [];
      var k := 0;
      while true
        invariant 0 <= k <= |plan| && Inv(q) && CanRun(old(q), events) && RunAll(old(q), events) == q
        invariant forall e :: e in events ==> e.StartBarrier? || e.Dispatch?
        decreases |plan| - k, |q.queue|
      {
        if q.queue != [] {
          var alive;
          alive, next, events := TryHead(old(q), events);
          if alive {
            return;
          }
        } else if k < |plan| && Enabled(q, Dispatch(plan[k].0, plan[k].1)) {
          events := TakeDispatched(plan[k].0, plan[k].1, old(q), events);
          k := k + 1;
        } else {
          return None, events;
        }
      }
    }

    /** __elv_next_request: offers the head if it may be issued; it offers nothing only if the
        queue is empty or, in a live queue, while something is issued. */
    method NextRequest(plan: seq<(Rq, nat)>) returns (next: Option<Rq>, ghost events: seq<Event>)
      requires Inv(q)
      modifies this
      ensures Inv(q) && CanRun(old(q), events) && RunAll(old(q), events) == q
      ensures forall e :: e in events ==> e.StartBarrier? || e.Dispatch?
      ensures next.Some? ==> q.queue != [] && next.value == q.queue[0] && Enabled(q, Issue)
      ensures next.None? ==> Nothing(q, events) && !Enabled(q, StartBarrier)
      ensures Live(old(q)) && next.None? ==> q.queue == [] || q.issued != {}
    {
      next, events := FindNext(plan);
      if Live(old(q)) && next.None? {
        RunAllLive(old(q), events);
        NothingWaits(q, events);
      }
    }

    /** blk_start_request on the request just peeked at. */
    method StartRequest(rq: Rq)
      requires Inv(q) && q.queue != [] && rq == q.queue[0] && Enabled(q, Issue)
      modifies this
      ensures q == Step(old(q), Issue) && Inv(q)
    {
      StepKeeps(q, Issue);
      NeverWarned(q);
      q := q.(started := q.started + {rq});
      q := q.(queue := q.queue[1..], issued := q.issued + {rq});
      if Accounted(rq) {
        q := q.(inFlight := q.inFlight + 1);
      }
    }

    // ----- elevator.c -----

    /** __elv_add_request of a file system request: a barrier toggles the colour and is
        inserted at the back, once forced dispatching has emptied the elevator. */
    method AddFs(barrier: bool, empty: bool, sorted: bool) returns (rq: Rq)
      requires Inv(q) && ((barrier || !sorted) ==> q.elevator == {})
      modifies this
      ensures q == Step(old(q), if barrier then AddBarrier(empty) else if sorted then AddSorted(empty)
                        else AddBack(empty))
      ensures Inv(q)
    {
      StepKeeps(q, if barrier then AddBarrier(empty) else if sorted then AddSorted(empty) else AddBack(empty));
      rq := PlaceFs(barrier, empty, sorted);
    }

    /** Where __elv_add_request puts it. */
    method PlaceFs(barrier: bool, empty: bool, sorted: bool) returns (rq: Rq)
      requires (barrier || !sorted) ==> q.elevator == {}
      modifies this
      ensures barrier ==> q == Step(old(q), AddBarrier(empty))
      ensures !barrier && sorted ==> q == Step(old(q), AddSorted(empty))
      ensures !barrier && !sorted ==> q == Step(old(q), AddBack(empty))
    {
      rq := Fs(q.nextId, |q.barriers|, q.ordcolor, barrier, empty);
      q := q.(nextId := q.nextId + 1);
      if barrier {
        q := q.(ordcolor := !q.ordcolor, barriers := q.barriers + [rq]);
      }
      if sorted && !barrier {
        q := q.(elevator := q.elevator + {rq});
      } else {
        q := q.(soft := q.soft + {rq}, queue := Insert(q.queue, |q.queue|, rq));
      }
    }

    /** The driver lets go of a request. */
    method ReleaseRequest(rq: Rq)
      modifies this
      ensures q == Release(old(q), rq)
    {
      if Accounted(rq) {
        q := q.(inFlight := q.inFlight - 1);
      }
      q := q.(issued := q.issued - {rq}, started := q.started - {rq});
    }

    /** elv_completed_request */
    method CompletedRequest(rq: Rq)
      modifies this
      ensures q == ElvCompleted(Release(old(q), rq))
    {
      ReleaseRequest(rq);
      if q.ordseq != {} {
        if q.inFlight == 0 && CurSeq(q.ordseq) == DRAIN && (q.queue == [] || ReqSeq(q.orig, q.queue[0]) > DRAIN) {
          var _ := CompleteSeq({DRAIN}, 0);
        }
      }
    }

    /** The end of a request the driver is done with: for a stage, its end_io function. */
    method EndRequest(rq: Rq, error: int)
      requires Inv(q) && rq in q.issued
      modifies this
      ensures q == Step(old(q), Complete(rq, error)) && Inv(q)
    {
      StepKeeps(q, Complete(rq, error));
      CompletedRequest(rq);
      if IsStage(rq) {
        var _ := CompleteSeq({StageSeq(rq)}, error);
      }
    }

    /** The scan of elv_insert for the place of a requeued request. */
    method FindRequeuePos(rq: Rq) returns (pos: nat)
      ensures pos <= |q.queue| && pos == RequeuePos(q.orig, q.queue, rq, 0)
    {
      var ordseq := ReqSeq(q.orig, rq);
      pos := 0;
      while pos < |q.queue| && ReqSeq(q.orig, q.queue[pos]) < ordseq
        invariant pos <= |q.queue|
        invariant RequeuePos(q.orig, q.queue, rq, 0) == RequeuePos(q.orig, q.queue, rq, pos)
      {
        pos := pos + 1;
      }
    }

    /** elv_requeue_request: while a sequence is in progress, in ordseq order. */
    method RequeueRequest(rq: Rq)
      requires Inv(q) && rq in q.issued
      modifies this
      ensures q == Step(old(q), Requeue(rq)) && Inv(q)
    {
      StepKeeps(q, Requeue(rq));
      ReleaseRequest(rq);
      q := q.(soft := q.soft + {rq});
      var pos := 0;
      if q.ordseq != {} {
        pos := FindRequeuePos(rq);
      }
      q := q.(queue := Insert(q.queue, pos, rq));
    }
  }
}
