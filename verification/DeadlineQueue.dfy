/** The data of the deadline scheduler, changed in place. */
module DeadlineQueue {
  import opened Wrappers
  import opened SortedLists
  import opened Deadline

  class Scheduler {
    var rd: Side
    var wr: Side
    var nextRead: Option<nat>
    var nextWrite: Option<nat>
    var batching: nat
    var starved: nat
    var out: seq<Rq>
    const settings: Settings

    function Value(): Dd
      reads this
    {
      Dd(rd, wr, nextRead, nextWrite, batching, starved, out)
    }

    /** deadline_init_queue */
    constructor (settings: Settings)
      ensures Value() == EMPTY && this.settings == settings && Inv(Value())
    {
      rd, wr := Side([], []), Side([], []);
      nextRead, nextWrite, batching, starved, out := None, None, 0, 0, [];
      this.settings := settings;
      new;
      EmptyOk();
    }

    method SetSide(write: bool, side: Side)
      modifies this`rd, this`wr
      ensures Value() == With(old(Value()), write, side)
    {
      if write {
        wr := side;
      } else {
        rd := side;
      }
    }

    /** deadline_del_rq_rb and rq_fifo_clear */
    method RemoveRequest(rq: Rq)
      modifies this`rd, this`wr, this`nextRead, this`nextWrite
      ensures Value() == Removed(old(Value()), rq)
    {
      var side := Of(Value(), rq.write);
      if NextOf(Value(), rq.write) == Some(rq.id) {
        if rq.write {
          nextWrite := Id(Latter(side.sort, rq.pos));
        } else {
          nextRead := Id(Latter(side.sort, rq.pos));
        }
      }
      SetSide(rq.write, Gone(side, rq.id));
    }

    /** deadline_move_request */
    method MoveRequest(rq: Rq)
      modifies this
      ensures Value() == Move(old(Value()), rq)
    {
      nextRead, nextWrite := None, None;
      var latter := Latter(Of(Value(), rq.write).sort, rq.pos);
      if rq.write {
        nextWrite := Id(latter);
      } else {
        nextRead := Id(latter);
      }
      RemoveRequest(rq);
      out := out + [rq];
    }

    /** deadline_add_rq_rb, up to the link of elv_rb_add: the sector is free afterwards. */
    method ClearSector(write: bool, pos: nat, ghost missing: Option<Rq>)
      requires InvBut(Value(), write, missing) && (missing.Some? ==> missing.value.id !in Ids(Of(Value(), write).sort))
      modifies this
      ensures Value() == Cleared(old(Value()), write, pos) && Find(Of(Value(), write).sort, pos).None?
    {
      ClearedFree(Value(), write, pos, missing);
      var alias := Find(Of(Value(), write).sort, pos);
      ghost var first := true;
      while alias.Some?
        invariant alias == Find(Of(Value(), write).sort, pos)
        invariant Value() == if first then old(Value()) else Cleared(old(Value()), write, pos)
        invariant !first ==> alias.None?
        decreases first
      {
        OneWayAlias(Value(), write, alias.value, missing);
        MoveRequest(alias.value);
        first := false;
        alias := Find(Of(Value(), write).sort, pos);
      }
    }

    /** deadline_add_request */
    method AddRequest(rq: Rq, now: int)
      requires Inv(Value()) && rq.id !in Known(Value())
      modifies this
      ensures Value() == Add(old(Value()), settings, rq, now) && Inv(Value())
              && Known(Value()) == old(Known(Value())) + {rq.id}
    {
      AddOk(Value(), settings, rq, now);
      InvButNone(Value(), rq.write);
      ClearSector(rq.write, rq.pos, None);
      SetSide(rq.write, Entered(Of(Value(), rq.write), rq.(expire := now + Expiry(settings, rq.write))));
    }

    /** deadline_merged_request, for a front merge that moves the request to `pos`. */
    method MergedRequest(rq: Rq, pos: nat)
      requires Inv(Value()) && rq in Of(Value(), rq.write).sort
      modifies this
      ensures Value() == FrontMerged(old(Value()), rq, pos) && Inv(Value()) && Known(Value()) == old(Known(Value()))
    {
      FrontMergedOk(Value(), rq, pos);
      UnlinkedOk(Value(), rq, pos);
      var side := Of(Value(), rq.write);
      SetSide(rq.write, Side(Without(side.sort, rq.id), Replaced(side.fifo, rq.(pos := pos))));
      ClearSector(rq.write, pos, Some(rq.(pos := pos)));
      SetSide(rq.write, Linked(Of(Value(), rq.write), rq.(pos := pos)));
    }

    /** deadline_merged_requests */
    method MergeRequests(rq: Rq, gone: Rq)
      requires Inv(Value()) && rq in Of(Value(), rq.write).sort && gone in Of(Value(), rq.write).sort
               && rq.id != gone.id
      modifies this`rd, this`wr, this`nextRead, this`nextWrite
      ensures Value() == MergedRequests(old(Value()), rq, gone) && Inv(Value())
              && Known(Value()) == old(Known(Value())) - {gone.id}
    {
      MergedRequestsOk(Value(), rq, gone);
      assert gone in Of(Value(), rq.write).fifo;
      if gone.expire < rq.expire {
        var side, rq' := Of(Value(), rq.write), rq.(expire := gone.expire);
        SetSide(rq.write, Side(Replaced(side.sort, rq'), InPlace(Without(side.fifo, rq.id), gone.id, rq')));
      }
      RemoveRequest(gone);
    }

    /** The direction of a new batch. */
    method NewBatch() returns (write: bool)
      requires !Idle(Value())
      modifies this`starved
      ensures write == TurnsToWrites(old(Value()), settings) && Value() == Counted(old(Value()), settings)
    {
      if rd.fifo != [] {
        write := false;
        if wr.fifo != [] {
          write := starved >= Patience(settings);
          starved := starved + 1;
        }
        if !write {
          return;
        }
      }
      starved := 0;
      write := true;
    }

    /** deadline_dispatch_requests */
    method DispatchRequests(now: int) returns (taken: bool)
      requires Inv(Value())
      modifies this
      ensures Value() == Dispatch(old(Value()), settings, now) && taken == !old(Idle(Value()))
      ensures Inv(Value()) && Known(Value()) == old(Known(Value()))
      ensures taken
              ==> out == old(out) + [Chosen(old(Value()), settings, now)] && Queued(Value()) < old(Queued(Value()))
    {
      ghost var dd := Value();
      DispatchOk(dd, settings, now);
      var rq := Current(Value());
      if rq.Some? && batching < settings.fifoBatch {
        CurrentQueued(dd);
        DispatchShrinks(dd, settings, now);
        batching := batching + 1;
        MoveRequest(rq.value);
        return true;
      }
      if rd.fifo == [] && wr.fifo == [] {
        return false;
      }
      DispatchShrinks(dd, settings, now);
      var write := NewBatch();
      var next := NextRq(Value(), write);
      var head := Of(Value(), write).fifo[0];
      batching := 1;
      MoveRequest(if now > head.expire || next.None? then head else next.value);
      return true;
    }

    /** elv_drain_elevator: both lists end empty, and every request known was dispatched, each
        once. */
    method Drain(clock: nat -> int)
      requires Inv(Value())
      modifies this
      ensures Inv(Value()) && Idle(Value()) && Once(out) && Ids(out) == old(Known(Value()))
      ensures |old(out)| <= |out| && out[..|old(out)|] == old(out)
    {
      var n := 0;
      var taken := true;
      while taken
        invariant Inv(Value()) && Known(Value()) == old(Known(Value())) && (taken || Idle(Value()))
        invariant |old(out)| <= |out| && out[..|old(out)|] == old(out)
        decreases taken, Queued(Value())
      {
        taken := DispatchRequests(clock(n));
        n := n + 1;
      }
    }
  }

  lemma OneWayAlias(dd: Dd, write: bool, rq: Rq, missing: Option<Rq>)
    requires InvBut(dd, write, missing) && rq in Of(dd, write).sort
    ensures rq.write == write
  {
    assert rq in Of(dd, write).fifo;
  }

  lemma CurrentQueued(dd: Dd)
    requires Inv(dd) && Current(dd).Some?
    ensures !Idle(dd)
  {
    NextRqOk(dd, dd.nextWrite.Some?);
    assert Current(dd).value in Of(dd, dd.nextWrite.Some?).fifo;
  }
}
