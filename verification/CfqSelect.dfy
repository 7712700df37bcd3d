/** The CFQ scheduler's queues together: what each holds, and how they are merged. */
module CfqSelect {
  import opened Wrappers
  import opened CfqChoice
  import CfqQueue
  import opened CfqMerge

  class Scheduler {
    const tunables: Tunables
    const pool: Pool
    /** queues[k] is the queue with number k of the pool. */
    var queues: seq<CfqQueue.Queue>

    ghost predicate Valid()
      reads this, pool, queues
    {
      && pool.Valid() && |queues| == |pool.ref|
      && (forall k :: 0 <= k < |queues| ==> queues[k].Valid())
      && (forall j, k :: 0 <= j < k < |queues| ==> queues[j] != queues[k])
    }

    constructor (tunables: Tunables, processes: nat)
      ensures Valid() && fresh(pool) && queues == [] && |pool.proc| == processes
    {
      this.tunables := tunables;
      pool := new Pool(processes);
      queues := [];
    }

    /** cfq_get_queue and cfq_find_alloc_queue for a process without a queue. */
    method GetQueue(p: nat, idleClass: bool)
      requires Valid() && p < |pool.proc| && pool.proc[p].None?
      modifies this`queues, pool
      ensures Valid() && |queues| == |old(queues)| + 1 && queues[..|old(queues)|] == old(queues)
      ensures fresh(queues[|old(queues)|]) && queues[|old(queues)|].sortList == []
      ensures pool.Excess() == old(pool.Excess()) + [0] && pool.proc == old(pool.proc)[p := Some(|old(queues)|)]
    {
      var cfqq := new CfqQueue.Queue(tunables, idleClass);
      pool.GetQueue(p);
      queues := queues + [cfqq];
    }

    /** The end of cfq_select_queue for an active queue that has run empty.  `close` is what
        cfq_close_cooperator found: some queue on a priority tree, which cannot be the active
        one.  The links between the queues stay without a cycle. */
    method Cooperate(active: nat, close: Option<nat>, taken: bool)
      requires Valid() && active < |queues| && queues[active].sortList == []
      requires close.Some? ==> close.value < |queues| && queues[close.value].onTree
      modifies pool, queues[active]
      ensures Valid() && pool.Excess() == old(pool.Excess()) && Acyclic(pool.newCfqq)
      ensures close.None? || old(pool.newCfqq)[active].Some?
              ==> pool.ref == old(pool.ref) && pool.newCfqq == old(pool.newCfqq)
      ensures close.Some? ==> close.value != active && !queues[active].onRr
      ensures close.Some? && old(pool.newCfqq)[active].None? && !old(pool.MergeIdle(active, close.value)) ==>
                var end := old(End(pool.newCfqq, pool.rank, close.value));
                var pr := old(ProcessRefs(pool.ref, pool.ioRefs));
                if pr[end] >= pr[active] then pool.Linked(old(pool.ref), old(pool.newCfqq), active, end, pr)
                else pool.Linked(old(pool.ref), old(pool.newCfqq), end, active, pr)
    {
      if close.Some? {
        queues[active].CooperatorDiffers(queues[close.value]);
        if pool.newCfqq[active].None? {
          pool.SetupMerge(active, close.value);
        }
        queues[active].SliceExpired(taken);
      }
    }
  }
}
