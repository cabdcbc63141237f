// The dispatch protocol of ScheduleThread and Tail: the switch of the current
// thread, the machine-dependent context switch (an abstract step recorded in a
// ghost trace of events), and the deferred destruction of a finished thread,
// which may only happen once execution has left that thread's stack.

module Dispatching {
  import opened ThreadTable

  /** The observable steps of dispatch: the context switch from one thread to
      another, and the destruction of the thread held in the slot. */
  datatype Event = Switched(from: ThreadId, to: ThreadId) | Destroyed(victim: ThreadId)

  /** The dispatch state: the current thread, the deferred-destruction slot,
      and the events so far. */
  datatype DispatchState = DispatchState(current: ThreadId, pending: Option<ThreadId>, trace: seq<Event>)

  /** The first half of ScheduleThread: `next` becomes current, then control
      is transferred from the old current thread to `next`. */
  function SwitchTo(d: DispatchState, next: ThreadId): (d': DispatchState)
    ensures d'.current == next && d'.pending == d.pending
    ensures d.trace < d'.trace && |d'.trace| == |d.trace| + 1
    ensures d'.trace[|d.trace|] == Switched(d.current, next)
  {
    DispatchState(next, d.pending, d.trace + [Switched(d.current, next)])
  }

  /** The post-switch half, shared by ScheduleThread and Tail: destroy the
      thread in the slot, if any, and empty the slot. */
  function Reap(d: DispatchState): (d': DispatchState)
    ensures d'.pending == None && d'.current == d.current && d.trace <= d'.trace
    ensures d.pending == None <==> d'.trace == d.trace
    ensures d.pending.Some? ==> d'.trace[|d'.trace| - 1] == Destroyed(d.pending.value)
  {
    match d.pending
    case None => d
    case Some(victim) => DispatchState(d.current, None, d.trace + [Destroyed(victim)])
  }

  /** Destruction happens after the switch: every Destroyed event comes
      directly after the switch away from the destroyed thread. */
  ghost predicate ReclaimOrdered(trace: seq<Event>)
  {
    forall k :: 0 <= k < |trace| && trace[k].Destroyed? ==>
      0 < k && trace[k - 1].Switched? && trace[k - 1].from == trace[k].victim
  }

  /** The state in which a running thread calls ScheduleThread: the history
      so far is well ordered, and a thread in the slot is the caller itself
      (a finishing thread records itself and then gives up the processor). */
  ghost predicate Settled(d: DispatchState)
  {
    ReclaimOrdered(d.trace) && (d.pending.Some? ==> d.pending.value == d.current)
  }

  /** The state right after a context switch, where the post-switch code
      (the tail of ScheduleThread, or Tail in a newly forked thread) runs:
      the last event is the switch into the current thread, and a thread in
      the slot is the one that was switched away from. */
  ghost predicate JustSwitched(d: DispatchState)
  {
    && ReclaimOrdered(d.trace)
    && |d.trace| > 0
    && d.trace[|d.trace| - 1].Switched?
    && d.trace[|d.trace| - 1].to == d.current
    && (d.pending.Some? ==> d.pending.value == d.trace[|d.trace| - 1].from && d.pending.value != d.current)
  }

  /** Switching from a settled state to a thread other than the one in the
      slot reaches the post-switch state. */
  lemma SwitchReachesPostSwitch(d: DispatchState, next: ThreadId)
    requires Settled(d)
    requires d.pending.Some? ==> next != d.current
    ensures JustSwitched(SwitchTo(d, next))
  {
  }

  /** The post-switch half (ScheduleThread's tail, or Tail) empties the slot,
      destroys only a thread that is no longer running, and leaves a settled
      state. */
  lemma ReapSettles(d: DispatchState)
    requires JustSwitched(d)
    ensures Reap(d).pending == None && Reap(d).current == d.current
    ensures Settled(Reap(d))
    ensures d.pending.Some? ==> Reap(d).trace == d.trace + [Destroyed(d.pending.value)] && d.pending.value != d.current
  {
  }

  /** A whole ScheduleThread from a settled state: `next` is current, the
      slot is empty, the order is kept, and a pending thread is destroyed
      right after, never before, the switch away from it. */
  lemma ScheduleSettles(d: DispatchState, next: ThreadId)
    requires Settled(d)
    requires d.pending.Some? ==> next != d.current
    ensures Reap(SwitchTo(d, next)).current == next
    ensures Reap(SwitchTo(d, next)).pending == None
    ensures Settled(Reap(SwitchTo(d, next)))
    ensures d.pending == None ==> Reap(SwitchTo(d, next)).trace == d.trace + [Switched(d.current, next)]
    ensures d.pending.Some? ==>
      Reap(SwitchTo(d, next)).trace == d.trace + [Switched(d.current, next), Destroyed(d.current)]
  {
    SwitchReachesPostSwitch(d, next);
    ReapSettles(SwitchTo(d, next));
  }

  /** Running the post-switch code a second time does nothing more. */
  lemma ReapIdempotent(d: DispatchState)
    ensures Reap(Reap(d)) == Reap(d)
    ensures Reap(d).pending == None
  {
  }
}
