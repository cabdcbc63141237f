// The process scheduler object: the ready list, the policy selector, the
// current thread and the deferred-destruction slot, together with the
// per-thread tables it shares with the rest of the kernel (the thread objects
// indexed by PID, the status mirror, the exited flags and the priority values).

module Scheduling {
  import opened ThreadTable
  import opened Bookkeeping
  import opened ReadyPolicy
  import opened Dispatching

  /** The scan policies: 2 is shortest estimated burst, 7..10 the four
      priority variants; every other value selects FIFO. */
  predicate BurstPolicy(schedType: int) { schedType == 2 }
  predicate PriorityPolicy(schedType: int) { 7 <= schedType <= 10 }

  function Bursts(rs: seq<ThreadRecord>): (ms: seq<int>)
  {
    seq(|rs|, i requires 0 <= i < |rs| => rs[i].estimatedCpuBurst)
  }

  function EntryTimes(rs: seq<ThreadRecord>): (es: seq<int>)
  {
    seq(|rs|, i requires 0 <= i < |rs| => rs[i].entryTimeReadyQueue)
  }

  class ProcessScheduler {
    /** The ready list, head first. */
    var readyList: seq<ThreadId>
    /** The policy selector. */
    var schedType: int
    var current: ThreadId
    var threadToBeDestroyed: Option<ThreadId>
    /** The history of context switches and destructions. */
    ghost var trace: seq<Event>

    /** The thread objects, by PID. */
    const threadArray: array<ThreadRecord>
    /** The status of each thread, kept in step with the thread's own status. */
    const threadStatusPid: array<ThreadStatus>
    const exitThreadArray: array<bool>
    const priorityValue: array<int>
    /** The number of PIDs handed out so far: the bound of both scans. */
    var threadIndex: nat

    /** The shape of the shared tables, and the assumption that setting a
        thread's status also records it in threadStatusPid at the thread's
        PID. */
    ghost predicate Valid()
      reads this, threadArray, threadStatusPid
    {
      && threadStatusPid.Length == threadArray.Length
      && exitThreadArray.Length == threadArray.Length
      && priorityValue.Length == threadArray.Length
      && threadIndex <= threadArray.Length
      && (forall i :: 0 <= i < threadIndex ==> threadArray[i].pid == i)
      && (forall i :: 0 <= i < threadIndex ==> threadStatusPid[i] == threadArray[i].status)
      && current < threadIndex
      && (forall k :: 0 <= k < |readyList| ==> readyList[k] < threadIndex)
      && (threadToBeDestroyed.Some? ==> threadToBeDestroyed.value < threadIndex)
    }

    ghost function DispatchView(): DispatchState
      reads this
    {
      DispatchState(current, threadToBeDestroyed, trace)
    }

    /** What a scan reads: the burst estimates or the priority values, the
        entry times, the exited flags and the status table. */
    ghost function ScanView(byPriority: bool): (s: ScanInput)
      reads this, threadArray, threadStatusPid, exitThreadArray, priorityValue
      requires Valid()
      ensures WellFormed(s) && threadIndex <= |s.metric|
    {
      ScanInput(if byPriority then priorityValue[..] else Bursts(threadArray[..]),
                EntryTimes(threadArray[..]), exitThreadArray[..], threadStatusPid[..])
    }

    /** A new scheduler has an empty ready list and the FIFO policy (type 1);
        the deferred-destruction slot starts empty. */
    constructor (threads: array<ThreadRecord>, statuses: array<ThreadStatus>, exited: array<bool>,
                 priorities: array<int>, created: nat, running: ThreadId)
      requires statuses.Length == threads.Length && exited.Length == threads.Length
      requires priorities.Length == threads.Length && created <= threads.Length
      requires forall i :: 0 <= i < created ==> threads[i].pid == i
      requires forall i :: 0 <= i < created ==> statuses[i] == threads[i].status
      requires running < created
      ensures Valid()
      ensures readyList == [] && schedType == 1 && threadToBeDestroyed == None && trace == []
      ensures current == running && threadIndex == created
      ensures threadArray == threads && threadStatusPid == statuses
      ensures exitThreadArray == exited && priorityValue == priorities
    {
      threadArray, threadStatusPid, exitThreadArray, priorityValue := threads, statuses, exited, priorities;
      threadIndex, current := created, running;
      readyList := [];
      schedType := 1;
      threadToBeDestroyed := None;
      trace := [];
    }

    /** A thread's setStatus: the thread's own status and its entry in the
        status table, at its PID. */
    method SetStatus(t: ThreadId, status: ThreadStatus)
      requires Valid() && t < threadIndex
      modifies threadArray, threadStatusPid
      ensures Valid()
      ensures threadArray[t] == old(threadArray[t]).(status := status) && threadStatusPid[t] == status
      ensures forall i :: 0 <= i < threadArray.Length && i != t ==>
        threadArray[i] == old(threadArray[i]) && threadStatusPid[i] == old(threadStatusPid[i])
    {
      threadArray[t] := threadArray[t].(status := status);
      threadStatusPid[threadArray[t].pid] := status;
    }

    /** Puts thread `t` on the ready list at tick `now`, doing the ready
        transition's bookkeeping. The list grows at its tail under every
        policy. */
    method MoveThreadToReadyQueue(t: ThreadId, now: int)
      requires Valid() && t < threadIndex
      modifies this`readyList, threadArray, threadStatusPid
      ensures Valid()
      ensures threadArray[t] == MarkReady(old(threadArray[t]), now)
      ensures threadStatusPid[t] == Ready
      ensures forall i :: 0 <= i < threadArray.Length && i != t ==>
        threadArray[i] == old(threadArray[i]) && threadStatusPid[i] == old(threadStatusPid[i])
      ensures readyList == old(readyList) + [t]
    {
      var r := threadArray[t];
      if r.entryTimeReadyQueue == 0 && r.pid != 0 {
        r := r.(threadStartTime := now);
      }
      r := r.(entryTimeReadyQueue := now);
      if r.status == Blocked {
        r := r.(totalSleep := r.totalSleep + now - r.startSleep);
      }
      threadArray[t] := r;
      SetStatus(t, Ready);
      readyList := readyList + [t];
    }

    /** The linear scan of the thread table shared by the burst policy
        (byPriority false) and the priority policies (byPriority true). It
        changes nothing, and returns the least eligible thread by metric,
        then entry time, then PID; no thread when there is none below the
        sentinel; or the fault of reading threadArray[-1]. */
    method ScanReadyThreads(byPriority: bool) returns (p: Pick)
      requires Valid()
      ensures p == Verdict(ScanTo(ScanView(byPriority), threadIndex))
      ensures p == SentinelFault <==> exists i :: 0 <= i < threadIndex && FaultsAt(ScanView(byPriority), i)
      ensures p.Chosen? ==> IsBest(ScanView(byPriority), threadIndex, p.thread)
      ensures p.Chosen? ==> threadArray[p.thread].status == Ready && !exitThreadArray[p.thread]
    {
      ghost var view := ScanView(byPriority);
      PickMeaning(view, threadIndex);
      var selected := -1;
      var minimum := Sentinel;
      var i := 0;
      while i < threadIndex
        invariant 0 <= i <= threadIndex
        invariant -1 <= selected < i
        invariant ScanTo(view, i) == Scanning(selected, minimum)
      {
        if !exitThreadArray[i] && threadStatusPid[i] == Ready {
          var m := if byPriority then priorityValue[i] else threadArray[i].estimatedCpuBurst;
          if m < minimum {
            selected, minimum := i, m;
          } else if m == minimum {
            if selected < 0 {
              // threadArray[selectedThreadpid] with selectedThreadpid == -1
              FaultPersists(view, i + 1, threadIndex);
              return SentinelFault;
            }
            if threadArray[i].entryTimeReadyQueue < threadArray[selected].entryTimeReadyQueue {
              selected, minimum := i, m;
            }
          }
        }
        i := i + 1;
      }
      p := if selected < 0 then NoThread else Chosen(selected);
    }

    /** Chooses the next thread to run. Under the scan policies the table is
        scanned and nothing changes (the chosen thread stays on the ready
        list and READY); under FIFO the head of the ready list is removed and
        returned, or no thread when the list is empty. */
    method SelectNextReadyThread() returns (p: Pick)
      requires Valid()
      modifies this`readyList
      ensures Valid()
      ensures BurstPolicy(schedType) ==>
        p == Verdict(ScanTo(ScanView(false), threadIndex)) && readyList == old(readyList)
      ensures PriorityPolicy(schedType) ==>
        p == Verdict(ScanTo(ScanView(true), threadIndex)) && readyList == old(readyList)
      ensures BurstPolicy(schedType) && p.Chosen? ==> IsBest(ScanView(false), threadIndex, p.thread)
      ensures PriorityPolicy(schedType) && p.Chosen? ==> IsBest(ScanView(true), threadIndex, p.thread)
      ensures !BurstPolicy(schedType) && !PriorityPolicy(schedType) ==>
        (p, readyList) == PopHead(old(readyList))
    {
      if schedType == 2 {
        p := ScanReadyThreads(false);
      } else if 7 <= schedType <= 10 {
        p := ScanReadyThreads(true);
      } else {
        if readyList == [] {
          p := NoThread;
        } else {
          p := Chosen(readyList[0]);
          readyList := readyList[1..];
        }
      }
    }

    /** Dispatches the processor to `next`: it becomes current and RUNNING,
        control is switched to it, and only then is the thread in the
        deferred-destruction slot destroyed and the slot emptied. */
    method ScheduleThread(next: ThreadId)
      requires Valid() && next < threadIndex
      modifies this`current, this`threadToBeDestroyed, this`trace, threadArray, threadStatusPid
      ensures Valid()
      ensures DispatchView() == Reap(SwitchTo(old(DispatchView()), next))
      ensures threadArray[next] == old(threadArray[next]).(status := Running)
      ensures threadStatusPid[next] == Running
      ensures forall i :: 0 <= i < threadArray.Length && i != next ==>
        threadArray[i] == old(threadArray[i]) && threadStatusPid[i] == old(threadStatusPid[i])
    {
      var oldThread := current;
      current := next;
      SetStatus(next, Running);
      // _SWITCH(oldThread, nextThread)
      trace := trace + [Switched(oldThread, next)];
      if threadToBeDestroyed.Some? {
        trace := trace + [Destroyed(threadToBeDestroyed.value)];
        threadToBeDestroyed := None;
      }
    }

    /** The post-switch part of ScheduleThread, run by a newly forked thread
        on its first activation: the same effect as ScheduleThread has after
        the switch. */
    method Tail()
      requires Valid()
      modifies this`threadToBeDestroyed, this`trace
      ensures Valid()
      ensures DispatchView() == Reap(old(DispatchView()))
    {
      if threadToBeDestroyed.Some? {
        trace := trace + [Destroyed(threadToBeDestroyed.value)];
        threadToBeDestroyed := None;
      }
    }
  }

  /** A client of the FIFO policy: three threads put on an empty ready list
      come back in the order they were put there, and then no thread. */
  method FifoScenario(s: ProcessScheduler, a: ThreadId, b: ThreadId, c: ThreadId)
      returns (first: Pick, second: Pick, third: Pick, fourth: Pick)
    requires s.Valid() && s.schedType == 1 && s.readyList == []
    requires a < s.threadIndex && b < s.threadIndex && c < s.threadIndex
    modifies s, s.threadArray, s.threadStatusPid
    ensures first == Chosen(a) && second == Chosen(b) && third == Chosen(c) && fourth == NoThread
  {
    s.MoveThreadToReadyQueue(a, 10);
    s.MoveThreadToReadyQueue(b, 11);
    s.MoveThreadToReadyQueue(c, 12);
    first := s.SelectNextReadyThread();
    second := s.SelectNextReadyThread();
    third := s.SelectNextReadyThread();
    fourth := s.SelectNextReadyThread();
  }

  /** A client of the dispatch protocol: a finishing thread records itself in
      the slot and dispatches another thread; it is destroyed right after the
      switch away from it, and the next thread is RUNNING and cannot be picked
      again by a scan. */
  method FinishScenario(s: ProcessScheduler, next: ThreadId, byPriority: bool) returns (again: Pick)
    requires s.Valid() && next < s.threadIndex && next != s.current
    requires s.threadToBeDestroyed == None && ReclaimOrdered(s.trace)
    modifies s, s.threadArray, s.threadStatusPid
    ensures s.current == next && s.threadToBeDestroyed == None
    ensures s.trace == old(s.trace) + [Switched(old(s.current), next), Destroyed(old(s.current))]
    ensures ReclaimOrdered(s.trace)
    ensures again != Chosen(next)
  {
    s.threadToBeDestroyed := Some(s.current);
    ghost var d := s.DispatchView();
    s.ScheduleThread(next);
    ScheduleSettles(d, next);
    again := s.ScanReadyThreads(byPriority);
    NotReadyNeverPicked(s.ScanView(byPriority), s.threadIndex, next);
  }
}
