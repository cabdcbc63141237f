// The bookkeeping done when a thread becomes READY: the start-time stamp on
// its first ready transition, sleep accounting on a BLOCKED -> READY
// transition, the ready-queue entry stamp and the status change.

module Bookkeeping {
  import opened ThreadTable

  /** The test for "first time on the ready list": the entry time still holds
      its initial 0 and the thread is not the bootstrap thread (PID 0). */
  predicate FirstReady(r: ThreadRecord)
  {
    r.entryTimeReadyQueue == 0 && r.pid != 0
  }

  /** The record after a ready transition at tick `now`. */
  function MarkReady(r: ThreadRecord, now: int): (r': ThreadRecord)
    ensures r'.status == Ready && r'.entryTimeReadyQueue == now
    ensures r'.pid == r.pid && r'.estimatedCpuBurst == r.estimatedCpuBurst
    ensures r'.totalSleep >= r.totalSleep <==> r.status != Blocked || now >= r.startSleep
  {
    r.(threadStartTime := if FirstReady(r) then now else r.threadStartTime,
       entryTimeReadyQueue := now,
       totalSleep := if r.status == Blocked then r.totalSleep + now - r.startSleep else r.totalSleep,
       status := Ready)
  }

  /** What a ready transition does to each field of the record. */
  lemma MarkReadyEffect(r: ThreadRecord, now: int)
    ensures MarkReady(r, now).status == Ready
    ensures MarkReady(r, now).entryTimeReadyQueue == now
    ensures MarkReady(r, now).threadStartTime != r.threadStartTime ==> FirstReady(r) && now != r.threadStartTime
    ensures FirstReady(r) ==> MarkReady(r, now).threadStartTime == now
    ensures r.status == Blocked ==> MarkReady(r, now).totalSleep == r.totalSleep + (now - r.startSleep)
    ensures r.status != Blocked ==> MarkReady(r, now).totalSleep == r.totalSleep
    ensures MarkReady(r, now).pid == r.pid
    ensures MarkReady(r, now).startSleep == r.startSleep
    ensures MarkReady(r, now).estimatedCpuBurst == r.estimatedCpuBurst
  {
  }

  /** The start time is stamped once: a thread whose first ready transition
      happened at a non-zero tick keeps that start time through every later
      ready transition. */
  lemma StartTimeStampedOnce(r: ThreadRecord, first: int, later: int)
    requires first != 0
    ensures MarkReady(MarkReady(r, first), later).threadStartTime == MarkReady(r, first).threadStartTime
  {
  }

  /** Because 0 is both a tick and the "never ready" marker, a thread of PID
      other than 0 first made ready at tick 0 has its start time stamped again
      on its next ready transition. */
  lemma StartTimeRestampedAfterTickZero(r: ThreadRecord, later: int)
    requires r.pid != 0
    ensures MarkReady(MarkReady(r, 0), later).threadStartTime == later
  {
  }

  /** The effect of the sleep path (not part of the scheduler): the thread
      records the tick at which it blocked and becomes BLOCKED. */
  function Sleep(r: ThreadRecord, at: int): ThreadRecord
  {
    r.(startSleep := at, status := Blocked)
  }

  /** One block/wake interval: blocked at tick `asleep`, made ready at `awake`. */
  datatype Nap = Nap(asleep: int, awake: int)

  /** The record after a run of block/ready cycles, in order. */
  function Cycles(r: ThreadRecord, naps: seq<Nap>): ThreadRecord
    decreases |naps|
  {
    if naps == [] then r
    else Cycles(MarkReady(Sleep(r, naps[0].asleep), naps[0].awake), naps[1..])
  }

  /** The total length of a run of intervals. */
  function NapTime(naps: seq<Nap>): int
    decreases |naps|
  {
    if naps == [] then 0 else (naps[0].awake - naps[0].asleep) + NapTime(naps[1..])
  }

  /** Sleep accounting is additive: after any run of block/ready cycles the
      accumulated sleep has grown by exactly the sum of the intervals, the
      thread is READY and its last entry time is the last wake-up tick. */
  lemma {:induction false} SleepAccumulates(r: ThreadRecord, naps: seq<Nap>)
    ensures Cycles(r, naps).totalSleep == r.totalSleep + NapTime(naps)
    ensures naps != [] ==> Cycles(r, naps).status == Ready
    ensures naps != [] ==> Cycles(r, naps).entryTimeReadyQueue == naps[|naps| - 1].awake
    ensures Cycles(r, naps).pid == r.pid
    decreases |naps|
  {
    if naps != [] {
      var r' := MarkReady(Sleep(r, naps[0].asleep), naps[0].awake);
      SleepAccumulates(r', naps[1..]);
      if naps[1..] != [] {
        assert naps[1..][|naps[1..]| - 1] == naps[|naps| - 1];
      }
    }
  }

  /** A thread blocked at tick 10 and made ready at tick 25 gains 15 ticks of
      sleep. */
  lemma SleepScenario(r: ThreadRecord)
    ensures Cycles(r, [Nap(10, 25)]).totalSleep == r.totalSleep + 15
  {
    SleepAccumulates(r, [Nap(10, 25)]);
  }
}
