// The per-thread data the scheduler reads and writes: thread identity, run
// status and the timing and scheduling metrics kept on each thread object.

module ThreadTable {

  /** A thread is named by its PID, which is also its slot in the global
      per-thread arrays (threadArray, threadStatusPid, exitThreadArray,
      priorityValue). */
  type ThreadId = nat

  datatype Option<T> = None | Some(value: T)

  /** The run status of a thread (NachOS's JUST_CREATED, RUNNING, READY,
      BLOCKED). */
  datatype ThreadStatus = JustCreated | Running | Ready | Blocked

  /** The fields of a thread object that the scheduler touches. Times are in
      ticks of the simulated clock. An entry time of 0 doubles as the
      "never been on the ready list" marker. */
  datatype ThreadRecord = ThreadRecord(
    pid: ThreadId,
    status: ThreadStatus,
    entryTimeReadyQueue: int,
    threadStartTime: int,
    startSleep: int,
    totalSleep: int,
    estimatedCpuBurst: int)
}
