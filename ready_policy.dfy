// The three selection policies of SelectNextReadyThread, as functions of the
// state they read: a FIFO pop from the ready list, and a linear argmin scan of
// the thread table (by estimated CPU burst, or by priority value) that breaks
// ties on the earlier ready-queue entry time.

module ReadyPolicy {
  import opened ThreadTable

  /** The outcome of a selection. SentinelFault is the scan's read of
      threadArray[-1]: an eligible thread whose metric equals the sentinel
      2^16 is met before any thread was selected, and its entry time is
      compared with that of "selected thread" index -1. */
  datatype Pick = NoThread | Chosen(thread: ThreadId) | SentinelFault

  // ---------------------------------------------------------------- FIFO

  /** List::Remove on the ready list: the head, or no thread when it is empty. */
  function PopHead(q: seq<ThreadId>): (res: (Pick, seq<ThreadId>))
    ensures res.0 != SentinelFault
    ensures res.0 == NoThread <==> q == []
    ensures res.0.Chosen? ==> [res.0.thread] + res.1 == q
  {
    if q == [] then (NoThread, []) else (Chosen(q[0]), q[1..])
  }

  /** The ready list after appending each of `ts` in turn. */
  function AppendAll(q: seq<ThreadId>, ts: seq<ThreadId>): seq<ThreadId>
    decreases |ts|
  {
    if ts == [] then q else AppendAll(q + [ts[0]], ts[1..])
  }

  /** The picks and the remaining list after `k` FIFO selections. */
  function PopMany(q: seq<ThreadId>, k: nat): (seq<Pick>, seq<ThreadId>)
    decreases k
  {
    if k == 0 then ([], q)
    else
      var (p, rest) := PopHead(q);
      var (ps, left) := PopMany(rest, k - 1);
      ([p] + ps, left)
  }

  function ChosenEach(ts: seq<ThreadId>): (ps: seq<Pick>)
  {
    seq(|ts|, i requires 0 <= i < |ts| => Chosen(ts[i]))
  }

  /** Appending keeps the order of arrival: the list ends with the appended
      threads, in the order they were appended. */
  lemma {:induction false} AppendAllIsConcat(q: seq<ThreadId>, ts: seq<ThreadId>)
    ensures AppendAll(q, ts) == q + ts
    decreases |ts|
  {
    if ts != [] {
      AppendAllIsConcat(q + [ts[0]], ts[1..]);
      assert q + [ts[0]] + ts[1..] == q + ts;
    }
  }

  /** `k` FIFO selections return the first `k` threads of the list, in list
      order, and leave the rest. */
  lemma {:induction false} PopManyTakesPrefix(q: seq<ThreadId>, k: nat)
    requires k <= |q|
    ensures PopMany(q, k) == (ChosenEach(q[..k]), q[k..])
    decreases k
  {
    if k > 0 {
      assert PopHead(q) == (Chosen(q[0]), q[1..]);
      PopManyTakesPrefix(q[1..], k - 1);
      assert q[1..][..k - 1] == q[1..k];
      assert q[1..][k - 1..] == q[k..];
      var head, tail := ChosenEach(q[..k]), ChosenEach(q[1..k]);
      assert |head| == |tail| + 1;
      assert forall m :: 0 < m < |head| ==> head[m] == tail[m - 1];
      assert head == [Chosen(q[0])] + tail;
    }
  }

  /** Under FIFO, N threads appended to an empty ready list come back from N
      selections in insertion order, after which the list is empty and a
      further selection finds no thread. */
  lemma FifoInsertionOrder(ts: seq<ThreadId>)
    ensures PopMany(AppendAll([], ts), |ts|) == (ChosenEach(ts), [])
    ensures PopHead(PopMany(AppendAll([], ts), |ts|).1).0 == NoThread
  {
    AppendAllIsConcat([], ts);
    assert [] + ts == ts;
    PopManyTakesPrefix(ts, |ts|);
    assert ts[..|ts|] == ts && ts[|ts|..] == [];
  }

  /** A FIFO selection removes the thread it returns: on a list without
      duplicates the chosen thread is no longer on the list. */
  lemma PopRemovesChosen(q: seq<ThreadId>)
    requires forall i, j :: 0 <= i < j < |q| ==> q[i] != q[j]
    ensures PopHead(q).0 == NoThread <==> q == []
    ensures PopHead(q).0.Chosen? ==> PopHead(q).0.thread !in PopHead(q).1
    ensures PopHead(q).0.Chosen? ==> [PopHead(q).0.thread] + PopHead(q).1 == q
  {
    if q != [] {
      assert forall k :: 0 <= k < |q[1..]| ==> q[1..][k] == q[k + 1];
    }
  }

  // ---------------------------------------------------- table scans

  /** The initial minimum of both scans, 1 << 16. */
  const Sentinel: int := 0x1_0000

  /** What one scan reads, indexed by PID: the metric being minimised
      (Estimated_CPU_Burst or priorityValue), each thread's ready-queue entry
      time, the exited flags and the status table. */
  datatype ScanInput = ScanInput(metric: seq<int>, entry: seq<int>, exited: seq<bool>, status: seq<ThreadStatus>)

  predicate WellFormed(s: ScanInput)
  {
    |s.entry| == |s.metric| && |s.exited| == |s.metric| && |s.status| == |s.metric|
  }

  /** A slot the scan considers: not exited and READY in the status table. */
  predicate Eligible(s: ScanInput, i: nat)
    requires WellFormed(s) && i < |s.metric|
  {
    !s.exited[i] && s.status[i] == Ready
  }

  /** An eligible slot whose metric is below the sentinel: only these can be
      selected. */
  predicate Candidate(s: ScanInput, i: nat)
    requires WellFormed(s) && i < |s.metric|
  {
    Eligible(s, i) && s.metric[i] < Sentinel
  }

  /** The selection order: smaller metric first, then earlier entry time,
      then lower PID. */
  predicate Precedes(s: ScanInput, i: nat, j: nat)
    requires WellFormed(s) && i < |s.metric| && j < |s.metric|
  {
    || s.metric[i] < s.metric[j]
    || (s.metric[i] == s.metric[j] && s.entry[i] < s.entry[j])
    || (s.metric[i] == s.metric[j] && s.entry[i] == s.entry[j] && i <= j)
  }

  /** `i` is the least candidate among the first `n` slots. */
  predicate IsBest(s: ScanInput, n: nat, i: nat)
    requires WellFormed(s) && n <= |s.metric|
  {
    i < n && Candidate(s, i) && forall j :: 0 <= j < n && Candidate(s, j) ==> Precedes(s, i, j)
  }

  /** The scan reads threadArray[-1] at slot `i`: it is eligible, its metric
      equals the sentinel, and no earlier slot was a candidate. */
  predicate FaultsAt(s: ScanInput, i: nat)
    requires WellFormed(s) && i < |s.metric|
  {
    Eligible(s, i) && s.metric[i] == Sentinel && forall j :: 0 <= j < i ==> !Candidate(s, j)
  }

  /** The loop state: the selected PID (-1 for none) and the running minimum;
      or the scan has read before the start of the thread table. */
  datatype ScanState = Scanning(selected: int, minimum: int) | ReadBeforeStart

  /** One iteration of the scan loop, at slot `i`. */
  function ScanStep(s: ScanInput, st: ScanState, i: nat): (st': ScanState)
    requires WellFormed(s) && i < |s.metric|
    requires st.Scanning? ==> st.selected < |s.metric|
    ensures st.ReadBeforeStart? ==> st'.ReadBeforeStart?
    ensures st'.ReadBeforeStart? && st.Scanning? ==> Eligible(s, i) && st.selected < 0 && s.metric[i] == st.minimum
    ensures st'.Scanning? && st' != st ==> st'.selected == i && Eligible(s, i) && st'.minimum == s.metric[i]
    ensures st'.Scanning? && st.Scanning? ==> st'.minimum <= st.minimum
  {
    match st
    case ReadBeforeStart => ReadBeforeStart
    case Scanning(sel, min) =>
      if !Eligible(s, i) then st
      else if s.metric[i] < min then Scanning(i, s.metric[i])
      else if s.metric[i] == min then
        if sel < 0 then ReadBeforeStart
        else if s.entry[i] < s.entry[sel] then Scanning(i, s.metric[i])
        else st
      else st
  }

  /** The loop state after the first `n` iterations. */
  function ScanTo(s: ScanInput, n: nat): (st: ScanState)
    requires WellFormed(s) && n <= |s.metric|
    ensures st.Scanning? ==> -1 <= st.selected < n
    decreases n
  {
    if n == 0 then Scanning(-1, Sentinel) else ScanStep(s, ScanTo(s, n - 1), n - 1)
  }

  /** What the selection returns for a final loop state. */
  function Verdict(st: ScanState): (p: Pick)
    ensures p == SentinelFault <==> st.ReadBeforeStart?
    ensures p == NoThread <==> st.Scanning? && st.selected < 0
    ensures p.Chosen? ==> st.Scanning? && p.thread == st.selected
  {
    match st
    case ReadBeforeStart => SentinelFault
    case Scanning(sel, _) => if sel < 0 then NoThread else Chosen(sel)
  }

  /** The loop invariant of both scans: after `n` slots the scan has read
      before the table's start exactly when some slot faulted; otherwise it
      holds either no selection (with the sentinel as minimum) when no slot
      was a candidate, or the least candidate and its metric. */
  lemma {:induction false} ScanToMeaning(s: ScanInput, n: nat)
    requires WellFormed(s) && n <= |s.metric|
    ensures ScanTo(s, n).ReadBeforeStart? <==> exists i :: 0 <= i < n && FaultsAt(s, i)
    ensures ScanTo(s, n).Scanning? && ScanTo(s, n).selected < 0 ==>
      ScanTo(s, n).minimum == Sentinel && forall j :: 0 <= j < n ==> !Candidate(s, j)
    ensures ScanTo(s, n).Scanning? && ScanTo(s, n).selected >= 0 ==>
      IsBest(s, n, ScanTo(s, n).selected) && ScanTo(s, n).minimum == s.metric[ScanTo(s, n).selected]
    decreases n
  {
    if n > 0 {
      var i := n - 1;
      ScanToMeaning(s, i);
      var st := ScanTo(s, i);
      if st.Scanning? {
        assert forall k :: 0 <= k < i ==> !FaultsAt(s, k);
        if st.selected >= 0 {
          assert Candidate(s, st.selected);
          assert !FaultsAt(s, i);
          if Eligible(s, i) && s.metric[i] == st.minimum && s.entry[i] < s.entry[st.selected] {
            assert forall j :: 0 <= j < i && Candidate(s, j) ==> Precedes(s, st.selected, j);
          }
        } else if FaultsAt(s, i) {
          assert ScanTo(s, n) == ReadBeforeStart;
        } else if ScanTo(s, n) == ReadBeforeStart {
          assert FaultsAt(s, i);
        }
      } else {
        var k :| 0 <= k < i && FaultsAt(s, k);
        assert 0 <= k < n && FaultsAt(s, k);
      }
    }
  }

  /** Once the scan has read before the table's start, the rest of the loop
      keeps that outcome. */
  lemma {:induction false} FaultPersists(s: ScanInput, i: nat, n: nat)
    requires WellFormed(s) && i <= n <= |s.metric|
    requires ScanTo(s, i) == ReadBeforeStart
    ensures ScanTo(s, n) == ReadBeforeStart
    decreases n - i
  {
    if i < n {
      FaultPersists(s, i + 1, n);
    }
  }

  /** The least candidate is unique. */
  lemma BestIsUnique(s: ScanInput, n: nat, i: nat, j: nat)
    requires WellFormed(s) && n <= |s.metric|
    requires IsBest(s, n, i) && IsBest(s, n, j)
    ensures i == j
  {
  }

  /** What a scan over `n` slots returns: the fault exactly when some slot
      faults; no thread exactly when there is no fault and no candidate; and
      thread `i` exactly when there is no fault and `i` is the least
      candidate by metric, then entry time, then PID. */
  lemma PickMeaning(s: ScanInput, n: nat)
    requires WellFormed(s) && n <= |s.metric|
    ensures Verdict(ScanTo(s, n)) == SentinelFault <==> exists i :: 0 <= i < n && FaultsAt(s, i)
    ensures Verdict(ScanTo(s, n)) == NoThread <==>
      (forall i :: 0 <= i < n ==> !FaultsAt(s, i)) && forall j :: 0 <= j < n ==> !Candidate(s, j)
    ensures forall i: nat :: Verdict(ScanTo(s, n)) == Chosen(i) <==>
      (forall k :: 0 <= k < n ==> !FaultsAt(s, k)) && IsBest(s, n, i)
  {
    ScanToMeaning(s, n);
    var st := ScanTo(s, n);
    forall i: nat | (forall k :: 0 <= k < n ==> !FaultsAt(s, k)) && IsBest(s, n, i)
      ensures Verdict(st) == Chosen(i)
    {
      if st.selected >= 0 {
        BestIsUnique(s, n, i, st.selected);
      }
    }
  }

  /** With every metric below the sentinel the scan never faults, and it
      finds a thread exactly when some slot is eligible. */
  lemma NoFaultBelowSentinel(s: ScanInput, n: nat)
    requires WellFormed(s) && n <= |s.metric|
    requires forall i :: 0 <= i < n ==> s.metric[i] < Sentinel
    ensures Verdict(ScanTo(s, n)) != SentinelFault
    ensures Verdict(ScanTo(s, n)) == NoThread <==> forall i :: 0 <= i < n ==> !Eligible(s, i)
  {
    PickMeaning(s, n);
    assert forall i :: 0 <= i < n ==> (Eligible(s, i) <==> Candidate(s, i));
  }

  /** A thread that is not READY in the status table (for one, the thread
      that was just dispatched and is RUNNING) is never picked by a scan. */
  lemma NotReadyNeverPicked(s: ScanInput, n: nat, i: nat)
    requires WellFormed(s) && n <= |s.metric| && i < |s.metric|
    requires s.status[i] != Ready || s.exited[i]
    ensures Verdict(ScanTo(s, n)) != Chosen(i)
  {
    PickMeaning(s, n);
  }

  /** Shortest burst: threads A, B, C with bursts 5, 3, 3 made ready at ticks
      0, 1 and 2 are picked in the order B, C, A: each picked thread is
      RUNNING until it gives up the processor (here B blocks once C runs). */
  lemma BurstScenario()
    ensures var s := ScanInput([5, 3, 3], [0, 1, 2], [false, false, false], [Ready, Ready, Ready]);
      Verdict(ScanTo(s, 3)) == Chosen(1)
    ensures var s := ScanInput([5, 3, 3], [0, 1, 2], [false, false, false], [Ready, Running, Ready]);
      Verdict(ScanTo(s, 3)) == Chosen(2)
    ensures var s := ScanInput([5, 3, 3], [0, 1, 2], [false, false, false], [Ready, Blocked, Running]);
      Verdict(ScanTo(s, 3)) == Chosen(0)
  {
  }
}
