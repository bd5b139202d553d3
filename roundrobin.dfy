/** Round-Robin rotation: a FIFO queue of positions, a parallel list of
    unserved time per position, and a clock that advances by at most one
    quantum per turn. Processes are referred to by their position in the
    list, which is what the identity lookup in the loop finds when every
    process in the list is a distinct object. */
module RoundRobin {
  import opened Processes

  /** The loop state: the ready queue (positions), the unserved time of each
      position, the clock, the process list, and (for the proofs only) the
      positions in the order they completed. */
  datatype RRState = RRState(
    queue: seq<nat>,
    remaining: seq<nat>,
    clock: nat,
    procs: seq<Process>,
    finished: seq<nat>)

  /** The loop guard: some process still has unserved time. */
  predicate AnyLeft(remaining: seq<nat>)
  {
    exists i :: 0 <= i < |remaining| && remaining[i] > 0
  }

  /** The positions 0 .. n-1 in order. */
  function Positions(n: nat): (r: seq<nat>)
    ensures |r| == n && forall i :: 0 <= i < n ==> r[i] == i
  {
    seq(n, i requires 0 <= i < n => i)
  }

  /** The state before the first turn: every process queued in list order,
      nothing served, clock at zero. */
  function Initial(s: seq<Process>): (r: RRState)
    ensures |r.queue| == |s| && forall j :: 0 <= j < |s| ==> r.queue[j] == j
    ensures r.remaining == Bursts(s) && r.clock == 0
    ensures r.procs == s && r.finished == []
  {
    RRState(Positions(|s|), Bursts(s), 0, s, [])
  }

  ghost predicate Distinct(q: seq<nat>)
  {
    forall j, k :: 0 <= j < k < |q| ==> q[j] != q[k]
  }

  /** What keeps the rotation well defined: queued positions are valid and
      queued once, and every process with unserved time is queued. */
  ghost predicate QueueInv(st: RRState)
  {
    |st.remaining| == |st.procs| &&
    (forall j :: 0 <= j < |st.queue| ==> st.queue[j] < |st.procs|) &&
    Distinct(st.queue) &&
    (forall i :: 0 <= i < |st.remaining| && st.remaining[i] > 0 ==> i in st.queue)
  }

  /** One turn: pop the head of the queue; if what it still needs fits in the
      quantum it runs to completion and records the clock as its turnaround,
      otherwise it runs one quantum and goes back to the tail. */
  function Step(st: RRState, quantum: nat): (r: RRState)
    requires |st.queue| > 0 && st.queue[0] < |st.remaining| == |st.procs|
    ensures |r.remaining| == |st.remaining| && |r.procs| == |st.procs|
    ensures forall i :: 0 <= i < |st.remaining| ==> r.remaining[i] <= st.remaining[i]
    ensures r.clock + Sum(r.remaining) == st.clock + Sum(st.remaining)
    ensures st.clock <= r.clock <= st.clock + quantum
    ensures |r.queue| < |st.queue| || r.clock == st.clock + quantum
  {
    var i := st.queue[0];
    if st.remaining[i] <= quantum then
      var t := st.clock + st.remaining[i];
      var p := st.procs[i].(turnaround := t);
      SumUpdate(st.remaining, i, 0);
      RRState(st.queue[1..], st.remaining[i := 0], t,
              st.procs[i := p.(waiting := p.turnaround - p.burst)], st.finished + [i])
    else
      SumUpdate(st.remaining, i, st.remaining[i] - quantum);
      RRState(st.queue[1..] + [i], st.remaining[i := st.remaining[i] - quantum],
              st.clock + quantum, st.procs, st.finished)
  }

  /** While the guard holds the queue is not empty, so the pop never fails. */
  lemma QueueNonEmpty(st: RRState)
    requires QueueInv(st) && AnyLeft(st.remaining)
    ensures |st.queue| > 0
  {
    var i :| 0 <= i < |st.remaining| && st.remaining[i] > 0;
    assert i in st.queue;
  }

  lemma StepKeepsQueueInv(st: RRState, quantum: nat)
    requires QueueInv(st) && |st.queue| > 0
    ensures QueueInv(Step(st, quantum))
  {
    var r := Step(st, quantum);
    var i := st.queue[0];
    forall k | 0 <= k < |r.remaining| && r.remaining[k] > 0
      ensures k in r.queue
    {
      assert k in st.queue;
      var m :| 0 <= m < |st.queue| && st.queue[m] == k;
      if m > 0 {
        assert r.queue[m - 1] == k;
      } else {
        assert r.queue[|r.queue| - 1] == k;
      }
    }
  }

  /** Rotate until no process has unserved time left. */
  function Run(st: RRState, quantum: nat): (r: RRState)
    requires quantum > 0 && QueueInv(st)
    ensures QueueInv(r) && !AnyLeft(r.remaining)
    decreases Sum(st.remaining), |st.queue|
  {
    if !AnyLeft(st.remaining) then st
    else
      QueueNonEmpty(st);
      StepKeepsQueueInv(st, quantum);
      Run(Step(st, quantum), quantum)
  }

  /** The block after the loop, from position i on: in list order, each
      process still owed time waits until the clock plus everything owed to
      the owed processes before it, then runs what it is owed; the others
      and the positions before i are left as they are. */
  function Drain(remaining: seq<nat>, clock: nat, procs: seq<Process>, i: nat): (r: seq<Process>)
    requires |remaining| == |procs| && i <= |procs|
    ensures |r| == |procs|
    ensures forall k :: 0 <= k < i ==> r[k] == procs[k]
    ensures forall k :: i <= k < |procs| && remaining[k] == 0 ==> r[k] == procs[k]
    ensures forall k :: i <= k < |procs| && remaining[k] > 0 ==>
              r[k] == procs[k].(waiting := clock + Sum(remaining[i..k]),
                                turnaround := clock + Sum(remaining[i..k + 1]))
    decreases |procs| - i
  {
    if i == |procs| then procs
    else
      SumFrontSlices(remaining, i);
      if remaining[i] > 0 then
        var p := procs[i].(waiting := clock);
        Drain(remaining, clock + remaining[i], procs[i := p.(turnaround := clock + remaining[i])], i + 1)
      else Drain(remaining, clock, procs, i + 1)
  }

  /** The rotation leaves nothing unserved, so the block after it changes nothing. */
  lemma {:induction false} DrainIsNoOp(remaining: seq<nat>, clock: nat, procs: seq<Process>, i: nat)
    requires |remaining| == |procs| && i <= |procs|
    requires !AnyLeft(remaining)
    ensures Drain(remaining, clock, procs, i) == procs
    decreases |procs| - i
  {
    if i < |procs| {
      assert remaining[i] == 0;
      DrainIsNoOp(remaining, clock, procs, i + 1);
    }
  }

  lemma InitialQueueInv(s: seq<Process>)
    ensures QueueInv(Initial(s))
  {
    var st := Initial(s);
    forall i | 0 <= i < |s| ensures i in st.queue {
      assert st.queue[i] == i;
    }
  }

  /** The final state of the rotation. */
  function Final(s: seq<Process>, quantum: nat): (r: RRState)
    requires quantum > 0
    ensures !AnyLeft(r.remaining) && |r.procs| == |s|
  {
    InitialInv(s);
    var r := Run(Initial(s), quantum);
    RunKeepsInv(Initial(s), s, quantum);
    r
  }

  /** Reference definition of Round-Robin scheduling on a list. */
  function RoundRobinResult(s: seq<Process>, quantum: nat): (r: seq<Process>)
    requires quantum > 0
    ensures |r| == |s|
  {
    var fin := Final(s, quantum);
    Drain(fin.remaining, fin.clock, fin.procs, 0)
  }

  /** A process whose results were written when it completed: only its two
      results changed, it turned around no earlier than its burst and no
      later than clock, and it waited its turnaround less its burst. */
  ghost predicate Completed(p: Process, orig: Process, clock: nat)
  {
    Descriptor(p) == Descriptor(orig) &&
    orig.burst <= p.turnaround <= clock &&
    p.waiting == p.turnaround - orig.burst
  }

  /** Time is conserved: what has been served plus what is still owed is
      the total of all bursts, and nobody is owed more than their burst. */
  ghost predicate Conserved(st: RRState, s: seq<Process>)
  {
    |st.remaining| == |s| &&
    (forall i :: 0 <= i < |s| ==> st.remaining[i] <= s[i].burst) &&
    st.clock + Sum(st.remaining) == TotalBurst(s)
  }

  /** Every position is either still queued or completed, never both, and
      completes at most once. */
  ghost predicate Partitioned(st: RRState, s: seq<Process>)
  {
    Distinct(st.finished) &&
    (forall j :: 0 <= j < |st.finished| ==> st.finished[j] < |s|) &&
    (forall i :: 0 <= i < |s| ==> (i in st.finished <==> i !in st.queue))
  }

  /** Completed processes are owed nothing and carry their results;
      the others are as they came in, and are owed time unless their burst is zero. */
  ghost predicate Recorded(st: RRState, s: seq<Process>)
    requires |st.remaining| == |st.procs| == |s|
  {
    (forall i :: 0 <= i < |s| && i in st.finished ==>
       st.remaining[i] == 0 && Completed(st.procs[i], s[i], st.clock)) &&
    (forall i :: 0 <= i < |s| && i !in st.finished ==>
       st.procs[i] == s[i] && (st.remaining[i] > 0 || s[i].burst == 0))
  }

  /** Completion times never decrease along the completion order. */
  ghost predicate CompletionSorted(st: RRState)
    requires forall j :: 0 <= j < |st.finished| ==> st.finished[j] < |st.procs|
  {
    forall j, k :: 0 <= j < k < |st.finished| ==>
      st.procs[st.finished[j]].turnaround <= st.procs[st.finished[k]].turnaround
  }

  /** The invariant of the rotation, relative to the input list s. */
  ghost predicate Inv(st: RRState, s: seq<Process>)
  {
    QueueInv(st) && |st.procs| == |s| && Conserved(st, s) && Partitioned(st, s) &&
    Recorded(st, s) && CompletionSorted(st)
  }

  lemma InitialInv(s: seq<Process>)
    ensures Inv(Initial(s), s)
  {
    InitialQueueInv(s);
    var st := Initial(s);
    forall i | 0 <= i < |s| ensures i in st.queue {
      assert st.queue[i] == i;
    }
  }

  /** The head of the queue is neither completed nor queued a second time. */
  lemma HeadIsFresh(st: RRState, s: seq<Process>)
    requires Inv(st, s) && |st.queue| > 0
    ensures st.queue[0] !in st.finished && st.queue[0] !in st.queue[1..]
    ensures st.procs[st.queue[0]] == s[st.queue[0]]
  {
    forall m | 0 <= m < |st.queue| - 1 ensures st.queue[1..][m] != st.queue[0] {
      assert st.queue[1..][m] == st.queue[m + 1];
    }
  }

  /** Apart from the head, a turn leaves queue membership as it was. */
  lemma StepKeepsOthersQueued(st: RRState, quantum: nat, k: nat)
    requires QueueInv(st) && |st.queue| > 0 && k != st.queue[0]
    ensures k in st.queue <==> k in Step(st, quantum).queue
  {
    var r := Step(st, quantum);
    if k in st.queue {
      var m :| 0 <= m < |st.queue| && st.queue[m] == k;
      assert m > 0 && r.queue[m - 1] == k;
    }
    if k in r.queue {
      var m :| 0 <= m < |r.queue| && r.queue[m] == k;
      if m < |st.queue| - 1 {
        assert st.queue[m + 1] == k;
      }
    }
  }

  lemma StepKeepsInv(st: RRState, s: seq<Process>, quantum: nat)
    requires Inv(st, s) && |st.queue| > 0
    ensures Inv(Step(st, quantum), s)
  {
    HeadIsFresh(st, s);
    StepKeepsQueueInv(st, quantum);
    forall k | 0 <= k < |s| && k != st.queue[0]
      ensures k in st.queue <==> k in Step(st, quantum).queue
    {
      StepKeepsOthersQueued(st, quantum, k);
    }
    if st.remaining[st.queue[0]] <= quantum {
      CompletionKeepsInv(st, s, quantum);
    } else {
      RequeueKeepsInv(st, s, quantum);
    }
  }

  /** A turn that completes the head process, with the facts about the head
      that the invariant gives. */
  ghost predicate CompletingTurn(st: RRState, s: seq<Process>, quantum: nat)
  {
    Inv(st, s) && |st.queue| > 0 && st.remaining[st.queue[0]] <= quantum &&
    st.queue[0] !in st.finished && st.queue[0] !in st.queue[1..] &&
    st.procs[st.queue[0]] == s[st.queue[0]] &&
    QueueInv(Step(st, quantum)) &&
    forall k :: 0 <= k < |s| && k != st.queue[0] ==> (k in st.queue <==> k in Step(st, quantum).queue)
  }

  /** A turn that completes the head process keeps the invariant. */
  lemma CompletionKeepsInv(st: RRState, s: seq<Process>, quantum: nat)
    requires Inv(st, s) && |st.queue| > 0 && st.remaining[st.queue[0]] <= quantum
    requires st.queue[0] !in st.finished && st.queue[0] !in st.queue[1..]
    requires st.procs[st.queue[0]] == s[st.queue[0]]
    requires QueueInv(Step(st, quantum))
    requires forall k :: 0 <= k < |s| && k != st.queue[0] ==> (k in st.queue <==> k in Step(st, quantum).queue)
    ensures Inv(Step(st, quantum), s)
  {
    assert CompletingTurn(st, s, quantum);
    CompletionKeepsPartitioned(st, s, quantum);
    CompletionKeepsRecorded(st, s, quantum);
    CompletionKeepsOrder(st, s, quantum);
  }

  lemma CompletionKeepsPartitioned(st: RRState, s: seq<Process>, quantum: nat)
    requires CompletingTurn(st, s, quantum)
    ensures Partitioned(Step(st, quantum), s)
  {
    var r := Step(st, quantum);
    var i := st.queue[0];
    assert r.finished == st.finished + [i];
    forall k | 0 <= k < |s| ensures k in r.finished <==> k in st.finished || k == i {
      assert k in r.finished <==> k in st.finished || k in [i];
    }
  }

  lemma CompletionKeepsRecorded(st: RRState, s: seq<Process>, quantum: nat)
    requires CompletingTurn(st, s, quantum)
    ensures Recorded(Step(st, quantum), s)
  {
    var r := Step(st, quantum);
    var i := st.queue[0];
    assert r.finished == st.finished + [i];
    CompletesInTime(st, s, quantum);
    forall k | 0 <= k < |s| && k in r.finished
      ensures r.remaining[k] == 0 && Completed(r.procs[k], s[k], r.clock)
    {
      if k != i {
        assert k in st.finished;
      }
    }
  }

  /** The completing process has been served its whole burst, so the clock
      has passed it. */
  lemma CompletesInTime(st: RRState, s: seq<Process>, quantum: nat)
    requires CompletingTurn(st, s, quantum)
    ensures s[st.queue[0]].burst <= Step(st, quantum).clock
  {
    var r := Step(st, quantum);
    forall k | 0 <= k < |s| ensures r.remaining[k] <= Bursts(s)[k] { }
    SumDominated(r.remaining, Bursts(s), st.queue[0]);
  }

  lemma CompletionKeepsOrder(st: RRState, s: seq<Process>, quantum: nat)
    requires CompletingTurn(st, s, quantum)
    ensures forall j :: 0 <= j < |Step(st, quantum).finished| ==> Step(st, quantum).finished[j] < |s|
    ensures CompletionSorted(Step(st, quantum))
  {
    var r := Step(st, quantum);
    var i := st.queue[0];
    assert r.finished == st.finished + [i];
    forall j, k | 0 <= j < k < |r.finished|
      ensures r.procs[r.finished[j]].turnaround <= r.procs[r.finished[k]].turnaround
    {
      if k < |st.finished| {
        assert r.finished[j] != i && r.finished[k] != i;
      } else {
        assert r.finished[j] in st.finished;
      }
    }
  }

  /** A turn that sends the head process back to the tail keeps the invariant. */
  lemma RequeueKeepsInv(st: RRState, s: seq<Process>, quantum: nat)
    requires Inv(st, s) && |st.queue| > 0 && st.remaining[st.queue[0]] > quantum
    requires st.queue[0] !in st.finished
    requires QueueInv(Step(st, quantum))
    requires forall k :: 0 <= k < |s| && k != st.queue[0] ==> (k in st.queue <==> k in Step(st, quantum).queue)
    ensures Inv(Step(st, quantum), s)
  {
    var r := Step(st, quantum);
    var i := st.queue[0];
    assert r.queue[|r.queue| - 1] == i;
  }

  lemma {:induction false} RunKeepsInv(st: RRState, s: seq<Process>, quantum: nat)
    requires quantum > 0 && Inv(st, s)
    ensures Inv(Run(st, quantum), s)
    decreases Sum(st.remaining), |st.queue|
  {
    if AnyLeft(st.remaining) {
      QueueNonEmpty(st);
      StepKeepsInv(st, s, quantum);
      RunKeepsInv(Step(st, quantum), s, quantum);
    }
  }

  /** Positions in the order the rotation completed them. */
  function CompletionOrder(s: seq<Process>, quantum: nat): seq<nat>
    requires quantum > 0
  {
    Final(s, quantum).finished
  }

  /** Nothing is left owed when the rotation stops, so the list the
      rotation produced is the result. */
  lemma NothingLeftToDrain(s: seq<Process>, quantum: nat)
    requires quantum > 0
    ensures RoundRobinResult(s, quantum) == Final(s, quantum).procs
  {
    var fin := Final(s, quantum);
    DrainIsNoOp(fin.remaining, fin.clock, fin.procs, 0);
  }

  /** What Round-Robin delivers. The clock ends at the total of all bursts
      (no time is lost or invented). The list keeps its order and its
      descriptors. Every process with a positive burst completes, no earlier
      than its burst and no later than the end, waiting its turnaround less
      its burst; completion times never decrease in completion order; and a
      process that never completed (only a zero-burst one left queued when
      the rotation ended) keeps the results it had. */
  lemma {:induction false} RoundRobinOutcome(s: seq<Process>, quantum: nat)
    requires quantum > 0
    ensures Final(s, quantum).clock == TotalBurst(s)
    ensures RoundRobinResult(s, quantum) == Final(s, quantum).procs
    ensures forall j :: 0 <= j < |CompletionOrder(s, quantum)| ==> CompletionOrder(s, quantum)[j] < |s|
    ensures forall i :: 0 <= i < |s| ==> Descriptor(RoundRobinResult(s, quantum)[i]) == Descriptor(s[i])
    ensures forall i :: 0 <= i < |s| && s[i].burst > 0 ==> i in CompletionOrder(s, quantum)
    ensures forall i :: 0 <= i < |s| && i in CompletionOrder(s, quantum) ==>
              s[i].burst <= RoundRobinResult(s, quantum)[i].turnaround <= TotalBurst(s) &&
              RoundRobinResult(s, quantum)[i].waiting == RoundRobinResult(s, quantum)[i].turnaround - s[i].burst
    ensures forall i :: 0 <= i < |s| && i !in CompletionOrder(s, quantum) ==>
              RoundRobinResult(s, quantum)[i] == s[i] && s[i].burst == 0
    ensures forall j, k :: 0 <= j < k < |CompletionOrder(s, quantum)| ==>
              RoundRobinResult(s, quantum)[CompletionOrder(s, quantum)[j]].turnaround
              <= RoundRobinResult(s, quantum)[CompletionOrder(s, quantum)[k]].turnaround
  {
    var fin := Final(s, quantum);
    InitialInv(s);
    InitialQueueInv(s);
    RunKeepsInv(Initial(s), s, quantum);
    NothingLeftToDrain(s, quantum);
    assert Sum(fin.remaining) == 0 by {
      ZeroSum(fin.remaining);
    }
    forall i | 0 <= i < |s| && i !in fin.finished
      ensures s[i].burst == 0
    {
      assert fin.remaining[i] == 0;
    }
  }

  /** Three processes with bursts 5, 2 and 8, in that order. */
  function TraceInput(): (s: seq<Process>)
  {
    [NewProcess(1, "P1", 5, 0), NewProcess(2, "P2", 2, 0), NewProcess(3, "P3", 8, 0)]
  }

  /** The state after each turn of the trace. */
  function TraceState(k: nat): RRState
  {
    var s := TraceInput();
    var p1 := s[0].(turnaround := 10, waiting := 5);
    var p2 := s[1].(turnaround := 5, waiting := 3);
    var p3 := s[2].(turnaround := 15, waiting := 7);
    if k == 0 then RRState([0, 1, 2], [5, 2, 8], 0, s, [])
    else if k == 1 then RRState([1, 2, 0], [2, 2, 8], 3, s, [])
    else if k == 2 then RRState([2, 0], [2, 0, 8], 5, [s[0], p2, s[2]], [1])
    else if k == 3 then RRState([0, 2], [2, 0, 5], 8, [s[0], p2, s[2]], [1])
    else if k == 4 then RRState([2], [0, 0, 5], 10, [p1, p2, s[2]], [1, 0])
    else if k == 5 then RRState([2], [0, 0, 2], 13, [p1, p2, s[2]], [1, 0])
    else RRState([], [0, 0, 0], 15, [p1, p2, p3], [1, 0, 2])
  }

  /** One turn of the rotation when something is still owed. */
  lemma RunUnfolds(st: RRState, quantum: nat)
    requires quantum > 0 && QueueInv(st) && AnyLeft(st.remaining)
    ensures |st.queue| > 0 && QueueInv(Step(st, quantum))
    ensures Run(st, quantum) == Run(Step(st, quantum), quantum)
  {
    QueueNonEmpty(st);
    StepKeepsQueueInv(st, quantum);
  }

  /** Turn k + 1 of the trace: something is still owed, and one turn takes
      the state after turn k to the state after turn k + 1. */
  lemma TraceTurn(k: nat, quantum: nat)
    requires k < 6 && quantum == 3
    ensures AnyLeft(TraceState(k).remaining)
    ensures |TraceState(k).queue| > 0 && Step(TraceState(k), quantum) == TraceState(k + 1)
  {
    assert TraceState(k).remaining[2] > 0;
    if k < 3 {
      EarlyTurn(k, quantum);
    } else {
      LateTurn(k, quantum);
    }
  }

  lemma EarlyTurn(k: nat, quantum: nat)
    requires k < 3 && quantum == 3
    ensures |TraceState(k).queue| > 0 && Step(TraceState(k), quantum) == TraceState(k + 1)
  {
  }

  lemma LateTurn(k: nat, quantum: nat)
    requires 3 <= k < 6 && quantum == 3
    ensures |TraceState(k).queue| > 0 && Step(TraceState(k), quantum) == TraceState(k + 1)
  {
  }

  lemma TraceQueueInv(k: nat)
    ensures QueueInv(TraceState(k))
  {
    var st := TraceState(k);
    forall i | 0 <= i < |st.remaining| && st.remaining[i] > 0 ensures i in st.queue {
      if k == 0 { assert st.queue[i] == i; }
      else if k == 1 { assert st.queue[(i + 2) % 3] == i; }
      else if k == 3 { assert st.queue[i / 2] == i; }
    }
  }

  /** The rotation on the trace input from the state after turn k; the
      quantum is a parameter so that the rotation is unfolded one turn at a
      time. */
  lemma {:induction false} TraceRuns(k: nat, quantum: nat)
    requires k <= 6 && quantum == 3
    ensures Run(TraceState(k), quantum) == TraceState(6)
    decreases 6 - k
  {
    TraceQueueInv(k);
    if k == 6 {
      assert TraceState(6).remaining == [0, 0, 0];
    } else {
      TraceTurn(k, quantum);
      RunUnfolds(TraceState(k), quantum);
      TraceRuns(k + 1, quantum);
    }
  }

  /** The final state of the rotation on the trace input. */
  lemma TraceFinal(s: seq<Process>, quantum: nat)
    requires s == TraceInput() && quantum == 3
    ensures Final(s, quantum) == TraceState(6)
  {
    assert Initial(s) == TraceState(0);
    TraceRuns(0, quantum);
  }

  /** With a quantum of 3 the rotation ends in the last state of the trace:
      P2 completes first, at 5 (waited 3), then P1 at 10 (waited 5) and P3
      at 15 (waited 7); the list keeps its order. */
  lemma RoundRobinTrace(s: seq<Process>, quantum: nat)
    requires s == TraceInput() && quantum == 3
    ensures CompletionOrder(s, quantum) == TraceState(6).finished
    ensures RoundRobinResult(s, quantum) == TraceState(6).procs
  {
    TraceFinal(s, quantum);
    NothingLeftToDrain(s, quantum);
  }

  lemma {:induction false} ZeroSum(r: seq<nat>)
    requires !AnyLeft(r)
    ensures Sum(r) == 0
  {
    if r != [] {
      assert r[|r| - 1] == 0;
      ZeroSum(r[..|r| - 1]);
    }
  }

  /** The rotation itself, in place on the process list. */
  method RoundRobinScheduling(a: array<Process>, quantum: nat)
    requires quantum > 0
    modifies a
    ensures a[..] == RoundRobinResult(old(a[..]), quantum)
  {
    ghost var s := a[..];
    var n := a.Length;
    var remaining := new nat[n];
    for i := 0 to n
      modifies remaining
      invariant forall k :: 0 <= k < i ==> remaining[k] == s[k].burst
    {
      remaining[i] := a[i].burst;
    }
    assert remaining[..] == Bursts(s);
    var currentTime: nat := 0;
    var queue: seq<nat> := Positions(n);
    ghost var finished: seq<nat> := [];
    ghost var fin := Final(s, quantum);
    InitialQueueInv(s);
    assert a[..] == s;
    assert RRState(queue, remaining[..], currentTime, a[..], finished) == Initial(s);
    assert fin == Run(Initial(s), quantum);
    while exists i :: 0 <= i < n && remaining[i] > 0
      invariant remaining.Length == n == a.Length
      invariant QueueInv(RRState(queue, remaining[..], currentTime, a[..], finished))
      invariant Run(RRState(queue, remaining[..], currentTime, a[..], finished), quantum) == fin
      decreases Sum(remaining[..]), |queue|
    {
      ghost var st := RRState(queue, remaining[..], currentTime, a[..], finished);
      assert AnyLeft(st.remaining);
      QueueNonEmpty(st);
      StepKeepsQueueInv(st, quantum);
      queue, currentTime, finished := Turn(a, remaining, queue, currentTime, quantum, finished);
    }
    assert !AnyLeft(remaining[..]);
    FinishUnserved(a, remaining, currentTime);
  }

  /** One pass of the loop body: pop the head, serve it, record it or send it back. */
  method Turn(a: array<Process>, remaining: array<nat>, queue: seq<nat>, currentTime: nat,
              quantum: nat, ghost finished: seq<nat>)
    returns (queue': seq<nat>, currentTime': nat, ghost finished': seq<nat>)
    requires remaining.Length == a.Length && |queue| > 0 && queue[0] < a.Length
    modifies a, remaining
    ensures RRState(queue', remaining[..], currentTime', a[..], finished')
         == Step(RRState(queue, old(remaining[..]), currentTime, old(a[..]), finished), quantum)
  {
    var index := queue[0];
    queue' := queue[1..];
    if remaining[index] <= quantum {
      currentTime' := currentTime + remaining[index];
      a[index] := a[index].(turnaround := currentTime');
      a[index] := a[index].(waiting := a[index].turnaround - a[index].burst);
      remaining[index] := 0;
      finished' := finished + [index];
    } else {
      currentTime' := currentTime + quantum;
      remaining[index] := remaining[index] - quantum;
      queue' := queue' + [index];
      finished' := finished;
    }
  }

  /** The block after the loop, in place. */
  method FinishUnserved(a: array<Process>, remaining: array<nat>, clock: nat)
    requires remaining.Length == a.Length
    modifies a
    ensures a[..] == Drain(remaining[..], clock, old(a[..]), 0)
  {
    var currentTime := clock;
    for i := 0 to a.Length
      invariant Drain(remaining[..], currentTime, a[..], i) == Drain(remaining[..], clock, old(a[..]), 0)
    {
      ghost var before := a[..];
      ghost var t0 := currentTime;
      if remaining[i] > 0 {
        a[i] := a[i].(waiting := currentTime);
        currentTime := currentTime + remaining[i];
        a[i] := a[i].(turnaround := currentTime);
        assert a[..] == before[i := before[i].(waiting := t0).(turnaround := t0 + remaining[i])];
      } else {
        assert a[..] == before;
      }
      assert Drain(remaining[..], t0, before, i) == Drain(remaining[..], currentTime, a[..], i + 1);
    }
  }
}
