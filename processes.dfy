/** Process descriptors and the duration sums every discipline is stated with. */
module Processes {

  /** One process as the schedulers see it: identity, the service time it
      needs, its priority, and the two results a scheduling run writes.
      Durations are whole time units. */
  datatype Process = Process(
    pid: int,
    name: string,
    burst: nat,
    priority: int,
    waiting: int,
    turnaround: int)

  /** The descriptor of a process: everything but the two scheduling results,
      which are reset to the zero a new process starts with. */
  function Descriptor(p: Process): Process
  {
    p.(waiting := 0, turnaround := 0)
  }

  /** A freshly observed process: no scheduling run has written it yet. */
  function NewProcess(pid: int, name: string, burst: nat, priority: int): (p: Process)
    ensures Descriptor(p) == p
    ensures p.pid == pid && p.name == name && p.burst == burst && p.priority == priority
  {
    Process(pid, name, burst, priority, 0, 0)
  }

  /** The descriptors of a whole list, position by position. */
  function Descriptors(s: seq<Process>): (r: seq<Process>)
    ensures |r| == |s|
  {
    seq(|s|, i requires 0 <= i < |s| => Descriptor(s[i]))
  }

  /** Sum of a list of durations, built from the left end. */
  function Sum(s: seq<nat>): nat
  {
    if s == [] then 0 else Sum(s[..|s| - 1]) + s[|s| - 1]
  }

  /** The burst times of a list, position by position. */
  function Bursts(s: seq<Process>): (r: seq<nat>)
    ensures |r| == |s|
  {
    seq(|s|, i requires 0 <= i < |s| => s[i].burst)
  }

  /** Total service time of a list of processes. */
  function TotalBurst(s: seq<Process>): nat
  {
    Sum(Bursts(s))
  }

  /** Extending a prefix by one process adds exactly that process's burst. */
  lemma TotalBurstPrefix(s: seq<Process>, k: nat)
    requires k < |s|
    ensures TotalBurst(s[..k + 1]) == TotalBurst(s[..k]) + s[k].burst
  {
    var b := Bursts(s[..k + 1]);
    assert b[..k] == Bursts(s[..k]);
  }

  /** Prefix sums never decrease: a longer prefix needs at least as much service. */
  lemma {:induction false} TotalBurstMonotone(s: seq<Process>, i: nat, j: nat)
    requires i <= j <= |s|
    ensures TotalBurst(s[..i]) <= TotalBurst(s[..j])
    decreases j - i
  {
    if i < j {
      TotalBurstPrefix(s, j - 1);
      TotalBurstMonotone(s, i, j - 1);
    }
  }

  /** The sum taken from the other end: the first entry plus the rest. */
  lemma {:induction false} SumFront(s: seq<nat>)
    requires |s| > 0
    ensures Sum(s) == s[0] + Sum(s[1..])
  {
    var n := |s| - 1;
    if n > 0 {
      SumFront(s[..n]);
      assert s[..n][1..] == s[1..][..n - 1];
    }
  }

  /** Every slice of s that starts at i is s[i] plus the slice after it. */
  lemma SumFrontSlices(s: seq<nat>, i: nat)
    requires i < |s|
    ensures forall k :: i < k <= |s| ==> Sum(s[i..k]) == s[i] + Sum(s[i + 1..k])
  {
    forall k | i < k <= |s|
      ensures Sum(s[i..k]) == s[i] + Sum(s[i + 1..k])
    {
      SumFront(s[i..k]);
      assert s[i..k][1..] == s[i + 1..k];
    }
  }

  /** Replacing one entry changes the sum by exactly the difference. */
  lemma {:induction false} SumUpdate(s: seq<nat>, i: nat, v: nat)
    requires i < |s|
    ensures Sum(s[i := v]) + s[i] == Sum(s) + v
  {
    var n := |s| - 1;
    if i == n {
      assert s[i := v][..n] == s[..n];
    } else {
      assert s[i := v][..n] == s[..n][i := v];
      SumUpdate(s[..n], i, v);
    }
  }

  /** When every entry of r is at most the matching entry of b, the gap
      between the sums is at least the gap at any single position. */
  lemma {:induction false} SumDominated(r: seq<nat>, b: seq<nat>, i: nat)
    requires |r| == |b| && i < |r|
    requires forall j :: 0 <= j < |r| ==> r[j] <= b[j]
    ensures Sum(r) + b[i] <= Sum(b) + r[i]
  {
    var n := |r| - 1;
    if i == n {
      SumBelow(r[..n], b[..n]);
    } else {
      SumDominated(r[..n], b[..n], i);
    }
  }

  /** Pointwise at most means the sum is at most. */
  lemma {:induction false} SumBelow(r: seq<nat>, b: seq<nat>)
    requires |r| == |b|
    requires forall j :: 0 <= j < |r| ==> r[j] <= b[j]
    ensures Sum(r) <= Sum(b)
  {
    if r != [] {
      SumBelow(r[..|r| - 1], b[..|b| - 1]);
    }
  }
}
