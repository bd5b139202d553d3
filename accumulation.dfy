/** The batch accumulation pass: processes run back to back in list order. */
module Accumulation {
  import opened Processes

  /** Reference definition: a process waits for the sum of the bursts before
      it in the list and finishes that much later plus its own burst. */
  function Accumulated(s: seq<Process>): (r: seq<Process>)
    ensures |r| == |s|
  {
    seq(|s|, k requires 0 <= k < |s| =>
      s[k].(waiting := TotalBurst(s[..k]), turnaround := TotalBurst(s[..k]) + s[k].burst))
  }

  /** The relation the pass establishes between neighbours: the first process
      does not wait, each later one waits until its predecessor turns around,
      each turns around its own burst after it starts, and nothing but the
      two results is changed. */
  ghost predicate BackToBack(s: seq<Process>, r: seq<Process>)
  {
    |r| == |s| &&
    (forall k :: 0 <= k < |r| ==> Descriptor(r[k]) == Descriptor(s[k])) &&
    (forall k :: 0 <= k < |r| ==> r[k].turnaround == r[k].waiting + r[k].burst) &&
    (|r| > 0 ==> r[0].waiting == 0) &&
    (forall k :: 0 < k < |r| ==> r[k].waiting == r[k - 1].turnaround)
  }

  /** The prefix-sum definition satisfies the neighbour relation. */
  lemma AccumulatedIsBackToBack(s: seq<Process>)
    ensures BackToBack(s, Accumulated(s))
  {
    var r := Accumulated(s);
    forall k | 0 < k < |r|
      ensures r[k].waiting == r[k - 1].turnaround
    {
      TotalBurstPrefix(s, k - 1);
    }
  }

  /** The neighbour relation determines the results: any list related to s
      back to back is the accumulated list. */
  lemma {:induction false} BackToBackIsAccumulated(s: seq<Process>, r: seq<Process>)
    requires BackToBack(s, r)
    ensures r == Accumulated(s)
  {
    var a := Accumulated(s);
    forall k | 0 <= k < |r|
      ensures r[k].waiting == TotalBurst(s[..k])
    {
      WaitingIsPrefixSum(s, r, k);
    }
    forall k | 0 <= k < |r|
      ensures r[k] == a[k]
    {
      assert Descriptor(r[k]) == Descriptor(s[k]);
    }
  }

  lemma {:induction false} WaitingIsPrefixSum(s: seq<Process>, r: seq<Process>, k: nat)
    requires BackToBack(s, r) && k < |r|
    ensures r[k].waiting == TotalBurst(s[..k])
  {
    if k > 0 {
      WaitingIsPrefixSum(s, r, k - 1);
      TotalBurstPrefix(s, k - 1);
      assert Descriptor(r[k - 1]) == Descriptor(s[k - 1]);
    }
  }

  /** In the accumulated list, a process never starts before every earlier
      process has finished: no two runs overlap. */
  lemma AccumulatedInOrder(s: seq<Process>, i: nat, j: nat)
    requires i < j < |s|
    ensures Accumulated(s)[i].turnaround <= Accumulated(s)[j].waiting
  {
    TotalBurstPrefix(s, i);
    TotalBurstMonotone(s, i + 1, j);
  }

  /** The last process in the list finishes once all the work is done. */
  lemma AccumulatedMakespan(s: seq<Process>)
    requires |s| > 0
    ensures Accumulated(s)[|s| - 1].turnaround == TotalBurst(s)
  {
    assert s[..|s|] == s;
    TotalBurstPrefix(s, |s| - 1);
  }

  /** The pass itself: one running waiting time, written into each process in
      list order together with its turnaround. */
  method CalculateWaitingTurnaroundTimes(a: array<Process>)
    modifies a
    ensures a[..] == Accumulated(old(a[..]))
  {
    ghost var s := a[..];
    ghost var r := Accumulated(s);
    var waitingTime: nat := 0;
    for i := 0 to a.Length
      invariant waitingTime == TotalBurst(s[..i])
      invariant forall k :: 0 <= k < i ==> a[k] == r[k]
      invariant forall k :: i <= k < a.Length ==> a[k] == s[k]
    {
      a[i] := a[i].(waiting := waitingTime);
      TotalBurstPrefix(s, i);
      waitingTime := waitingTime + a[i].burst;
      a[i] := a[i].(turnaround := a[i].waiting + a[i].burst);
      assert a[i] == r[i];
    }
    assert a[..] == r;
  }
}
