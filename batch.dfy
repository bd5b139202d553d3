/** The non-preemptive disciplines: order the list in place, then run the
    accumulation pass over it. */
module Batch {
  import opened Processes
  import opened Accumulation
  import opened Sorting

  /** Reference definition of a sort-then-accumulate discipline. */
  function Schedule(s: seq<Process>, o: Order): (r: seq<Process>)
    ensures |r| == |s|
  {
    Accumulated(SortBy(s, o))
  }

  /** The list with the priority of each process replaced by the value given
      for its position. */
  function WithPriorities(s: seq<Process>, priorities: seq<int>): (r: seq<Process>)
    requires |priorities| == |s|
    ensures |r| == |s|
  {
    seq(|s|, i requires 0 <= i < |s| => s[i].(priority := priorities[i]))
  }

  /** First come, first served: the list order is the run order. */
  method FcfsScheduling(a: array<Process>)
    modifies a
    ensures a[..] == Accumulated(old(a[..]))
  {
    CalculateWaitingTurnaroundTimes(a);
  }

  /** Shortest job first: ascending by (burst, priority). */
  method SjfScheduling(a: array<Process>)
    modifies a
    ensures a[..] == Schedule(old(a[..]), ShortestFirst)
  {
    SortInPlace(a, ShortestFirst);
    CalculateWaitingTurnaroundTimes(a);
  }

  /** Longest job first: descending by (burst, priority). */
  method LjfScheduling(a: array<Process>)
    modifies a
    ensures a[..] == Schedule(old(a[..]), LongestFirst)
  {
    SortInPlace(a, LongestFirst);
    CalculateWaitingTurnaroundTimes(a);
  }

  /** Priority scheduling: each process first receives the priority supplied
      for it, then the list runs ascending by (priority, burst). */
  method PriorityQueueScheduling(a: array<Process>, priorities: seq<int>)
    requires |priorities| == a.Length
    modifies a
    ensures a[..] == Schedule(WithPriorities(old(a[..]), priorities), PriorityFirst)
  {
    ghost var s := a[..];
    for i := 0 to a.Length
      invariant forall k :: 0 <= k < i ==> a[k] == s[k].(priority := priorities[k])
      invariant forall k :: i <= k < a.Length ==> a[k] == s[k]
    {
      a[i] := a[i].(priority := priorities[i]);
    }
    assert a[..] == WithPriorities(s, priorities);
    SortInPlace(a, PriorityFirst);
    CalculateWaitingTurnaroundTimes(a);
  }

  lemma DescriptorsAppend(s: seq<Process>, x: Process)
    ensures Descriptors(s + [x]) == Descriptors(s) + [Descriptor(x)]
  {
  }

  lemma DescriptorsPrefix(s: seq<Process>, n: nat)
    requires n <= |s|
    ensures Descriptors(s[..n]) == Descriptors(s)[..n]
  {
  }

  lemma {:induction false} InsertDescriptors(s: seq<Process>, x: Process, o: Order)
    ensures Descriptors(Insert(s, x, o)) == Insert(Descriptors(s), Descriptor(x), o)
  {
    var n := |s| - 1;
    if s == [] || Before(o, s[n], x) {
      DescriptorsAppend(s, x);
    } else {
      InsertDescriptors(s[..n], x, o);
      DescriptorsAppend(Insert(s[..n], x, o), s[n]);
      DescriptorsPrefix(s, n);
    }
  }

  /** Sorting never looks at the results, so it commutes with clearing them. */
  lemma {:induction false} SortByDescriptors(s: seq<Process>, o: Order)
    ensures Descriptors(SortBy(s, o)) == SortBy(Descriptors(s), o)
  {
    if s != [] {
      var n := |s| - 1;
      SortByDescriptors(s[..n], o);
      InsertDescriptors(SortBy(s[..n], o), s[n], o);
      DescriptorsPrefix(s, n);
    }
  }

  /** What a sort-then-accumulate discipline delivers: stripped of results,
      the list is the stable sort of the input's descriptors (so a sorted
      permutation of them); the results are the back-to-back run of that
      order; and a process whose key is strictly smaller finishes before the
      other starts. */
  lemma BatchSchedule(s: seq<Process>, o: Order)
    ensures Descriptors(Schedule(s, o)) == SortBy(Descriptors(s), o)
    ensures multiset(Descriptors(Schedule(s, o))) == multiset(Descriptors(s))
    ensures Sorted(Schedule(s, o), o)
    ensures BackToBack(SortBy(s, o), Schedule(s, o))
    ensures forall i, j :: 0 <= i < |s| && 0 <= j < |s| && !Before(o, Schedule(s, o)[j], Schedule(s, o)[i]) ==>
              i < j && Schedule(s, o)[i].turnaround <= Schedule(s, o)[j].waiting
  {
    var t := SortBy(s, o);
    var r := Schedule(s, o);
    AccumulatedIsBackToBack(t);
    SortByDescriptors(s, o);
    SortByPermutes(Descriptors(s), o);
    assert Descriptors(r) == Descriptors(t);
    SortBySorted(s, o);
    SmallerKeyRunsFirst(s, o);
  }

  /** In a batch schedule a process whose key is strictly smaller sits
      earlier and turns around before the other starts waiting. */
  lemma SmallerKeyRunsFirst(s: seq<Process>, o: Order)
    ensures forall i, j :: 0 <= i < |s| && 0 <= j < |s| && !Before(o, Schedule(s, o)[j], Schedule(s, o)[i]) ==>
              i < j && Schedule(s, o)[i].turnaround <= Schedule(s, o)[j].waiting
  {
    var t := SortBy(s, o);
    var r := Schedule(s, o);
    SortBySorted(s, o);
    forall i, j | 0 <= i < |s| && 0 <= j < |s| && !Before(o, r[j], r[i])
      ensures i < j && r[i].turnaround <= r[j].waiting
    {
      assert SameKey(r[i], t[i]) && SameKey(r[j], t[j]);
      AccumulatedInOrder(t, i, j);
    }
  }

  /** Shortest job first: a shorter job finishes before a longer one starts. */
  lemma ShorterJobRunsFirst(s: seq<Process>, i: nat, j: nat)
    requires i < |s| && j < |s|
    requires Schedule(s, ShortestFirst)[i].burst < Schedule(s, ShortestFirst)[j].burst
    ensures i < j
    ensures Schedule(s, ShortestFirst)[i].turnaround <= Schedule(s, ShortestFirst)[j].waiting
  {
    BatchSchedule(s, ShortestFirst);
  }

  /** Longest job first: a longer job finishes before a shorter one starts. */
  lemma LongerJobRunsFirst(s: seq<Process>, i: nat, j: nat)
    requires i < |s| && j < |s|
    requires Schedule(s, LongestFirst)[i].burst > Schedule(s, LongestFirst)[j].burst
    ensures i < j
    ensures Schedule(s, LongestFirst)[i].turnaround <= Schedule(s, LongestFirst)[j].waiting
  {
    BatchSchedule(s, LongestFirst);
  }

  /** Priority scheduling: the supplied priorities are the ones the list
      carries afterwards, and a lower priority number finishes before a
      higher one starts. */
  lemma LowerPriorityNumberRunsFirst(s: seq<Process>, priorities: seq<int>, i: nat, j: nat)
    requires |priorities| == |s| && i < |s| && j < |s|
    requires Schedule(WithPriorities(s, priorities), PriorityFirst)[i].priority
           < Schedule(WithPriorities(s, priorities), PriorityFirst)[j].priority
    ensures i < j
    ensures Schedule(WithPriorities(s, priorities), PriorityFirst)[i].turnaround
         <= Schedule(WithPriorities(s, priorities), PriorityFirst)[j].waiting
  {
    BatchSchedule(WithPriorities(s, priorities), PriorityFirst);
  }

  /** The priorities a priority run ends with are exactly the supplied ones,
      as a multiset. */
  lemma PrioritiesAssigned(s: seq<Process>, priorities: seq<int>)
    requires |priorities| == |s|
    ensures multiset(Priorities(Schedule(WithPriorities(s, priorities), PriorityFirst))) == multiset(priorities)
  {
    var w := WithPriorities(s, priorities);
    var t := SortBy(w, PriorityFirst);
    assert Priorities(w) == priorities;
    SortByKeepsPriorities(w, PriorityFirst);
    assert Priorities(Accumulated(t)) == Priorities(t);
  }

  function Priorities(s: seq<Process>): (r: seq<int>)
    ensures |r| == |s|
  {
    seq(|s|, i requires 0 <= i < |s| => s[i].priority)
  }

  lemma PrioritiesAppend(s: seq<Process>, x: Process)
    ensures multiset(Priorities(s + [x])) == multiset(Priorities(s)) + multiset{x.priority}
  {
    assert Priorities(s + [x]) == Priorities(s) + [x.priority];
  }

  lemma {:induction false} InsertKeepsPriorities(s: seq<Process>, x: Process, o: Order)
    ensures multiset(Priorities(Insert(s, x, o))) == multiset(Priorities(s)) + multiset{x.priority}
  {
    var n := |s| - 1;
    if s == [] || Before(o, s[n], x) {
      PrioritiesAppend(s, x);
    } else {
      InsertKeepsPriorities(s[..n], x, o);
      PrioritiesAppend(Insert(s[..n], x, o), s[n]);
      assert s == s[..n] + [s[n]];
      PrioritiesAppend(s[..n], s[n]);
    }
  }

  lemma {:induction false} SortByKeepsPriorities(s: seq<Process>, o: Order)
    ensures multiset(Priorities(SortBy(s, o))) == multiset(Priorities(s))
  {
    if s != [] {
      var n := |s| - 1;
      SortByKeepsPriorities(s[..n], o);
      InsertKeepsPriorities(SortBy(s[..n], o), s[n], o);
      assert s == s[..n] + [s[n]];
      PrioritiesAppend(s[..n], s[n]);
    }
  }
}
