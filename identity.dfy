/** The Round-Robin loop as written finds a popped process's position by
    looking the object up in the process list, which returns the first
    position holding that object. This module models that lookup: the list
    is given as the identity of the object at each position, and the ready
    queue holds identities. */
module IdentityLookup {
  import opened Processes
  import opened RoundRobin

  /** The first position holding object x. */
  function FirstIndex(ids: seq<nat>, x: nat): (r: nat)
    requires x in ids
    ensures r < |ids| && ids[r] == x
    ensures forall j :: 0 <= j < r ==> ids[j] != x
  {
    if ids[0] == x then 0 else 1 + FirstIndex(ids[1..], x)
  }

  /** The outcome of one pass of the loop body: the new queue, unserved
      times and clock, or the pop from an empty queue failing. */
  datatype Turned = Turned(queue: seq<nat>, remaining: seq<nat>, clock: nat) | EmptyPop

  /** One pass of the loop body as written, with the identity lookup. */
  function TurnByIdentity(ids: seq<nat>, queue: seq<nat>, remaining: seq<nat>, clock: nat, quantum: nat): (r: Turned)
    requires |remaining| == |ids|
    requires forall j :: 0 <= j < |queue| ==> queue[j] in ids
    ensures r.EmptyPop? <==> queue == []
    ensures r.Turned? ==> |r.remaining| == |remaining|
    ensures r.Turned? ==> forall j :: 0 <= j < |r.queue| ==> r.queue[j] in ids
  {
    if queue == [] then EmptyPop
    else
      var x := queue[0];
      var i := FirstIndex(ids, x);
      if remaining[i] <= quantum then
        Turned(queue[1..], remaining[i := 0], clock + remaining[i])
      else
        Turned(queue[1..] + [x], remaining[i := remaining[i] - quantum], clock + quantum)
  }

  /** The identities a queue of positions stands for. */
  function IdsOf(ids: seq<nat>, queue: seq<nat>): (r: seq<nat>)
    requires forall j :: 0 <= j < |queue| ==> queue[j] < |ids|
    ensures |r| == |queue|
  {
    seq(|queue|, j requires 0 <= j < |queue| => ids[queue[j]])
  }

  /** When every object appears once in the list, the lookup finds the
      popped position, so a pass of the loop as written is exactly one turn
      of the positional rotation. */
  lemma DistinctIdentityIsPositional(ids: seq<nat>, st: RRState, quantum: nat)
    requires Distinct(ids) && |ids| == |st.procs|
    requires QueueInv(st) && |st.queue| > 0
    ensures TurnByIdentity(ids, IdsOf(ids, st.queue), st.remaining, st.clock, quantum)
         == Turned(IdsOf(ids, Step(st, quantum).queue), Step(st, quantum).remaining, Step(st, quantum).clock)
  {
    var q := IdsOf(ids, st.queue);
    var i := st.queue[0];
    var f := FirstIndex(ids, q[0]);
    assert ids[f] == ids[i];
    assert f == i;
    assert IdsOf(ids, st.queue[1..]) == q[1..];
    assert IdsOf(ids, st.queue[1..] + [i]) == q[1..] + [q[0]];
  }

  /** The same object selected twice: two positions hold object 7, each
      needing one unit, with a quantum of one. Both passes find position 0,
      so the queue runs empty while position 1 is still owed time, and the
      next pop fails. */
  lemma DuplicateObjectEmptiesQueue()
    ensures TurnByIdentity([7, 7], [7, 7], [1, 1], 0, 1) == Turned([7], [0, 1], 1)
    ensures TurnByIdentity([7, 7], [7], [0, 1], 1, 1) == Turned([], [0, 1], 1)
    ensures AnyLeft([0, 1])
    ensures TurnByIdentity([7, 7], [], [0, 1], 1, 1) == EmptyPop
  {
    assert FirstIndex([7, 7], 7) == 0;
    assert [7, 7][1..] == [7];
    assert [7][1..] == [];
    assert [0, 1][1] > 0;
  }
}
