/** Picking the processes to analyse by their displayed serial numbers,
    which start at 1. */
module Selection {
  import opened Processes

  /** A selection, or the position in the serial list of the first serial
      number the list lookup rejects (the lookup raises an index error). */
  datatype Selected = Selected(ps: seq<Process>) | IndexError(at: nat)

  /** A list index the lookup accepts: non-negative ones count from the
      front, negative ones from the back. */
  predicate Indexable(i: int, n: nat)
  {
    -(n as int) <= i < n
  }

  /** The list position an accepted index refers to. */
  function Position(i: int, n: nat): (r: nat)
    requires Indexable(i, n)
    ensures r < n && (i >= 0 ==> r == i) && (i < 0 ==> r == n + i)
  {
    if i >= 0 then i else n + i
  }

  /** As written: serial number s looks up index s - 1, and the lookup also
      accepts negative indices, so serial 0 and negative serials pick
      processes counted from the end of the list. */
  function GetProcessesBySno(processes: seq<Process>, snos: seq<int>): (r: Selected)
    ensures r.Selected? <==> forall k :: 0 <= k < |snos| ==> Indexable(snos[k] - 1, |processes|)
    ensures r.Selected? ==> |r.ps| == |snos|
    ensures r.Selected? ==>
              forall k :: 0 <= k < |snos| ==> r.ps[k] == processes[Position(snos[k] - 1, |processes|)]
    ensures r.IndexError? ==> r.at < |snos| && !Indexable(snos[r.at] - 1, |processes|)
    ensures r.IndexError? ==> forall k :: 0 <= k < r.at ==> Indexable(snos[k] - 1, |processes|)
  {
    if snos == [] then Selected([])
    else if !Indexable(snos[0] - 1, |processes|) then IndexError(0)
    else
      match GetProcessesBySno(processes, snos[1..])
      case Selected(rest) => Selected([processes[Position(snos[0] - 1, |processes|)]] + rest)
      case IndexError(k) => IndexError(k + 1)
  }

  /** As intended: only the serial numbers on display, 1 to the list length,
      are accepted, and serial s picks the s-th process. */
  function SelectBySerial(processes: seq<Process>, snos: seq<int>): (r: Selected)
    ensures r.Selected? <==> forall k :: 0 <= k < |snos| ==> 1 <= snos[k] <= |processes|
    ensures r.Selected? ==> |r.ps| == |snos|
    ensures r.Selected? ==> forall k :: 0 <= k < |snos| ==> r.ps[k] == processes[snos[k] - 1]
    ensures r.IndexError? ==> r.at < |snos| && !(1 <= snos[r.at] <= |processes|)
    ensures r.IndexError? ==> forall k :: 0 <= k < r.at ==> 1 <= snos[k] <= |processes|
  {
    if snos == [] then Selected([])
    else if !(1 <= snos[0] <= |processes|) then IndexError(0)
    else
      match SelectBySerial(processes, snos[1..])
      case Selected(rest) => Selected([processes[snos[0] - 1]] + rest)
      case IndexError(k) => IndexError(k + 1)
  }

  /** On the serial numbers on display the two agree. */
  lemma SelectionsAgree(processes: seq<Process>, snos: seq<int>)
    requires forall k :: 0 <= k < |snos| ==> 1 <= snos[k] <= |processes|
    ensures GetProcessesBySno(processes, snos) == SelectBySerial(processes, snos)
  {
    var a := GetProcessesBySno(processes, snos);
    var b := SelectBySerial(processes, snos);
    assert a.Selected? && b.Selected?;
    assert a.ps == b.ps;
  }

  /** Serial 0 is not on display, yet the lookup accepts it and returns the
      last process; the intended selection rejects it. */
  lemma SerialZeroPicksLast(processes: seq<Process>)
    requires |processes| > 0
    ensures GetProcessesBySno(processes, [0]) == Selected([processes[|processes| - 1]])
    ensures SelectBySerial(processes, [0]) == IndexError(0)
  {
    var n := |processes|;
    assert [0][1..] == [];
    assert GetProcessesBySno(processes, []) == Selected([]);
    assert Position(-1, n) == n - 1;
  }
}
