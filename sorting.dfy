/** The in-place sorts the batch disciplines apply before accumulating.
    The list sort they use is stable, also when sorting in reverse: processes
    whose keys are equal keep their relative order. */
module Sorting {
  import opened Processes

  /** The three sort keys in use. */
  datatype Order =
    | ShortestFirst   // ascending by (burst, priority)
    | LongestFirst    // descending by (burst, priority)
    | PriorityFirst   // ascending by (priority, burst)

  /** Lexicographic order on pairs. */
  predicate PairLe(a1: int, a2: int, b1: int, b2: int)
  {
    a1 < b1 || (a1 == b1 && a2 <= b2)
  }

  /** p may stand before q in a list sorted by o. */
  predicate Before(o: Order, p: Process, q: Process)
  {
    match o
    case ShortestFirst => PairLe(p.burst, p.priority, q.burst, q.priority)
    case LongestFirst => PairLe(q.burst, q.priority, p.burst, p.priority)
    case PriorityFirst => PairLe(p.priority, p.burst, q.priority, q.burst)
  }

  /** Two processes tie on every key: same burst and same priority. */
  predicate SameKey(p: Process, q: Process)
  {
    p.burst == q.burst && p.priority == q.priority
  }

  lemma BeforeTotal(o: Order, p: Process, q: Process)
    ensures Before(o, p, q) || Before(o, q, p)
  {
  }

  lemma BeforeTransitive(o: Order, p: Process, q: Process, x: Process)
    requires Before(o, p, q) && Before(o, q, x)
    ensures Before(o, p, x)
  {
  }

  /** Each order ties exactly the processes that share burst and priority. */
  lemma BeforeBothWays(o: Order, p: Process, q: Process)
    ensures Before(o, p, q) && Before(o, q, p) <==> SameKey(p, q)
  {
  }

  ghost predicate Sorted(s: seq<Process>, o: Order)
  {
    forall i, j :: 0 <= i < j < |s| ==> Before(o, s[i], s[j])
  }

  /** Insert x into s from the right end: x passes every process that must
      come after it and stops behind the first one it may follow. */
  function Insert(s: seq<Process>, x: Process, o: Order): (r: seq<Process>)
    ensures |r| == |s| + 1
  {
    if s == [] || Before(o, s[|s| - 1], x) then s + [x]
    else Insert(s[..|s| - 1], x, o) + [s[|s| - 1]]
  }

  /** Stable sort by o, as insertion sort: each process in turn is inserted
      into the sorted prefix before it. */
  function SortBy(s: seq<Process>, o: Order): (r: seq<Process>)
    ensures |r| == |s|
  {
    if s == [] then [] else Insert(SortBy(s[..|s| - 1], o), s[|s| - 1], o)
  }

  /** p on its own when it ties with k, nothing otherwise. */
  function TieOf(p: Process, k: Process): seq<Process>
  {
    if SameKey(p, k) then [p] else []
  }

  /** The processes of s that tie with k, in list order. */
  function Ties(s: seq<Process>, k: Process): seq<Process>
  {
    if s == [] then [] else Ties(s[..|s| - 1], k) + TieOf(s[|s| - 1], k)
  }

  lemma TiesAppend(s: seq<Process>, x: Process, k: Process)
    ensures Ties(s + [x], k) == Ties(s, k) + TieOf(x, k)
  {
    assert (s + [x])[..|s|] == s;
  }

  lemma {:induction false} InsertPermutes(s: seq<Process>, x: Process, o: Order)
    ensures multiset(Insert(s, x, o)) == multiset(s) + multiset{x}
  {
    if s == [] || Before(o, s[|s| - 1], x) {
    } else {
      var n := |s| - 1;
      InsertPermutes(s[..n], x, o);
      assert s == s[..n] + [s[n]];
    }
  }

  lemma {:induction false} InsertSorted(s: seq<Process>, x: Process, o: Order)
    requires Sorted(s, o)
    ensures Sorted(Insert(s, x, o), o)
  {
    var r := Insert(s, x, o);
    if s == [] || Before(o, s[|s| - 1], x) {
      forall i, j | 0 <= i < j < |r| ensures Before(o, r[i], r[j]) {
        if j == |s| && i < |s| - 1 {
          BeforeTransitive(o, s[i], s[|s| - 1], x);
        }
      }
    } else {
      var n := |s| - 1;
      var t := Insert(s[..n], x, o);
      InsertSorted(s[..n], x, o);
      BeforeTotal(o, s[n], x);
      InsertStaysBefore(s[..n], x, o, s[n]);
      assert r == t + [s[n]];
    }
  }

  /** Inserting x into a list that may all stand before y, when x may too,
      gives a list that may all stand before y. */
  lemma InsertStaysBefore(s: seq<Process>, x: Process, o: Order, y: Process)
    requires forall i :: 0 <= i < |s| ==> Before(o, s[i], y)
    requires Before(o, x, y)
    ensures forall i :: 0 <= i < |s| + 1 ==> Before(o, Insert(s, x, o)[i], y)
  {
    var t := Insert(s, x, o);
    InsertPermutes(s, x, o);
    forall i | 0 <= i < |t| ensures Before(o, t[i], y) {
      assert t[i] in multiset(t);
      if t[i] != x {
        assert t[i] in multiset(s);
        var m :| 0 <= m < |s| && s[m] == t[i];
      }
    }
  }

  /** Inserting x puts it behind every process of s it ties with. */
  lemma {:induction false} InsertKeepsTies(s: seq<Process>, x: Process, o: Order, k: Process)
    ensures Ties(Insert(s, x, o), k) == Ties(s, k) + TieOf(x, k)
  {
    if s == [] || Before(o, s[|s| - 1], x) {
      TiesAppend(s, x, k);
    } else {
      InsertKeepsTies(s[..|s| - 1], x, o, k);
      TiesPassed(s, x, o, k);
    }
  }

  /** When x passes the last process of s, the ties with k come out as they
      did for the rest of s, since x and that process do not both tie with k. */
  lemma TiesPassed(s: seq<Process>, x: Process, o: Order, k: Process)
    requires s != [] && !Before(o, s[|s| - 1], x)
    requires Ties(Insert(s[..|s| - 1], x, o), k) == Ties(s[..|s| - 1], k) + TieOf(x, k)
    ensures Ties(Insert(s, x, o), k) == Ties(s, k) + TieOf(x, k)
  {
    var n := |s| - 1;
    var t := Insert(s[..n], x, o);
    var xs, ys := TieOf(x, k), TieOf(s[n], k);
    TiesAppend(t, s[n], k);
    BeforeBothWays(o, s[n], x);
    assert xs == [] || ys == [];
    calc {
      Ties(Insert(s, x, o), k);
      Ties(t + [s[n]], k);
      Ties(t, k) + ys;
      Ties(s[..n], k) + xs + ys;
      Ties(s[..n], k) + ys + xs;
      Ties(s, k) + xs;
    }
  }

  /** SortBy returns a permutation of its input. */
  lemma {:induction false} SortByPermutes(s: seq<Process>, o: Order)
    ensures multiset(SortBy(s, o)) == multiset(s)
  {
    if s != [] {
      var n := |s| - 1;
      SortByPermutes(s[..n], o);
      InsertPermutes(SortBy(s[..n], o), s[n], o);
      assert s == s[..n] + [s[n]];
    }
  }

  /** SortBy returns a list sorted by o. */
  lemma {:induction false} SortBySorted(s: seq<Process>, o: Order)
    ensures Sorted(SortBy(s, o), o)
  {
    if s != [] {
      var n := |s| - 1;
      SortBySorted(s[..n], o);
      InsertSorted(SortBy(s[..n], o), s[n], o);
    }
  }

  /** SortBy is stable: processes with equal keys leave in the order they came. */
  lemma {:induction false} SortByStable(s: seq<Process>, o: Order, k: Process)
    ensures Ties(SortBy(s, o), k) == Ties(s, k)
  {
    if s != [] {
      var n := |s| - 1;
      SortByStable(s[..n], o, k);
      InsertKeepsTies(SortBy(s[..n], o), s[n], o, k);
    }
  }

  /** The list sort, in place: insertion sort, stable because a process only
      moves left past processes that must come after it. */
  method SortInPlace(a: array<Process>, o: Order)
    modifies a
    ensures a[..] == SortBy(old(a[..]), o)
  {
    ghost var s := a[..];
    for i := 0 to a.Length
      invariant a[..i] == SortBy(s[..i], o)
      invariant forall k :: i <= k < a.Length ==> a[k] == s[k]
    {
      assert s[..i + 1][..i] == s[..i];
      InsertAt(a, i, o);
    }
    assert s[..a.Length] == s;
  }

  /** Where Insert puts x: behind the first j processes, when x may follow
      the j-th and every process from there on must come after x. */
  lemma {:induction false} InsertLands(s: seq<Process>, j: nat, x: Process, o: Order)
    requires j <= |s| && (j == 0 || Before(o, s[j - 1], x))
    requires forall k :: j <= k < |s| ==> !Before(o, s[k], x)
    ensures Insert(s, x, o) == s[..j] + [x] + s[j..]
    decreases |s|
  {
    if j < |s| {
      var n := |s| - 1;
      InsertLands(s[..n], j, x, o);
      assert s[..n][..j] == s[..j];
      assert s[..n][j..] + [s[n]] == s[j..];
    }
  }

  /** One insertion step: the process at index i moves left into the prefix
      a[..i] until it stands behind a process it may follow. */
  method InsertAt(a: array<Process>, i: nat, o: Order)
    requires i < a.Length
    modifies a
    ensures a[..i + 1] == Insert(old(a[..i]), old(a[i]), o)
    ensures forall k :: i < k < a.Length ==> a[k] == old(a[k])
  {
    ghost var sorted := a[..i];
    var x := a[i];
    var j := i;
    while j > 0 && !Before(o, a[j - 1], x)
      invariant 0 <= j <= i
      invariant forall k :: 0 <= k < j ==> a[k] == sorted[k]
      invariant forall k :: j < k <= i ==> a[k] == sorted[k - 1]
      invariant forall k :: i < k < a.Length ==> a[k] == old(a[k])
      invariant forall k :: j <= k < i ==> !Before(o, sorted[k], x)
    {
      a[j] := a[j - 1];
      j := j - 1;
    }
    a[j] := x;
    InsertLands(sorted, j, x, o);
    Shifted(a[..i + 1], sorted, j, x);
  }

  /** A list holding x at j, s before it and the rest of s shifted one
      place right behind it. */
  lemma Shifted(b: seq<Process>, s: seq<Process>, j: nat, x: Process)
    requires |b| == |s| + 1 && j <= |s| && b[j] == x
    requires forall k :: 0 <= k < j ==> b[k] == s[k]
    requires forall k :: j < k < |b| ==> b[k] == s[k - 1]
    ensures b == s[..j] + [x] + s[j..]
  {
  }
}
