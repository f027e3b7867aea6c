/** The derived task list of the root component (App.tsx:64-78): a copy of
    the tasks sorted by a three-key comparator, then filtered by the
    current filter mode. */
module TaskView {
  import opened Types
  import opened Seqs

  /** Ordinal comparison of two strings: -1, 0 or 1. Stands for
      `localeCompare`, with which it agrees on zero-padded `HH:MM`
      times. */
  function CompareStrings(a: string, b: string): (r: int)
    ensures -1 <= r <= 1
    ensures r == 0 <==> a == b
  {
    if a == [] && b == [] then 0
    else if a == [] then -1
    else if b == [] then 1
    else if a[0] < b[0] then -1
    else if a[0] > b[0] then 1
    else
      assert a == [a[0]] + a[1..] && b == [b[0]] + b[1..];
      CompareStrings(a[1..], b[1..])
  }

  /** The comparison is ascending: at the first position where the two
      strings differ the smaller character decides, and a proper prefix
      comes first. */
  lemma {:induction false} CompareStringsFirstDifference(a: string, b: string, k: nat)
    requires k <= |a| && k <= |b| && a[..k] == b[..k]
    requires k == |a| < |b| || (k < |a| && k < |b| && a[k] < b[k])
    ensures CompareStrings(a, b) == -1
  {
    if k > 0 {
      assert a[0] == a[..k][0] && b[0] == b[..k][0];
      assert a[1..][..k - 1] == a[..k][1..] && b[1..][..k - 1] == b[..k][1..];
      CompareStringsFirstDifference(a[1..], b[1..], k - 1);
    }
  }

  lemma {:induction false} CompareStringsAntisymmetric(a: string, b: string)
    ensures CompareStrings(a, b) == -CompareStrings(b, a)
  {
    if a != [] && b != [] && a[0] == b[0] {
      CompareStringsAntisymmetric(a[1..], b[1..]);
    }
  }

  lemma {:induction false} CompareStringsTransitive(a: string, b: string, c: string)
    requires CompareStrings(a, b) <= 0 && CompareStrings(b, c) <= 0
    ensures CompareStrings(a, c) <= 0
  {
    if a != [] && b != [] && c != [] && a[0] == b[0] == c[0] {
      CompareStringsTransitive(a[1..], b[1..], c[1..]);
    }
  }

  /** The sort comparator: negative when `a` goes first, positive when
      `b` goes first. Incomplete before complete, then higher rank first,
      then earlier start time first. */
  function Compare(a: Task, b: Task): (r: int)
    ensures a.completed != b.completed ==> (r > 0 <==> a.completed)
    ensures a.completed == b.completed && a.priority != b.priority ==>
      (r < 0 <==> Rank(a.priority) > Rank(b.priority))
    ensures r == 0 <==>
      a.completed == b.completed && a.priority == b.priority && a.startTime == b.startTime
  {
    if a.completed != b.completed then (if a.completed then 1 else -1)
    else if Rank(a.priority) != Rank(b.priority) then Rank(b.priority) - Rank(a.priority)
    else CompareStrings(a.startTime, b.startTime)
  }

  /** `a` may stand before `b` in the sorted list. */
  predicate InOrder(a: Task, b: Task)
  {
    Compare(a, b) <= 0
  }

  /** What the comparator promises of two neighbours, key by key. */
  lemma InOrderKeys(a: Task, b: Task)
    ensures InOrder(a, b) <==>
      && (a.completed ==> b.completed)
      && (a.completed == b.completed ==> Rank(a.priority) >= Rank(b.priority))
      && (a.completed == b.completed && a.priority == b.priority ==>
            CompareStrings(a.startTime, b.startTime) <= 0)
  {
  }

  lemma CompareAntisymmetric(a: Task, b: Task)
    ensures Compare(a, b) == -Compare(b, a)
  {
    CompareStringsAntisymmetric(a.startTime, b.startTime);
  }

  /** Any two tasks can be ordered one way or the other. */
  lemma InOrderTotal(a: Task, b: Task)
    ensures InOrder(a, b) || InOrder(b, a)
  {
    CompareAntisymmetric(a, b);
  }

  lemma InOrderTransitive(a: Task, b: Task, c: Task)
    requires InOrder(a, b) && InOrder(b, c)
    ensures InOrder(a, c)
  {
    if a.completed == b.completed == c.completed && a.priority == b.priority == c.priority {
      CompareStringsTransitive(a.startTime, b.startTime, c.startTime);
    }
  }

  /** Every neighbouring pair is in order. */
  predicate Sorted(s: seq<Task>)
  {
    forall i :: 0 <= i < |s| - 1 ==> InOrder(s[i], s[i + 1])
  }

  /** Every pair, near or far, is in order. */
  predicate Ordered(s: seq<Task>)
  {
    forall i, j :: 0 <= i < j < |s| ==> InOrder(s[i], s[j])
  }

  lemma {:induction false} SortedPair(s: seq<Task>, i: int, j: int)
    requires Sorted(s) && 0 <= i < j < |s|
    ensures InOrder(s[i], s[j])
    decreases j - i
  {
    if i + 1 < j {
      SortedPair(s, i, j - 1);
      InOrderTransitive(s[i], s[j - 1], s[j]);
    }
  }

  /** A list sorted by neighbours is sorted pair by pair. */
  lemma SortedIsOrdered(s: seq<Task>)
    requires Sorted(s)
    ensures Ordered(s)
  {
    forall i, j | 0 <= i < j < |s|
      ensures InOrder(s[i], s[j])
    {
      SortedPair(s, i, j);
    }
  }

  /** Dropping elements from an ordered list leaves it ordered. */
  lemma {:induction false} SubseqOrdered(a: seq<Task>, b: seq<Task>)
    requires IsSubseq(a, b) && Ordered(b)
    ensures Ordered(a)
    decreases |a| + |b|
  {
    if a != [] {
      assert Ordered(b[1..]);
      if a[0] == b[0] && IsSubseq(a[1..], b[1..]) {
        SubseqOrdered(a[1..], b[1..]);
        SubseqMembers(a[1..], b[1..]);
        forall i, j | 0 <= i < j < |a|
          ensures InOrder(a[i], a[j])
        {
          if i == 0 {
            assert a[j] in a[1..];
            var k :| 0 <= k < |b[1..]| && b[1..][k] == a[j];
            assert b[k + 1] == a[j];
          } else {
            assert a[i] == a[1..][i - 1] && a[j] == a[1..][j - 1];
          }
        }
      } else {
        SubseqOrdered(a, b[1..]);
      }
    }
  }

  /** `x` put in front of the first element it may precede. */
  function Insert(x: Task, s: seq<Task>): (r: seq<Task>)
    ensures |r| == |s| + 1
    ensures multiset(r) == multiset(s) + multiset{x}
    ensures r[0] == x || (s != [] && r[0] == s[0])
    ensures Sorted(s) ==> Sorted(r)
  {
    if s == [] then [x]
    else if InOrder(x, s[0]) then [x] + s
    else
      assert s == [s[0]] + s[1..];
      var rest := Insert(x, s[1..]);
      InOrderTotal(x, s[0]);
      [s[0]] + rest
  }

  /** The sorted copy of the tasks: a stable insertion sort standing for
      the engine's `Array.prototype.sort` with the comparator above. */
  function SortTasks(s: seq<Task>): (r: seq<Task>)
    ensures |r| == |s|
    ensures multiset(r) == multiset(s)
    ensures Sorted(r)
  {
    if s == [] then []
    else
      assert s == [s[0]] + s[1..];
      Insert(s[0], SortTasks(s[1..]))
  }

  /** Whether a filter mode shows a task. */
  predicate Shows(mode: FilterMode, t: Task)
  {
    match mode
    case All => true
    case Pending => !t.completed
    case Completed => t.completed
  }

  /** The list as displayed: sorted, then filtered. */
  function View(tasks: seq<Task>, mode: FilterMode): (r: seq<Task>)
    ensures forall t :: multiset(r)[t] == if Shows(mode, t) then multiset(tasks)[t] else 0
    ensures forall t :: t in r ==> Shows(mode, t)
    ensures IsSubseq(r, SortTasks(tasks))
    ensures Ordered(r)
  {
    var sorted := SortTasks(tasks);
    SortedIsOrdered(sorted);
    match mode
    case All =>
      SubseqReflexive(sorted);
      sorted
    case Pending =>
      var r := Filter(sorted, IsOpen);
      SubseqOrdered(r, sorted);
      r
    case Completed =>
      var r := Filter(sorted, IsDone);
      SubseqOrdered(r, sorted);
      r
  }
}
