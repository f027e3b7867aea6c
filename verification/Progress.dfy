/** The progress summary (components/ProgressHeader.tsx): how many tasks
    there are, how many are done, the rounded percentage and the
    encouragement line chosen from it. */
module Progress {
  import opened Types
  import opened Seqs

  /** The number of completed tasks. */
  function CompletedCount(tasks: seq<Task>): (c: nat)
    ensures c <= |tasks|
    ensures c == |tasks| <==> forall t :: t in tasks ==> t.completed
    ensures c == 0 <==> forall t :: t in tasks ==> !t.completed
  {
    |Filter(tasks, IsDone)|
  }

  /** The count grows by one exactly for a completed task. */
  lemma CompletedCountCons(t: Task, tasks: seq<Task>)
    ensures CompletedCount([t] + tasks) == CompletedCount(tasks) + (if t.completed then 1 else 0)
  {
  }

  lemma MulCancel(d: int, a: int, b: int)
    requires d > 0 && d * a < d * b
    ensures a < b
  {
  }

  /** `Math.round(c / total * 100)` in exact arithmetic: the nearest
      integer, halves rounded up. */
  function RoundedPercent(c: nat, total: nat): (p: nat)
    requires c <= total
    ensures total == 0 ==> p == 0
    ensures total > 0 ==> 2 * total * p <= 200 * c + total < 2 * total * p + 2 * total
    ensures p <= 100
    ensures c == 0 ==> p == 0
    ensures 0 < total == c ==> p == 100
  {
    if total == 0 then 0
    else
      var d, n := 2 * total, 200 * c + total;
      var p := n / d;
      assert d * p <= n < d * p + d;
      assert p <= 100 by {
        assert d * p < d * 101;
        MulCancel(d, p, 101);
      }
      assert c == 0 ==> p == 0 by {
        if c == 0 {
          assert d * p < d * 1;
          MulCancel(d, p, 1);
        }
      }
      assert 0 < total == c ==> p == 100 by {
        if total == c {
          assert d * 100 < d * (p + 1);
          MulCancel(d, 100, p + 1);
        }
      }
      p
  }

  /** The percentage shown in the bar; 0 for an empty list. */
  function Percentage(tasks: seq<Task>): (p: nat)
    ensures p <= 100
    ensures |tasks| == 0 ==> p == 0
    ensures CompletedCount(tasks) == 0 ==> p == 0
    ensures |tasks| > 0 && CompletedCount(tasks) == |tasks| ==> p == 100
    ensures |tasks| > 0 ==>
      2 * |tasks| * p <= 200 * CompletedCount(tasks) + |tasks| < 2 * |tasks| * p + 2 * |tasks|
  {
    if |tasks| == 0 then 0 else RoundedPercent(CompletedCount(tasks), |tasks|)
  }

  /** The four encouragement lines. */
  datatype Message = AllDone | KeepGoing | JustStart | AddFirstTask

  const AllDoneLine := "Great job! You've crushed all your goals today."
  const KeepGoingLine := "Keep going! You're more than halfway there."
  const JustStartLine := "Starting is the hardest part. You got this!"
  const AddFirstTaskLine := "Add a task to start tracking your progress."

  /** The text shown for each message; each text belongs to exactly one
      message, so the four lines can be told apart. */
  function MessageText(m: Message): (s: string)
    ensures s == AllDoneLine <==> m == AllDone
    ensures s == KeepGoingLine <==> m == KeepGoing
    ensures s == JustStartLine <==> m == JustStart
    ensures s == AddFirstTaskLine <==> m == AddFirstTask
  {
    match m
    case AllDone => AllDoneLine
    case KeepGoing => KeepGoingLine
    case JustStart => JustStartLine
    case AddFirstTask => AddFirstTaskLine
  }

  /** The line under the bar, tested in the order 100%, over 50%,
      non-empty, empty. */
  function MessageFor(tasks: seq<Task>): (m: Message)
    ensures m == AddFirstTask <==> |tasks| == 0
    ensures m == AllDone <==> Percentage(tasks) == 100
    ensures m == KeepGoing <==> 50 < Percentage(tasks) < 100
    ensures m == JustStart <==> |tasks| > 0 && Percentage(tasks) <= 50
    ensures (forall t :: t in tasks ==> t.completed) && |tasks| > 0 ==> m == AllDone
  {
    var p := Percentage(tasks);
    if p == 100 then AllDone
    else if p > 50 then KeepGoing
    else if |tasks| > 0 then JustStart
    else AddFirstTask
  }

  /** The text shown under the progress bar for a task list. */
  function MessageLine(tasks: seq<Task>): (s: string)
    ensures s == AddFirstTaskLine <==> |tasks| == 0
    ensures s == AllDoneLine <==> Percentage(tasks) == 100
    ensures s == KeepGoingLine <==> 50 < Percentage(tasks) < 100
    ensures s == JustStartLine <==> |tasks| > 0 && Percentage(tasks) <= 50
  {
    MessageText(MessageFor(tasks))
  }

  /** Exactly half done is not "more than halfway": the threshold is
      strict. */
  lemma HalfDoneIsJustStart(tasks: seq<Task>)
    requires |tasks| > 0 && 2 * CompletedCount(tasks) == |tasks|
    ensures Percentage(tasks) == 50
    ensures MessageFor(tasks) == JustStart
  {
    var c, n, p := CompletedCount(tasks), |tasks|, Percentage(tasks);
    var d := 2 * n;
    assert d * p <= 200 * c + n < d * p + d;
    assert 200 * c + n == d * 50 + n;
    MulCancel(d, p, 51);
    MulCancel(d, 49, p);
  }

  /** Rounding reaches 100 before the last task is done: 199 of 200 is
      shown as 100%, so "all done" does not mean every task is done. */
  lemma RoundsUpToFull()
    ensures RoundedPercent(199, 200) == 100
  {
  }
}
