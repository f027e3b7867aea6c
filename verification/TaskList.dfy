/** The three task-list transitions of the root component (App.tsx):
    each one maps the previous list to the next. Ids are never checked
    for uniqueness, so toggling and deleting act on every task whose id
    matches. */
module TaskList {
  import opened Types
  import opened Seqs

  /** `addTask`: a new incomplete task carrying the form data, the
      supplied id and the supplied creation time, in front of `prev`. */
  function AddTask(prev: seq<Task>, d: TaskData, id: string, createdAt: int): (r: seq<Task>)
    ensures |r| == |prev| + 1
    ensures r[1..] == prev
    ensures DataOf(r[0]) == d
    ensures r[0].id == id && r[0].createdAt == createdAt && !r[0].completed
  {
    var t := Task(id, d.title, d.subject, d.date, d.startTime, d.endTime, d.priority, false, createdAt);
    [t] + prev
  }

  /** The task with its completion flag negated. */
  function Flipped(t: Task): Task
  {
    t.(completed := !t.completed)
  }

  /** `toggleTask`: every task whose id is `id` has its completion flag
      negated; everything else stays where and what it was. */
  function ToggleTask(prev: seq<Task>, id: string): (r: seq<Task>)
    ensures |r| == |prev|
    ensures forall i :: 0 <= i < |prev| ==> r[i].(completed := prev[i].completed) == prev[i]
    ensures forall i :: 0 <= i < |prev| ==> (r[i].completed != prev[i].completed <==> prev[i].id == id)
  {
    if prev == [] then []
    else [if prev[0].id == id then Flipped(prev[0]) else prev[0]] + ToggleTask(prev[1..], id)
  }

  /** Toggling the same id twice gives back the original list. */
  lemma ToggleTwice(prev: seq<Task>, id: string)
    ensures ToggleTask(ToggleTask(prev, id), id) == prev
  {
  }

  /** Toggling an id that no task carries changes nothing. */
  lemma ToggleMissing(prev: seq<Task>, id: string)
    requires forall t :: t in prev ==> t.id != id
    ensures ToggleTask(prev, id) == prev
  {
  }

  /** The keep-test of `deleteTask`. */
  function OtherId(id: string): Task -> bool
  {
    (t: Task) => t.id != id
  }

  /** `deleteTask`: the tasks whose id is not `id`, in their order. */
  function DeleteTask(prev: seq<Task>, id: string): (r: seq<Task>)
    ensures forall t :: t in r <==> t in prev && t.id != id
    ensures forall t :: multiset(r)[t] == if t.id == id then 0 else multiset(prev)[t]
    ensures IsSubseq(r, prev)
    ensures (forall t :: t in prev ==> t.id != id) ==> r == prev
  {
    Filter(prev, OtherId(id))
  }

  /** Deleting keeps the relative order of what remains: it acts on each
      part of a list separately. */
  lemma DeleteConcat(a: seq<Task>, b: seq<Task>, id: string)
    ensures DeleteTask(a + b, id) == DeleteTask(a, id) + DeleteTask(b, id)
  {
    FilterConcat(a, b, OtherId(id));
  }

  /** Deleting twice is deleting once. */
  lemma DeleteIdempotent(prev: seq<Task>, id: string)
    ensures DeleteTask(DeleteTask(prev, id), id) == DeleteTask(prev, id)
  {
  }
}
