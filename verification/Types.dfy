/** The records of the study planner: a task's priority, the task itself,
    the data the creation form hands to the store, the theme and the
    filter mode of the task list. */
module Types {

  /** The three priorities a task can carry. */
  datatype Priority = Low | Medium | High

  /** The sort rank of a priority: High = 3, Medium = 2, Low = 1. */
  function Rank(p: Priority): (r: int)
    ensures 1 <= r <= 3
    ensures r == 3 <==> p == High
    ensures r == 1 <==> p == Low
  {
    match p
    case High => 3
    case Medium => 2
    case Low => 1
  }

  /** One study task. `createdAt` is a millisecond timestamp. */
  datatype Task = Task(
    id: string,
    title: string,
    subject: string,
    date: string,
    startTime: string,
    endTime: string,
    priority: Priority,
    completed: bool,
    createdAt: int)

  /** What the creation form supplies: a task without its id, its
      completion flag and its creation time. */
  datatype TaskData = TaskData(
    title: string,
    subject: string,
    date: string,
    startTime: string,
    endTime: string,
    priority: Priority)

  /** The user-supplied part of a task. */
  function DataOf(t: Task): TaskData
  {
    TaskData(t.title, t.subject, t.date, t.startTime, t.endTime, t.priority)
  }

  datatype Theme = Light | Dark

  /** Which tasks the list shows. */
  datatype FilterMode = All | Pending | Completed

  predicate IsDone(t: Task) { t.completed }

  predicate IsOpen(t: Task) { !t.completed }

  datatype Option<T> = None | Some(value: T)
}
