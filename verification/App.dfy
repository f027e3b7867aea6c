/** The root component (App.tsx): the state it owns (the task list, the
    theme and the filter mode), the handlers that replace that state, and
    the wiring that sends an accepted form submission to `addTask`. */
module App {
  import opened Types
  import TaskList
  import TaskView
  import StudyForm
  import Progress

  /** The theme `toggleTheme` switches to. */
  function Toggled(t: Theme): (r: Theme)
    ensures r != t
  {
    if t == Light then Dark else Light
  }

  lemma ToggledTwice(t: Theme)
    ensures Toggled(Toggled(t)) == t
  {
  }

  class Store {
    var tasks: seq<Task>
    var theme: Theme
    var filter: FilterMode

    /** The state before anything is loaded: no tasks, light theme, all
        tasks shown. */
    constructor ()
      ensures tasks == [] && theme == Light && filter == All
    {
      tasks, theme, filter := [], Light, All;
    }

    /** `addTask`; the id and the timestamp are the values of
        `crypto.randomUUID()` and `Date.now()`. */
    method AddTask(d: TaskData, id: string, now: int)
      modifies this
      ensures tasks == TaskList.AddTask(old(tasks), d, id, now)
      ensures theme == old(theme) && filter == old(filter)
    {
      tasks := TaskList.AddTask(tasks, d, id, now);
    }

    method ToggleTask(id: string)
      modifies this
      ensures tasks == TaskList.ToggleTask(old(tasks), id)
      ensures theme == old(theme) && filter == old(filter)
    {
      tasks := TaskList.ToggleTask(tasks, id);
    }

    method DeleteTask(id: string)
      modifies this
      ensures tasks == TaskList.DeleteTask(old(tasks), id)
      ensures theme == old(theme) && filter == old(filter)
    {
      tasks := TaskList.DeleteTask(tasks, id);
    }

    method ToggleTheme()
      modifies this
      ensures theme == Toggled(old(theme))
      ensures tasks == old(tasks) && filter == old(filter)
    {
      theme := Toggled(theme);
    }

    /** A filter button. */
    method SetFilter(f: FilterMode)
      modifies this
      ensures filter == f
      ensures tasks == old(tasks) && theme == old(theme)
    {
      filter := f;
    }

    /** `filteredTasks`: computed from a sorted copy, so reading it
        changes no state. */
    function FilteredTasks(): (r: seq<Task>)
      reads this
      ensures r == TaskView.View(tasks, filter)
      ensures forall t :: multiset(r)[t] == if TaskView.Shows(filter, t) then multiset(tasks)[t] else 0
      ensures TaskView.Ordered(r)
    {
      TaskView.View(tasks, filter)
    }
  }

  /** Submitting the form with `onAdd` bound to the store's `addTask`:
      an accepted submission prepends one task built from the form's
      values; a refused one leaves the store as it was. */
  method SubmitForm(store: Store, form: StudyForm.Form, id: string, now: int)
    modifies store, form
    ensures StudyForm.Accepts(old(form.title), old(form.subject)) ==>
      store.tasks == TaskList.AddTask(old(store.tasks), old(form.Data()), id, now)
    ensures !StudyForm.Accepts(old(form.title), old(form.subject)) ==>
      store.tasks == old(store.tasks)
    ensures store.theme == old(store.theme) && store.filter == old(store.filter)
    ensures StudyForm.Accepts(old(form.title), old(form.subject)) ==>
      form.title == "" && form.subject == "" && !form.isExpanded
    ensures !StudyForm.Accepts(old(form.title), old(form.subject)) ==> unchanged(form)
    ensures form.date == old(form.date) && form.startTime == old(form.startTime)
    ensures form.endTime == old(form.endTime) && form.priority == old(form.priority)
  {
    var added := form.Submit();
    if added.Some? {
      store.AddTask(added.value, id, now);
    }
  }

  /** A first task is added incomplete: 0 of 1 done, 0%, the "starting"
      line. Toggling it completes the list: 100%, the "all done" line, and
      the pending view is empty. */
  lemma FirstTaskLifecycle(d: TaskData, id: string, now: int)
    ensures var one := TaskList.AddTask([], d, id, now);
      && |one| == 1 && !one[0].completed
      && Progress.Percentage(one) == 0
      && Progress.MessageFor(one) == Progress.JustStart
    ensures var done := TaskList.ToggleTask(TaskList.AddTask([], d, id, now), id);
      && Progress.Percentage(done) == 100
      && Progress.MessageFor(done) == Progress.AllDone
      && TaskView.View(done, Pending) == []
  {
    var one := TaskList.AddTask([], d, id, now);
    var done := TaskList.ToggleTask(one, id);
    assert done[0].completed;
    assert forall t :: t in done ==> t.completed;
  }

  /** Two open tasks, one High and one Low: the High one is listed first,
      whatever their start times and their order in the store. */
  lemma HighBeforeLow(low: Task, high: Task)
    requires !low.completed && !high.completed
    requires low.priority == Low && high.priority == High
    ensures TaskView.View([low, high], All) == [high, low]
    ensures TaskView.View([high, low], All) == [high, low]
  {
    assert TaskView.SortTasks([high]) == [high] by {
      assert [high][1..] == [];
    }
    assert TaskView.SortTasks([low]) == [low] by {
      assert [low][1..] == [];
    }
    assert TaskView.SortTasks([low, high]) == [high, low] by {
      assert [low, high][1..] == [high];
      assert !TaskView.InOrder(low, high);
      assert TaskView.Insert(low, [high]) == [high] + TaskView.Insert(low, []);
    }
    assert TaskView.SortTasks([high, low]) == [high, low] by {
      assert [high, low][1..] == [low];
      assert TaskView.InOrder(high, low);
    }
  }
}
