/** The task-creation form (components/StudyForm.tsx): the field values
    being typed, a flag saying whether the form is open, and the submit
    handler that hands a filled-in task to the store. */
module StudyForm {
  import opened Types

  /** The submit guard `!title || !subject`: a string is falsy only when
      it is empty, so a field passes when it has at least one character.
      Nothing is trimmed, so a title of spaces passes. */
  predicate Accepts(title: string, subject: string): (ok: bool)
    ensures ok <==> |title| > 0 && |subject| > 0
  {
    title != "" && subject != ""
  }

  /** The guard tests presence only: blank-looking text is accepted,
      empty text is refused. */
  lemma PresenceOnly()
    ensures Accepts("   ", " ")
    ensures !Accepts("", "Computer Science") && !Accepts("Review Neural Networks", "")
  {
  }

  class Form {
    var title: string
    var subject: string
    var date: string
    var startTime: string
    var endTime: string
    var priority: Priority
    var isExpanded: bool

    /** The empty, collapsed form. `today` is the date the clock gives
        when the form is created. */
    constructor (today: string)
      ensures title == "" && subject == "" && date == today
      ensures startTime == "09:00" && endTime == "10:00"
      ensures priority == Medium && !isExpanded
    {
      title, subject, date := "", "", today;
      startTime, endTime := "09:00", "10:00";
      priority, isExpanded := Medium, false;
    }

    /** The values the form would hand to the store. */
    function Data(): TaskData
      reads this
    {
      TaskData(title, subject, date, startTime, endTime, priority)
    }

    /** `handleSubmit`. When title and subject are both non-empty, returns
        the current values (the one call of `onAdd`), clears title and
        subject and collapses the form; otherwise returns None and changes
        nothing. Date, times and priority are kept either way. */
    method Submit() returns (added: Option<TaskData>)
      modifies this
      ensures !Accepts(old(title), old(subject)) ==> added == None && unchanged(this)
      ensures Accepts(old(title), old(subject)) ==>
        && added == Some(old(Data()))
        && title == "" && subject == "" && !isExpanded
      ensures date == old(date) && startTime == old(startTime)
      ensures endTime == old(endTime) && priority == old(priority)
    {
      if !Accepts(title, subject) {
        return None;
      }
      added := Some(TaskData(title, subject, date, startTime, endTime, priority));
      title := "";
      subject := "";
      isExpanded := false;
    }

    /** The "Add a study task..." button: opens the form. */
    method Expand()
      modifies this
      ensures isExpanded
      ensures Data() == old(Data())
    {
      isExpanded := true;
    }

    /** The Cancel button: closes the form and keeps what was typed. */
    method Cancel()
      modifies this
      ensures !isExpanded
      ensures Data() == old(Data())
    {
      isExpanded := false;
    }

    /** The input handlers: each sets its own field and no other. */
    method SetTitle(v: string)
      modifies this
      ensures Data() == old(Data()).(title := v) && isExpanded == old(isExpanded)
    {
      title := v;
    }

    method SetSubject(v: string)
      modifies this
      ensures Data() == old(Data()).(subject := v) && isExpanded == old(isExpanded)
    {
      subject := v;
    }

    method SetDate(v: string)
      modifies this
      ensures Data() == old(Data()).(date := v) && isExpanded == old(isExpanded)
    {
      date := v;
    }

    method SetStartTime(v: string)
      modifies this
      ensures Data() == old(Data()).(startTime := v) && isExpanded == old(isExpanded)
    {
      startTime := v;
    }

    method SetEndTime(v: string)
      modifies this
      ensures Data() == old(Data()).(endTime := v) && isExpanded == old(isExpanded)
    {
      endTime := v;
    }

    method SetPriority(v: Priority)
      modifies this
      ensures Data() == old(Data()).(priority := v) && isExpanded == old(isExpanded)
    {
      priority := v;
    }
  }
}
