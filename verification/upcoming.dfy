/**
 * The Upcoming page: tasks due after today, grouped under "Tomorrow", a weekday
 * name for the coming week, or the full date beyond it; groups in due-date order,
 * each sorted in display order.
 */
module UpcomingPage {
  import opened Base
  import opened Seqs
  import opened Clock
  import opened Tasks
  import opened Grouping
  import TodayPage

  function AfterTodayOn(now: int): Task -> bool {
    (t: Task) => t.dueDate > EndOfDay(now)
  }

  /** The `loadTasks` filter: tasks due strictly after 23:59:59.999 today, in service order. */
  function UpcomingTasks(data: seq<Task>, now: int): (r: seq<Task>)
    ensures forall t :: t in r <==> t in data && t.dueDate > EndOfDay(now)
    ensures multiset(r) <= multiset(data)
  {
    Filter(data, AfterTodayOn(now))
  }

  /** Strictly after the end of today is exactly "on a later date". */
  lemma UpcomingMeansLaterDay(data: seq<Task>, now: int)
    ensures forall t :: t in UpcomingTasks(data, now) <==> t in data && DayOf(t.dueDate) > DayOf(now)
  {
    forall t: Task {
      AfterEndOfDay(t.dueDate, now);
    }
  }

  /** The Today page and the Upcoming page never load the same task. */
  lemma TodayAndUpcomingDisjoint(data: seq<Task>, now: int)
    ensures forall t :: t in TodayPage.TodayTasks(data, now) ==> t !in UpcomingTasks(data, now)
  {
    forall t: Task {
      AfterEndOfDay(t.dueDate, now);
    }
  }

  /** The create due date: the form's date if it is after now, otherwise tomorrow's midnight. */
  function CreateDueDate(due: Option<int>, now: int): (r: int)
    ensures r > now
    ensures due.Some? && due.value > now ==> r == due.value
    ensures !(due.Some? && due.value > now) ==> IsTomorrow(r, now) && r == StartOfDay(AddDays(now, 1))
  {
    if due.Some? && due.value > now then due.value
    else
      TomorrowMidnight(now);
      StartOfDay(AddDays(now, 1))
  }

  function CreateRequest(draft: TaskDraft, now: int): (r: TaskDraft)
    ensures r.title == draft.title && r.priority == draft.priority
    ensures r.dueDate.Some? && r.dueDate.value > now
    ensures draft.dueDate.Some? && draft.dueDate.value > now ==> r.dueDate == draft.dueDate
    ensures !(draft.dueDate.Some? && draft.dueDate.value > now)
            ==> r.dueDate == Some(StartOfDay(AddDays(now, 1))) && IsTomorrow(r.dueDate.value, now)
  {
    draft.(dueDate := Some(CreateDueDate(draft.dueDate, now)))
  }

  /** The group heading for a due date. */
  function UpcomingLabel(due: int, now: int): (r: DateLabel)
    ensures r == Tomorrow <==> IsTomorrow(due, now)
    ensures r.Weekday? <==> !IsTomorrow(due, now) && due <= AddDays(now, 7)
    ensures r.Weekday? ==> r.index == WeekdayOf(due)
    ensures r.LongDate? ==> r.day == DayOf(due) && due > AddDays(now, 7)
    ensures !IsTomorrow(due, now) && due > AddDays(now, 7) ==> r == LongDate(DayOf(due))
  {
    if IsTomorrow(due, now) then Tomorrow
    else if due <= AddDays(now, 7) then Weekday(WeekdayOf(due))
    else LongDate(DayOf(due))
  }

  function LabelOn(now: int): Task -> DateLabel {
    (t: Task) => UpcomingLabel(t.dueDate, now)
  }

  /** For tasks due after today, one heading stands for one date. */
  lemma OneLabelOneDay(a: int, b: int, now: int)
    requires DayOf(a) > DayOf(now) && DayOf(b) > DayOf(now)
    requires UpcomingLabel(a, now) == UpcomingLabel(b, now)
    ensures DayOf(a) == DayOf(b)
  {
    if UpcomingLabel(a, now).Weekday? {
      WithinWeekDay(a, now);
      WithinWeekDay(b, now);
      WeekdayDeterminesDay(a, b, now);
    }
  }

  /**
   * The create and update handlers keep tasks due later today (they compare with
   * now, not with the end of today). Such a task shares its weekday heading with a
   * task due on the same weekday a week later.
   */
  lemma WeekdayLabelCanMixToday()
    ensures var now, a, b := 36000000, 39600000, 36000000 + 7 * DayMs - 3600000;
            a > now && b > now
            && UpcomingLabel(a, now) == UpcomingLabel(b, now)
            && DayOf(a) != DayOf(b)
  {
  }

  const LoadError: string := "Failed to load upcoming tasks. Please try again."

  class Page {
    var tasks: seq<Task>
    var error: string
    var filter: TaskFilter

    constructor()
      ensures tasks == [] && error == "" && filter == TaskFilter("active", "all")
    {
      tasks := [];
      error := "";
      filter := TaskFilter("active", "all");
    }

    method LoadTasks(data: Result<seq<Task>>, now: int)
      modifies this
      ensures filter == old(filter)
      ensures data.Ok? ==> tasks == UpcomingTasks(data.value, now) && error == ""
      ensures data.Err? ==> tasks == old(tasks) && error == LoadError
    {
      error := "";
      match data {
        case Ok(all) =>
          tasks := UpcomingTasks(all, now);
        case Err(_) =>
          error := LoadError;
      }
    }

    /** The created task is put first, and only when it is due after now. */
    method HandleCreate(created: Result<Task>, now: int)
      modifies this
      ensures filter == old(filter) && error == old(error)
      ensures created.Ok? && created.value.dueDate > now ==> tasks == [created.value] + old(tasks)
      ensures !(created.Ok? && created.value.dueDate > now) ==> tasks == old(tasks)
    {
      if created.Ok? && created.value.dueDate > now {
        tasks := [created.value] + tasks;
      }
    }

    /** The updated task replaces the entry with its `Id` while due after now; otherwise that entry goes. */
    method HandleUpdate(id: int, updated: Result<Task>, now: int)
      modifies this
      ensures filter == old(filter) && error == old(error)
      ensures updated.Ok? && updated.value.dueDate > now ==> tasks == ReplaceById(old(tasks), id, updated.value)
      ensures updated.Ok? && updated.value.dueDate <= now ==> tasks == RemoveById(old(tasks), id)
      ensures updated.Err? ==> tasks == old(tasks)
    {
      if updated.Ok? {
        if updated.value.dueDate > now {
          tasks := ReplaceById(tasks, id, updated.value);
        } else {
          tasks := RemoveById(tasks, id);
        }
      }
    }

    method HandleToggle(id: int, updated: Result<Task>)
      modifies this
      ensures filter == old(filter) && error == old(error)
      ensures updated.Ok? ==> tasks == ReplaceById(old(tasks), id, updated.value)
      ensures updated.Err? ==> tasks == old(tasks)
    {
      if updated.Ok? {
        tasks := ReplaceById(tasks, id, updated.value);
      }
    }

    method HandleDelete(id: int, confirmed: bool, deleted: bool)
      modifies this
      ensures filter == old(filter) && error == old(error)
      ensures confirmed && deleted ==> tasks == RemoveById(old(tasks), id)
      ensures !(confirmed && deleted) ==> tasks == old(tasks)
    {
      if !confirmed {
        return;
      }
      if deleted {
        tasks := RemoveById(tasks, id);
      }
    }

    method SetFilter(f: TaskFilter)
      modifies this
      ensures filter == f && tasks == old(tasks) && error == old(error)
    {
      filter := f;
    }

    /**
     * `groupedTasks`, `sortedGroupKeys` and the per-group sort: the filtered tasks
     * bucketed by heading, buckets in ascending due date of their first task, each
     * bucket in display order.
     */
    method Groups(now: int) returns (view: seq<Bucket<Task, DateLabel>>)
      ensures GroupedViewOf(ApplyFilter(tasks, filter), LabelOn(now), DueKey, DisplayKey, view)
    {
      view := GroupedView(ApplyFilter(tasks, filter), LabelOn(now), DueKey, DisplayKey);
    }
  }
}
