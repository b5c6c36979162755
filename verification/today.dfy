/**
 * The Today page: the tasks due today, kept in the page's `tasks` state and
 * updated by the create, update, toggle and delete handlers after the task
 * service answers; filtered and sorted for display. The service's answers are
 * parameters: `Ok` with the returned task, or `Err` when the call rejected.
 */
module TodayPage {
  import opened Base
  import opened Seqs
  import opened Clock
  import opened Tasks

  function DueTodayOn(now: int): Task -> bool {
    (t: Task) => IsToday(t.dueDate, now)
  }

  /** The `loadTasks` filter: the tasks due on today's date, in service order. */
  function TodayTasks(data: seq<Task>, now: int): (r: seq<Task>)
    ensures forall t :: t in r <==> t in data && IsToday(t.dueDate, now)
    ensures multiset(r) <= multiset(data)
  {
    Filter(data, DueTodayOn(now))
  }

  /** The create payload: the form's due date, or today's date (midnight) when none was given. */
  function CreateRequest(draft: TaskDraft, now: int): (r: TaskDraft)
    ensures r.title == draft.title && r.priority == draft.priority
    ensures r.dueDate.Some?
    ensures draft.dueDate.Some? ==> r.dueDate == draft.dueDate
    ensures draft.dueDate.None? ==> r.dueDate == Some(StartOfDay(now))
    ensures draft.dueDate.None? ==> IsToday(r.dueDate.value, now) && r.dueDate.value <= now
  {
    TodayMidnight(now);
    draft.(dueDate := Some(draft.dueDate.GetOr(StartOfDay(now))))
  }

  const LoadError: string := "Failed to load today's tasks. Please try again."

  class Page {
    var tasks: seq<Task>
    var error: string
    var filter: TaskFilter

    constructor()
      ensures tasks == [] && error == "" && filter == TaskFilter("all", "all")
    {
      tasks := [];
      error := "";
      filter := TaskFilter("all", "all");
    }

    /** On success the list becomes today's tasks and the error is cleared; on failure only the error is set. */
    method LoadTasks(data: Result<seq<Task>>, now: int)
      modifies this
      ensures filter == old(filter)
      ensures data.Ok? ==> tasks == TodayTasks(data.value, now) && error == ""
      ensures data.Err? ==> tasks == old(tasks) && error == LoadError
    {
      error := "";
      match data {
        case Ok(all) =>
          tasks := TodayTasks(all, now);
        case Err(_) =>
          error := LoadError;
      }
    }

    /** The created task is put first, and only when it is due today. */
    method HandleCreate(created: Result<Task>, now: int)
      modifies this
      ensures filter == old(filter) && error == old(error)
      ensures created.Ok? && IsToday(created.value.dueDate, now) ==> tasks == [created.value] + old(tasks)
      ensures !(created.Ok? && IsToday(created.value.dueDate, now)) ==> tasks == old(tasks)
    {
      if created.Ok? && IsToday(created.value.dueDate, now) {
        tasks := [created.value] + tasks;
      }
    }

    /** The updated task replaces the entry with its `Id` if still due today; otherwise that entry goes. */
    method HandleUpdate(id: int, updated: Result<Task>, now: int)
      modifies this
      ensures filter == old(filter) && error == old(error)
      ensures updated.Ok? && IsToday(updated.value.dueDate, now) ==> tasks == ReplaceById(old(tasks), id, updated.value)
      ensures updated.Ok? && !IsToday(updated.value.dueDate, now) ==> tasks == RemoveById(old(tasks), id)
      ensures updated.Err? ==> tasks == old(tasks)
    {
      if updated.Ok? {
        if IsToday(updated.value.dueDate, now) {
          tasks := ReplaceById(tasks, id, updated.value);
        } else {
          tasks := RemoveById(tasks, id);
        }
      }
    }

    /** The toggled task replaces the entry with its `Id`; every other entry stays where it was. */
    method HandleToggle(id: int, updated: Result<Task>)
      modifies this
      ensures filter == old(filter) && error == old(error)
      ensures updated.Ok? ==> tasks == ReplaceById(old(tasks), id, updated.value)
      ensures updated.Err? ==> tasks == old(tasks)
    {
      if updated.Ok? {
        tasks := ReplaceById(tasks, id, updated.value);
      }
    }

    /** After a confirmed, successful delete the entries with that `Id` are gone. */
    method HandleDelete(id: int, confirmed: bool, deleted: bool)
      modifies this
      ensures filter == old(filter) && error == old(error)
      ensures confirmed && deleted ==> tasks == RemoveById(old(tasks), id)
      ensures !(confirmed && deleted) ==> tasks == old(tasks)
    {
      if !confirmed {
        return;
      }
      if deleted {
        tasks := RemoveById(tasks, id);
      }
    }

    method SetFilter(f: TaskFilter)
      modifies this
      ensures filter == f && tasks == old(tasks) && error == old(error)
    {
      filter := f;
    }

    /**
     * `sortedTasks`: a sorted copy of the filtered tasks, incomplete first, then by
     * priority rank descending, then newest first; `tasks` itself is not touched.
     */
    method SortedTasks() returns (sorted: seq<Task>)
      ensures SortedBy(sorted, DisplayKey)
      ensures multiset(sorted) == multiset(ApplyFilter(tasks, filter))
      ensures TiesInOrder(sorted, ApplyFilter(tasks, filter), DisplayKey)
    {
      sorted := SortBy(ApplyFilter(tasks, filter), DisplayKey);
    }
  }
}
