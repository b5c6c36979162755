/**
 * The Completed page: the completed tasks, narrowed by a time period, grouped
 * under "Today", "Yesterday" or the full completion date, newest group first and
 * newest task first within a group.
 */
module CompletedPage {
  import opened Base
  import opened Seqs
  import opened Clock
  import opened Tasks
  import opened Grouping

  /** The `loadTasks` filter: the completed tasks, in service order. */
  function CompletedTasks(data: seq<Task>): (r: seq<Task>)
    ensures forall t :: t in r <==> t in data && t.completed
    ensures multiset(r) <= multiset(data)
  {
    Filter(data, IsDone())
  }

  /** Whether completion time c passes the time filter; unknown values act as "all". */
  predicate InPeriod(period: string, c: int, now: int) {
    match period
    case "today" => IsToday(c, now)
    case "yesterday" => IsYesterday(c, now)
    case "week" => c >= SubDays(now, 7)
    case "month" => c >= SubDays(now, 30)
    case _ => true
  }

  function PeriodTest(period: string, now: int): Task -> bool {
    (t: Task) => t.completedAt.Some? && InPeriod(period, t.completedAt.value, now)
  }

  function HasCompletedAt(): Task -> bool {
    (t: Task) => t.completedAt.Some?
  }

  /** `getFilteredTasks`: tasks with a completion time inside the period, in list order. */
  function FilteredTasks(tasks: seq<Task>, period: string, now: int): (r: seq<Task>)
    ensures forall t :: t in r ==> t in tasks && t.completedAt.Some?
    ensures forall t :: t in r <==> t in tasks && t.completedAt.Some? && InPeriod(period, t.completedAt.value, now)
    ensures |r| <= |tasks|
  {
    Filter(tasks, PeriodTest(period, now))
  }

  /** "all", and any value the select does not offer, keep every task that has a completion time. */
  lemma AllKeepsEveryStamped(tasks: seq<Task>, period: string, now: int)
    requires period !in {"today", "yesterday", "week", "month"}
    ensures FilteredTasks(tasks, period, now) == Filter(tasks, HasCompletedAt())
  {
    FilterOfFilter(tasks, HasCompletedAt(), (t: Task) => true, PeriodTest(period, now));
    FilterAllOrNone(Filter(tasks, HasCompletedAt()), (t: Task) => true);
  }

  /** The last seven days are within the last thirty. */
  lemma WeekWithinMonth(tasks: seq<Task>, now: int)
    ensures multiset(FilteredTasks(tasks, "week", now)) <= multiset(FilteredTasks(tasks, "month", now))
    ensures |FilteredTasks(tasks, "week", now)| <= |FilteredTasks(tasks, "month", now)|
  {
    FilterMonotone(tasks, PeriodTest("week", now), PeriodTest("month", now));
  }

  /** The group heading for a completion time. */
  function CompletedLabel(c: int, now: int): (r: DateLabel)
    ensures r == Today <==> IsToday(c, now)
    ensures r == Yesterday <==> IsYesterday(c, now)
    ensures r.LongDate? <==> !IsToday(c, now) && !IsYesterday(c, now)
    ensures r.LongDate? ==> r.day == DayOf(c)
  {
    if IsToday(c, now) then Today
    else if IsYesterday(c, now) then Yesterday
    else LongDate(DayOf(c))
  }

  function LabelOn(now: int): Task -> DateLabel {
    (t: Task) => CompletedLabel(CompletedTime(t), now)
  }

  /** One heading stands for one completion date. */
  lemma OneLabelOneDay(a: int, b: int, now: int)
    requires CompletedLabel(a, now) == CompletedLabel(b, now)
    ensures DayOf(a) == DayOf(b)
  {
  }

  const LoadError: string := "Failed to load completed tasks. Please try again."

  class Page {
    var tasks: seq<Task>
    var error: string
    var timeFilter: string

    /** Only completed tasks are listed. */
    ghost predicate Valid()
      reads this
    {
      forall t :: t in tasks ==> t.completed
    }

    constructor()
      ensures Valid() && tasks == [] && error == "" && timeFilter == "all"
    {
      tasks := [];
      error := "";
      timeFilter := "all";
    }

    method LoadTasks(data: Result<seq<Task>>)
      requires Valid()
      modifies this
      ensures Valid() && timeFilter == old(timeFilter)
      ensures data.Ok? ==> tasks == CompletedTasks(data.value) && error == ""
      ensures data.Err? ==> tasks == old(tasks) && error == LoadError
    {
      error := "";
      match data {
        case Ok(all) =>
          tasks := CompletedTasks(all);
        case Err(_) =>
          error := LoadError;
      }
    }

    /** A task toggled back to completed replaces its entry; one toggled to active leaves the list. */
    method HandleToggle(id: int, updated: Result<Task>)
      requires Valid()
      modifies this
      ensures Valid() && timeFilter == old(timeFilter) && error == old(error)
      ensures updated.Ok? && updated.value.completed ==> tasks == ReplaceById(old(tasks), id, updated.value)
      ensures updated.Ok? && !updated.value.completed ==> tasks == RemoveById(old(tasks), id)
      ensures updated.Err? ==> tasks == old(tasks)
    {
      if updated.Ok? {
        if updated.value.completed {
          tasks := ReplaceById(tasks, id, updated.value);
        } else {
          tasks := RemoveById(tasks, id);
        }
      }
    }

    method HandleDelete(id: int, confirmed: bool, deleted: bool)
      requires Valid()
      modifies this
      ensures Valid() && timeFilter == old(timeFilter) && error == old(error)
      ensures confirmed && deleted ==> tasks == RemoveById(old(tasks), id)
      ensures !(confirmed && deleted) ==> tasks == old(tasks)
    {
      if !confirmed {
        return;
      }
      if deleted {
        tasks := RemoveById(tasks, id);
      }
    }

    method SetTimeFilter(period: string)
      requires Valid()
      modifies this
      ensures Valid() && timeFilter == period && tasks == old(tasks) && error == old(error)
    {
      timeFilter := period;
    }

    /** `filteredCount` never exceeds `totalCompleted`. */
    method Counts(now: int) returns (filteredCount: nat, totalCompleted: nat)
      ensures totalCompleted == |tasks|
      ensures filteredCount == |FilteredTasks(tasks, timeFilter, now)| <= totalCompleted
    {
      filteredCount := |FilteredTasks(tasks, timeFilter, now)|;
      totalCompleted := |tasks|;
    }

    /**
     * `groupedTasks`, `sortedGroupKeys` and the per-group sort: the filtered tasks
     * bucketed by completion date, newest group first, newest task first in each.
     */
    method Groups(now: int) returns (view: seq<Bucket<Task, DateLabel>>)
      ensures GroupedViewOf(FilteredTasks(tasks, timeFilter, now), LabelOn(now), CompletionKey, CompletionKey, view)
    {
      view := GroupedView(FilteredTasks(tasks, timeFilter, now), LabelOn(now), CompletionKey, CompletionKey);
    }
  }
}
