/**
 * The dashboard's derived numbers and lists: the six counters of
 * `calculateStats`, the per-category task lists, and the due-date label.
 */
module Dashboard {
  import opened Seqs
  import opened Clock
  import opened Tasks

  datatype Stats = Stats(total: nat, completed: nat, pending: nat, overdue: nat, today: nat, thisWeek: nat)

  /** Not completed and due before now. */
  function OverdueAt(now: int): Task -> bool {
    (t: Task) => !t.completed && t.dueDate < now
  }

  /** Not completed and due on today's date. */
  function DueTodayAt(now: int): Task -> bool {
    (t: Task) => !t.completed && IsToday(t.dueDate, now)
  }

  /** Not completed and due no later than seven days from now. */
  function DueThisWeekAt(now: int): Task -> bool {
    (t: Task) => !t.completed && t.dueDate <= AddDays(now, 7)
  }

  /** Not completed and due after now. */
  function DueAfterAt(now: int): Task -> bool {
    (t: Task) => !t.completed && t.dueDate > now
  }

  /**
   * `calculateStats`: every task is either completed or pending; overdue, due-today and
   * due-this-week tasks are all pending; an overdue or due-today task is due this week.
   * Each counter is the number of positions whose task passes its test.
   */
  function CalculateStats(tasks: seq<Task>, now: int): (r: Stats)
    ensures r.completed == |IndicesWhere(tasks, IsDone())|
    ensures r.pending == |IndicesWhere(tasks, IsPending())|
    ensures r.overdue == |IndicesWhere(tasks, OverdueAt(now))|
    ensures r.today == |IndicesWhere(tasks, DueTodayAt(now))|
    ensures r.thisWeek == |IndicesWhere(tasks, DueThisWeekAt(now))|
    ensures r.total == |tasks| == r.completed + r.pending
    ensures r.overdue <= r.thisWeek <= r.pending
    ensures r.today <= r.thisWeek
  {
    FilterComplement(tasks, IsDone(), IsPending());
    FilterMonotone(tasks, OverdueAt(now), DueThisWeekAt(now));
    FilterMonotone(tasks, DueThisWeekAt(now), IsPending());
    forall t: Task | DueTodayAt(now)(t) ensures DueThisWeekAt(now)(t) {
      TodayWithinWeek(t.dueDate, now);
    }
    FilterMonotone(tasks, DueTodayAt(now), DueThisWeekAt(now));
    FilterLengthCountsIndices(tasks, IsDone());
    FilterLengthCountsIndices(tasks, IsPending());
    FilterLengthCountsIndices(tasks, OverdueAt(now));
    FilterLengthCountsIndices(tasks, DueTodayAt(now));
    FilterLengthCountsIndices(tasks, DueThisWeekAt(now));
    Stats(
      |tasks|,
      |Filter(tasks, IsDone())|,
      |Filter(tasks, IsPending())|,
      |Filter(tasks, OverdueAt(now))|,
      |Filter(tasks, DueTodayAt(now))|,
      |Filter(tasks, DueThisWeekAt(now))|)
  }

  /**
   * `getTasksByCategory`: pending tasks due today, the first five pending tasks due
   * after now, or the pending tasks due before now; any other category gives nothing.
   */
  function TasksByCategory(tasks: seq<Task>, category: string, now: int): (r: seq<Task>)
    ensures category == "today" ==> forall t :: t in r <==> t in tasks && !t.completed && IsToday(t.dueDate, now)
    ensures category == "today" ==> multiset(r) <= multiset(tasks) && |r| == CalculateStats(tasks, now).today
    ensures category == "upcoming" ==> |r| <= 5 && r <= Filter(tasks, DueAfterAt(now))
    ensures category == "upcoming" ==> |r| == if |Filter(tasks, DueAfterAt(now))| < 5 then |Filter(tasks, DueAfterAt(now))| else 5
    ensures category == "upcoming" ==> forall t :: t in r ==> t in tasks && !t.completed && t.dueDate > now
    ensures category == "overdue" ==> forall t :: t in r <==> t in tasks && !t.completed && t.dueDate < now
    ensures category == "overdue" ==> multiset(r) <= multiset(tasks) && |r| == CalculateStats(tasks, now).overdue
    ensures category !in {"today", "upcoming", "overdue"} ==> r == []
  {
    match category
    case "today" => Filter(tasks, DueTodayAt(now))
    case "upcoming" =>
      var due := Filter(tasks, DueAfterAt(now));
      if |due| < 5 then due else due[..5]
    case "overdue" => Filter(tasks, OverdueAt(now))
    case _ => []
  }

  /** No task is both in the "upcoming" and in the "overdue" list. */
  lemma UpcomingOverdueDisjoint(tasks: seq<Task>, now: int)
    ensures forall t :: t in TasksByCategory(tasks, "upcoming", now) ==> t !in TasksByCategory(tasks, "overdue", now)
  {
  }

  /** `formatDueDate`: "Today", else "Tomorrow", else the short month-day form. */
  function FormatDueDate(due: int, now: int): (r: DateLabel)
    ensures r == Today <==> DayOf(due) == DayOf(now)
    ensures r == Tomorrow <==> DayOf(due) == DayOf(now) + 1
    ensures r != Today && r != Tomorrow ==> r == ShortDate(DayOf(due))
  {
    if IsToday(due, now) then Today
    else if IsTomorrow(due, now) then Tomorrow
    else ShortDate(DayOf(due))
  }
}
