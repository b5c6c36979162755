/**
 * The task record the pages receive from the task service, the status/priority
 * filter they share, the display order they sort by, and the list updates their
 * handlers apply after a service call.
 */
module Tasks {
  import opened Base
  import opened Seqs
  import opened Clock

  datatype Priority = Low | Medium | High

  /** A task as the service returns it; dates are millisecond timestamps. */
  datatype Task = Task(
    id: int,
    title: string,
    priority: Priority,
    dueDate: int,
    completed: bool,
    completedAt: Option<int>,
    createdAt: int)

  /** What the task form submits; `dueDate` is absent when the field was left empty. */
  datatype TaskDraft = TaskDraft(title: string, priority: Priority, dueDate: Option<int>)

  function PriorityName(p: Priority): string {
    match p
    case Low => "low"
    case Medium => "medium"
    case High => "high"
  }

  /** `priorityOrder = { high: 3, medium: 2, low: 1 }` */
  function Rank(p: Priority): int {
    match p
    case High => 3
    case Medium => 2
    case Low => 1
  }

  function IsDone(): Task -> bool {
    (t: Task) => t.completed
  }

  function IsPending(): Task -> bool {
    (t: Task) => !t.completed
  }

  /**
   * `tasks.filter(t => t.completed).length`: the number of positions holding a
   * completed task; all of them exactly when every task is done.
   */
  function CompletedCount(tasks: seq<Task>): (r: nat)
    ensures r == |IndicesWhere(tasks, IsDone())|
    ensures r <= |tasks|
    ensures r == |tasks| <==> forall t :: t in tasks ==> t.completed
    ensures r == 0 <==> forall t :: t in tasks ==> !t.completed
  {
    FilterLength(tasks, IsDone());
    FilterLengthCountsIndices(tasks, IsDone());
    |Filter(tasks, IsDone())|
  }

  /** `tasks.filter(t => !t.completed).length`: the tasks not counted as completed. */
  function ActiveCount(tasks: seq<Task>): (r: nat)
    ensures r == |IndicesWhere(tasks, IsPending())|
    ensures r + CompletedCount(tasks) == |tasks|
  {
    FilterComplement(tasks, IsDone(), IsPending());
    FilterLengthCountsIndices(tasks, IsPending());
    |Filter(tasks, IsPending())|
  }

  // ---------------------------------------------------------------------------
  // The filter bar: `{ status, priority }`, each "all" or a value to match.

  datatype TaskFilter = TaskFilter(status: string, priority: string)

  predicate StatusMatch(status: string, t: Task) {
    status == "all" || (status == "active" && !t.completed) || (status == "completed" && t.completed)
  }

  predicate PriorityMatch(priority: string, t: Task) {
    priority == "all" || PriorityName(t.priority) == priority
  }

  predicate Matches(f: TaskFilter, t: Task) {
    StatusMatch(f.status, t) && PriorityMatch(f.priority, t)
  }

  function Matcher(f: TaskFilter): Task -> bool {
    (t: Task) => Matches(f, t)
  }

  /** `filteredTasks`: the tasks that match both the status and the priority selection. */
  function ApplyFilter(tasks: seq<Task>, f: TaskFilter): (r: seq<Task>)
    ensures forall t :: t in r <==> t in tasks && StatusMatch(f.status, t) && PriorityMatch(f.priority, t)
    ensures |r| <= |tasks|
  {
    Filter(tasks, Matcher(f))
  }

  /**
   * With any one priority selection, "active" and "completed" split the list: no
   * task is in both, and together they are a permutation of the tasks that match
   * the priority selection.
   */
  lemma ActiveCompletedPartition(tasks: seq<Task>, priority: string)
    ensures forall t :: t in ApplyFilter(tasks, TaskFilter("active", priority))
                        ==> t !in ApplyFilter(tasks, TaskFilter("completed", priority))
    ensures multiset(ApplyFilter(tasks, TaskFilter("active", priority)))
            + multiset(ApplyFilter(tasks, TaskFilter("completed", priority)))
            == multiset(ApplyFilter(tasks, TaskFilter("all", priority)))
  {
    var all := ApplyFilter(tasks, TaskFilter("all", priority));
    var p := (t: Task) => !t.completed;
    var q := (t: Task) => t.completed;
    FilterComplement(all, p, q);
    FilterOfFilter(tasks, Matcher(TaskFilter("all", priority)), p, Matcher(TaskFilter("active", priority)));
    FilterOfFilter(tasks, Matcher(TaskFilter("all", priority)), q, Matcher(TaskFilter("completed", priority)));
  }

  // ---------------------------------------------------------------------------
  // The display order of Today and of each Upcoming group.

  /**
   * The comparator, as written: incomplete before complete, then higher priority
   * rank first, then later creation first. Negative means a comes first.
   */
  function DisplayCompare(a: Task, b: Task): int {
    if a.completed != b.completed then (if a.completed then 1 else -1)
    else if Rank(b.priority) - Rank(a.priority) != 0 then Rank(b.priority) - Rank(a.priority)
    else b.createdAt - a.createdAt
  }

  /** The same three criteria as a lexicographic key. */
  function DisplayKey(t: Task): seq<int> {
    [if t.completed then 1 else 0, -Rank(t.priority), -t.createdAt]
  }

  /** Ordering by DisplayKey is ordering by the source's comparator. */
  lemma DisplayKeyMatchesComparator(a: Task, b: Task)
    ensures LexLeq(DisplayKey(a), DisplayKey(b)) <==> DisplayCompare(a, b) <= 0
  {
    var ka, kb := DisplayKey(a), DisplayKey(b);
    var ra, rb := ka[1..], kb[1..];
    assert ra == [-Rank(a.priority), -a.createdAt] && rb == [-Rank(b.priority), -b.createdAt];
    assert ra[1..] == [-a.createdAt] && rb[1..] == [-b.createdAt];
    assert ra[1..][1..] == [] && rb[1..][1..] == [];
    assert LexLeq(ra[1..], rb[1..]) <==> -a.createdAt <= -b.createdAt;
    assert LexLeq(ra, rb) <==> -Rank(a.priority) < -Rank(b.priority)
                               || (Rank(a.priority) == Rank(b.priority) && a.createdAt >= b.createdAt);
    assert LexLeq(ka, kb) <==> ka[0] < kb[0] || (ka[0] == kb[0] && LexLeq(ra, rb));
  }

  /** What a list sorted in display order looks like, criterion by criterion. */
  lemma DisplaySorted(s: seq<Task>, i: int, j: int)
    requires SortedBy(s, DisplayKey) && 0 <= i < j < |s|
    ensures !s[j].completed ==> !s[i].completed
    ensures s[i].completed == s[j].completed ==> Rank(s[i].priority) >= Rank(s[j].priority)
    ensures s[i].completed == s[j].completed && s[i].priority == s[j].priority
            ==> s[i].createdAt >= s[j].createdAt
  {
    DisplayKeyMatchesComparator(s[i], s[j]);
  }

  // ---------------------------------------------------------------------------
  // The completion order of the Completed page: newest completion first.

  /** `new Date(task.completedAt)` in milliseconds; `new Date(null)` is the epoch. */
  function CompletedTime(t: Task): int {
    t.completedAt.GetOr(0)
  }

  function CompletionKey(t: Task): seq<int> {
    [-CompletedTime(t)]
  }

  /** Ordering by CompletionKey is the comparator `new Date(b.completedAt) - new Date(a.completedAt)`. */
  lemma CompletionKeyMatchesComparator(a: Task, b: Task)
    ensures LexLeq(CompletionKey(a), CompletionKey(b)) <==> CompletedTime(b) - CompletedTime(a) <= 0
  {
    assert CompletionKey(a)[1..] == [];
  }

  /** The Upcoming page's group order: earliest due date first. */
  function DueKey(t: Task): seq<int> {
    [t.dueDate]
  }

  /** Ordering by DueKey is the comparator `new Date(a.dueDate) - new Date(b.dueDate)`. */
  lemma DueKeyMatchesComparator(a: Task, b: Task)
    ensures LexLeq(DueKey(a), DueKey(b)) <==> a.dueDate - b.dueDate <= 0
  {
    assert DueKey(a)[1..] == [];
  }

  // ---------------------------------------------------------------------------
  // List updates the handlers apply once the service call has succeeded.

  /** `prev.map(task => task.Id === id ? updated : task)` */
  function ReplaceById(tasks: seq<Task>, id: int, updated: Task): (r: seq<Task>)
    ensures |r| == |tasks|
    ensures forall i :: 0 <= i < |tasks| && tasks[i].id != id ==> r[i] == tasks[i]
    ensures forall i :: 0 <= i < |tasks| && tasks[i].id == id ==> r[i] == updated
  {
    if tasks == [] then []
    else [if tasks[0].id == id then updated else tasks[0]] + ReplaceById(tasks[1..], id, updated)
  }

  function IdIsNot(id: int): Task -> bool {
    (t: Task) => t.id != id
  }

  function IdIs(id: int): Task -> bool {
    (t: Task) => t.id == id
  }

  /** `prev.filter(task => task.Id !== id)` */
  function RemoveById(tasks: seq<Task>, id: int): (r: seq<Task>)
    ensures forall t :: t in r <==> t in tasks && t.id != id
    ensures multiset(r) + multiset(Filter(tasks, IdIs(id))) == multiset(tasks)
  {
    FilterComplement(tasks, IdIsNot(id), IdIs(id));
    Filter(tasks, IdIsNot(id))
  }

  /** Replacing by id leaves every other task where it was: removing that id afterwards gives the same list. */
  lemma {:induction false} ReplaceThenRemove(tasks: seq<Task>, id: int, updated: Task)
    requires updated.id == id
    ensures Filter(ReplaceById(tasks, id, updated), IdIsNot(id)) == Filter(tasks, IdIsNot(id))
  {
    if tasks != [] {
      ReplaceThenRemove(tasks[1..], id, updated);
      assert ReplaceById(tasks, id, updated)[1..] == ReplaceById(tasks[1..], id, updated);
    }
  }
}
