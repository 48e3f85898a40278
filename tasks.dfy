/** The records of tasks and employees the three screens share, and the helpers
    several screens define identically: `formatStatus` (frontend/admin.js,
    frontend/dashboard.js and frontend/employee.js), `truncateText`
    (frontend/admin.js and frontend/dashboard.js) and `isTaskOverdue`
    (frontend/dashboard.js and frontend/employee.js). Dates are millisecond
    timestamps; a missing or empty date is `None`. */
module Tasks {
  import opened Common

  datatype Task = Task(
    id: string,
    employeeId: string,
    description: string,
    status: string,
    progress: Option<int>,
    dueDate: Option<int>,
    updatedAt: Option<int>)

  datatype Employee = Employee(id: string, name: string, email: string, role: string)

  /** `task.progress || 0`. */
  function ProgressOf(t: Task): int {
    t.progress.GetOr(0)
  }

  predicate IsCompleted(t: Task) {
    t.status == "completed"
  }

  /** `isTaskOverdue`: a dated task that is not completed and whose due time
      lies strictly before now. */
  predicate IsTaskOverdue(t: Task, now: int) {
    t.dueDate.Some? && !IsCompleted(t) && t.dueDate.value < now
  }

  /** `formatStatus`: the three known statuses get their display name; any other
      value is shown as it is. */
  function FormatStatus(status: string): (r: string)
    ensures status == "not_started" ==> r == "Not Started"
    ensures status == "in_progress" ==> r == "In Progress"
    ensures status == "completed" ==> r == "Completed"
    ensures status !in {"not_started", "in_progress", "completed"} ==> r == status
  {
    if status == "not_started" then "Not Started"
    else if status == "in_progress" then "In Progress"
    else if status == "completed" then "Completed"
    else status
  }

  /** Display names are not keys themselves, so formatting twice changes
      nothing. */
  lemma FormatStatusIdempotent(status: string)
    ensures FormatStatus(FormatStatus(status)) == FormatStatus(status)
  {
  }

  /** `truncateText(text, maxLength)`: the text itself when it fits, otherwise
      its first `maxLength` characters followed by "..." (`substring` treats a
      negative length as 0). */
  function TruncateText(text: string, maxLength: int): (r: string)
    ensures |text| <= maxLength ==> r == text
    ensures |text| > maxLength ==> |r| == (if maxLength < 0 then 0 else maxLength) + 3
                                   && r[|r| - 3..] == "..."
                                   && text[..|r| - 3] == r[..|r| - 3]
  {
    if |text| <= maxLength then text
    else text[..if maxLength < 0 then 0 else maxLength] + "..."
  }

  /** A truncated text never exceeds the limit by more than the ellipsis, and
      what is shown of it is a prefix of the original. */
  lemma TruncateTextPrefix(text: string, maxLength: nat)
    ensures |TruncateText(text, maxLength)| <= maxLength + 3
    ensures var r := TruncateText(text, maxLength);
            exists n | 0 <= n <= |r| && n <= |text| :: r[..n] == text[..n] && (n == |r| || r[n..] == "...")
  {
    var r := TruncateText(text, maxLength);
    if |text| <= maxLength {
      assert r[..|r|] == text[..|r|];
    } else {
      assert r[..maxLength] == text[..maxLength] && r[maxLength..] == "...";
    }
  }

  /** The number of tasks whose status is one of `statuses`. */
  function CountStatus(tasks: seq<Task>, statuses: set<string>): (r: nat)
    ensures r <= |tasks|
  {
    if |tasks| == 0 then 0
    else CountStatus(tasks[..|tasks| - 1], statuses) + (if tasks[|tasks| - 1].status in statuses then 1 else 0)
  }

  /** The number of overdue tasks. */
  function CountOverdue(tasks: seq<Task>, now: int): (r: nat)
    ensures r <= |tasks|
  {
    if |tasks| == 0 then 0
    else CountOverdue(tasks[..|tasks| - 1], now) + (if IsTaskOverdue(tasks[|tasks| - 1], now) then 1 else 0)
  }

  /** Counting over disjoint status sets adds up. */
  lemma {:induction false} CountStatusUnion(tasks: seq<Task>, a: set<string>, b: set<string>)
    requires a !! b
    ensures CountStatus(tasks, a) + CountStatus(tasks, b) == CountStatus(tasks, a + b)
  {
    if |tasks| > 0 {
      CountStatusUnion(tasks[..|tasks| - 1], a, b);
    }
  }

  /** Completed tasks are never overdue, so the two counts fit in the total. */
  lemma {:induction false} CompletedAndOverdueDisjoint(tasks: seq<Task>, now: int)
    ensures CountStatus(tasks, {"completed"}) + CountOverdue(tasks, now) <= |tasks|
  {
    if |tasks| > 0 {
      CompletedAndOverdueDisjoint(tasks[..|tasks| - 1], now);
    }
  }

  /** When every task has a status in the set, all are counted. */
  lemma {:induction false} CountStatusAll(tasks: seq<Task>, statuses: set<string>)
    requires forall i | 0 <= i < |tasks| :: tasks[i].status in statuses
    ensures CountStatus(tasks, statuses) == |tasks|
  {
    if |tasks| > 0 {
      CountStatusAll(tasks[..|tasks| - 1], statuses);
    }
  }

  /** When every task is completed, none is overdue. */
  lemma {:induction false} NoOverdueWhenAllCompleted(tasks: seq<Task>, now: int)
    requires forall i | 0 <= i < |tasks| :: IsCompleted(tasks[i])
    ensures CountOverdue(tasks, now) == 0
  {
    if |tasks| > 0 {
      NoOverdueWhenAllCompleted(tasks[..|tasks| - 1], now);
    }
  }

  /** The tasks assigned to one employee, in their original order. */
  function TasksOf(tasks: seq<Task>, employeeId: string): (r: seq<Task>)
    ensures |r| <= |tasks|
    ensures forall t :: t in r <==> t in tasks && t.employeeId == employeeId
  {
    if |tasks| == 0 then []
    else
      var last := tasks[|tasks| - 1];
      var init := TasksOf(tasks[..|tasks| - 1], employeeId);
      assert forall t :: t in tasks <==> t in tasks[..|tasks| - 1] || t == last by {
        assert tasks == tasks[..|tasks| - 1] + [last];
      }
      init + (if last.employeeId == employeeId then [last] else [])
  }

  /** Filtering keeps relative order: it distributes over concatenation. */
  lemma {:induction false} TasksOfConcat(a: seq<Task>, b: seq<Task>, employeeId: string)
    ensures TasksOf(a + b, employeeId) == TasksOf(a, employeeId) + TasksOf(b, employeeId)
    decreases |b|
  {
    if |b| == 0 {
      assert a + b == a;
    } else {
      assert (a + b)[..|a + b| - 1] == a + b[..|b| - 1];
      TasksOfConcat(a, b[..|b| - 1], employeeId);
    }
  }
}
