/** The employee's own task list (frontend/employee.js): the order tasks are
    listed in, the due-date labels and indicators, the status filter, the
    statistics, and the modal that saves progress. Dates are millisecond
    timestamps and "now" is a parameter. */
module EmployeeTasks {
  import opened Common
  import opened Tasks
  import opened Api

  /** `1000 * 60 * 60 * 24`. */
  const DayMs := 86400000

  // ---------------------------------------------------------------------------
  // List order

  /** Due dates ascend; a task without a due date comes after every dated one. */
  predicate DueNotAfter(a: Option<int>, b: Option<int>) {
    match (a, b)
    case (Some(d), Some(e)) => d <= e
    case (Some(_), None) => true
    case (None, Some(_)) => false
    case (None, None) => true
  }

  /** The order `updateTasksList` lists tasks in: incomplete before completed,
      then by due date. */
  predicate ComesBefore(a: Task, b: Task) {
    if IsCompleted(a) != IsCompleted(b) then !IsCompleted(a)
    else DueNotAfter(a.dueDate, b.dueDate)
  }

  /** The comparator passed to `sort`: its sign, or `None` where the date
      difference is `NaN` (a task without a due date). */
  function Comparator(a: Task, b: Task): (r: Option<int>)
    ensures r.None? ==> IsCompleted(a) == IsCompleted(b) && (a.dueDate.None? || b.dueDate.None?)
  {
    if IsCompleted(a) && !IsCompleted(b) then Some(1)
    else if !IsCompleted(a) && IsCompleted(b) then Some(-1)
    else if a.dueDate.Some? && b.dueDate.Some? then Some(a.dueDate.value - b.dueDate.value)
    else None
  }

  /** Wherever the comparator gives a number, the listing order is exactly
      "the comparator does not put `a` after `b`". */
  lemma ComesBeforeAgreesWithComparator(a: Task, b: Task)
    requires Comparator(a, b).Some?
    ensures ComesBefore(a, b) <==> Comparator(a, b).value <= 0
  {
  }

  /** Any two tasks can be ordered. */
  lemma ComesBeforeTotal(a: Task, b: Task)
    ensures ComesBefore(a, b) || ComesBefore(b, a)
  {
  }

  lemma ComesBeforeTransitive(a: Task, b: Task, c: Task)
    requires ComesBefore(a, b) && ComesBefore(b, c)
    ensures ComesBefore(a, c)
  {
  }

  predicate Listed(s: seq<Task>) {
    forall k, l | 0 <= k < l < |s| :: ComesBefore(s[k], s[l])
  }

  /** A listed sequence has every incomplete task before every completed one,
      and ascending due dates within each group. */
  lemma ListedGroups(s: seq<Task>)
    requires Listed(s)
    ensures forall k, l | 0 <= k < l < |s| :: IsCompleted(s[k]) ==> IsCompleted(s[l])
    ensures forall k, l | 0 <= k < l < |s| && IsCompleted(s[k]) == IsCompleted(s[l])
                          && s[k].dueDate.Some? && s[l].dueDate.Some? :: s[k].dueDate.value <= s[l].dueDate.value
  {
    forall k, l | 0 <= k < l < |s| ensures IsCompleted(s[k]) ==> IsCompleted(s[l]) {
      assert ComesBefore(s[k], s[l]);
    }
    forall k, l | 0 <= k < l < |s| && IsCompleted(s[k]) == IsCompleted(s[l])
                  && s[k].dueDate.Some? && s[l].dueDate.Some?
      ensures s[k].dueDate.value <= s[l].dueDate.value
    {
      assert ComesBefore(s[k], s[l]);
    }
  }

  // ---------------------------------------------------------------------------
  // Due dates

  /** `Math.ceil((dueDate - now) / (1000 * 60 * 60 * 24))`. */
  function DaysUntil(due: int, now: int): int {
    CeilDiv(due - now, DayMs)
  }

  /** The whole-day count rounds up: it is `n` exactly when the time left is
      more than `n - 1` days and at most `n` days. */
  lemma DaysUntilBounds(due: int, now: int)
    ensures DayMs * DaysUntil(due, now) - DayMs < due - now <= DayMs * DaysUntil(due, now)
  {
    CeilDivBounds(due - now, DayMs);
  }

  /** `isTaskDueSoon`: an incomplete dated task whose rounded-up day count is
      between 0 and 3, that is, due no more than three days from now and not
      late by a whole day or more. */
  function IsTaskDueSoon(t: Task, now: int): (r: bool)
    ensures r <==> t.dueDate.Some? && !IsCompleted(t)
                   && -DayMs < t.dueDate.value - now <= 3 * DayMs
  {
    if t.dueDate.None? || IsCompleted(t) then false
    else
      var days := DaysUntil(t.dueDate.value, now);
      DaysUntilBounds(t.dueDate.value, now);
      days >= 0 && days <= 3
  }

  /** The class and parenthesised remark `getDueDateText` gives a task. */
  datatype DueLabel =
    | NoDueDate
    | DueCompleted
    | DueOverdue(daysOverdue: nat)
    | DueToday
    | DueSoon(daysLeft: nat)
    | DueNormal(daysLeft: nat)
  {
    function ClassName(): string {
      match this
      case NoDueDate => ""
      case DueCompleted => "due-completed"
      case DueOverdue(_) => "due-overdue"
      case DueToday => "due-today"
      case DueSoon(_) => "due-soon"
      case DueNormal(_) => "due-normal"
    }

    function Remark(): string {
      match this
      case NoDueDate => "No due date"
      case DueCompleted => ""
      case DueOverdue(n) => " (" + NatToString(n) + " days overdue)"
      case DueToday => " (Due today)"
      case DueSoon(n) => " (" + NatToString(n) + " days left)"
      case DueNormal(n) => " (" + NatToString(n) + " days left)"
    }
  }

  /** `getDueDateText`: no due date, else completed, else by the rounded-up
      day count: negative is overdue, 0 is today, 1 to 3 is soon, more is
      normal. */
  function DueDateLabel(t: Task, now: int): (r: DueLabel)
    ensures r == NoDueDate <==> t.dueDate.None?
    ensures r == DueCompleted <==> t.dueDate.Some? && IsCompleted(t)
    ensures r.DueOverdue? <==> t.dueDate.Some? && !IsCompleted(t) && t.dueDate.value - now <= -DayMs
    ensures r.DueToday? <==> t.dueDate.Some? && !IsCompleted(t) && -DayMs < t.dueDate.value - now <= 0
    ensures r.DueSoon? <==> t.dueDate.Some? && !IsCompleted(t) && 0 < t.dueDate.value - now <= 3 * DayMs
    ensures r.DueNormal? <==> t.dueDate.Some? && !IsCompleted(t) && t.dueDate.value - now > 3 * DayMs
    ensures r.DueOverdue? ==> && r.daysOverdue == -DaysUntil(t.dueDate.value, now)
                              && DayMs * r.daysOverdue <= now - t.dueDate.value < DayMs * r.daysOverdue + DayMs
    ensures r.DueSoon? || r.DueNormal? ==>
              && r.daysLeft == DaysUntil(t.dueDate.value, now)
              && DayMs * r.daysLeft - DayMs < t.dueDate.value - now <= DayMs * r.daysLeft
  {
    if t.dueDate.None? then NoDueDate
    else
      var days := DaysUntil(t.dueDate.value, now);
      DaysUntilBounds(t.dueDate.value, now);
      if IsCompleted(t) then DueCompleted
      else if days < 0 then DueOverdue(-days)
      else if days == 0 then DueToday
      else if days <= 3 then DueSoon(days)
      else DueNormal(days)
  }

  /** A task due this very moment is due today; one due ten days ago is ten
      days overdue; one due in a day and a half has two days left. */
  lemma DueLabelExamples()
    ensures DueDateLabel(Task("t1", "e1", "d", "in_progress", None, Some(5000), None), 5000) == DueToday
    ensures DueDateLabel(Task("t1", "e1", "d", "in_progress", None, Some(0), None), 10 * DayMs) == DueOverdue(10)
    ensures DueDateLabel(Task("t1", "e1", "d", "in_progress", None, Some(3 * DayMs), None), DayMs + DayMs / 2) == DueSoon(2)
  {
  }

  /** The "today" and "soon" labels are exactly the tasks `isTaskDueSoon`
      reports. */
  lemma DueSoonIsTodayOrSoon(t: Task, now: int)
    ensures IsTaskDueSoon(t, now) <==> (DueDateLabel(t, now).DueToday? || DueDateLabel(t, now).DueSoon?)
  {
    if t.dueDate.Some? && !IsCompleted(t) {
      DaysUntilBounds(t.dueDate.value, now);
    }
  }

  /** A task labelled overdue is overdue; the converse fails, see below. */
  lemma OverdueLabelMeansOverdue(t: Task, now: int)
    requires DueDateLabel(t, now).DueOverdue?
    ensures IsTaskOverdue(t, now)
  {
  }

  /** A task late by less than a day is overdue, yet its rounded-up day count
      is 0 (`Math.ceil` of a small negative ratio is `-0`, which equals 0),
      so it is labelled "Due today" and counts as due soon. */
  lemma LateByLessThanADay()
    ensures var t := Task("t1", "e1", "d", "in_progress", None, Some(1000), None);
            && IsTaskOverdue(t, 1001)
            && DueDateLabel(t, 1001) == DueToday
            && IsTaskDueSoon(t, 1001)
  {
  }

  /** The class a task's card gets: completed first, then overdue, then due
      soon; at most one. */
  datatype Indicator = TaskCompleted | TaskOverdue | TaskDueSoon | NoIndicator

  function IndicatorOf(t: Task, now: int): (r: Indicator)
    ensures r == TaskCompleted <==> IsCompleted(t)
    ensures r == TaskOverdue <==> !IsCompleted(t) && IsTaskOverdue(t, now)
    ensures r == TaskDueSoon <==> !IsCompleted(t) && !IsTaskOverdue(t, now) && IsTaskDueSoon(t, now)
  {
    if IsCompleted(t) then TaskCompleted
    else if IsTaskOverdue(t, now) then TaskOverdue
    else if IsTaskDueSoon(t, now) then TaskDueSoon
    else NoIndicator
  }

  /** A card marked due soon belongs to a task not yet due and due within
      three days. */
  lemma DueSoonIndicatorNotLate(t: Task, now: int)
    requires IndicatorOf(t, now) == TaskDueSoon
    ensures t.dueDate.Some? && now <= t.dueDate.value <= now + 3 * DayMs
  {
  }

  /** An incomplete task without a due date gets no indicator. */
  lemma UndatedHasNoIndicator(t: Task, now: int)
    requires t.dueDate.None? && !IsCompleted(t)
    ensures IndicatorOf(t, now) == NoIndicator
  {
  }

  // ---------------------------------------------------------------------------
  // Filter and statistics

  /** `filterTasks(status)`: all tasks for an empty status, otherwise the tasks
      with exactly that status, in list order (`WithStatusConcat`). */
  function FilterTasks(tasks: seq<Task>, status: string): (r: seq<Task>)
    ensures status == "" ==> r == tasks
    ensures status != "" ==> forall t :: t in r <==> t in tasks && t.status == status
    ensures |r| <= |tasks|
  {
    if status == "" then tasks else WithStatus(tasks, status)
  }

  function WithStatus(tasks: seq<Task>, status: string): (r: seq<Task>)
    ensures forall t :: t in r <==> t in tasks && t.status == status
    ensures |r| <= |tasks|
  {
    if |tasks| == 0 then []
    else
      var last := tasks[|tasks| - 1];
      assert forall t :: t in tasks <==> t in tasks[..|tasks| - 1] || t == last by {
        assert tasks == tasks[..|tasks| - 1] + [last];
      }
      WithStatus(tasks[..|tasks| - 1], status) + (if last.status == status then [last] else [])
  }

  /** The status filter keeps list order: filtering a concatenation is the
      concatenation of the filtered parts. */
  lemma {:induction false} WithStatusConcat(a: seq<Task>, b: seq<Task>, status: string)
    ensures WithStatus(a + b, status) == WithStatus(a, status) + WithStatus(b, status)
    decreases |b|
  {
    if |b| == 0 {
      assert a + b == a;
    } else {
      assert (a + b)[..|a + b| - 1] == a + b[..|b| - 1];
      WithStatusConcat(a, b[..|b| - 1], status);
    }
  }

  /** Filtering by a status shows as many tasks as the statistics count with
      that status. */
  lemma {:induction false} FilterCountsStatus(tasks: seq<Task>, status: string)
    ensures |WithStatus(tasks, status)| == CountStatus(tasks, {status})
  {
    if |tasks| > 0 {
      FilterCountsStatus(tasks[..|tasks| - 1], status);
    }
  }

  /** The three figures of `updateTaskStatistics`. */
  datatype Statistics = Statistics(assignedCount: nat, inProgress: nat, completed: nat)

  /** Only `in_progress` counts as in progress here (the supervisor dashboard
      also accepts `in-progress`). */
  function TaskStatistics(tasks: seq<Task>): (r: Statistics)
    ensures r.assignedCount == |tasks|
    ensures r.inProgress + r.completed <= r.assignedCount
    ensures r.inProgress == |FilterTasks(tasks, "in_progress")|
    ensures r.completed == |FilterTasks(tasks, "completed")|
  {
    CountStatusUnion(tasks, {"in_progress"}, {"completed"});
    FilterCountsStatus(tasks, "in_progress");
    FilterCountsStatus(tasks, "completed");
    Statistics(|tasks|, CountStatus(tasks, {"in_progress"}), CountStatus(tasks, {"completed"}))
  }

  // ---------------------------------------------------------------------------
  // Saving progress

  /** `Math.abs`. */
  function Abs(x: int): nat {
    if x < 0 then -x else x
  }

  /** `shouldCreateProgressEntry`: the progress moved by 5 points or more
      (a task without progress counts as 0), the trimmed notes are not empty,
      or the status changed. */
  predicate ShouldCreateProgressEntry(current: Task, progress: int, notes: string, status: string) {
    Abs(ProgressOf(current) - progress) >= 5 || Trim(notes) != "" || current.status != status
  }

  /** Saving what the modal was opened with, with no notes, records nothing;
      nor does a nudge of less than 5 points. */
  lemma SmallChangeRecordsNothing(current: Task, progress: int, notes: string)
    requires -5 < progress - ProgressOf(current) < 5 && IsBlank(notes)
    ensures !ShouldCreateProgressEntry(current, progress, notes, current.status)
  {
  }

  /** A changed status or a note always leaves an entry, whatever the
      progress. */
  lemma StatusChangeOrNoteRecords(current: Task, progress: int, notes: string, status: string)
    requires status != current.status || !IsBlank(notes)
    ensures ShouldCreateProgressEntry(current, progress, notes, status)
  {
  }

  /** The properties `saveTaskDetails` sends to update a task. */
  function UpdateData(progress: int, status: string, stamp: string): Obj<Scalar> {
    [("progress", Num(progress)), ("status", Str(status)), ("lastUpdate", Str(stamp))]
  }

  /** The progress entry `saveTaskDetails` adds. */
  function ProgressData(task: Task, employeeId: Scalar, progress: int, notes: string, status: string,
                        stamp: string): Obj<Scalar> {
    [("taskId", Str(task.id)), ("employeeId", employeeId), ("progress", Num(progress)),
     ("notes", Str(Trim(notes))), ("status", Str(status)), ("createdAt", Str(stamp))]
  }

  /** The entry's keys are distinct, so the task and the status read back. */
  lemma ProgressDataFields(task: Task, employeeId: Scalar, progress: int, notes: string, status: string,
                           stamp: string)
    ensures var data := ProgressData(task, employeeId, progress, notes, status, stamp);
            && Get(data, "taskId") == Some(Str(task.id))
            && Get(data, "status") == Some(Str(status))
  {
    EntryKeys(Str(task.id), employeeId, Num(progress), Str(Trim(notes)), Str(status), Str(stamp));
  }

  lemma EntryKeys(a: Scalar, b: Scalar, c: Scalar, d: Scalar, e: Scalar, f: Scalar)
    ensures var data := [("taskId", a), ("employeeId", b), ("progress", c), ("notes", d), ("status", e),
                         ("createdAt", f)];
            Get(data, "taskId") == Some(a) && Get(data, "status") == Some(e)
  {
    var data := [("taskId", a), ("employeeId", b), ("progress", c), ("notes", d), ("status", e), ("createdAt", f)];
    GetAt(data, 0);
    assert "taskId"[0] != "status"[0];
    GetAt(data, 4);
  }

  /** What one save of the modal did: nothing selected, the user declined to
      complete a task below 100%, the update failed, or the update went
      through, followed by a progress entry when one was due. */
  datatype SaveOutcome =
    | NoTaskSelected
    | Declined
    | UpdateFailed(update: Request)
    | ProgressFailed(update: Request, failedEntry: Request)
    | Updated(update: Request, progressEntry: Option<Request>, reloadError: Option<string>)
  {
    /** The error or success notification shown. */
    function Message(): string {
      match this
      case NoTaskSelected => "No task selected"
      case Declined => ""
      case UpdateFailed(_) => SaveFailedMessage
      case ProgressFailed(_, _) => SaveFailedMessage
      case Updated(_, _, _) => "Task updated successfully"
    }
  }

  const SaveFailedMessage := "Failed to update task. Please try again."

  /** `api.Progress.add(data)` sends `data` as the `addProgress` action. */
  lemma ProgressAddRequest(data: Obj<Scalar>)
    ensures FacadeRequest(ProgressAdd(data)) == Request("addProgress", data)
  {
  }

  /** The progress entry a save adds, when one is due. */
  function ProgressEntry(task: Task, employeeId: Scalar, progress: int, notes: string, status: string,
                         stamp: string): (r: Option<Request>)
    ensures r.Some? <==> ShouldCreateProgressEntry(task, progress, notes, status)
    ensures r.Some? ==> r.value.action == "addProgress"
                        && Get(r.value.data, "taskId") == Some(Str(task.id))
                        && Get(r.value.data, "status") == Some(Str(status))
  {
    if ShouldCreateProgressEntry(task, progress, notes, status) then
      var data := ProgressData(task, employeeId, progress, notes, status, stamp);
      ProgressDataFields(task, employeeId, progress, notes, status, stamp);
      ProgressAddRequest(data);
      Some(FacadeRequest(ProgressAdd(data)))
    else None
  }

  /** The progress call aborts the save when it throws, or when it answers
      `null` (reading `.error` of `null` throws); a falsy `success` is only
      logged. */
  predicate ProgressCallThrows<P>(c: CallResult<P>) {
    c.Threw? || c.reply.NullReply?
  }

  const LoadFailedMessage := "Failed to load your tasks. Please try again."

  /** A load answer is used when it succeeded and its data is not an object. */
  predicate LoadSucceeds(result: CallResult<Task>) {
    Succeeded(result) && !result.reply.data.Fields?
  }

  /** The tasks a used load answer carries: none when `data` is missing. */
  function LoadedItems(result: CallResult<Task>): seq<Task>
    requires LoadSucceeds(result)
  {
    if result.reply.data.Items? then result.reply.data.items else []
  }

  // ---------------------------------------------------------------------------
  // The screen's state

  /** The employee screen's task list and whichever task is open in the modal. */
  class EmployeeTaskManager {
    var tasks: array<Task>
    var currentEditingTask: Option<Task>

    constructor ()
      ensures tasks.Length == 0 && currentEditingTask == None
    {
      tasks := new Task[0];
      currentEditingTask := None;
    }

    /** The sort in `updateTasksList`, in place: afterwards the same tasks are
        listed incomplete first, then by due date. */
    /** One step of the insertion: swapping the inserted task with a
        predecessor that should follow it keeps every other pair up to `i`
        in listing order and keeps the same tasks. */
    static lemma SwapStep(s: seq<Task>, i: int, j: int)
      requires 0 < j <= i < |s|
      requires forall k, l | 0 <= k < l <= i && l != j :: ComesBefore(s[k], s[l])
      requires !ComesBefore(s[j - 1], s[j])
      ensures var t := s[j - 1 := s[j]][j := s[j - 1]];
              && (forall k, l | 0 <= k < l <= i && l != j - 1 :: ComesBefore(t[k], t[l]))
              && multiset(t) == multiset(s)
    {
      ComesBeforeTotal(s[j - 1], s[j]);
    }

    method SortTasks()
      modifies tasks
      ensures Listed(tasks[..])
      ensures multiset(tasks[..]) == multiset(old(tasks[..]))
    {
      var a := tasks;
      var i := 0;
      while i < a.Length
        invariant 0 <= i <= a.Length
        invariant forall k, l | 0 <= k < l < i :: ComesBefore(a[k], a[l])
        invariant multiset(a[..]) == multiset(old(a[..]))
      {
        var j := i;
        while j > 0 && !ComesBefore(a[j - 1], a[j])
          invariant 0 <= j <= i
          invariant forall k, l | 0 <= k < l <= i && l != j :: ComesBefore(a[k], a[l])
          invariant multiset(a[..]) == multiset(old(a[..]))
        {
          ghost var before := a[..];
          SwapStep(before, i, j);
          a[j - 1], a[j] := a[j], a[j - 1];
          assert a[..] == before[j - 1 := before[j]][j := before[j - 1]];
          j := j - 1;
        }
        forall k | 0 <= k < j ensures ComesBefore(a[k], a[j]) {
          ComesBeforeTransitive(a[k], a[j - 1], a[j]);
        }
        i := i + 1;
      }
    }

    /** `updateTasksList`: without the list container, or with no tasks,
        nothing is reordered; otherwise the tasks are sorted in place. */
    method UpdateTasksList(containerPresent: bool)
      modifies tasks
      ensures multiset(tasks[..]) == multiset(old(tasks[..]))
      ensures containerPresent ==> Listed(tasks[..])
      ensures !containerPresent ==> tasks[..] == old(tasks[..])
    {
      if !containerPresent || tasks.Length == 0 {
        return;
      }
      SortTasks();
    }

    /** The loading step of `loadEmployeeTasks`: a successful answer
        replaces the list with its data (none counts as empty) and lists it;
        anything else shows the load error and keeps the list. */
    method LoadEmployeeTasks(result: CallResult<Task>, containerPresent: bool) returns (error: Option<string>)
      modifies this
      ensures currentEditingTask == old(currentEditingTask)
      ensures error.None? <==> LoadSucceeds(result)
      ensures error.Some? ==> error == Some(LoadFailedMessage) && tasks == old(tasks)
      ensures error.None? ==> fresh(tasks)
                              && multiset(tasks[..]) == multiset(LoadedItems(result))
                              && (containerPresent ==> Listed(tasks[..]))
                              && (!containerPresent ==> tasks[..] == LoadedItems(result))
    {
      if !Succeeded(result) || result.reply.data.Fields? {
        return Some(LoadFailedMessage);
      }
      var loaded := if result.reply.data.Items? then result.reply.data.items else [];
      tasks := new Task[|loaded|](i requires 0 <= i < |loaded| => loaded[i]);
      assert tasks[..] == loaded;
      UpdateTasksList(containerPresent);
      error := None;
    }

    /** `openTaskModal`: a task becomes the one being edited once its
        progress history has been read; a failed or empty read shows "Failed
        to load task details" and keeps the previous one. */
    method OpenTaskModal<P>(task: Task, history: CallResult<P>) returns (error: Option<string>)
      modifies this
      ensures tasks == old(tasks)
      ensures history.Threw? || history.reply.NullReply? ==>
                error == Some("Failed to load task details") && currentEditingTask == old(currentEditingTask)
      ensures history.Returned? && !history.reply.NullReply? ==>
                error == None && currentEditingTask == Some(task)
    {
      if history.Threw? || history.reply.NullReply? {
        return Some("Failed to load task details");
      }
      currentEditingTask := Some(task);
      error := None;
    }

    /** `closeTaskModal`. */
    method CloseTaskModal()
      modifies this
      ensures tasks == old(tasks) && currentEditingTask == None
    {
      currentEditingTask := None;
    }

    /** `saveTaskDetails` with the modal's progress, status and notes, the
        user's answer to the completion prompt, the signed-in employee's id,
        the current time, and the answers to the update, to the progress
        entry and to the reload that follows. With no task open it only
        reports; completing a task below 100% needs confirmation; a failed
        update, or a progress call that throws, reports the failure and keeps
        the modal open; otherwise the modal closes and the list is reloaded
        through `loadEmployeeTasks`. */
    method SaveTaskDetails<P>(progress: int, status: string, notes: string, confirmed: bool,
                              employeeId: Scalar, stamp: string, updateResult: CallResult<Task>,
                              progressResult: CallResult<P>, reloadResult: CallResult<Task>,
                              containerPresent: bool)
      returns (outcome: SaveOutcome)
      modifies this
      ensures old(currentEditingTask).None? ==>
                outcome == NoTaskSelected && currentEditingTask == None && tasks == old(tasks)
      ensures old(currentEditingTask).Some? ==>
                var task := old(currentEditingTask).value;
                var update := FacadeRequest(TaskUpdate(Str(task.id), UpdateData(progress, status, stamp)));
                var entry := ProgressEntry(task, employeeId, progress, notes, status, stamp);
                if status == "completed" && progress < 100 && !confirmed then
                  outcome == Declined && currentEditingTask == old(currentEditingTask) && tasks == old(tasks)
                else if !Succeeded(updateResult) then
                  outcome == UpdateFailed(update) && currentEditingTask == old(currentEditingTask) && tasks == old(tasks)
                else if entry.Some? && ProgressCallThrows(progressResult) then
                  && outcome == ProgressFailed(update, entry.value)
                  && currentEditingTask == old(currentEditingTask) && tasks == old(tasks)
                else
                  && currentEditingTask == None
                  && outcome == Updated(update, entry, if LoadSucceeds(reloadResult) then None else Some(LoadFailedMessage))
                  && (!LoadSucceeds(reloadResult) ==> tasks == old(tasks))
                  && (LoadSucceeds(reloadResult) ==>
                        && fresh(tasks) && multiset(tasks[..]) == multiset(LoadedItems(reloadResult))
                        && (containerPresent ==> Listed(tasks[..]))
                        && (!containerPresent ==> tasks[..] == LoadedItems(reloadResult)))
    {
      if currentEditingTask.None? {
        return NoTaskSelected;
      }
      var task := currentEditingTask.value;
      if status == "completed" && progress < 100 && !confirmed {
        return Declined;
      }
      var update := FacadeRequest(TaskUpdate(Str(task.id), UpdateData(progress, status, stamp)));
      if !Succeeded(updateResult) {
        return UpdateFailed(update);
      }
      var entry := ProgressEntry(task, employeeId, progress, notes, status, stamp);
      if entry.Some? && ProgressCallThrows(progressResult) {
        return ProgressFailed(update, entry.value);
      }
      CloseTaskModal();
      var reloadError := LoadEmployeeTasks(reloadResult, containerPresent);
      outcome := Updated(update, entry, reloadError);
    }
  }
}
