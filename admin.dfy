/** The admin panel (frontend/admin.js): the e-mail pattern, the ordered form
    validation of the add-task, add-employee and update-employee forms, the
    task edit state, and the confirmation shown before deleting an employee.
    A form submission either shows an error or sends one request; the request
    is the facade call's action and data. */
module Admin {
  import opened Common
  import opened Tasks
  import opened Api

  // ---------------------------------------------------------------------------
  // isValidEmail

  /** The first index of c in s, or -1. */
  function IndexOf(s: string, c: char): (r: int)
    ensures -1 <= r < |s|
    ensures r == -1 <==> c !in s
    ensures r >= 0 ==> s[r] == c && c !in s[..r]
  {
    if |s| == 0 then -1
    else if s[0] == c then 0
    else
      var k := IndexOf(s[1..], c);
      assert s[1..] == s[..|s|][1..];
      if k == -1 then -1
      else
        assert s[..k + 1] == [s[0]] + s[1..][..k];
        k + 1
  }

  /** `[^\s@]+`: a non-empty run without white space or '@'. */
  predicate Plain(s: string) {
    |s| > 0 && NoSpace(s) && '@' !in s
  }

  /** The regular expression `^[^\s@]+@[^\s@]+\.[^\s@]+$`, read as the
      positions of the '@' and of the '.' that split the address into three
      plain runs. */
  predicate MatchesEmailPattern(s: string) {
    exists i, j | 0 <= i < j < |s| ::
      s[i] == '@' && s[j] == '.' && Plain(s[..i]) && Plain(s[i + 1..j]) && Plain(s[j + 1..])
  }

  /** `isValidEmail`: no white space anywhere, a non-empty local part before
      the only '@', and after it a '.' with text on both sides. */
  predicate IsValidEmail(s: string) {
    var at := IndexOf(s, '@');
    NoSpace(s) && at > 0 && '@' !in s[at + 1..] && HasInnerDot(s[at + 1..])
  }

  /** A '.' that is neither the first nor the last character. */
  predicate HasInnerDot(d: string) {
    |d| >= 3 && '.' in d[1..|d| - 1]
  }

  /** The scanning definition accepts exactly the strings the pattern matches. */
  lemma IsValidEmailMatchesPattern(s: string)
    ensures IsValidEmail(s) <==> MatchesEmailPattern(s)
  {
    if IsValidEmail(s) {
      ValidEmailMatches(s);
    }
    if MatchesEmailPattern(s) {
      var i, j :| 0 <= i < j < |s| && s[i] == '@' && s[j] == '.' && Plain(s[..i])
                  && Plain(s[i + 1..j]) && Plain(s[j + 1..]);
      MatchedEmailIsValid(s, i, j);
    }
  }

  lemma ValidEmailMatches(s: string)
    requires IsValidEmail(s)
    ensures MatchesEmailPattern(s)
  {
    var i := IndexOf(s, '@');
    var d := s[i + 1..];
    var k :| 1 <= k < |d| - 1 && d[k] == '.' by {
      var m :| 0 <= m < |d[1..|d| - 1]| && d[1..|d| - 1][m] == '.';
      assert d[m + 1] == '.';
    }
    var j := i + 1 + k;
    assert s[j] == '.';
    NoSpaceSlice(s, 0, i);
    NoSpaceSlice(s, i + 1, j);
    NoSpaceSlice(s, j + 1, |s|);
    assert s[i + 1..j] == d[..k] && s[j + 1..] == d[k + 1..];
    assert s[..i] == s[0..i] && s[j + 1..] == s[j + 1..|s|];
    assert Plain(s[..i]) && Plain(s[i + 1..j]) && Plain(s[j + 1..]);
  }

  lemma MatchedEmailIsValid(s: string, i: int, j: int)
    requires 0 <= i < j < |s| && s[i] == '@' && s[j] == '.'
    requires Plain(s[..i]) && Plain(s[i + 1..j]) && Plain(s[j + 1..])
    ensures IsValidEmail(s)
  {
    assert s == s[..i] + [s[i]] + s[i + 1..j] + [s[j]] + s[j + 1..];
    assert IndexOf(s, '@') == i by {
      var at := IndexOf(s, '@');
      assert s[i] in s;
      forall m | 0 <= m < i ensures s[m] != '@' {
        assert s[..i][m] == s[m];
      }
      forall m | 0 <= m < at ensures s[m] != '@' {
        assert s[..at][m] == s[m];
      }
    }
    var d := s[i + 1..];
    assert d == s[i + 1..j] + [s[j]] + s[j + 1..];
    forall m | 0 <= m < |s| ensures !IsSpace(s[m]) {
      if m < i {
        assert s[..i][m] == s[m];
      } else if i < m < j {
        assert s[i + 1..j][m - i - 1] == s[m];
      } else if j < m {
        assert s[j + 1..][m - j - 1] == s[m];
      }
    }
    assert '@' !in d by {
      forall m | 0 <= m < |d| ensures d[m] != '@' {
        if m < j - i - 1 {
          assert d[m] == s[i + 1..j][m];
        } else if m > j - i - 1 {
          assert d[m] == s[j + 1..][m - (j - i)];
        }
      }
    }
    assert d[1..|d| - 1][j - i - 2] == '.';
  }

  /** A few addresses the form accepts and rejects. */
  lemma EmailExamples()
    ensures IsValidEmail("a@b.c")
    ensures !IsValidEmail("a@b")
    ensures !IsValidEmail("@b.c")
    ensures !IsValidEmail("a@@b.c")
    ensures !IsValidEmail("a b@c.d")
  {
    MatchedEmailIsValid("a@b.c", 1, 3);
    assert IndexOf("a@@b.c", '@') == 1;
    assert "a@@b.c"[2..][0] == '@';
    assert IsSpace("a b@c.d"[1]);
  }

  // ---------------------------------------------------------------------------
  // Form validation

  /** What submitting a form leads to: an error shown and nothing sent, or
      exactly one request. */
  datatype Submission = Rejected(message: string) | Sends(request: Request)

  /** The fields of the add-task form. */
  datatype TaskForm = TaskForm(description: string, dueDate: string, employeeId: string)

  /** The new task as `handleAddTask` sends it. */
  function NewTaskData(form: TaskForm, createdBy: Scalar, createdAt: string): Obj<Scalar> {
    [("description", Str(form.description)), ("dueDate", Str(form.dueDate)),
     ("employeeId", Str(form.employeeId)), ("status", Str("not_started")), ("progress", Num(0)),
     ("createdBy", createdBy), ("createdAt", Str(createdAt))]
  }

  /** `handleAddTask`: a blank description, then a missing due date, then a
      missing employee are rejected; otherwise a task is added as not started
      with no progress, by the current user (`createdBy`) at `createdAt`. */
  function HandleAddTask(form: TaskForm, createdBy: Scalar, createdAt: string): (r: Submission)
    ensures r.Rejected? <==> IsBlank(form.description) || form.dueDate == "" || form.employeeId == ""
    ensures r.Sends? ==> r.request == Request("addTask", NewTaskData(form, createdBy, createdAt))
  {
    if IsBlank(form.description) then Rejected("Task description is required")
    else if form.dueDate == "" then Rejected("Due date is required")
    else if form.employeeId == "" then Rejected("Please select an employee")
    else
      Sends(FacadeRequest(TaskAdd(NewTaskData(form, createdBy, createdAt))))
  }

  /** The checks run in order: the first failing one decides the message. */
  lemma AddTaskRejectionOrder(form: TaskForm, createdBy: Scalar, createdAt: string)
    ensures var r := HandleAddTask(form, createdBy, createdAt);
            && (IsBlank(form.description) ==> r == Rejected("Task description is required"))
            && (!IsBlank(form.description) && form.dueDate == "" ==> r == Rejected("Due date is required"))
            && (!IsBlank(form.description) && form.dueDate != "" && form.employeeId == ""
                ==> r == Rejected("Please select an employee"))
  {
  }

  /** A task that is sent is always new: not started and at 0% progress, with
      the description, due date and employee as entered. */
  lemma NewTaskNotStarted(form: TaskForm, createdBy: Scalar, createdAt: string)
    requires HandleAddTask(form, createdBy, createdAt).Sends?
    ensures var data := HandleAddTask(form, createdBy, createdAt).request.data;
            && Get(data, "status") == Some(Str("not_started"))
            && Get(data, "progress") == Some(Num(0))
            && Get(data, "description") == Some(Str(form.description))
            && Get(data, "employeeId") == Some(Str(form.employeeId))
  {
    NewTaskDataFields(form, createdBy, createdAt);
  }

  /** The keys of the new task are distinct, so each reads back its value. */
  lemma NewTaskDataFields(form: TaskForm, createdBy: Scalar, createdAt: string)
    ensures var data := NewTaskData(form, createdBy, createdAt);
            && Get(data, "status") == Some(Str("not_started"))
            && Get(data, "progress") == Some(Num(0))
            && Get(data, "description") == Some(Str(form.description))
            && Get(data, "employeeId") == Some(Str(form.employeeId))
  {
    var data := NewTaskData(form, createdBy, createdAt);
    GetAt(data, 0);
    assert |data[0].0| != |data[2].0| && |data[1].0| != |data[2].0|;
    GetAt(data, 2);
    assert |data[0].0| != |data[3].0| && |data[1].0| != |data[3].0| && |data[2].0| != |data[3].0|;
    GetAt(data, 3);
    assert |data[0].0| != |data[4].0| && |data[1].0| != |data[4].0| && |data[2].0| != |data[4].0|;
    assert |data[3].0| != |data[4].0|;
    GetAt(data, 4);
  }

  /** The fields of the add-employee and edit-employee forms. */
  datatype EmployeeForm = EmployeeForm(name: string, email: string, role: string)

  /** `this.employees.some(emp => emp.email.toLowerCase() === email.toLowerCase())`. */
  predicate EmailTaken(employees: seq<Employee>, email: string) {
    exists i | 0 <= i < |employees| :: SameIgnoringCase(employees[i].email, email)
  }

  function EmployeeData(form: EmployeeForm, stampKey: string, stamp: string): Obj<Scalar> {
    [("name", Str(form.name)), ("email", Str(form.email)), ("role", Str(form.role)), (stampKey, Str(stamp))]
  }

  /** `handleAddEmployee`: a blank name, a blank e-mail, an invalid e-mail and
      an e-mail already used by a loaded employee (ignoring case) are rejected,
      in that order. */
  function HandleAddEmployee(form: EmployeeForm, employees: seq<Employee>, createdAt: string): (r: Submission)
    ensures r.Rejected? <==> IsBlank(form.name) || IsBlank(form.email) || !IsValidEmail(form.email)
                             || EmailTaken(employees, form.email)
    ensures r.Sends? ==> r.request == Request("addEmployee", EmployeeData(form, "createdAt", createdAt))
  {
    if IsBlank(form.name) then Rejected("Employee name is required")
    else if IsBlank(form.email) then Rejected("Employee email is required")
    else if !IsValidEmail(form.email) then Rejected("Please enter a valid email address")
    else if EmailTaken(employees, form.email) then Rejected("An employee with this email already exists")
    else Sends(FacadeRequest(EmployeeAdd(EmployeeData(form, "createdAt", createdAt))))
  }

  /** `updateEmployee`: a blank name and an invalid e-mail are rejected; the
      update is sent under the employee's id. */
  function UpdateEmployee(employeeId: string, form: EmployeeForm, updatedAt: string): (r: Submission)
    ensures r.Rejected? <==> IsBlank(form.name) || !IsValidEmail(form.email)
    ensures r.Sends? ==> r.request.action == "updateEmployee"
  {
    if IsBlank(form.name) then Rejected("Employee name is required")
    else if !IsValidEmail(form.email) then Rejected("Please enter a valid email address")
    else Sends(FacadeRequest(EmployeeUpdate(Str(employeeId), EmployeeData(form, "updatedAt", updatedAt))))
  }

  /** An accepted edit sends the employee's id and the edited fields. */
  lemma UpdateEmployeeRequest(employeeId: string, form: EmployeeForm, updatedAt: string)
    requires UpdateEmployee(employeeId, form, updatedAt).Sends?
    ensures var data := UpdateEmployee(employeeId, form, updatedAt).request.data;
            && Get(data, "employeeId") == Some(Str(employeeId))
            && Get(data, "email") == Some(Str(form.email))
            && Get(data, "name") == Some(Str(form.name))
  {
    var data := EmployeeData(form, "updatedAt", updatedAt);
    EditedEmployeeFields(form, updatedAt);
    WithIdFields("employeeId", Str(employeeId), data, "employeeId");
    WithIdFields("employeeId", Str(employeeId), data, "email");
    WithIdFields("employeeId", Str(employeeId), data, "name");
  }

  /** The edited fields have distinct keys, none of them `employeeId`, and
      read back as entered. */
  lemma EditedEmployeeFields(form: EmployeeForm, updatedAt: string)
    ensures var data := EmployeeData(form, "updatedAt", updatedAt);
            && UniqueKeys(data) && !HasKey(data, "employeeId")
            && Get(data, "email") == Some(Str(form.email))
            && Get(data, "name") == Some(Str(form.name))
  {
    var data := EmployeeData(form, "updatedAt", updatedAt);
    assert data[0].0[0] != data[2].0[0];
    assert UniqueKeys(data);
    assert forall i | 0 <= i < |data| :: |data[i].0| != |"employeeId"|;
    GetAt(data, 0);
    GetAt(data, 1);
  }

  /** A valid e-mail is never blank. */
  lemma ValidEmailNotBlank(email: string)
    requires IsValidEmail(email)
    ensures !IsBlank(email)
  {
    BlankIffAllSpace(email);
    assert !IsSpace(email[0]);
  }

  /** The duplicate check exists only when adding: an e-mail that a loaded
      employee already has (in any letter case) is refused by the add form but
      sent by the edit form. */
  lemma UpdateAllowsDuplicateEmail(form: EmployeeForm, employees: seq<Employee>, employeeId: string,
                                   stamp: string)
    requires !IsBlank(form.name) && IsValidEmail(form.email) && EmailTaken(employees, form.email)
    ensures HandleAddEmployee(form, employees, stamp) == Rejected("An employee with this email already exists")
    ensures UpdateEmployee(employeeId, form, stamp).Sends?
  {
    ValidEmailNotBlank(form.email);
  }

  // ---------------------------------------------------------------------------
  // Lookups and display

  /** `items.find(x => id(x) === wanted)`, the lookup both `tasks.find` and
      `employees.find` perform by id: the first item with that id. */
  function FindById<T>(items: seq<T>, id: T -> string, wanted: string): (r: Option<T>)
    ensures r.None? <==> forall i | 0 <= i < |items| :: id(items[i]) != wanted
    ensures r.Some? ==> exists i | 0 <= i < |items| :: items[i] == r.value && id(r.value) == wanted
                                    && forall j | 0 <= j < i :: id(items[j]) != wanted
  {
    if |items| == 0 then None
    else if id(items[0]) == wanted then Some(items[0])
    else
      var r := FindById(items[1..], id, wanted);
      assert forall i | 1 <= i < |items| :: items[i] == items[1..][i - 1];
      r
  }

  function TaskId(t: Task): string { t.id }

  function EmployeeId(e: Employee): string { e.id }

  /** `formatRole`: the three known roles get their display name; any other
      value is shown as it is. */
  function FormatRole(role: string): (r: string)
    ensures role == "employee" ==> r == "Employee"
    ensures role == "supervisor" ==> r == "Supervisor"
    ensures role == "admin" ==> r == "Administrator"
    ensures role !in {"employee", "supervisor", "admin"} ==> r == role
  {
    if role == "employee" then "Employee"
    else if role == "supervisor" then "Supervisor"
    else if role == "admin" then "Administrator"
    else role
  }

  /** Display names are not keys themselves, so formatting twice changes
      nothing. */
  lemma FormatRoleIdempotent(role: string)
    ensures FormatRole(FormatRole(role)) == FormatRole(role)
  {
  }

  // ---------------------------------------------------------------------------
  // Deleting an employee

  /** What `deleteEmployee` does before asking the backend: report an unknown
      employee, or ask for confirmation naming the number of assigned tasks. */
  datatype DeletePrompt = EmployeeNotFound | Confirm(message: string, assignedTasks: nat)

  function DeleteEmployeePrompt(employees: seq<Employee>, tasks: seq<Task>, employeeId: string): (r: DeletePrompt)
    ensures r.EmployeeNotFound? <==> forall i | 0 <= i < |employees| :: employees[i].id != employeeId
    ensures r.Confirm? ==> (r.assignedTasks == 0 <==> forall t | t in tasks :: t.employeeId != employeeId)
  {
    var found := FindById(employees, EmployeeId, employeeId);
    assert found.None? <==> forall i | 0 <= i < |employees| :: employees[i].id != employeeId by {
      assert forall i | 0 <= i < |employees| :: EmployeeId(employees[i]) == employees[i].id;
    }
    match found
    case None => EmployeeNotFound
    case Some(employee) =>
      var theirs := TasksOf(tasks, employeeId);
      var question := "Are you sure you want to delete employee \"" + employee.name + "\"?";
      if |theirs| > 0 then
        assert theirs[0] in theirs;
        Confirm(question + "\n\nThis employee has " + NatToString(|theirs|)
                + " assigned task(s). These tasks will need to be reassigned.", |theirs|)
      else
        Confirm(question, 0)
  }

  /** The warning counts the deleted employee's tasks, in list order: adding a
      task of theirs to the list raises it by one, any other task leaves it. */
  lemma DeleteCountTracksTasks(employees: seq<Employee>, tasks: seq<Task>, t: Task, employeeId: string)
    requires DeleteEmployeePrompt(employees, tasks, employeeId).Confirm?
    ensures var before := DeleteEmployeePrompt(employees, tasks, employeeId).assignedTasks;
            var after := DeleteEmployeePrompt(employees, tasks + [t], employeeId).assignedTasks;
            after == before + (if t.employeeId == employeeId then 1 else 0)
  {
    TasksOfConcat(tasks, [t], employeeId);
    assert TasksOf([t], employeeId) == TasksOf([], employeeId) + (if t.employeeId == employeeId then [t] else []);
  }

  // ---------------------------------------------------------------------------
  // Edit state

  /** The admin panel's state. */
  class AdminPanel {
    var tasks: seq<Task>
    var employees: seq<Employee>
    var currentEditingTask: Option<Task>

    constructor ()
      ensures tasks == [] && employees == [] && currentEditingTask == None
    {
      tasks, employees, currentEditingTask := [], [], None;
    }

    /** `editTask(taskId)`: an unknown id shows "Task not found" and keeps the
        current edit; a known id starts editing that task. */
    method EditTask(taskId: string) returns (error: Option<string>)
      modifies this
      ensures tasks == old(tasks) && employees == old(employees)
      ensures FindById(tasks, TaskId, taskId).None? ==> error == Some("Task not found") && currentEditingTask == old(currentEditingTask)
      ensures FindById(tasks, TaskId, taskId).Some? ==> error == None && currentEditingTask == FindById(tasks, TaskId, taskId)
    {
      var task := FindById(tasks, TaskId, taskId);
      if task.None? {
        return Some("Task not found");
      }
      currentEditingTask := task;
      error := None;
    }

    /** `cancelEdit`. */
    method CancelEdit()
      modifies this
      ensures tasks == old(tasks) && employees == old(employees) && currentEditingTask == None
    {
      currentEditingTask := None;
    }

    /** `updateTask`: nothing happens without a task being edited; otherwise the
        form's fields are sent as an update of that task, and a successful
        answer ends the edit. The source then reloads the lists through
        `loadAdminData`, which this model leaves out, so the unchanged lists
        here describe the panel before that reload. */
    method UpdateTask(form: TaskForm, updatedAt: string, result: CallResult<Task>) returns (sent: Option<Request>)
      modifies this
      ensures tasks == old(tasks) && employees == old(employees)
      ensures old(currentEditingTask).None? ==> sent == None && currentEditingTask == None
      ensures old(currentEditingTask).Some? ==>
                && sent == Some(FacadeRequest(TaskUpdate(Str(old(currentEditingTask).value.id), [
                     ("description", Str(form.description)), ("dueDate", Str(form.dueDate)),
                     ("employeeId", Str(form.employeeId)), ("updatedAt", Str(updatedAt))])))
                && currentEditingTask == (if Succeeded(result) then None else old(currentEditingTask))
    {
      if currentEditingTask.None? {
        return None;
      }
      var taskData := [("description", Str(form.description)), ("dueDate", Str(form.dueDate)),
                       ("employeeId", Str(form.employeeId)), ("updatedAt", Str(updatedAt))];
      sent := Some(FacadeRequest(TaskUpdate(Str(currentEditingTask.value.id), taskData)));
      if Succeeded(result) {
        CancelEdit();
      }
    }
  }
}
