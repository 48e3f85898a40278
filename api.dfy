/** The client side of the spreadsheet-backed scripting API
    (frontend/api.js): which actions may go by GET, how a GET query string is
    built, the retry loop around the two transports, the named facade calls
    and their payloads, the user-facing error message, batched calls, and the
    response cache with its invalidation by key substring.

    The network is not modelled: each attempt of the retry loop reads what
    the GET and the POST would produce from an outcome supplied by the caller,
    and clocks are plain integer parameters (milliseconds). */
module Api {
  import opened Common

  /** `API_CONFIG.MAX_RETRIES` and `API_CONFIG.RETRY_DELAY` (milliseconds). */
  const MaxRetries: nat := 3
  const RetryDelay: nat := 1000
  /** `APICache.ttl`: five minutes in milliseconds. */
  const CacheTtl: int := 5 * 60 * 1000

  // ---------------------------------------------------------------------------
  // Actions

  /** The actions the backend understands. */
  const ActionCatalog: seq<string> := [
    "test", "ping", "getEmployees", "addEmployee", "updateEmployee", "deleteEmployee",
    "getEmployeeByEmail", "getTasks", "getTasksByEmployee", "getTasksBySupervisor", "addTask",
    "updateTask", "deleteTask", "updateTaskProgress", "getProgressByTask", "addProgress",
    "updateProgress", "deleteProgress", "getSupervisorDashboard", "getEmployeeDashboard",
    "getKPIMetrics", "authenticateUser", "getUserRole", "verifyPermissions"
  ]

  /** `isSimpleAction`: the actions tried first as a GET request. */
  predicate IsSimpleAction(action: string) {
    action in ["test", "ping", "getEmployees", "getTasks", "getKPIMetrics",
               "authenticateUser", "getUserRole", "getEmployeeByEmail"]
  }

  predicate StartsWith(s: string, p: string) {
    |p| <= |s| && s[..|p|] == p
  }

  /** No action that adds, updates or deletes a record is ever sent as a GET:
      every simple action is a read, a connectivity probe or a login. */
  lemma MutationsArePosted(action: string)
    requires StartsWith(action, "add") || StartsWith(action, "update") || StartsWith(action, "delete")
    ensures !IsSimpleAction(action)
  {
    if StartsWith(action, "add") {
      assert action[..3][0] == 'a' && action[..3][1] == 'd';
    } else if StartsWith(action, "update") {
      assert action[..6][0] == 'u';
    } else {
      assert action[..6][0] == 'd';
    }
  }

  // ---------------------------------------------------------------------------
  // Request data and the GET query string

  /** A property value in request data. */
  datatype Scalar = Undefined | Null | Bool(b: bool) | Num(n: int) | Str(s: string)

  /** `String(value)`. */
  function ScalarToString(v: Scalar): string {
    match v
    case Undefined => "undefined"
    case Null => "null"
    case Bool(b) => if b then "true" else "false"
    case Num(n) => IntToString(n)
    case Str(s) => s
  }

  /** The identity sent with a call; an empty string stands for a missing
      (falsy) email or token. */
  datatype User = User(email: string, token: string)

  /** The data properties of a GET call: each property whose value is neither
      null nor undefined, as `key=String(value)`, in property order. */
  function FlattenData(data: Obj<Scalar>): (r: seq<(string, string)>)
    ensures |r| <= |data|
  {
    if |data| == 0 then [] else FlattenEntry(data[0]) + FlattenData(data[1..])
  }

  function FlattenEntry(entry: (string, Scalar)): seq<(string, string)> {
    if entry.1 == Null || entry.1 == Undefined then [] else [(entry.0, ScalarToString(entry.1))]
  }

  /** Flattening keeps property order: it distributes over concatenation. */
  lemma {:induction false} FlattenDataConcat(a: Obj<Scalar>, b: Obj<Scalar>)
    ensures FlattenData(a + b) == FlattenData(a) + FlattenData(b)
  {
    if |a| == 0 {
      assert a + b == b;
    } else {
      assert (a + b)[0] == a[0];
      assert (a + b)[1..] == a[1..] + b;
      FlattenDataConcat(a[1..], b);
      assert FlattenData(a + b) == FlattenEntry(a[0]) + (FlattenData(a[1..]) + FlattenData(b));
    }
  }

  /** A query parameter comes from a property with a non-null value, and every
      such property yields one. */
  lemma {:induction false} FlattenDataMembers(data: Obj<Scalar>, k: string, s: string)
    ensures (k, s) in FlattenData(data) <==>
            exists i | 0 <= i < |data| :: data[i].0 == k && data[i].1 != Null && data[i].1 != Undefined
                                          && ScalarToString(data[i].1) == s
  {
    if |data| > 0 {
      FlattenDataMembers(data[1..], k, s);
      if (k, s) in FlattenData(data[1..]) {
        var i :| 0 <= i < |data[1..]| && data[1..][i].0 == k && data[1..][i].1 != Null
                 && data[1..][i].1 != Undefined && ScalarToString(data[1..][i].1) == s;
        assert data[i + 1] == data[1..][i];
      }
      forall i | 1 <= i < |data| && data[i].0 == k && data[i].1 != Null && data[i].1 != Undefined
                 && ScalarToString(data[i].1) == s
        ensures (k, s) in FlattenData(data[1..])
      {
        assert data[1..][i - 1] == data[i];
      }
    }
  }

  /** `userEmail` when the user has an email, and then `userToken` when it also
      has a token. */
  function UserParams(user: Option<User>): (r: seq<(string, string)>)
    ensures |r| <= 2
    ensures forall i | 0 <= i < |r| :: r[i].0 == "userEmail" || r[i].0 == "userToken"
    ensures (exists i | 0 <= i < |r| :: r[i].0 == "userToken") ==> user.Some? && user.value.email != ""
  {
    match user
    case Some(u) =>
      if u.email == "" then []
      else [("userEmail", u.email)] + (if u.token == "" then [] else [("userToken", u.token)])
    case None => []
  }

  /** The query parameters of `makeGETAPICall`, in the order they are
      appended to the URL. */
  function GetParams(action: string, data: Obj<Scalar>, user: Option<User>): (r: seq<(string, string)>)
    ensures |r| >= 1 && r[0] == ("action", action)
    ensures |r| <= 1 + |data| + 2
  {
    [("action", action)] + FlattenData(data) + UserParams(user)
  }

  // ---------------------------------------------------------------------------
  // Responses

  /** The value of a response's `success` property: missing, a boolean, or
      some other value that is truthy or falsy. */
  datatype Flag = Missing | Literal(b: bool) | Other(truthy: bool) {
    predicate Truthy() {
      match this
      case Missing => false
      case Literal(b) => b
      case Other(t) => t
    }
  }

  /** The `data` property of a wrapped response. */
  datatype Payload<T> = NoData | Items(items: seq<T>) | Fields(fields: Obj<string>)

  /** A decoded JSON response body: `null`, an object with `success`, `error`
      (the empty string standing for a missing or falsy one) and `data`, or a
      bare array. */
  datatype Reply<T> = NullReply | Wrapped(success: Flag, error: string, data: Payload<T>) | Bare(items: seq<T>) {
    predicate Truthy() {
      !NullReply?
    }
  }

  /** `result && (result.success !== false)`: the GET result is returned
      without trying POST. */
  predicate ShortCircuits<T>(r: Reply<T>) {
    r.Truthy() && !(r.Wrapped? && r.success == Literal(false))
  }

  /** A GET result with `success: false` falls through to POST, while a result
      without any `success` property is accepted. */
  lemma ShortCircuitCases<T>(data: Payload<T>, error: string, items: seq<T>)
    ensures !ShortCircuits(Wrapped(Literal(false), error, data))
    ensures ShortCircuits(Wrapped(Missing, error, data))
    ensures ShortCircuits(Wrapped(Literal(true), error, data))
    ensures ShortCircuits(Bare(items)) && !ShortCircuits<T>(NullReply)
  {
  }

  // ---------------------------------------------------------------------------
  // The retry loop

  /** What the GET request of one attempt produced. */
  datatype GetOutcome<T> = GetThrows(message: string) | GetReturns(reply: Reply<T>)

  /** What the POST request of one attempt produced: `fetch` or `json()`
      threw, a non-2xx status, a body whose content type is not JSON, or a
      decoded JSON body. */
  datatype PostOutcome<T> =
    | PostThrows(message: string)
    | HttpError(status: nat, statusText: string, body: string)
    | NonJson
    | Json(reply: Reply<T>)

  /** The transports' behaviour during one attempt; `get` is consulted only for
      simple actions. */
  datatype Attempt<T> = Attempt(get: GetOutcome<T>, post: PostOutcome<T>)

  datatype Transport = GET | POST

  datatype StepResult<T> = Done(reply: Reply<T>) | Failed(message: string)

  const NonJsonMessage := "Server returned HTML instead of JSON" + " - backend may not be deployed correctly"
  /** The TypeError raised by reading `.error` of a `null` body. */
  const NullBodyMessage := "Cannot read properties of null (reading 'error')"
  /** The TypeError raised by reading `lastError.message` when no attempt ran. */
  const NoAttemptMessage := "Cannot read properties of undefined (reading 'message')"
  const BackendMessage := "Backend " + "not accessible - HTML response received instead of JSON. "
                          + "Check if Google Apps Script is deployed correctly."

  function HttpErrorMessage(status: nat, statusText: string, body: string): string {
    "HTTP " + NatToString(status) + ": " + statusText + " - " + body
  }

  /** The POST half of an attempt. */
  function PostResult<T>(p: PostOutcome<T>): StepResult<T> {
    match p
    case PostThrows(m) => Failed(m)
    case HttpError(status, text, body) => Failed(HttpErrorMessage(status, text, body))
    case NonJson => Failed(NonJsonMessage)
    case Json(r) =>
      if r.NullReply? then Failed(NullBodyMessage)
      else if r.Wrapped? && r.error != "" then Failed(r.error)
      else Done(r)
  }

  /** One pass through the body of the `try` block: its result and the
      requests it issued. This is the specification the lemmas about an
      attempt use; `TryAttempt` performs the same pass step by step, as the
      loop does, and is proved equal to it. */
  function AttemptResult<T>(action: string, a: Attempt<T>): (StepResult<T>, seq<Transport>) {
    if IsSimpleAction(action) then
      match a.get
      case GetThrows(m) => (Failed(m), [GET])
      case GetReturns(r) =>
        if ShortCircuits(r) then (Done(r), [GET]) else (PostResult(a.post), [GET, POST])
    else (PostResult(a.post), [POST])
  }

  /** What the `catch` block does with an error message: stop retrying
      (`break`), rethrow it unchanged, or wait and retry. */
  datatype Disposition = Abort | Rethrow | Retry

  /** The message says the backend answered with something that is not JSON. */
  predicate AbortMarker(message: string) {
    Contains(message, "Unexpected token") || Contains(message, "HTML instead of JSON")
    || Contains(message, "backend may not be deployed")
  }

  /** The error classification. The source also tests that the message is
      truthy, which changes nothing: no non-empty pattern occurs in "". */
  function Classify(message: string): Disposition {
    if AbortMarker(message) then Abort
    else if Contains(message, "auth") || Contains(message, "body stream already read") then Rethrow
    else Retry
  }

  /** The error thrown once the loop is left without a result. */
  function FinalMessage(lastError: string, maxRetries: nat): string {
    if Contains(lastError, "Unexpected token") then BackendMessage
    else "API call failed after " + NatToString(maxRetries) + " attempts: " + lastError
  }

  datatype CallResult<T> = Returned(reply: Reply<T>) | Threw(message: string)

  /** `result && result.success`: how the screens judge a call they made. */
  predicate Succeeded<T>(c: CallResult<T>) {
    c.Returned? && c.reply.Wrapped? && c.reply.success.Truthy()
  }

  /** The observable run of `callGoogleAppsScript`: its result, the number of
      attempts started, the requests issued, and the waits between attempts. */
  datatype Run<T> = Run(result: CallResult<T>, attempts: nat, requests: seq<Transport>, delays: seq<int>)

  /** The retry loop from attempt `attempt` on, given the last error and what
      has been issued and waited so far. */
  function Loop<T>(action: string, outcomes: seq<Attempt<T>>, maxRetries: nat, attempt: nat,
                   lastError: Option<string>, requests: seq<Transport>, delays: seq<int>): Run<T>
    requires attempt <= maxRetries <= |outcomes|
    decreases maxRetries - attempt
  {
    if attempt == maxRetries then
      match lastError
      case None => Run(Threw(NoAttemptMessage), attempt, requests, delays)
      case Some(m) => Run(Threw(FinalMessage(m, maxRetries)), attempt, requests, delays)
    else
      var (step, issued) := AttemptResult(action, outcomes[attempt]);
      match step
      case Done(r) => Run(Returned(r), attempt + 1, requests + issued, delays)
      case Failed(m) =>
        match Classify(m)
        case Abort => Run(Threw(FinalMessage(m, maxRetries)), attempt + 1, requests + issued, delays)
        case Rethrow => Run(Threw(m), attempt + 1, requests + issued, delays)
        case Retry =>
          Loop(action, outcomes, maxRetries, attempt + 1, Some(m), requests + issued,
               if attempt < maxRetries - 1 then delays + [RetryDelay * (attempt + 1)] else delays)
  }

  /** `callGoogleAppsScript(action, data)` with attempt k reading outcomes[k]. */
  function Call<T>(action: string, outcomes: seq<Attempt<T>>, maxRetries: nat): Run<T>
    requires maxRetries <= |outcomes|
  {
    Loop(action, outcomes, maxRetries, 0, None, [], [])
  }

  /** The body of the `try` block of one attempt: a GET first for a simple
      action, returned at once when it short-circuits, then a POST whose
      status, content type and `error` property are checked in turn. It is
      the loop's step; `AttemptResult` states its result as a value, and the
      GET-first and POST properties are proved about that function, so this
      method is only tied to it. */
  method TryAttempt<T>(action: string, a: Attempt<T>) returns (step: StepResult<T>, issued: seq<Transport>)
    ensures (step, issued) == AttemptResult(action, a)
  {
    issued := [];
    if IsSimpleAction(action) {
      issued := [GET];
      match a.get
      case GetThrows(m) =>
        return Failed(m), issued;
      case GetReturns(r) =>
        if ShortCircuits(r) {
          return Done(r), issued;
        }
    }
    issued := issued + [POST];
    assert issued == if IsSimpleAction(action) then [GET, POST] else [POST];
    match a.post
    case PostThrows(m) =>
      step := Failed(m);
    case HttpError(status, text, body) =>
      step := Failed(HttpErrorMessage(status, text, body));
    case NonJson =>
      step := Failed(NonJsonMessage);
    case Json(r) =>
      if r.NullReply? {
        step := Failed(NullBodyMessage);
      } else if r.Wrapped? && r.error != "" {
        step := Failed(r.error);
      } else {
        step := Done(r);
      }
  }

  /** `callGoogleAppsScript`: the `for` loop over attempts, with the `catch`
      block's `break`, rethrow and wait, and the final `throw`. */
  method CallGoogleAppsScript<T>(action: string, outcomes: seq<Attempt<T>>, maxRetries: nat)
    returns (run: Run<T>)
    requires maxRetries <= |outcomes|
    ensures run == Call(action, outcomes, maxRetries)
  {
    var lastError: Option<string> := None;
    var requests: seq<Transport> := [];
    var delays: seq<int> := [];
    var attempt := 0;
    var aborted := false;
    while attempt < maxRetries
      invariant attempt <= maxRetries && !aborted
      invariant Call(action, outcomes, maxRetries) == Loop(action, outcomes, maxRetries, attempt, lastError, requests, delays)
    {
      var step, issued := TryAttempt(action, outcomes[attempt]);
      requests := requests + issued;
      if step.Done? {
        return Run(Returned(step.reply), attempt + 1, requests, delays);
      }
      // catch
      var message := step.message;
      lastError := Some(message);
      if Contains(message, "Unexpected token") || Contains(message, "HTML instead of JSON")
         || Contains(message, "backend may not be deployed") {
        aborted := true;
        break;
      }
      if Contains(message, "auth") || Contains(message, "body stream already read") {
        return Run(Threw(message), attempt + 1, requests, delays);
      }
      if attempt < maxRetries - 1 {
        delays := delays + [RetryDelay * (attempt + 1)];
      }
      attempt := attempt + 1;
    }
    // All attempts failed, or the loop was left by `break`.
    var made := if aborted then attempt + 1 else attempt;
    match lastError
    case None =>
      run := Run(Threw(NoAttemptMessage), made, requests, delays);
    case Some(m) =>
      run := Run(Threw(FinalMessage(m, maxRetries)), made, requests, delays);
  }

  // ---------------------------------------------------------------------------
  // Properties of the retry loop

  /** The attempt fails with a message the loop retries. */
  predicate RetriedAt<T>(action: string, a: Attempt<T>) {
    var step := AttemptResult(action, a).0;
    step.Failed? && Classify(step.message) == Retry
  }

  /** The error message an attempt failed with ("" for an attempt that
      succeeded). */
  function FailureMessage<T>(action: string, a: Attempt<T>): string {
    match AttemptResult(action, a).0
    case Failed(m) => m
    case Done(_) => ""
  }

  /** The requests issued by attempts 0..k-1. */
  function RequestsBefore<T>(action: string, outcomes: seq<Attempt<T>>, k: nat): seq<Transport>
    requires k <= |outcomes|
  {
    if k == 0 then [] else RequestsBefore(action, outcomes, k - 1) + AttemptResult(action, outcomes[k - 1]).1
  }

  /** The waits `RETRY_DELAY * 1, ..., RETRY_DELAY * n`. */
  function Backoff(n: nat): (r: seq<int>)
    ensures |r| == n
  {
    if n == 0 then [] else Backoff(n - 1) + [RetryDelay * n]
  }

  lemma {:induction false} BackoffAt(n: nat, k: nat)
    requires k < n
    ensures Backoff(n)[k] == RetryDelay * (k + 1)
  {
    if k < n - 1 {
      BackoffAt(n - 1, k);
    }
  }

  function Min(a: int, b: int): int {
    if a <= b then a else b
  }

  /** While every attempt so far was retried, the loop reaches attempt k with
      the last failure as `lastError`, every request of those attempts issued,
      and one wait of `RETRY_DELAY * (j + 1)` after each attempt j but the last
      one the loop may make. */
  lemma {:induction false} ReachesAttempt<T>(action: string, outcomes: seq<Attempt<T>>, maxRetries: nat, k: nat)
    requires 0 < k <= maxRetries <= |outcomes|
    requires forall j | 0 <= j < k :: RetriedAt(action, outcomes[j])
    ensures Call(action, outcomes, maxRetries) ==
            Loop(action, outcomes, maxRetries, k, Some(FailureMessage(action, outcomes[k - 1])),
                 RequestsBefore(action, outcomes, k), Backoff(Min(k, maxRetries - 1)))
  {
    if k > 1 {
      ReachesAttempt(action, outcomes, maxRetries, k - 1);
    }
  }

  /** The first attempt that is not retried decides the call: it is the last
      attempt made, and its success, its error message or the final message
      is the result. */
  lemma DecidedAt<T>(action: string, outcomes: seq<Attempt<T>>, maxRetries: nat, k: nat)
    requires k < maxRetries <= |outcomes|
    requires forall j | 0 <= j < k :: RetriedAt(action, outcomes[j])
    requires !RetriedAt(action, outcomes[k])
    ensures var run := Call(action, outcomes, maxRetries);
            var step := AttemptResult(action, outcomes[k]).0;
            && run.attempts == k + 1
            && run.requests == RequestsBefore(action, outcomes, k + 1)
            && run.delays == Backoff(k)
            && run.result == (if step.Done? then Returned(step.reply)
                              else if Classify(step.message) == Rethrow then Threw(step.message)
                              else Threw(FinalMessage(step.message, maxRetries)))
  {
    if k > 0 {
      ReachesAttempt(action, outcomes, maxRetries, k);
    }
  }

  /** When every attempt is retried, the call makes exactly `maxRetries`
      attempts, waits `RETRY_DELAY * (k + 1)` after every attempt k but the
      last, and throws the final message built from the last error. */
  lemma Exhausted<T>(action: string, outcomes: seq<Attempt<T>>, maxRetries: nat)
    requires 0 < maxRetries <= |outcomes|
    requires forall j | 0 <= j < maxRetries :: RetriedAt(action, outcomes[j])
    ensures var run := Call(action, outcomes, maxRetries);
            && run.attempts == maxRetries
            && run.requests == RequestsBefore(action, outcomes, maxRetries)
            && run.delays == Backoff(maxRetries - 1)
            && run.result == Threw(FinalMessage(FailureMessage(action, outcomes[maxRetries - 1]), maxRetries))
  {
    ReachesAttempt(action, outcomes, maxRetries, maxRetries);
  }

  /** Bounds that hold for every run: at least one and at most `maxRetries`
      attempts, the k-th wait is `RETRY_DELAY * (k + 1)`, and there is no wait
      after the last attempt. */
  lemma {:induction false} LoopBounds<T>(action: string, outcomes: seq<Attempt<T>>, maxRetries: nat, attempt: nat,
                                         lastError: Option<string>, requests: seq<Transport>, delays: seq<int>)
    requires attempt <= maxRetries <= |outcomes|
    requires delays == Backoff(Min(attempt, if maxRetries == 0 then 0 else maxRetries - 1))
    ensures var run := Loop(action, outcomes, maxRetries, attempt, lastError, requests, delays);
            && attempt <= run.attempts <= maxRetries
            && (maxRetries > 0 ==> |run.delays| < run.attempts)
            && run.delays == Backoff(|run.delays|)
    decreases maxRetries - attempt
  {
    if attempt < maxRetries {
      var (step, issued) := AttemptResult(action, outcomes[attempt]);
      if step.Failed? && Classify(step.message) == Retry {
        LoopBounds(action, outcomes, maxRetries, attempt + 1, Some(step.message), requests + issued,
                   if attempt < maxRetries - 1 then delays + [RetryDelay * (attempt + 1)] else delays);
      }
    }
  }

  lemma CallBounds<T>(action: string, outcomes: seq<Attempt<T>>, maxRetries: nat)
    requires maxRetries <= |outcomes|
    ensures var run := Call(action, outcomes, maxRetries);
            && run.attempts <= maxRetries
            && (maxRetries > 0 ==> 1 <= run.attempts && |run.delays| <= run.attempts - 1)
            && forall k | 0 <= k < |run.delays| :: run.delays[k] == RetryDelay * (k + 1)
  {
    LoopBounds(action, outcomes, maxRetries, 0, None, [], []);
    var run := Call(action, outcomes, maxRetries);
    forall k | 0 <= k < |run.delays| ensures run.delays[k] == RetryDelay * (k + 1) {
      BackoffAt(|run.delays|, k);
    }
    if maxRetries > 0 {
      assert run.attempts >= 1 by {
        assert run == Loop(action, outcomes, maxRetries, 0, None, [], []);
      }
    }
  }

  /** A successful GET of a simple action ends the call in that attempt, and
      that attempt issues no POST. */
  lemma GetShortCircuit<T>(action: string, outcomes: seq<Attempt<T>>, maxRetries: nat, k: nat)
    requires k < maxRetries <= |outcomes|
    requires forall j | 0 <= j < k :: RetriedAt(action, outcomes[j])
    requires IsSimpleAction(action) && outcomes[k].get.GetReturns? && ShortCircuits(outcomes[k].get.reply)
    ensures var run := Call(action, outcomes, maxRetries);
            && run.result == Returned(outcomes[k].get.reply)
            && run.attempts == k + 1
            && run.requests == RequestsBefore(action, outcomes, k) + [GET]
  {
    DecidedAt(action, outcomes, maxRetries, k);
  }

  /** A GET answered with `success: false` is followed by a POST in the same
      attempt, and that POST's answer is what the attempt produces. */
  lemma GetRejectedFallsThrough<T>(action: string, a: Attempt<T>)
    requires IsSimpleAction(action) && a.get.GetReturns? && a.get.reply.Wrapped?
    requires a.get.reply.success == Literal(false)
    ensures AttemptResult(action, a) == (PostResult(a.post), [GET, POST])
  {
  }

  /** A GET that throws ends the attempt: no POST is tried in it. */
  lemma GetThrowSkipsPost<T>(action: string, a: Attempt<T>)
    requires IsSimpleAction(action) && a.get.GetThrows?
    ensures AttemptResult(action, a) == (Failed(a.get.message), [GET])
  {
  }

  /** A response whose content type is not JSON stops the loop at once, and
      the final message still speaks of all `maxRetries` attempts although
      only one was made. */
  lemma NonJsonStopsAfterOneAttempt<T>(action: string, outcomes: seq<Attempt<T>>, maxRetries: nat)
    requires 0 < maxRetries <= |outcomes|
    requires !IsSimpleAction(action) && outcomes[0].post == NonJson
    ensures var run := Call(action, outcomes, maxRetries);
            && run.attempts == 1 && run.delays == []
            && run.result == Threw("API call failed after " + NatToString(maxRetries) + " attempts: " + NonJsonMessage)
  {
    NonJsonMessageAborts();
  }

  /** The non-JSON error stops the loop and is not a parse error. */
  lemma NonJsonMessageAborts()
    ensures Classify(NonJsonMessage) == Abort
    ensures !Contains(NonJsonMessage, "Unexpected token")
  {
    assert OccursAt("Server returned HTML instead of JSON", "HTML instead of JSON", 16);
    ContainsConcat("Server returned HTML instead of JSON", " - backend may not be deployed correctly", "HTML instead of JSON");
    assert Lacks(NonJsonMessage, 'U') by {
      assert Lacks("Server returned HTML instead of JSON", 'U');
      assert Lacks(" - backend may not be deployed correctly", 'U');
    }
    LacksFirstChar(NonJsonMessage, "Unexpected token");
  }

  /** c does not occur in s. */
  predicate Lacks(s: string, c: char) {
    forall i | 0 <= i < |s| :: s[i] != c
  }

  lemma LacksFirstChar(s: string, p: string)
    requires |p| > 0 && Lacks(s, p[0])
    ensures !Contains(s, p)
  {
    forall i | 0 <= i <= |s| - |p| ensures !OccursAt(s, p, i) {
      assert s[i..i + |p|][0] == s[i] != p[0];
    }
  }

  /** A body that fails to parse as JSON ("Unexpected token ...") ends the
      loop with the "Backend not accessible" message. */
  lemma ParseErrorIsBackendMessage(message: string, maxRetries: nat)
    requires Contains(message, "Unexpected token")
    ensures Classify(message) == Abort
    ensures FinalMessage(message, maxRetries) == BackendMessage
  {
  }

  /** The final message is the "Backend not accessible" one exactly when the
      last error mentions "Unexpected token". */
  lemma FinalMessageCases(lastError: string, maxRetries: nat)
    ensures FinalMessage(lastError, maxRetries) == BackendMessage <==> Contains(lastError, "Unexpected token")
  {
    if !Contains(lastError, "Unexpected token") {
      assert FinalMessage(lastError, maxRetries)[0] == 'A';
      assert BackendMessage[0] == 'B';
    }
  }

  /** `'auth'` is matched anywhere in the message, so an HTTP 401 whose status
      text is "Unauthorized" is rethrown without retry, unless its body holds
      one of the markers that stop the loop. */
  lemma UnauthorizedIsRethrown(body: string)
    requires !AbortMarker(HttpErrorMessage(401, "Unauthorized", body))
    ensures Classify(HttpErrorMessage(401, "Unauthorized", body)) == Rethrow
  {
    var m := HttpErrorMessage(401, "Unauthorized", body);
    assert NatToString(401) == "401";
    assert m[12..16] == "auth";
    assert OccursAt(m, "auth", 12);
  }

  // ---------------------------------------------------------------------------
  // Facades

  /** The named API calls the screens use. */
  datatype FacadeCall =
    | EmployeeGetAll | EmployeeAdd(employeeData: Obj<Scalar>)
    | EmployeeUpdate(employeeId: Scalar, employeeData: Obj<Scalar>) | EmployeeDelete(employeeId: Scalar)
    | EmployeeGetByEmail(email: Scalar)
    | TaskGetAll | TaskGetByEmployee(employeeId: Scalar) | TaskGetBySupervisor(supervisorId: Scalar)
    | TaskAdd(taskData: Obj<Scalar>) | TaskUpdate(taskId: Scalar, taskData: Obj<Scalar>)
    | TaskDelete(taskId: Scalar) | TaskUpdateProgress(taskId: Scalar, progressData: Obj<Scalar>)
    | ProgressGetByTask(taskId: Scalar) | ProgressAdd(progressData: Obj<Scalar>)
    | ProgressUpdate(progressId: Scalar, progressData: Obj<Scalar>) | ProgressDelete(progressId: Scalar)
    | DashboardSupervisorData(supervisorId: Scalar) | DashboardEmployeeData(employeeId: Scalar)
    | DashboardKpiMetrics(filters: Obj<Scalar>)
    | AuthAuthenticate(userData: Obj<Scalar>) | AuthVerifyPermissions(permissionAction: Scalar)

  /** The action and data a facade call passes to `callGoogleAppsScript`. */
  datatype Request = Request(action: string, data: Obj<Scalar>)

  /** `{ idKey: id, ...rest }`. */
  function WithId(idKey: string, id: Scalar, rest: Obj<Scalar>): Obj<Scalar> {
    Spread([(idKey, id)], rest)
  }

  function FacadeRequest(c: FacadeCall): Request {
    match c
    case EmployeeGetAll => Request("getEmployees", [])
    case EmployeeAdd(d) => Request("addEmployee", d)
    case EmployeeUpdate(id, d) => Request("updateEmployee", WithId("employeeId", id, d))
    case EmployeeDelete(id) => Request("deleteEmployee", [("employeeId", id)])
    case EmployeeGetByEmail(e) => Request("getEmployeeByEmail", [("email", e)])
    case TaskGetAll => Request("getTasks", [])
    case TaskGetByEmployee(id) => Request("getTasksByEmployee", [("employeeId", id)])
    case TaskGetBySupervisor(id) => Request("getTasksBySupervisor", [("supervisorId", id)])
    case TaskAdd(d) => Request("addTask", d)
    case TaskUpdate(id, d) => Request("updateTask", WithId("taskId", id, d))
    case TaskDelete(id) => Request("deleteTask", [("taskId", id)])
    case TaskUpdateProgress(id, d) => Request("updateTaskProgress", WithId("taskId", id, d))
    case ProgressGetByTask(id) => Request("getProgressByTask", [("taskId", id)])
    case ProgressAdd(d) => Request("addProgress", d)
    case ProgressUpdate(id, d) => Request("updateProgress", WithId("progressId", id, d))
    case ProgressDelete(id) => Request("deleteProgress", [("progressId", id)])
    case DashboardSupervisorData(id) => Request("getSupervisorDashboard", [("supervisorId", id)])
    case DashboardEmployeeData(id) => Request("getEmployeeDashboard", [("employeeId", id)])
    case DashboardKpiMetrics(f) => Request("getKPIMetrics", f)
    case AuthAuthenticate(u) => Request("authenticateUser", u)
    case AuthVerifyPermissions(a) => Request("verifyPermissions", [("action", a)])
  }

  /** Every facade call names an action of the catalog, and it goes by GET
      first exactly for the list reads, the lookup by email, the KPI metrics
      and authentication. */
  lemma FacadeActions(c: FacadeCall)
    ensures FacadeRequest(c).action in ActionCatalog
    ensures IsSimpleAction(FacadeRequest(c).action) <==>
            (c.EmployeeGetAll? || c.EmployeeGetByEmail? || c.TaskGetAll? || c.DashboardKpiMetrics? || c.AuthAuthenticate?)
  {
  }

  /** An update's payload carries the identifier under its key unless the
      update data sets that key itself, and every other property of the data
      unchanged. */
  lemma {:induction false} WithIdFields(idKey: string, id: Scalar, rest: Obj<Scalar>, k: string)
    requires UniqueKeys(rest)
    ensures Get(WithId(idKey, id, rest), k) ==
            if HasKey(rest, k) then Get(rest, k) else if k == idKey then Some(id) else None
  {
    SpreadGet([(idKey, id)], rest, k);
  }

  /** Updating task "T1" with progress 80 sends `updateTask` with
      `{taskId: "T1", progress: 80}`. */
  lemma TaskUpdateExample()
    ensures FacadeRequest(TaskUpdate(Str("T1"), [("progress", Num(80))]))
            == Request("updateTask", [("taskId", Str("T1")), ("progress", Num(80))])
  {
  }

  // ---------------------------------------------------------------------------
  // handleAPIError

  /** The message shown to the user, and whether a sign-out is scheduled. */
  datatype ErrorReport = ErrorReport(message: string, signsOut: bool)

  const DefaultErrorMessage := "An error occurred. Please try again."
  const TimeoutMessage := "Connection timeout. Please check your internet connection and try again."
  const AuthFailedMessage := "Authentication failed. Please sign in again."
  const PermissionMessage := "You don't have permission to perform this action."
  const NotFoundMessage := "The requested data was not found."

  /** `handleAPIError`: the first matching keyword decides the message; an
      empty message gives the generic text; any other message is shown as is.
      Only an authentication failure schedules a sign-out. */
  function HandleApiError(message: string): (r: ErrorReport)
    ensures r.message != ""
    ensures r.signsOut <==> message != "" && !Contains(message, "timeout") && !Contains(message, "network")
                            && Contains(message, "auth")
    ensures message != "" && !Contains(message, "timeout") && !Contains(message, "network")
            && !Contains(message, "auth") && !Contains(message, "permission") && !Contains(message, "not found")
            ==> r.message == message
    ensures message == "" ==> r.message == DefaultErrorMessage
    ensures message != "" && (Contains(message, "timeout") || Contains(message, "network"))
            ==> r.message == TimeoutMessage
    ensures message != "" && !Contains(message, "timeout") && !Contains(message, "network")
            && Contains(message, "auth")
            ==> r.message == AuthFailedMessage
    ensures message != "" && !Contains(message, "timeout") && !Contains(message, "network")
            && !Contains(message, "auth") && Contains(message, "permission")
            ==> r.message == PermissionMessage
    ensures message != "" && !Contains(message, "timeout") && !Contains(message, "network")
            && !Contains(message, "auth") && !Contains(message, "permission") && Contains(message, "not found")
            ==> r.message == NotFoundMessage
  {
    if message == "" then ErrorReport(DefaultErrorMessage, false)
    else if Contains(message, "timeout") || Contains(message, "network") then ErrorReport(TimeoutMessage, false)
    else if Contains(message, "auth") then ErrorReport(AuthFailedMessage, true)
    else if Contains(message, "permission") then ErrorReport(PermissionMessage, false)
    else if Contains(message, "not found") then ErrorReport(NotFoundMessage, false)
    else ErrorReport(message, false)
  }

  // ---------------------------------------------------------------------------
  // batchAPICall

  /** The `{name, result}` entries of the calls that returned, in call order. */
  function Successes<T>(calls: seq<(string, CallResult<T>)>): seq<(string, Reply<T>)> {
    if |calls| == 0 then []
    else
      var last := calls[|calls| - 1];
      Successes(calls[..|calls| - 1]) + (if last.1.Returned? then [(last.0, last.1.reply)] else [])
  }

  /** The `{name, error}` entries of the calls that threw, in call order. */
  function Failures<T>(calls: seq<(string, CallResult<T>)>): seq<(string, string)> {
    if |calls| == 0 then []
    else
      var last := calls[|calls| - 1];
      Failures(calls[..|calls| - 1]) + (if last.1.Threw? then [(last.0, last.1.message)] else [])
  }

  /** `batchAPICall`: the calls run one after another; each lands in exactly
      one of the two lists. */
  method BatchApiCall<T>(calls: seq<(string, CallResult<T>)>)
    returns (results: seq<(string, Reply<T>)>, errors: seq<(string, string)>)
    ensures results == Successes(calls) && errors == Failures(calls)
  {
    results, errors := [], [];
    for i := 0 to |calls|
      invariant results == Successes(calls[..i]) && errors == Failures(calls[..i])
    {
      assert calls[..i + 1][..i] == calls[..i];
      var (name, outcome) := calls[i];
      match outcome
      case Returned(r) =>
        results := results + [(name, r)];
      case Threw(m) =>
        errors := errors + [(name, m)];
    }
    assert calls[..|calls|] == calls;
  }

  /** Every call is reported once: as a result or as an error. */
  lemma {:induction false} BatchPartition<T>(calls: seq<(string, CallResult<T>)>)
    ensures |Successes(calls)| + |Failures(calls)| == |calls|
    ensures |Failures(calls)| == 0 <==> forall i | 0 <= i < |calls| :: calls[i].1.Returned?
  {
    if |calls| > 0 {
      var init := calls[..|calls| - 1];
      BatchPartition(init);
      assert forall i | 0 <= i < |init| :: init[i] == calls[i];
    }
  }

  // ---------------------------------------------------------------------------
  // APICache, cachedAPICall and clearCache

  datatype CacheEntry<T> = CacheEntry(data: Reply<T>, timestamp: int)

  /** The entry for `key` is still fresh at time `now`. */
  predicate Fresh<T>(entries: map<string, CacheEntry<T>>, key: string, now: int, ttl: int) {
    key in entries && now - entries[key].timestamp < ttl
  }

  /** `APICache`: a map from keys to timestamped data with a fixed time to
      live. */
  class ApiCache<T> {
    var entries: map<string, CacheEntry<T>>
    const ttl: int

    constructor ()
      ensures entries == map[] && ttl == CacheTtl
    {
      entries := map[];
      ttl := CacheTtl;
    }

    /** `set(key, data)`: overwrite the entry, stamped with the current time. */
    method Set(key: string, data: Reply<T>, now: int)
      modifies this
      ensures entries == old(entries)[key := CacheEntry(data, now)]
    {
      entries := entries[key := CacheEntry(data, now)];
    }

    /** `get(key)`: the data of a fresh entry; otherwise the entry is removed
        and nothing is returned. */
    method Get(key: string, now: int) returns (r: Option<Reply<T>>)
      modifies this
      ensures Fresh(old(entries), key, now, ttl) ==> r == Some(old(entries)[key].data) && entries == old(entries)
      ensures !Fresh(old(entries), key, now, ttl) ==> r == None && entries == old(entries) - {key}
    {
      if key in entries && now - entries[key].timestamp < ttl {
        return Some(entries[key].data);
      }
      entries := entries - {key};
      return None;
    }

    method Clear()
      modifies this
      ensures entries == map[]
    {
      entries := map[];
    }

    method Delete(key: string)
      modifies this
      ensures entries == old(entries) - {key}
    {
      entries := entries - {key};
    }

    /** `clearCache(pattern)`: with a non-empty pattern, delete every key that
        contains it, one key at a time; with none, empty the cache. */
    method ClearCache(pattern: Option<string>)
      modifies this
      ensures pattern.Some? && pattern.value != "" ==>
                entries == map k | k in old(entries) && !Contains(k, pattern.value) :: old(entries)[k]
      ensures pattern.None? || pattern.value == "" ==> entries == map[]
    {
      if pattern.Some? && pattern.value != "" {
        var p := pattern.value;
        var pending := entries.Keys;
        ghost var done: set<string> := {};
        while pending != {}
          invariant pending + done == old(entries).Keys && pending !! done
          invariant entries == map k | k in old(entries) && !(k in done && Contains(k, p)) :: old(entries)[k]
          decreases pending
        {
          var key :| key in pending;
          if Contains(key, p) {
            Delete(key);
          }
          pending := pending - {key};
          done := done + {key};
        }
      } else {
        Clear();
      }
    }

    /** `cachedAPICall(cacheKey, apiFunction)`: a fresh truthy entry is
        returned without calling the API; otherwise the API is called (its
        outcome is `fetched`, finishing at time `doneAt`) and a returned value
        is stored. */
    method CachedApiCall(cacheKey: string, now: int, fetched: CallResult<T>, doneAt: int)
      returns (r: CallResult<T>, called: bool)
      modifies this
      ensures var hit := Fresh(old(entries), cacheKey, now, ttl) && old(entries)[cacheKey].data.Truthy();
              && called == !hit
              && (hit ==> r == Returned(old(entries)[cacheKey].data) && entries == old(entries))
              && (!hit ==> r == fetched)
              && (!hit && fetched.Returned? ==> entries == old(entries)[cacheKey := CacheEntry(fetched.reply, doneAt)])
              && (!hit && fetched.Threw? ==>
                    entries == if Fresh(old(entries), cacheKey, now, ttl) then old(entries) else old(entries) - {cacheKey})
    {
      var cached := Get(cacheKey, now);
      if cached.Some? && cached.value.Truthy() {
        return Returned(cached.value), false;
      }
      called := true;
      r := fetched;
      if fetched.Returned? {
        Set(cacheKey, fetched.reply, doneAt);
      }
    }
  }

  /** A value set at time t is read back until `ttl` has elapsed and not
      afterwards: with the five-minute TTL, a read one millisecond before
      expiry hits and one at or after expiry misses. */
  lemma CacheWindow<T>(entries: map<string, CacheEntry<T>>, key: string, data: Reply<T>, t: int, now: int)
    ensures Fresh(entries[key := CacheEntry(data, t)], key, now, CacheTtl) <==> now < t + CacheTtl
    ensures Fresh(entries[key := CacheEntry(data, t)], key, t + CacheTtl - 1, CacheTtl)
    ensures !Fresh(entries[key := CacheEntry(data, t)], key, t + CacheTtl, CacheTtl)
  {
  }

  /** Invalidating by "tasks" removes exactly the keys about tasks. */
  lemma ClearByTasksExample(d: Reply<int>)
    ensures var old_ := map["tasks:1" := CacheEntry(d, 0), "tasks:2" := CacheEntry(d, 0), "employees:1" := CacheEntry(d, 0)];
            (map k | k in old_ && !Contains(k, "tasks") :: old_[k]) == map["employees:1" := CacheEntry(d, 0)]
  {
    var old_ := map["tasks:1" := CacheEntry(d, 0), "tasks:2" := CacheEntry(d, 0), "employees:1" := CacheEntry(d, 0)];
    assert OccursAt("tasks:1", "tasks", 0) && OccursAt("tasks:2", "tasks", 0);
    assert !Contains("employees:1", "tasks") by {
      forall i | 0 <= i <= |"employees:1"| - |"tasks"| ensures !OccursAt("employees:1", "tasks", i) {
        assert "employees:1"[i] != 't';
      }
    }
  }
}
