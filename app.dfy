/** The application controller (frontend/app.js): the global `app` state with
    its current screen, loading flag and bounded notification history, the
    role gating of the dashboard buttons and navigation cards. The DOM is
    reduced to which elements exist; times are passed in as text. */
module App {
  import opened Common
  import opened Auth

  /** An entry of `app.notifications`. */
  datatype Notification = Notification(message: string, kind: string, timestamp: string)

  /** `slice(-10)`: how many notifications are kept. */
  const HistoryLimit := 10

  /** Push then keep only the last `HistoryLimit` entries. */
  function Record(history: seq<Notification>, n: Notification): (r: seq<Notification>)
    ensures |r| <= HistoryLimit && |r| >= 1 && r[|r| - 1] == n
    ensures |r| == if |history| + 1 > HistoryLimit then HistoryLimit else |history| + 1
    ensures r == (history + [n])[|history| + 1 - |r|..]
  {
    var pushed := history + [n];
    if |pushed| > HistoryLimit then pushed[|pushed| - HistoryLimit..] else pushed
  }

  /** The last `HistoryLimit` entries of a sequence (all of them when there
      are fewer). */
  function LastEntries(s: seq<Notification>): (r: seq<Notification>)
    ensures |r| <= HistoryLimit
    ensures |s| <= HistoryLimit ==> r == s
    ensures |s| > HistoryLimit ==> |r| == HistoryLimit && r == s[|s| - HistoryLimit..]
  {
    if |s| > HistoryLimit then s[|s| - HistoryLimit..] else s
  }

  /** The history after showing `shown` in order, starting from `history`. */
  function RecordAll(history: seq<Notification>, shown: seq<Notification>): seq<Notification>
    decreases |shown|
  {
    if |shown| == 0 then history
    else Record(RecordAll(history, shown[..|shown| - 1]), shown[|shown| - 1])
  }

  /** Trimming after every push loses nothing trimming once at the end would
      keep: the history is always the most recent notifications of all ever
      shown, oldest first. */
  lemma {:induction false} RecordAllKeepsLast(shown: seq<Notification>)
    ensures RecordAll([], shown) == LastEntries(shown)
    decreases |shown|
  {
    if |shown| > 0 {
      var init := shown[..|shown| - 1];
      RecordAllKeepsLast(init);
      var last := shown[|shown| - 1];
      assert shown == init + [last];
      if |init| > HistoryLimit {
        LastEntriesStep(init, last);
      }
    }
  }

  /** Pushing onto a full window and trimming is the window of the longer
      sequence. */
  lemma LastEntriesStep(init: seq<Notification>, last: Notification)
    requires |init| > HistoryLimit
    ensures Record(LastEntries(init), last) == LastEntries(init + [last])
  {
    assert LastEntries(init) + [last] == (init + [last])[|init| - HistoryLimit..];
  }

  /** The supervisor-dashboard and admin-panel buttons and cards are for
      supervisors and administrators. */
  predicate ManagesTeams(user: Option<SessionUser>) {
    HasRole(user, "supervisor") || HasRole(user, "admin")
  }

  /** The three buttons of the dashboard navigation. */
  datatype Button = SupervisorDashboardButton | AdminPanelButton | EmployeeTasksButton

  /** What a click leads to: a screen, or an error shown instead. */
  datatype Click = Navigate(screen: string) | Denied(message: string)

  /** The click handlers of `initializeScreenNavigation`. */
  function ClickResult(button: Button, user: Option<SessionUser>): (r: Click)
    ensures r.Navigate? <==> button == EmployeeTasksButton || ManagesTeams(user)
    ensures r.Navigate? ==> r.screen == match button
                                         case SupervisorDashboardButton => "supervisorDashboard"
                                         case AdminPanelButton => "adminPanel"
                                         case EmployeeTasksButton => "employeeTasks"
  {
    match button
    case SupervisorDashboardButton =>
      if ManagesTeams(user) then Navigate("supervisorDashboard")
      else Denied("You do not have permission to access the supervisor dashboard.")
    case AdminPanelButton =>
      if ManagesTeams(user) then Navigate("adminPanel")
      else Denied("You do not have permission to access the admin panel.")
    case EmployeeTasksButton => Navigate("employeeTasks")
  }

  /** The buttons a signed-in user may use are exactly those the role's
      navigation shows: the supervisor entry of `updateNavigationForRole`
      appears for the same roles that may open the two team screens. */
  lemma ButtonsMatchNavigation(user: SessionUser)
    ensures ClickResult(SupervisorDashboardButton, Some(user)).Navigate? <==> NavFor(user.role).supervisor
    ensures ClickResult(AdminPanelButton, Some(user)).Navigate? <==> NavFor(user.role).supervisor
    ensures ClickResult(EmployeeTasksButton, Some(user)).Navigate? == NavFor(user.role).employee
  {
  }

  const LoginScreen := "loginScreen"
  const PageNotFound := "Requested page not found"
  const DashboardNoUser := "Failed to load dashboard data: User not authenticated"
  const TasksLoadFailed := "Failed to load your tasks. Please try again."

  /** The loading flag once a screen's initialiser has reached its first
      `await` (or finished, when it fails before one). */
  function ScreenLoading(screenId: string, user: Option<SessionUser>, employeeIdKnown: bool,
                         before: bool): (r: bool)
    ensures screenId == "adminPanel" ==> r
    ensures screenId == "supervisorDashboard" ==> r == user.Some?
    ensures screenId == "employeeTasks" && user.None? ==> !r
    ensures screenId !in TeamScreens ==> r == before
  {
    match screenId
    case "supervisorDashboard" => user.Some?
    case "adminPanel" => true
    case "employeeTasks" => if user.None? then false else if employeeIdKnown then true else before
    case _ => before
  }

  /** The screens whose initialisers load data from the backend. */
  const TeamScreens := {"adminPanel", "supervisorDashboard", "employeeTasks"}

  /** Showing a team screen with a user starts an API call before the
      initialiser's first `await`; its token check signs out a user whose
      token has expired. */
  predicate SignsOutOn(screenId: string, user: Option<SessionUser>, nowMs: int) {
    screenId in TeamScreens && TokenExpired(user, nowMs)
  }

  /** The error a screen's initialiser shows before its first `await`. */
  function ScreenError(screenId: string, user: Option<SessionUser>): (r: Option<string>)
    ensures r.Some? <==> user.None? && screenId in {"supervisorDashboard", "employeeTasks"}
  {
    if user.Some? then None
    else if screenId == "supervisorDashboard" then Some(DashboardNoUser)
    else if screenId == "employeeTasks" then Some(TasksLoadFailed)
    else None
  }

  /** The global `app` object, with the display of the two team cards. */
  class AppState {
    var currentScreen: string
    var isLoading: bool
    var notifications: seq<Notification>
    var supervisorCardShown: bool
    var adminCardShown: bool

    constructor ()
      ensures currentScreen == LoginScreen && !isLoading && notifications == []
      ensures supervisorCardShown && adminCardShown
    {
      currentScreen := LoginScreen;
      isLoading := false;
      notifications := [];
      supervisorCardShown, adminCardShown := true, true;
    }

    /** `showNotification`: without the container nothing happens; otherwise
        the entry is recorded and only the ten most recent are kept. */
    method ShowNotification(message: string, kind: string, timestamp: string, containerPresent: bool)
      modifies this
      ensures currentScreen == old(currentScreen) && isLoading == old(isLoading)
      ensures supervisorCardShown == old(supervisorCardShown) && adminCardShown == old(adminCardShown)
      ensures !containerPresent ==> notifications == old(notifications)
      ensures containerPresent ==> notifications == Record(old(notifications), Notification(message, kind, timestamp))
    {
      if !containerPresent {
        return;
      }
      notifications := notifications + [Notification(message, kind, timestamp)];
      if |notifications| > HistoryLimit {
        notifications := notifications[|notifications| - HistoryLimit..];
      }
    }

    /** `showError`. */
    method ShowError(message: string, timestamp: string, containerPresent: bool)
      modifies this
      ensures currentScreen == old(currentScreen) && isLoading == old(isLoading)
      ensures supervisorCardShown == old(supervisorCardShown) && adminCardShown == old(adminCardShown)
      ensures notifications == if containerPresent
                               then Record(old(notifications), Notification(message, "error", timestamp))
                               else old(notifications)
    {
      ShowNotification(message, "error", timestamp, containerPresent);
    }

    /** `updateNavigationAccess`: with a user, each team card is shown exactly
        when the user is a supervisor or an administrator; without one,
        nothing changes. */
    method UpdateNavigationAccess(user: Option<SessionUser>)
      modifies this
      ensures currentScreen == old(currentScreen) && isLoading == old(isLoading)
      ensures notifications == old(notifications)
      ensures user.None? ==> supervisorCardShown == old(supervisorCardShown) && adminCardShown == old(adminCardShown)
      ensures user.Some? ==> supervisorCardShown == adminCardShown == (user.value.role in {"supervisor", "admin"})
    {
      if user.None? {
        return;
      }
      var shown := user.value.role == "supervisor" || user.value.role == "admin";
      supervisorCardShown, adminCardShown := shown, shown;
    }

    /** The token check every API call starts with (`checkTokenExpiry`,
        which calls `getAuthToken`): an expired token signs the user out,
        and the sign-out's `updateAuthUI` shows the login screen, or reports
        "Requested page not found" when the page has none. A valid token, no
        user or an undecodable token change nothing. */
    method CheckTokenExpiry(screens: set<string>, session: Session, nowMs: int,
                            timestamp: string, containerPresent: bool)
      modifies this, session
      ensures session.nav == old(session.nav) && isLoading == old(isLoading)
      ensures supervisorCardShown == old(supervisorCardShown) && adminCardShown == old(adminCardShown)
      ensures !TokenExpired(old(session.currentUser), nowMs) ==>
                && session.currentUser == old(session.currentUser) && session.isSignedIn == old(session.isSignedIn)
                && currentScreen == old(currentScreen) && notifications == old(notifications)
      ensures TokenExpired(old(session.currentUser), nowMs) ==>
                && session.currentUser == None && !session.isSignedIn
                && currentScreen == (if LoginScreen in screens then LoginScreen else old(currentScreen))
                && notifications == (if LoginScreen !in screens && containerPresent
                                     then Record(old(notifications), Notification(PageNotFound, "error", timestamp))
                                     else old(notifications))
    {
      var before := session.currentUser;
      var token := session.GetAuthToken(nowMs);
      if before.Some? && session.currentUser.None? {
        if LoginScreen in screens {
          currentScreen := LoginScreen;
        } else {
          ShowError(PageNotFound, timestamp, containerPresent);
        }
      }
    }

    /** `showScreen` given the ids of the screens the page has: any other id
        keeps the current screen and shows "Requested page not found". An
        existing screen becomes current and its initialiser runs up to its
        first `await`: the admin panel starts loading; the supervisor
        dashboard starts loading, or without a user reports that and stops
        loading; the employee screen without a user reports the load failure
        and stops loading, and with the user's employee id already known
        starts loading; the navigation screen refreshes the cards. With a
        user, each team screen then starts an API call, whose token check
        signs an expired user out and shows the login screen instead. */
    method ShowScreen(screenId: string, screens: set<string>, session: Session, nowMs: int,
                      employeeIdKnown: bool, timestamp: string, containerPresent: bool)
      modifies this, session
      ensures session.nav == old(session.nav)
      ensures screenId !in screens ==>
                && currentScreen == old(currentScreen) && isLoading == old(isLoading)
                && notifications == (if containerPresent
                                     then Record(old(notifications), Notification(PageNotFound, "error", timestamp))
                                     else old(notifications))
                && supervisorCardShown == old(supervisorCardShown) && adminCardShown == old(adminCardShown)
      ensures !(screenId in screens && SignsOutOn(screenId, old(session.currentUser), nowMs)) ==>
                session.currentUser == old(session.currentUser) && session.isSignedIn == old(session.isSignedIn)
      ensures screenId in screens && !SignsOutOn(screenId, old(session.currentUser), nowMs) ==>
                currentScreen == screenId
      ensures screenId in screens && SignsOutOn(screenId, old(session.currentUser), nowMs) ==>
                && session.currentUser == None && !session.isSignedIn
                && currentScreen == (if LoginScreen in screens then LoginScreen else screenId)
      ensures screenId in screens && (screenId != "dashboardNav" || old(session.currentUser).None?) ==>
                supervisorCardShown == old(supervisorCardShown) && adminCardShown == old(adminCardShown)
      ensures screenId in screens ==>
                isLoading == ScreenLoading(screenId, old(session.currentUser), employeeIdKnown, old(isLoading))
      ensures screenId in screens ==>
                notifications == (match ScreenError(screenId, old(session.currentUser))
                                  case Some(m) =>
                                    if containerPresent then Record(old(notifications), Notification(m, "error", timestamp))
                                    else old(notifications)
                                  case None =>
                                    if SignsOutOn(screenId, old(session.currentUser), nowMs)
                                       && LoginScreen !in screens && containerPresent
                                    then Record(old(notifications), Notification(PageNotFound, "error", timestamp))
                                    else old(notifications))
      ensures screenId in screens && screenId == "dashboardNav" && old(session.currentUser).Some? ==>
                supervisorCardShown == adminCardShown == (old(session.currentUser).value.role in {"supervisor", "admin"})
    {
      var user := session.currentUser;
      if screenId !in screens {
        ShowError(PageNotFound, timestamp, containerPresent);
        return;
      }
      currentScreen := screenId;
      match screenId
      case "supervisorDashboard" =>
        if user.None? {
          ShowError(DashboardNoUser, timestamp, containerPresent);
          ShowLoading(false);
        } else {
          ShowLoading(true);
          CheckTokenExpiry(screens, session, nowMs, timestamp, containerPresent);
        }
      case "adminPanel" =>
        ShowLoading(true);
        CheckTokenExpiry(screens, session, nowMs, timestamp, containerPresent);
      case "employeeTasks" =>
        if user.None? {
          ShowLoading(false);
          ShowError(TasksLoadFailed, timestamp, containerPresent);
        } else {
          if employeeIdKnown {
            ShowLoading(true);
          }
          CheckTokenExpiry(screens, session, nowMs, timestamp, containerPresent);
        }
      case "dashboardNav" =>
        UpdateNavigationAccess(user);
      case _ =>
    }

    /** A click on one of the navigation buttons: an allowed click on a
        screen the page has navigates there (or, with an expired token, to
        the login screen) and runs its initialiser as `showScreen` does; a
        screen the page lacks shows "Requested page not found"; a denied
        click shows the error. No click touches the team cards. */
    method Click(button: Button, screens: set<string>, session: Session, nowMs: int,
                 employeeIdKnown: bool, timestamp: string, containerPresent: bool)
      modifies this, session
      ensures session.nav == old(session.nav)
      ensures var c := ClickResult(button, old(session.currentUser));
              c.Navigate? && c.screen in screens ==>
                && currentScreen == (if TokenExpired(old(session.currentUser), nowMs) && LoginScreen in screens
                                     then LoginScreen else c.screen)
                && isLoading == ScreenLoading(c.screen, old(session.currentUser), employeeIdKnown, old(isLoading))
                && (TokenExpired(old(session.currentUser), nowMs) <==>
                      old(session.currentUser).Some? && session.currentUser.None? && !session.isSignedIn)
      ensures supervisorCardShown == old(supervisorCardShown) && adminCardShown == old(adminCardShown)
      ensures !TokenExpired(old(session.currentUser), nowMs) ==>
                session.currentUser == old(session.currentUser) && session.isSignedIn == old(session.isSignedIn)
      ensures var c := ClickResult(button, old(session.currentUser));
              c.Navigate? && c.screen in screens ==>
                notifications == (match ScreenError(c.screen, old(session.currentUser))
                                  case Some(m) =>
                                    if containerPresent then Record(old(notifications), Notification(m, "error", timestamp))
                                    else old(notifications)
                                  case None =>
                                    if TokenExpired(old(session.currentUser), nowMs)
                                       && LoginScreen !in screens && containerPresent
                                    then Record(old(notifications), Notification(PageNotFound, "error", timestamp))
                                    else old(notifications))
      ensures var c := ClickResult(button, old(session.currentUser));
              c.Navigate? && c.screen !in screens ==>
                && currentScreen == old(currentScreen) && isLoading == old(isLoading)
                && session.currentUser == old(session.currentUser) && session.isSignedIn == old(session.isSignedIn)
                && notifications == (if containerPresent
                                     then Record(old(notifications), Notification(PageNotFound, "error", timestamp))
                                     else old(notifications))
      ensures var c := ClickResult(button, old(session.currentUser));
              currentScreen != old(currentScreen) ==>
                c.Navigate? && (currentScreen == c.screen
                                || (currentScreen == LoginScreen && TokenExpired(old(session.currentUser), nowMs)))
      ensures var c := ClickResult(button, old(session.currentUser));
              c.Denied? ==>
                && currentScreen == old(currentScreen) && isLoading == old(isLoading)
                && session.currentUser == old(session.currentUser) && session.isSignedIn == old(session.isSignedIn)
                && notifications == (if containerPresent
                                     then Record(old(notifications), Notification(c.message, "error", timestamp))
                                     else old(notifications))
    {
      var c := ClickResult(button, session.currentUser);
      if c.Navigate? {
        assert c.screen in TeamScreens;
        ShowScreen(c.screen, screens, session, nowMs, employeeIdKnown, timestamp, containerPresent);
      } else {
        ShowError(c.message, timestamp, containerPresent);
      }
    }

    /** `showLoading(show)`. */
    method ShowLoading(show: bool)
      modifies this
      ensures isLoading == show
      ensures currentScreen == old(currentScreen) && notifications == old(notifications)
      ensures supervisorCardShown == old(supervisorCardShown) && adminCardShown == old(adminCardShown)
    {
      isLoading := show;
    }
  }
}
