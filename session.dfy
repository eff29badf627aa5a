/** The login/session state machine of the hostel manager. The session is
    held in four fields that the application script updates in place on
    each execution; time is an integer count of microseconds supplied by
    the caller instead of a clock read. */
module Auth {
  import opened Credentials
  import Menu

  const SessionTimeoutMinutes: int := 10
  const MicrosPerMinute: int := 60_000_000

  /** The inactivity timeout as a duration in microseconds, the resolution
      of the timestamps the application compares. */
  const SessionTimeout: int := SessionTimeoutMinutes * MicrosPerMinute

  /** The value of the four session fields at one moment. */
  datatype SessionState = SessionState(loggedIn: bool, username: string, role: string, lastActive: int)

  /** The session invariant: a logged-in session belongs to a registered
      user and carries that user's role; a logged-out one carries neither a
      name nor a role. */
  predicate Consistent(s: SessionState) {
    (s.loggedIn ==> s.username in Users && s.role == Users[s.username].role) &&
    (!s.loggedIn ==> s.username == "" && s.role == "")
  }

  /** The fields as created on a client's first request. */
  function Initial(now: int): (r: SessionState)
    ensures Consistent(r) && !r.loggedIn && r.lastActive == now
  {
    SessionState(false, "", "", now)
  }

  /** The fields after `logout`: identity cleared, activity time kept. */
  function LoggedOut(s: SessionState): (r: SessionState)
    ensures Consistent(r) && !r.loggedIn && r.lastActive == s.lastActive
  {
    s.(loggedIn := false, username := "", role := "")
  }

  /** A logged-in session whose idle time is strictly over the timeout. */
  predicate Expired(s: SessionState, now: int) {
    s.loggedIn && now - s.lastActive > SessionTimeout
  }

  /** The fields after the inactivity check of one request. */
  function Ticked(s: SessionState, now: int): (r: SessionState)
    ensures Consistent(s) ==> Consistent(r)
    ensures r.loggedIn ==> s.loggedIn && now - s.lastActive <= SessionTimeout && r.lastActive == now
    ensures s.loggedIn && now - s.lastActive <= SessionTimeout ==> r.loggedIn
    ensures r.loggedIn ==> r.username == s.username && r.role == s.role
  {
    if !s.loggedIn then s
    else if now - s.lastActive > SessionTimeout then LoggedOut(s)
    else s.(lastActive := now)
  }

  /** The fields after the login button is pressed with the given
      credentials. */
  function LoggedIn(s: SessionState, username: string, password: string, now: int): (r: SessionState)
    ensures r.loggedIn <==> s.loggedIn || Authenticates(username, password)
    ensures Consistent(s) ==> Consistent(r)
  {
    if Authenticates(username, password)
    then SessionState(true, username, Users[username].role, now)
    else s
  }

  /** Logout leaves a logged-out, consistent session with its activity time
      untouched, and a second logout changes nothing. */
  lemma LogoutProperties(s: SessionState)
    ensures Consistent(LoggedOut(s)) && !LoggedOut(s).loggedIn
    ensures LoggedOut(s).username == "" && LoggedOut(s).role == ""
    ensures LoggedOut(s).lastActive == s.lastActive
    ensures LoggedOut(LoggedOut(s)) == LoggedOut(s)
  {
  }

  /** Login succeeds exactly on a registered name with its own password,
      and then records the user, the user's role and the time; a refused
      attempt changes none of the four fields. */
  lemma LoginOutcome(s: SessionState, username: string, password: string, now: int)
    ensures LoggedIn(s, username, password, now).loggedIn <==>
              s.loggedIn || Authenticates(username, password)
    ensures Authenticates(username, password) ==>
              LoggedIn(s, username, password, now) ==
                SessionState(true, username, Users[username].role, now)
    ensures !Authenticates(username, password) ==> LoggedIn(s, username, password, now) == s
  {
  }

  /** Over the timeout, the inactivity check is exactly a logout; at the
      timeout or under it, the session stays and its activity time moves to
      `now`; a logged-out session is left alone. */
  lemma TickOutcome(s: SessionState, now: int)
    ensures Expired(s, now) ==> Ticked(s, now) == LoggedOut(s)
    ensures s.loggedIn && !Expired(s, now) ==>
              Ticked(s, now) == s.(lastActive := now) && Ticked(s, now).loggedIn
    ensures !s.loggedIn ==> Ticked(s, now) == s
  {
  }

  /** The boundary is strict: ten minutes of idleness keep the session,
      one microsecond more ends it. */
  lemma TimeoutBoundary(s: SessionState)
    requires s.loggedIn
    ensures Ticked(s, s.lastActive + SessionTimeout).loggedIn
    ensures !Ticked(s, s.lastActive + SessionTimeout + 1).loggedIn
  {
  }

  /** What a visitor does during one execution of the script. A login form
      submission only exists while the login page is shown and a logout
      click only while the main page is shown; in the other state it is
      treated as no action. */
  datatype Interaction = Idle | SubmitLogin(username: string, password: string) | ClickLogout

  /** How one execution of the script ends: it restarts itself (after
      expiry, a successful login or a logout), it stops on the login page,
      or it reaches the main page with the menu for the session's role. */
  datatype Page = Restart | LoginPage | MainPage(menu: seq<Menu.Action>)

  datatype RunResult = RunResult(state: SessionState, page: Page)

  /** One execution of the script on an existing session: the inactivity
      check, then the login gate, then the logout button and the menu. */
  function ScriptRun(s: SessionState, now: int, act: Interaction): (r: RunResult)
    ensures Consistent(s) ==> Consistent(r.state)
    ensures r.page.MainPage? ==> r.state.loggedIn && r.state.lastActive == now
    ensures r.state.loggedIn && !s.loggedIn ==> act.SubmitLogin? && r.page == Restart
  {
    if Expired(s, now) then RunResult(LoggedOut(s), Restart)
    else
      var t := Ticked(s, now);
      if !t.loggedIn then
        match act
        case SubmitLogin(u, p) =>
          if Authenticates(u, p) then RunResult(LoggedIn(t, u, p, now), Restart)
          else RunResult(t, LoginPage)
        case _ => RunResult(t, LoginPage)
      else
        match act
        case ClickLogout => RunResult(LoggedOut(t), Restart)
        case _ => RunResult(t, MainPage(Menu.MenuFor(t.role)))
  }

  /** The main page is reached only by a logged-in session that was active
      within the timeout; it leaves the session refreshed to `now`, and its
      menu offers the mutating actions exactly to the admin user. */
  lemma MainPageGate(s: SessionState, now: int, act: Interaction, menu: seq<Menu.Action>)
    requires Consistent(s)
    requires ScriptRun(s, now, act).page == MainPage(menu)
    ensures s.loggedIn && now - s.lastActive <= SessionTimeout
    ensures ScriptRun(s, now, act).state == s.(lastActive := now)
    ensures forall a :: a in Menu.Mutating ==> (a in menu <==> s.username == "admin")
  {
  }

  /** Conversely, a logged-in session idle at most ten minutes reaches the
      main page with its role's menu, refreshed to `now`, unless the logout
      button is clicked, which logs it out and restarts the script. */
  lemma LiveSessionReachesMainPage(s: SessionState, now: int, act: Interaction)
    requires Consistent(s) && s.loggedIn && now - s.lastActive <= SessionTimeout
    ensures !act.ClickLogout? ==>
              ScriptRun(s, now, act) == RunResult(s.(lastActive := now), MainPage(Menu.MenuFor(s.role)))
    ensures act.ClickLogout? ==>
              ScriptRun(s, now, act) == RunResult(LoggedOut(s.(lastActive := now)), Restart)
  {
  }

  /** The admin user, while the session is live, is offered the full admin
      menu. */
  lemma AdminSeesAdminMenu(s: SessionState, now: int)
    requires Consistent(s) && s.loggedIn && s.username == "admin"
    requires now - s.lastActive <= SessionTimeout
    ensures ScriptRun(s, now, Idle).page == MainPage(Menu.AdminActions)
  {
  }

  /** An expired session is logged out whatever the visitor does, and a
      session that was logged out stays out unless valid credentials are
      submitted. */
  lemma RunLogsInOnlyWithCredentials(s: SessionState, now: int, act: Interaction)
    requires !s.loggedIn || Expired(s, now)
    ensures ScriptRun(s, now, act).state.loggedIn <==>
              !s.loggedIn && act.SubmitLogin? && Authenticates(act.username, act.password)
  {
  }

  /** The session after a sequence of script executions, each at its own
      time with its own interaction. */
  function Replay(s: SessionState, times: seq<int>, acts: seq<Interaction>): SessionState
    requires |times| == |acts|
    decreases |acts|
  {
    if acts == [] then s
    else Replay(ScriptRun(s, times[0], acts[0]).state, times[1..], acts[1..])
  }

  /** The invariant holds after any sequence of executions. */
  lemma {:induction false} ReplayKeepsConsistent(s: SessionState, times: seq<int>, acts: seq<Interaction>)
    requires |times| == |acts|
    requires Consistent(s)
    ensures Consistent(Replay(s, times, acts))
    decreases |acts|
  {
    if acts != [] {
      ReplayKeepsConsistent(ScriptRun(s, times[0], acts[0]).state, times[1..], acts[1..]);
    }
  }

  /** A visitor logs in as admin, stays idle for eleven minutes and loads
      the page again: the session has expired and the script restarts on a
      logged-out session. */
  lemma AdminExpiresAfterElevenMinutes(t: int)
    ensures ScriptRun(Initial(t), t, SubmitLogin("admin", "admin123")) ==
              RunResult(SessionState(true, "admin", "admin", t), Restart)
    ensures ScriptRun(SessionState(true, "admin", "admin", t), t + 11 * MicrosPerMinute, Idle) ==
              RunResult(SessionState(false, "", "", t), Restart)
  {
  }

  /** A wrong password leaves the visitor logged out on the login page, and
      the viewer's menu offers no mutating action. */
  lemma WrongPasswordAndViewerMenu(t: int)
    ensures ScriptRun(Initial(t), t, SubmitLogin("admin", "wrongpass")) ==
              RunResult(Initial(t), LoginPage)
    ensures ScriptRun(SessionState(true, "viewer", "viewer", t), t, Idle).page ==
              MainPage(Menu.ReadOnlyActions)
    ensures Menu.Delete !in Menu.ReadOnlyActions && Menu.ViewAll in Menu.ReadOnlyActions
  {
  }

  /** The session as the application holds it: four fields the script
      assigns one by one. */
  class Session {
    var loggedIn: bool
    var username: string
    var role: string
    var lastActive: int

    /** The current value of the four fields. */
    function State(): SessionState
      reads this
    {
      SessionState(loggedIn, username, role, lastActive)
    }

    ghost predicate Valid()
      reads this
    {
      Consistent(State())
    }

    /** First request of a client: logged out, no name, no role, activity
        time set to now. */
    constructor Init(now: int)
      ensures Valid()
      ensures State() == Initial(now)
    {
      loggedIn := false;
      lastActive := now;
      username := "";
      role := "";
    }

    /** Clears the identity fields; the activity time is not touched. */
    method Logout()
      modifies this
      ensures Valid()
      ensures State() == LoggedOut(old(State()))
    {
      loggedIn := false;
      username := "";
      role := "";
    }

    /** The inactivity check run at the start of each request; `expired`
        says whether it logged the session out. */
    method Tick(now: int) returns (expired: bool)
      requires Valid()
      modifies this
      ensures Valid()
      ensures expired == Expired(old(State()), now)
      ensures State() == Ticked(old(State()), now)
    {
      expired := false;
      if loggedIn {
        if now - lastActive > SessionTimeout {
          expired := true;
          Logout();
        } else {
          lastActive := now;
        }
      }
    }

    /** The login button handler; the form is shown only to a logged-out
        session. `ok` says whether the credentials were accepted. */
    method Login(u: string, p: string, now: int) returns (ok: bool)
      requires Valid() && !loggedIn
      modifies this
      ensures Valid()
      ensures ok == Authenticates(u, p)
      ensures State() == LoggedIn(old(State()), u, p, now)
    {
      ok := false;
      if u in Users {
        var user := Users[u];
        if user.password == p {
          loggedIn := true;
          username := u;
          role := user.role;
          lastActive := now;
          ok := true;
        }
      }
    }

    /** One execution of the script on this session. */
    method Run(now: int, act: Interaction) returns (page: Page)
      requires Valid()
      modifies this
      ensures Valid()
      ensures RunResult(State(), page) == ScriptRun(old(State()), now, act)
    {
      var expired := Tick(now);
      if expired {
        return Restart;
      }
      if !loggedIn {
        if act.SubmitLogin? {
          var ok := Login(act.username, act.password, now);
          page := if ok then Restart else LoginPage;
        } else {
          page := LoginPage;
        }
        return;
      }
      if act.ClickLogout? {
        Logout();
        return Restart;
      }
      page := MainPage(Menu.MenuFor(role));
    }
  }
}
