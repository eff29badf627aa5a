# Hostel manager: session, role menu and field validation

This project models the logic of the hostel management application
(`Hostel_manager_db.py`) that decides who may use it and what they are
offered. It proves properties of that model.

- **Credentials.** A fixed registry maps two user names to a plaintext password and a role.
- **Session.** Four fields live in the per-client session store:
  - `logged_in`, `username`, `role`, and `last_active`.
  - They are created on the first request.
  - `logout` clears `logged_in`, `username` and `role` and keeps `last_active`.
  - They are set by the login handler.
  - On every request of a logged-in session, an inactivity check logs the session out once more than ten minutes have passed since `last_active`. Otherwise it refreshes `last_active`. A logged-out session is left unchanged.
- **Script run.** Each request executes the script once, in this order:
  1. the inactivity check;
  2. the login gate, where a logged-out session stops on the login page;
  3. the logout button;
  4. the role menu.
- **Role menu.** "admin" sees eight actions. Any other role sees five, without Add, Update and Delete.
- **Field validator.** `validate_fields` accepts a record when the student name has a non-whitespace character and the phone number is exactly ten digits.

Time is an integer count of microseconds, the resolution of Python's
`datetime`. The caller passes the current time in as `now`. The timeout is
`10 * 60_000_000` and is compared with a strict `>`.

Files:

| file | module | contents |
|---|---|---|
| `credentials.dfy` | `Credentials` | the `USERS` table |
| `fields.dfy` | `Fields` | `validate_fields` and Python's `str.strip` |
| `menu.dfy` | `Menu` | the role menu |
| `session.dfy` | `Auth` | the timeout, the state machine and the `Session` class |

In `session.dfy`:

- `SessionState` and the functions `Initial`, `LoggedOut`, `Ticked`, `LoggedIn` and `ScriptRun` specify the state machine on values.
- The class `Auth.Session` holds the four fields.
- Its methods assign those fields the way the script does.
- Each method is proved to produce the state the matching function specifies.

## Model

| member | source | states |
|---|---|---|
| `Credentials.Authenticates` | Hostel_manager_db.py:110-111 | the `USERS.get` lookup plus password comparison accepts a pair iff it is ("admin", "admin123") or ("viewer", "view123") |
| `Credentials.RegistryRoles` | Hostel_manager_db.py:7-10 | every registered user has role "admin" or "viewer"; only user "admin" has role "admin" |
| `Fields.LeadingSpaces` | Hostel_manager_db.py:69 | the count of leading characters `strip()` drops: all of them are whitespace, and the character after them (if any) is not |
| `Fields.TrailingSpaces` | Hostel_manager_db.py:69 | the count of trailing characters `strip()` drops: all of them are whitespace, and the character before them (if any) is not |
| `Fields.Strip` | Hostel_manager_db.py:69 | `strip()` gives the slice of the input that starts after its leading whitespace, with only whitespace after the slice; the slice neither starts nor ends with whitespace, and is empty iff the input is all whitespace (the `not ...strip()` test) |
| `Fields.CheckFields` | Hostel_manager_db.py:68-75 | which check rejects: a blank name gives the name warning, whatever the phone; otherwise a phone that is not exactly ten digits gives the phone warning; otherwise the fields are accepted |
| `Fields.ValidateFields` | Hostel_manager_db.py:68-75 | true iff the name has a non-whitespace character and the phone has length 10 with every character a digit |
| `Fields.NameCheckedFirst` | Hostel_manager_db.py:69-71 | with a blank name, the verdict does not depend on the phone number |
| `Menu.MenuFor` | Hostel_manager_db.py:130-133 | 8 actions for "admin", 5 for any other role; every action comes from the admin list; Add, Update and Delete appear iff the role is "admin" |
| `Menu.Without` | Hostel_manager_db.py:130-133 | removing actions never lengthens the list |
| `Menu.WithoutMembers` | Hostel_manager_db.py:130-133 | an action is kept iff it is in the list and not excluded |
| `Menu.WithoutKeepsOrder` | Hostel_manager_db.py:130-133 | the filtered list is a subsequence of the original: the kept actions stay in their order |
| `Menu.ReadOnlyIsAdminWithoutMutating` | Hostel_manager_db.py:130-133 | for every role other than "admin", the menu is the admin menu filtered of Add, Update and Delete: a subsequence of the admin menu holding exactly its non-mutating actions |
| `Menu.MenuEntriesDistinct` | Hostel_manager_db.py:131-133 | no menu lists an action twice, and distinct actions have distinct labels |
| `Auth.Initial` | Hostel_manager_db.py:81-85 | the first-request session is logged out, consistent, and active at the creation time |
| `Auth.LoggedOut` | Hostel_manager_db.py:88-91 | the result is logged out and consistent whatever the input, with `last_active` unchanged |
| `Auth.Ticked` | Hostel_manager_db.py:95-101 | keeps the invariant; the session stays logged in iff it was logged in and idle at most ten minutes, and then it keeps its identity and is active at now (details in `TickOutcome`, `TimeoutBoundary`) |
| `Auth.LoggedIn` | Hostel_manager_db.py:109-115 | the session is logged in afterwards iff it was or the credentials are accepted; keeps the invariant (details in `LoginOutcome`) |
| `Auth.ScriptRun` | Hostel_manager_db.py:95-135 | one script run keeps the invariant; the main page leaves a logged-in session active at now; a logged-out session ends logged in only through a login submission that restarts the script |
| `Auth.LogoutProperties` | Hostel_manager_db.py:88-91 | logout clears `logged_in`, `username` and `role`, keeps `last_active`, yields a consistent session, and is idempotent |
| `Auth.LoginOutcome` | Hostel_manager_db.py:109-119 | login succeeds iff the name is registered and the password matches; success sets all four fields to (true, name, registry role, now); failure changes none |
| `Auth.TickOutcome` | Hostel_manager_db.py:95-101 | an expired logged-in session is exactly logged out; a live one keeps identity and moves `last_active` to now; a logged-out one is unchanged |
| `Auth.TimeoutBoundary` | Hostel_manager_db.py:97-99 | exactly ten minutes idle keeps the session; ten minutes and one microsecond ends it |
| `Auth.MainPageGate` | Hostel_manager_db.py:95-135 | a run reaches the main page only for a logged-in session idle at most ten minutes; the session is refreshed to now; Add, Update and Delete are offered iff the user is "admin" |
| `Auth.LiveSessionReachesMainPage` | Hostel_manager_db.py:95-135 | a logged-in session idle at most ten minutes reaches the main page with its role's menu and is refreshed to now, unless logout is clicked, which logs it out and restarts |
| `Auth.AdminSeesAdminMenu` | Hostel_manager_db.py:124-131 | a live admin session is offered the full eight-action admin menu |
| `Auth.RunLogsInOnlyWithCredentials` | Hostel_manager_db.py:95-120 | a logged-out or expired session ends a run logged in iff it was logged out and valid credentials were submitted |
| `Auth.ReplayKeepsConsistent` | Hostel_manager_db.py:81-127 | after any sequence of script runs from a consistent session, the session is still consistent |
| `Auth.AdminExpiresAfterElevenMinutes` | Hostel_manager_db.py:95-117 | logging in as admin, then loading the page eleven minutes later, logs the session out |
| `Auth.WrongPasswordAndViewerMenu` | Hostel_manager_db.py:109-133 | a wrong admin password leaves the session unchanged on the login page; the viewer sees the read-only menu, with View All and without Delete |
| `Auth.Session.Init` | Hostel_manager_db.py:81-85 | the constructor gives the initial fields and establishes the invariant |
| `Auth.Session.Logout` | Hostel_manager_db.py:88-92 | the new fields are `LoggedOut` of the old ones, and the invariant holds |
| `Auth.Session.Tick` | Hostel_manager_db.py:95-101 | the new fields are `Ticked` of the old ones; `expired` reports whether the timeout fired; the invariant is kept |
| `Auth.Session.Login` | Hostel_manager_db.py:109-119 | requires a logged-out session; `ok` is whether the credentials match; the new fields are `LoggedIn` of the old ones; the invariant is kept |
| `Auth.Session.Run` | Hostel_manager_db.py:95-135 | one script execution; the new fields and the page reached are those of `ScriptRun`, and the invariant is kept |

## Left out

- Database access is not modelled. This covers `get_conn`, `add_student`, `get_all_students`, `get_student_by_id`, `delete_student`, `update_student` and the inline search queries. They are SQL sent to PostgreSQL, with no logic of their own.
- The bodies of the menu actions and the CSV/Excel export are not modelled. They only render widgets and call the database.
- Streamlit rendering is not modelled: titles, the sidebar and the warning, error and success messages. `CheckFields` records which warning `validate_fields` would show, but not its text.
- `st.rerun()` and `st.stop()` are modelled only as the page a run ends on (`Restart` or `LoginPage`).
- Clock reads are not modelled. `datetime.now()` becomes the `now` parameter. One `now` per run is exact:
  - line 96 runs only for a logged-in session;
  - line 115 runs only for a logged-out one;
  - line 83 runs only on the first request.
- `Fields.IsDigit` accepts only the ASCII digits `0`-`9`. Python's `str.isdigit` also accepts other Unicode digits, such as superscripts and Arabic-Indic digits. The whitespace set of `str.strip` is modelled in full.
- `Auth.Session.Login` requires a logged-out session, because the login form is drawn only when `logged_in` is false (line 104). The pure `LoggedIn` function is total: on a logged-in session it would overwrite the identity, as the handler's code does.
- Passwords are stored and compared in plaintext, as in the source. Their security is not modelled.
- There is no capability check apart from the menu. The code has no `authorize` function: the only authorisation is which menu entries are offered.
  - The non-admin menu drops exactly Add, Update and Delete; Download stays.
  - On a logged-out session the inactivity check changes nothing, and the login page is shown.
- Session storage per client, and concurrency between requests, are not modelled. Each `Session` object is one client's store.
