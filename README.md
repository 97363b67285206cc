# Campus Folio Connect: role-based access and admin lists, in Dafny

Campus Folio Connect is a single-page app where students keep portfolios and
staff review them. This project models its access-control core and the
in-memory list operations of its two management screens:

- **Session store** (`auth_context.dfy`).
  - The fixed credential table and exact-match login.
  - Logout, and the start-up restore from a storage slot.
  - The derived role flags.
  - The store is a class `AuthProvider` whose methods are proved against pure step functions over a `Session` value.
- **Route guard** (`protected_route.dfy`): the four-way decision (loading, to `/auth` carrying the location, to `/unauthorized`, render).
- **Route table** (`app.dfy`).
  - The fourteen routes, their role lists and post-grant redirects.
  - The catch-all.
  - A bounded visit that follows redirects, so "who reaches which screen" can be stated and proved.
- **Sidebar** (`dashboard_layout.dfy`): the role-indexed entries and the logout handler.
- **Login page** (`auth_page.dfy`): the return path, and the submit handler's error and loading sequence.
- **Students and Admins screens** (`students.dfy`, `admins.dfy`).
  - Search and department scoping.
  - The status badge.
  - The super-admin gate.
  - Add / edit / delete as classes holding a `seq`.
- **Review comment panel** (`portfolio_comments.dfy`): its role gate and submit handler.
- **Support modules.**
  - `common.dfy` (Option).
  - `text.dfy` (ASCII lower-casing and substring search).
  - `ids.dfy` (decimal id strings and a fresh-id rule).
  - `lists.dfy` (`filter` and the replace-by-id `map`).

Three behaviours of the code that the model keeps as they are:

- The super admin's sidebar has seven entries.
- A stored session is taken without any check.
- A layout with no user shows the student entries.

## Model

| member | source | states |
|---|---|---|
| AuthContext.RoleFlagsExclusive | src/contexts/AuthContext.tsx:102-105 | at most one of the super-admin, admin and student flags holds, and exactly one holds when a user is signed in |
| AuthContext.Find | src/contexts/AuthContext.tsx:73 | the lookup returns the first entry whose email and password are both exactly equal, and returns nothing iff no entry matches |
| AuthContext.AuthProvider.constructor | src/contexts/AuthContext.tsx:56-57 | a new provider has no user and is loading; the storage slot is whatever was stored |
| AuthContext.AuthProvider.Restore | src/contexts/AuthContext.tsx:60-66 | the start-up effect takes the stored user when there is one, keeps the user otherwise, and stops loading |
| AuthContext.AuthProvider.Login | src/contexts/AuthContext.tsx:69-87 | the new state and the settled outcome are those of the login step function |
| AuthContext.AuthProvider.Logout | src/contexts/AuthContext.tsx:89-93 | the user and the storage slot become empty and loading is unchanged |
| AuthContext.RestoreTakesStoredUser | src/contexts/AuthContext.tsx:56-66 | from the initial state, start-up ends not loading with the stored user (or none) signed in and mirrored in the slot |
| AuthContext.RestoreIdempotent | src/contexts/AuthContext.tsx:60-66 | running the start-up step twice gives the same state as running it once |
| AuthContext.LoginResolvesIff | src/contexts/AuthContext.tsx:73-83 | login resolves iff some table entry has exactly that email and exactly that password |
| AuthContext.LoginSuccess | src/contexts/AuthContext.tsx:73-78 | on a match, the user and the slot both become the first matching entry without its password, and the user's email is the one typed |
| AuthContext.LoginFailure | src/contexts/AuthContext.tsx:80-86 | with no match, user and slot are unchanged, loading ends, and the promise rejects with an Error saying "Invalid email or password" |
| AuthContext.LoginEndsLoading | src/contexts/AuthContext.tsx:70-86 | loading is false after login, whether it resolves or rejects |
| AuthContext.TransitionsKeepMirrored | src/contexts/AuthContext.tsx:60-93 | restore, login and logout keep the signed-in user equal to the stored one |
| AuthContext.LogoutIdempotent | src/contexts/AuthContext.tsx:89-93 | logging out twice gives the same state as logging out once |
| AuthContext.LoginLogoutRoundTrip | src/contexts/AuthContext.tsx:69-93 | from an empty start-up, any login followed by a logout returns to that state |
| AuthContext.WrongPasswordScenario | src/contexts/AuthContext.tsx:29-53 | john@college.edu with a wrong password is rejected and nobody is signed in |
| AuthContext.SuperAdminScenario | src/contexts/AuthContext.tsx:29-36 | superadmin@college.edu / password123 resolves and signs in a super admin |
| ProtectedRoute.Decide | src/components/ProtectedRoute.tsx:19-33 | placeholder iff loading; to /auth carrying the location iff not loading and signed out; to /unauthorized iff signed in with a role outside a present role list; render otherwise |
| ProtectedRoute.DecideTotal | src/components/ProtectedRoute.tsx:19-33 | every input yields exactly one of the four outcomes |
| ProtectedRoute.EmptyRolesDenyAll | src/components/ProtectedRoute.tsx:28-31 | an empty role list sends every signed-in user to /unauthorized |
| ProtectedRoute.GrantMonotone | src/components/ProtectedRoute.tsx:28 | access granted with a role list is also granted with any list containing it |
| App.FindRouteFirstMatch | src/App.tsx:28-130 | lookup finds the first route with exactly the requested path, and finds none only when no route has it |
| App.LookupListed | src/App.tsx:28-129 | no two routes share a path, so each listed path resolves to its own route |
| App.Table | src/App.tsx:28-129 | each of the fourteen listed paths resolves to its declared route |
| App.UnlistedIsNotFound | src/App.tsx:130 | a path the table does not list renders NotFound for anyone |
| App.RouteRoles | src/App.tsx:29-129 | /auth and /unauthorized are unguarded, / needs only sign-in; student-only, staff and super-admin-only paths admit exactly those roles; /profile redirects to / unguarded |
| App.PostGrantRedirects | src/App.tsx:54-122 | the seven redirecting routes lead to /portfolio, /students, / or /admins as declared |
| App.RedirectTargetsNoStricter | src/App.tsx:50-125 | every role granted a redirecting route is also granted at its target, so a granted redirect is never then forbidden |
| App.GrantedReachesContent | src/App.tsx:32-125 | a signed-in user whom a guarded path admits lands on a content screen, never on an error page |
| App.GuardedIsListed | src/App.tsx:32-125 | a guarded path is one of the listed routes |
| App.SignedOutVisitCarriesPath | src/App.tsx:32-125 | a signed-out visit to a guarded path lands on the login page carrying that path, and the login page reads that path back as its return path |
| App.LoadingWaits | src/components/ProtectedRoute.tsx:19-21 | while loading, every guarded path shows the placeholder, whoever asks |
| App.ForbiddenLandsOnUnauthorized | src/components/ProtectedRoute.tsx:28-31 | a signed-in user whose role a guarded path does not list lands on /unauthorized with no return state |
| App.EveryVisitSettlesSafely | src/App.tsx:28-130 | opening any path, in any session state, settles within two redirects on a screen the session may see |
| DashboardLayout.NavStartsWithCommon | src/components/DashboardLayout.tsx:46-49 | every list starts with Dashboard (/) and My Profile (/profile) |
| DashboardLayout.NavEntriesPerRole | src/components/DashboardLayout.tsx:45-76 | a super admin gets the seven entries, an admin the six and a student or a signed-out layout the five, in source order |
| DashboardLayout.NavHrefsDistinct | src/components/DashboardLayout.tsx:46-75 | within each list the hrefs are pairwise distinct |
| DashboardLayout.EveryEntryReachesContent | src/components/DashboardLayout.tsx:45-76 | every entry offered to a signed-in user opens a screen that user is granted |
| DashboardLayout.HandleLogout | src/components/DashboardLayout.tsx:78-81 | the session becomes logged out and the navigation target is /auth |
| DashboardLayout.LogoutLandsOnLoginForm | src/components/DashboardLayout.tsx:78-81 | after logout, /auth shows the login form |
| AuthPage.ReturnPath | src/pages/Auth.tsx:14 | the return path is the requested path when present and non-empty, otherwise /; it is never empty |
| AuthPage.ViewFor | src/pages/Auth.tsx:41-44 | a signed-in visitor is sent to / and the form is not rendered, iff signed in |
| AuthPage.LoginPage.BeginSubmit | src/pages/Auth.tsx:23-24 | before the login attempt the error is cleared and loading is on |
| AuthPage.LoginPage.FinishSubmit | src/pages/Auth.tsx:26-38 | on success it navigates to the return path; on failure it shows the Error's message, or "Failed to login." for any other thrown value; loading ends either way |
| AuthPage.LoginPage.HandleSubmit | src/pages/Auth.tsx:21-39 | with the real store, a matching login navigates to the return path with no error; any other shows "Invalid email or password"; loading ends and the store takes its login step |
| Students.DefaultDepartment | src/pages/Students.tsx:105 | the form's department is the user's non-empty department, otherwise Computer Science |
| Students.SearchKeepsMatches | src/pages/Students.tsx:111-117 | the search keeps a student iff the lowercased term occurs in the lowercased name, email or student id |
| Students.SearchKeepsOrder | src/pages/Students.tsx:111-117 | the search distributes over concatenation, so it keeps the list's order |
| Students.EmptySearchKeepsAll | src/pages/Students.tsx:111-117 | an empty term keeps every student |
| Students.SearchIgnoresCase | src/pages/Students.tsx:111-117 | searching for a term and for its lower-case form give the same rows |
| Students.ScopedRowsAreOneFilter | src/pages/Students.tsx:120-122 | a super admin sees the whole search result; anyone else sees one filter of the list by search and by department |
| Students.RowsAreScopedSearch | src/pages/Students.tsx:110-122 | the table shows exactly the page's students that match the search and, unless the viewer is a super admin, are in the viewer's department |
| Students.ScopedRowsInDepartment | src/pages/Students.tsx:120-122 | a viewer who is not a super admin sees only rows of the search result whose department is theirs |
| Students.StatusBadge | src/pages/Students.tsx:173-182 | "Complete" and "In Progress" keep their label; any other status reads "Not Started" |
| Students.StudentsPage.constructor | src/pages/Students.tsx:95-108 | the page starts with the five sample students, an empty search and a blank form |
| Students.StudentsPage.Select | src/pages/Students.tsx:100 | selecting a row records it and changes nothing else |
| Students.StudentsPage.AddStudent | src/pages/Students.tsx:124-148 | appends one record with id old length + 1 and status Not Started, then resets the form |
| Students.StudentsPage.EditStudent | src/pages/Students.tsx:150-161 | a no-op with nothing selected; otherwise it replaces the records whose id equals the selected id |
| Students.StudentsPage.DeleteStudent | src/pages/Students.tsx:163-171 | a no-op with nothing selected; otherwise it removes the records whose id equals the selected id |
| Students.AddAppendsOne | src/pages/Students.tsx:126-135 | an add keeps the old records in place and appends one Not Started record whose id is the decimal string of old length + 1 |
| Students.EditTouchesOnlySelected | src/pages/Students.tsx:154-156 | an edit keeps the length and changes only the records with the selected id |
| Students.DeleteRemovesExactlySelected | src/pages/Students.tsx:167 | a delete keeps exactly the records with another id, and the kept and removed counts add up to the old length |
| Students.DeleteKeepsOrder | src/pages/Students.tsx:167 | a delete keeps the remaining records in their order: it distributes over concatenation |
| Students.InitialIdsUnique | src/pages/Students.tsx:45-91 | the sample students have the distinct ids "1" to "5" |
| Students.AddAfterDeleteReusesId | src/pages/Students.tsx:126 | deleting student "2" and then adding gives the new record id "5", which is already in use |
| Students.CorrectedRecord | src/pages/Students.tsx:126-135 | the record an add should append: the same fields, with an id no existing record holds |
| Students.FreshIdKeepsStudentIdsUnique | src/pages/Students.tsx:126-135 | with the corrected id, an add keeps the ids pairwise distinct |
| Students.StudentsPage.AddStudentCorrected | src/pages/Students.tsx:124-148 | the add handler with the corrected id keeps unique ids unique |
| Admins.ViewFor | src/pages/Admins.tsx:95-115 | a viewer who is not a super admin gets the refusal panel and no rows; a super admin gets exactly the matching admins |
| Admins.EmptySearchShowsAll | src/pages/Admins.tsx:95-115 | with an empty search a super admin sees every admin in order, and anyone else the refusal panel |
| Admins.DatePart | src/pages/Admins.tsx:120 | the date is the longest prefix of the timestamp without a 'T' |
| Admins.SearchKeepsOrder | src/pages/Admins.tsx:109-115 | the search distributes over concatenation, so it keeps the list's order |
| Admins.EmptySearchKeepsAll | src/pages/Admins.tsx:109-115 | an empty term keeps every admin |
| Admins.SearchIgnoresCase | src/pages/Admins.tsx:109-115 | searching for a term and for its lower-case form give the same rows |
| Admins.AdminsPage.constructor | src/pages/Admins.tsx:82-93 | the page starts with the four sample admins, an empty search and an empty form |
| Admins.AdminsPage.Select | src/pages/Admins.tsx:87 | selecting a row records it and changes nothing else |
| Admins.AdminsPage.AddAdmin | src/pages/Admins.tsx:117-140 | appends one record with id old length + 1, no managed students and today's date, then empties the form |
| Admins.AdminsPage.EditAdmin | src/pages/Admins.tsx:142-153 | a no-op with nothing selected; otherwise it replaces the records whose id equals the selected id |
| Admins.AdminsPage.DeleteAdmin | src/pages/Admins.tsx:155-163 | a no-op with nothing selected; otherwise it removes the records whose id equals the selected id |
| Admins.AddAppendsOne | src/pages/Admins.tsx:119-129 | an add keeps the old records in place and appends one record whose id is the decimal string of old length + 1, with no students and a date cut from the timestamp |
| Admins.EditTouchesOnlySelected | src/pages/Admins.tsx:146-148 | an edit keeps the length and changes only the records with the selected id |
| Admins.DeleteRemovesExactlySelected | src/pages/Admins.tsx:159 | a delete keeps exactly the records with another id, and the kept and removed counts add up to the old length |
| Admins.DeleteKeepsOrder | src/pages/Admins.tsx:159 | a delete keeps the remaining records in their order: it distributes over concatenation |
| Admins.InitialIdsUnique | src/pages/Admins.tsx:45-78 | the sample admins have the distinct ids "1" to "4" |
| Admins.AddAfterDeleteReusesId | src/pages/Admins.tsx:119 | deleting admin "2" and then adding gives the new record id "4", which is already in use |
| Admins.CorrectedRecord | src/pages/Admins.tsx:119-129 | the record an add should append: the same fields, with an id no existing record holds |
| Admins.FreshIdKeepsAdminIdsUnique | src/pages/Admins.tsx:119-129 | with the corrected id, an add keeps the ids pairwise distinct |
| Admins.AdminsPage.AddAdminCorrected | src/pages/Admins.tsx:117-140 | the add handler with the corrected id keeps unique ids unique |
| Admins.RoutedViewersSeeTable | src/pages/Admins.tsx:95 | whoever the route table lets onto the admins screen passes the screen's own gate |
| PortfolioComments.ShowsPanel | src/components/PortfolioComments.tsx:25-27 | the panel shows iff the user is an admin or a super admin, so never with no user or for a student |
| PortfolioComments.CommentPanel.constructor | src/components/PortfolioComments.tsx:11-12 | the panel starts with no text and not submitting |
| PortfolioComments.CommentPanel.Edit | src/components/PortfolioComments.tsx:42 | typing replaces the text |
| PortfolioComments.CommentPanel.HandleSubmit | src/components/PortfolioComments.tsx:14-23 | submit hands on the typed text, then the text is empty and submitting is false |
| PortfolioComments.NeverShownOnPortfolio | src/components/PortfolioComments.tsx:25 | wherever a visit starts, if it settles on the portfolio screen the panel there is hidden |
| Text.Lower | src/pages/Students.tsx:113-115 | lower-casing keeps the length, maps each character and leaves no upper-case letter |
| Text.LowerIdempotent | src/pages/Students.tsx:113-115 | lower-casing twice is lower-casing once |
| Text.Contains | src/pages/Students.tsx:113-115 | `includes` holds iff the term occurs at some position |
| Text.ContainsEmpty | src/pages/Students.tsx:113-115 | every string includes the empty term |
| Ids.Decimal | src/pages/Students.tsx:126 | `toString` of a number is a non-empty string of digits, with no leading zero unless the number is 0 |
| Ids.ParseDecimalInverse | src/pages/Students.tsx:126 | reading back a number's decimal string gives the number |
| Ids.DecimalInjective | src/pages/Students.tsx:126 | distinct numbers have distinct decimal strings |
| Ids.NextIdAsWritten | src/pages/Students.tsx:126 | the add handlers' id is a non-empty digit string with no leading zero that reads back as old length + 1, so by `Ids.CanonicalIsDecimal` it is exactly `toString` of that number |
| Ids.CanonicalIsDecimal | src/pages/Students.tsx:126 | a non-empty digit string with no leading zero is the decimal string of the number it reads as: `toString` has one output per number |
| Ids.FreshId | src/pages/Students.tsx:126 | the corrected id is not any existing id |
| Ids.FreshIdKeepsUnique | src/pages/Students.tsx:126 | appending the corrected id to distinct ids keeps them distinct |
| Lists.Filter | src/pages/Students.tsx:111-117 | `filter` keeps exactly the elements that pass, and never lengthens the list |
| Lists.FilterAppend | src/pages/Students.tsx:111-117 | filtering distributes over concatenation |
| Lists.FilterKeepsAll | src/pages/Students.tsx:111-117 | when every element passes, the filter changes nothing |
| Lists.FilterCongruent | src/pages/Students.tsx:111-117 | predicates that agree on the elements filter alike |
| Lists.FilterFilter | src/pages/Students.tsx:120-122 | filtering by one predicate and then another is filtering by their conjunction |
| Lists.FilterPartition | src/pages/Students.tsx:167 | the kept and dropped parts of a filter add up to the whole list |
| Lists.ReplaceWhere | src/pages/Students.tsx:154-156 | the replace-by-id `map` keeps the length and replaces exactly the hit elements |

## Left out

- JSX rendering, CSS, icons, the dialogs' open flags and the mobile menu with its resize listener are presentation only and are not modelled.
- Toast notifications and `console.log` are external side effects and are not modelled.
- `localStorage` and JSON encoding are modelled as an already-decoded `Option<User>` slot. An unparsable stored value, which the code does not guard against, is not modelled.
- AuthContext.AuthProvider.Login: the intermediate state with loading on, visible to other components while the promise is pending, is not observable in the model. React's scheduling and overlapping logins are concurrency and are left out.
- App.EveryVisitSettlesSafely: route matching is exact-string lookup of the first listed path with a catch-all. react-router's case-insensitive, trailing-slash and ranking rules are not modelled.
- A visit is followed for at most two redirects, the longest chain the table produces (for example /profile to / to /auth when signed out); `App.EveryVisitSettlesSafely` proves that no visit needs more.
- Admins.AdminsPage.AddAdmin: the clock is a parameter (`now`, an ISO timestamp); reading it is not modelled.
- Text.Lower: lower-cases ASCII letters only, not the full Unicode mapping of `toLowerCase`.
- `Dashboard.tsx`, `Portfolio.tsx`, `Unauthorized.tsx` and `NotFound.tsx` are static pages; only which screen a route shows is modelled. `Portfolio.tsx` matters only as the page that hosts the comment panel.
- The password typed into the add forms is collected but never stored in a list; the model keeps it in the form and out of the records.

## Findings

| source | as written | input that shows it | evidently intended | confidence | as-written member | corrected member |
|---|---|---|---|---|---|---|
| src/pages/Students.tsx:126 | a new student's id is the list length + 1 | delete student "2" from the five samples, then add one: it gets id "5", which James Wilson already has, so a later edit or delete hits both | ids stay unique | not executed | Students.AddAfterDeleteReusesId | Students.FreshIdKeepsStudentIdsUnique |
| src/pages/Admins.tsx:119 | a new admin's id is the list length + 1 | delete admin "2" from the four samples, then add one: it gets id "4", which the Arts admin already has | ids stay unique | not executed | Admins.AddAfterDeleteReusesId | Admins.FreshIdKeepsAdminIdsUnique |

The corrected rule takes one more than the largest number any id reads as (`Ids.FreshId`). The corrected handlers `Students.StudentsPage.AddStudentCorrected` and `Admins.AdminsPage.AddAdminCorrected` use it and keep unique ids unique. The as-written handlers stay in the model as the code has them.
