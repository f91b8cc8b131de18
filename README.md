# Line-Manage admin console: verified model of its domain rules

The console is a React/antd front end for managing user accounts, their
teams and their message-sync history. Almost all of it is rendering; this
project models the pieces of logic it does carry out itself, and proves what
the code promises about them:

- **Team list** (`UserManagement`, `TeamManagement`): an in-memory list seeded
  with `admin`, `otp`, `team`. Adding goes through two guards: the tab's input
  check (trimmed text non-empty, untrimmed text not a team) and the page's
  exact duplicate check. Deleting is refused for the default teams and for any
  team a loaded user belongs to; otherwise the name is filtered out. The page
  state is the class `UserManagement.TeamRegistry` and the text box is
  `TeamManagement.TeamInput`. Both mutate their fields, as the React state does.
- **User submissions** (`UserManagement`, `UserForm`): the form's field rules
  as a validator, the "Save" transform, the prefill/reset rule, and the
  `isWebAdmin || false` defaulting of the create and update payloads.
- **User table** (`UserTable`): the case-insensitive search over username or
  team, the Expiration and Last Login comparators, the Role filter and the
  pagination settings.
- **Message-sync panel** (`MessageSyncHistory`): the stable newest-first sort
  of a copy of the messages, the pagination threshold, the display defaults,
  and the loading/data update around a fetch (class `SyncHistory`).
- **Login** (`LoginForm`): the field rules and the classification of the
  login call's outcome.
- **Routing** (`App`, `LoginPage`): the route table, the `PrivateRoute` guard,
  the login page's own guard, and what following their redirects leads to.

Shared pieces: `Common` (optional values, string truthiness, notices), `Text`
(`trim`, `toLowerCase`, `includes`), `Seqs` (`filter` and the
subsequence/count facts every filter here relies on), `FormRules` (antd's
`required`/`min` rules), `Records` (the user record), `Router` (route elements).

Timestamps are integers (milliseconds). A missing value is `None`: for a
timestamp this is its only falsy form, since a present timestamp is a date
string. Strings are `seq<char>`, and a string is truthy when it is present and
non-empty.

Network calls, local storage and the session context are inputs. A call is
modelled by its outcome (`LoginForm.LoginCall`,
`MessageSyncHistory.FetchResult`). The stored token and the context's user
are parameters of the routing functions.

## Where two guards disagree

- The delete control is disabled for `admin` and `superadmin`, but the page
  protects `admin`, `otp` and `team`. `TeamManagement.ProtectionSetsDiffer`
  proves the two sets share only `admin`. `TeamManagement.DeleteClickRemovesIff`
  states what can actually be removed from the tab.
- The tab's duplicate check looks at the untrimmed text, so `" otp"` passes it.
  The tab hands the trimmed `otp` to the page, which refuses it with "Team
  already exists"; the tab then clears its input anyway, since it calls
  `onAddTeam` before `setNewTeam('')` and is told nothing back
  (`TeamManagement.PaddedDuplicatePassesInputCheck`). The list still
  never gains a duplicate (`TeamManagement.InputKeepsNoDuplicates`).
- Routing loops when the session context still holds a token that local
  storage no longer has: `/users` sends the browser to `/login` and back
  (`App.LoopWhenOnlyContextHasToken`). When the two token sources agree,
  every path settles within two redirects (`App.NoLoopWhenGuardsAgree`).
  Whether the two sources can disagree depends on how `AuthContext` and
  `src/services/api` write and clear the token; neither is part of this model.

## Model

| member | source | states |
|---|---|---|
| `UserManagement.TeamRegistry.constructor` | src/pages/UserManagement.jsx:18 | the team list starts as exactly `["admin", "otp", "team"]` |
| `UserManagement.TeamRegistry.AddTeam` | src/pages/UserManagement.jsx:84-91 | the new list is `TeamsAfterAdd` of the old one; notice "Team added successfully" or "Team already exists" |
| `UserManagement.TeamsAfterAdd` | src/pages/UserManagement.jsx:84-86 | existing entries keep their places; the name is appended exactly when it was absent; membership is old members plus the name |
| `UserManagement.AddOutcomeOf` | src/pages/UserManagement.jsx:85 | the add succeeds iff the name is not in the list (exact match) |
| `UserManagement.AddDuplicateUnchanged` | src/pages/UserManagement.jsx:85-89 | adding a present name leaves the list unchanged and reports "Team already exists" |
| `UserManagement.AddKeepsNoDuplicates` | src/pages/UserManagement.jsx:84-86 | a duplicate-free list stays duplicate-free after an add |
| `UserManagement.TeamRegistry.DeleteTeam` | src/pages/UserManagement.jsx:93-105 | the new list is `TeamsAfterDelete` of the old one, with the notice of the guard that fired |
| `UserManagement.DeleteOutcomeOf` | src/pages/UserManagement.jsx:93-101 | refused as a default team iff it is one of the three; refused as in use iff otherwise some user's team equals it; removed otherwise |
| `UserManagement.HasMembers` | src/pages/UserManagement.jsx:98 | true iff some loaded user's team equals the name |
| `UserManagement.Without` | src/pages/UserManagement.jsx:103 | no remaining entry equals the name, and the list does not grow |
| `UserManagement.TeamsAfterDelete` | src/pages/UserManagement.jsx:93-103 | refused by a guard: the list is unchanged; removed: the name is gone and every other name is present iff it was before |
| `UserManagement.DeleteDefaultRefused` | src/pages/UserManagement.jsx:93-96 | `admin`, `otp`, `team` are refused with the list unchanged, for any users |
| `UserManagement.DeleteInUseRefused` | src/pages/UserManagement.jsx:98-101 | a non-default team some user belongs to is refused with the list unchanged |
| `UserManagement.DeleteRemovesExactly` | src/pages/UserManagement.jsx:103 | a permitted delete removes every occurrence of the name, keeps every other name as often as before, in order |
| `UserManagement.WithoutAbsent` | src/pages/UserManagement.jsx:103 | filtering out a name that is not there returns the list itself |
| `UserManagement.AddThenDeleteRestores` | src/pages/UserManagement.jsx:84-105 | adding a fresh, non-default, unused name and deleting it restores the original list |
| `UserManagement.WithWebAdminDefault` | src/pages/UserManagement.jsx:47-50 | `isWebAdmin` is true iff the form value is `true`; every other field passes through unchanged |
| `UserManagement.WebAdminDefaultIdempotent` | src/pages/UserManagement.jsx:61-64 | defaulting an already defaulted value changes nothing |
| `UserManagement.SubmitRequest` | src/pages/UserManagement.jsx:45-72 | with no user being edited the submission creates, otherwise it updates that user's id; both carry the defaulted payload |
| `TeamManagement.AcceptsName` | src/components/TeamManagement.jsx:10 | a name is accepted iff it is not all whitespace and the untrimmed text is not a team |
| `TeamManagement.AcceptedNameIsTrimmed` | src/components/TeamManagement.jsx:10-11 | an accepted name is handed on non-empty with no surrounding whitespace |
| `TeamManagement.TeamInput.constructor` | src/components/TeamManagement.jsx:7 | the input starts empty |
| `TeamManagement.TeamInput.SetText` | src/components/TeamManagement.jsx:29 | typing replaces the input text |
| `TeamManagement.TeamInput.HandleAddTeam` | src/components/TeamManagement.jsx:9-16 | accepted: the trimmed name goes to the page's add and the input is reset to `""`; refused: the input and the list are unchanged |
| `TeamManagement.TeamsAfterInput` | src/components/TeamManagement.jsx:10-11 | a refused name leaves the list unchanged; otherwise the list holds its old names plus the trimmed name |
| `TeamManagement.InputKeepsNoDuplicates` | src/components/TeamManagement.jsx:10-11 | both guards together keep a duplicate-free list duplicate-free, whatever is typed |
| `TeamManagement.PaddedDuplicatePassesInputCheck` | src/components/TeamManagement.jsx:10-12 | `" otp"` passes the tab's check with `otp` present; the page then refuses `otp` and the list is unchanged |
| `TeamManagement.ProtectionSetsDiffer` | src/components/TeamManagement.jsx:60 | the delete-disabled set and the page's protected set share exactly `admin` |
| `TeamManagement.DeleteDisabled` | src/components/TeamManagement.jsx:60 | the delete control is disabled exactly for `admin` and `superadmin` |
| `TeamManagement.DeleteClick` | src/components/TeamManagement.jsx:57-65 | a click does nothing exactly for `admin` and `superadmin`, otherwise it yields the page's decision |
| `TeamManagement.DeleteClickRemovesIff` | src/components/TeamManagement.jsx:57-65 | through the tab a team is removed iff it is none of `admin`, `otp`, `team`, `superadmin` and no user belongs to it |
| `Text.Trim` | src/components/TeamManagement.jsx:10 | the result is the slice of the input between its whitespace runs; empty iff the input is all whitespace; otherwise no whitespace at either end |
| `Text.TrimIdempotent` | src/components/TeamManagement.jsx:10-11 | the name handed to the page is already trimmed: trimming it again changes nothing |
| `Text.ToLower` | src/components/UserTable.jsx:137-140 | the same length, each character replaced by its ASCII lowercase form |
| `Text.ToLowerIdempotent` | src/components/UserTable.jsx:137-140 | lowercasing twice is lowercasing once |
| `Text.Contains` | src/components/UserTable.jsx:137-140 | holds only when the needle is no longer than the text; every text includes the empty string |
| `Seqs.Filter` | src/components/UserTable.jsx:137 | every kept element satisfies the predicate, and the result is no longer than the input |
| `UserTable.FilteredUsers` | src/components/UserTable.jsx:137-140 | every row matches the search, and there are no more rows than users |
| `Text.ContainsIff` | src/components/UserTable.jsx:137-140 | `includes` holds iff the needle occurs at some position |
| `UserTable.FilteredUsersSpec` | src/components/UserTable.jsx:137-140 | a user is kept iff the lowercased username or team contains the lowercased search text; the result is a subsequence with the kept users' multiplicities |
| `UserTable.EmptySearchKeepsAll` | src/components/UserTable.jsx:10 | the initial empty search keeps every user |
| `UserTable.ExpirationOrder` | src/components/UserTable.jsx:78 | defined iff both expirations are present; then negative iff `a` expires earlier, zero iff at the same instant |
| `UserTable.ExpirationOrderAntisymmetric` | src/components/UserTable.jsx:78 | with both present, swapping the arguments negates the result |
| `UserTable.LastLoginOrder` | src/components/UserTable.jsx:95 | negative iff `a`'s last login (missing = 0) is earlier, zero iff equal |
| `UserTable.LastLoginOrderAntisymmetric` | src/components/UserTable.jsx:95 | swapping the arguments negates the result |
| `UserTable.NeverLoggedInSortsOldest` | src/components/UserTable.jsx:95 | a never-logged-in user compares no later than anyone with a non-negative last login |
| `UserTable.LastLoginOrderTransitive` | src/components/UserTable.jsx:95 | the Last Login comparison is transitive |
| `UserTable.RoleFilteredSpec` | src/components/UserTable.jsx:33-37 | the Role filter keeps exactly the records with the chosen role, in order and with their multiplicities |
| `UserTable.RoleFiltered` | src/components/UserTable.jsx:37 | every row left by the `onFilter` test has the chosen role, and there are no more rows than users |
| `UserTable.RoleChoicesDiffer` | src/components/UserTable.jsx:33-37 | the Role filter and the form's role select share only `admin`; the filter has `superadmin`, the select `user`, so no filter value shows a user with role `user` |
| `UserTable.View` | src/components/UserTable.jsx:170-186 | rows are the filtered users; page size 10 on mobile and 20 otherwise; total is the filtered count |
| `MessageSyncHistory.NewestFirst` | src/components/MessageSyncHistory.jsx:150-152 | the sorted copy is a permutation of the messages |
| `MessageSyncHistory.NewestFirstIsOrdered` | src/components/MessageSyncHistory.jsx:150-152 | the sorted copy is ordered by `Created` (missing = 0) descending |
| `MessageSyncHistory.NewestFirstIsStable` | src/components/MessageSyncHistory.jsx:150-152 | messages with the same key keep their original relative order |
| `MessageSyncHistory.MissingCreatedSortsLast` | src/components/MessageSyncHistory.jsx:151 | after a message without `Created` come only messages not after the epoch |
| `MessageSyncHistory.MessagePagination` | src/components/MessageSyncHistory.jsx:154-160 | pagination with page size 6 and no size changer is on iff there are more than six messages |
| `MessageSyncHistory.RenderTimestamp` | src/components/MessageSyncHistory.jsx:46-49 | a missing timestamp shows "N/A", a present one its instant |
| `MessageSyncHistory.MessageCard` | src/components/MessageSyncHistory.jsx:51-81 | a missing or empty title shows "Untitled Message", content "No content available"; the tag follows `Enabled` |
| `MessageSyncHistory.SummaryOf` | src/components/MessageSyncHistory.jsx:128-135 | a missing message count shows 0 and a missing or empty team "N/A" |
| `MessageSyncHistory.PanelOf` | src/components/MessageSyncHistory.jsx:102-166 | loading shows the spinner; no data shows the empty state; otherwise the summary of the data, with "No messages found" when the messages are missing or empty |
| `MessageSyncHistory.PanelShowsMessagesNewestFirst` | src/components/MessageSyncHistory.jsx:139-161 | a non-empty message list is shown as a stable newest-first permutation, paginated iff longer than six |
| `MessageSyncHistory.FetchNotice` | src/components/MessageSyncHistory.jsx:29-35 | no notice on success; an info notice iff the error says there is no data; an error notice for any other error |
| `MessageSyncHistory.SyncHistory.constructor` | src/components/MessageSyncHistory.jsx:13-14 | no data and not loading |
| `MessageSyncHistory.SyncHistory.BeginFetch` | src/components/MessageSyncHistory.jsx:25 | loading is on and the old data is kept, so the spinner shows |
| `MessageSyncHistory.SyncHistory.FinishFetch` | src/components/MessageSyncHistory.jsx:26-38 | loading is off on both outcomes; success replaces the data, failure keeps the previous data |
| `MessageSyncHistory.SyncHistory.FetchSyncData` | src/components/MessageSyncHistory.jsx:24-39 | the whole fetch: loading ends off, data set on success only, with the fetch's notice |
| `FormRules.ErrorsEmptyIff` | src/components/UserForm.jsx:78-81 | a field reports no error iff it passes each of its rules |
| `FormRules.Errors` | src/components/UserForm.jsx:78-81 | no more messages than rules, and every message reported is that of a rule the value fails |
| `FormRules.RequiredMinLength` | src/components/UserForm.jsx:78-81 | "required + at least n" accepts exactly present values of length n or more; an empty value reports only the required message |
| `UserForm.Title` | src/components/UserForm.jsx:42 | "Edit User" iff a record is being edited, otherwise "Add User" |
| `UserForm.DateDisabled` | src/components/UserForm.jsx:134-136 | a date is not selectable iff it lies before the end of today |
| `UserForm.LaterDateSelectable` | src/components/UserForm.jsx:134-136 | a date later than a selectable date is selectable too |
| `UserForm.DefaultExpiration` | src/components/UserForm.jsx:129 | the default lies after now, by exactly 1000 days of 86 400 000 ms |
| `UserForm.DefaultExpirationSelectable` | src/components/UserForm.jsx:129-136 | the default expiration, now plus 1000 days, is selectable |
| `UserForm.PrefilledState` | src/components/UserForm.jsx:9-21 | open with a record: the fields are that record's values, a missing expiration empty; otherwise the fields reset |
| `UserForm.ResetState` | src/components/UserForm.jsx:19 | the expiration holds its default, and a reset form fails validation whether a user is being created or edited |
| `UserForm.FieldErrors` | src/components/UserForm.jsx:75-130 | every error names one of the five fields, and no password error is reported when editing |
| `UserForm.RequiredOnly` | src/components/UserForm.jsx:99-113 | a required select accepts exactly a non-empty choice |
| `UserForm.FieldErrorsEmptyIff` | src/components/UserForm.jsx:75-138 | the fields pass iff username has 3+ characters, password (create only) 6+, role and team are chosen and expiration is set |
| `UserForm.OnOk` | src/components/UserForm.jsx:49-60 | submits iff the fields pass; the submitted values are the field values, expiration as the same instant, password only when creating |
| `UserForm.StateAfterOk` | src/components/UserForm.jsx:56-57 | the form resets after a submission and is kept after a failed validation |
| `UserForm.EditUnchangedResubmits` | src/components/UserForm.jsx:9-17 | opening a complete record and saving unchanged submits its own values, even a role outside the select's options |
| `UserForm.EditWithoutExpirationRejected` | src/components/UserForm.jsx:16 | a record without expiration cannot be saved untouched |
| `UserForm.EmptySearchShowsAllTeams` | src/components/UserForm.jsx:119-121 | an empty search in the team select shows every team |
| `UserForm.TeamOptionShown` | src/components/UserForm.jsx:119-121 | a team option is shown iff the lowercased input occurs in the lowercased label |
| `LoginForm.FieldErrorsEmptyIff` | src/components/LoginForm.jsx:64-84 | the login fields pass iff username has 3+ characters and password 6+ |
| `LoginForm.FieldErrors` | src/components/LoginForm.jsx:64-84 | at most one message per field, and only messages the rules declare |
| `LoginForm.OnFinish` | src/components/LoginForm.jsx:12-28 | logs in, exactly once, iff the response has a truthy username; otherwise "Login failed", the server's message, or "Network error, please try again" |
| `LoginForm.Submit` | src/components/LoginForm.jsx:58-63 | the login call's outcome is classified iff the fields pass; otherwise the rule messages are reported |
| `LoginPage.LoginElement` | src/pages/Login.jsx:9-29 | a user with a truthy token is redirected to `/users` with replace; otherwise the form is shown |
| `LoginPage.NoTokenShowsForm` | src/pages/Login.jsx:9 | no user, or a user without a token, gets the form |
| `App.RouteFor` | src/App.jsx:15-25 | a path reaches the `/login` or the `/users` route iff, without its trailing slashes and lowercased, it is that path; it reaches `/` iff it is non-empty and all slashes; no other path has a route |
| `App.PrivateRoute` | src/App.jsx:6-9 | a truthy stored token renders the child; otherwise a replacing redirect to `/login` |
| `App.DeclaredPathsRoute` | src/App.jsx:15-25 | `/login`, `/users` and `/` reach their own routes |
| `App.RouteIgnoresTrailingSlash` | src/App.jsx:15-25 | appending a slash to a non-empty path never changes its route |
| `App.RouteIgnoresCase` | src/App.jsx:15-25 | lowercasing a path never changes its route |
| `App.VariantPathsRoute` | src/App.jsx:15-25 | `/Users/` reaches the `/users` route and `/LOGIN` the `/login` route |
| `App.Resolve` | src/App.jsx:15-25 | blank exactly when no route matches; every redirect goes to `/login` or `/users` |
| `App.Follow` | src/App.jsx:6-25 | it lands on a path whose element does not redirect, or stops on one that still redirects; a landing path other than the start is `/login` or `/users` |
| `App.UsersGate` | src/App.jsx:6-23 | `/users` shows the management screen iff the stored token is truthy, else redirects to `/login` with replace |
| `App.RootRedirects` | src/App.jsx:25 | `/` always redirects to `/users` |
| `App.LoginIgnoresStoredToken` | src/App.jsx:16 | `/login` renders the login page whatever the stored token |
| `App.SignedOutRootReachesLogin` | src/App.jsx:6-25 | signed out, `/` reaches the login form in exactly two redirects |
| `App.NoLoopWhenGuardsAgree` | src/App.jsx:6-25 | when both guards see the same token state, every path settles within two redirects, on the screen that state allows |
| `App.LoopWhenOnlyContextHasToken` | src/App.jsx:7-8 | with a context token but no stored token, `/users` and `/login` redirect forever |
| `App.NoLoopWhenOnlyStorageHasToken` | src/App.jsx:7-8 | with a stored token but no context token, both pages render at once |

## Left out

- Rendering, styles, tooltips, modals and the `useMediaQuery` breakpoints are presentation. `isMobile` is a boolean input.
- The HTTP calls (`getUsers`, `createUser`, `updateUser`, `deleteUser`, `login`, `getMessageSync`) are inputs given by their outcome. `src/services/api` is not part of this model. `fetchUsers`, `handleDeleteUser` and the success and error notices of `handleAddUser`/`handleEditUser` only call the API and report its outcome, so they are not modelled.
- Local storage, the `AuthContext` session store and the `MessageDetails` component are not part of this model. The stored token and the context's user are parameters.
- Async sequencing and the re-fetch after mutations are left out. The fetch is split into `BeginFetch` and `FinishFetch` so that the loading state in between can be seen.
- The Username sorter uses `localeCompare`, whose collation depends on the locale. It is not modelled.
- Date formatting (`dayjs(...).format`, `toLocaleString`) is not modelled. A shown timestamp is its instant (`Stamp.At`), and the last sync time is carried as it is.
- Paging of rows (which rows page `k` shows) is antd's and is not modelled. Only the page size and the total are. The "Total N users" text is not modelled.
- Several Role filter values chosen at once are combined by antd. Only one chosen value is modelled.
- UserTable.View: is the table with no column filter chosen. With a Role filter set, antd counts the pagination total over the role-filtered rows, which `View` does not take as an input.
- No "expired" user status is computed by the code modelled here, so none is modelled.
- Text.ToLower: lowercases only the ASCII letters `A`–`Z`, while JavaScript's `toLowerCase` maps every Unicode letter. So the search and the team option filter are modelled as case-insensitive for ASCII only.
- App.RouteFor: React Router (depending on its version) percent-decodes the path before matching it; encoded paths such as `/%75sers` are not modelled. Letter case is folded for ASCII only, which for these all-ASCII route paths is what the case-insensitive match does.
- MessageSyncHistory.SummaryOf: a missing `lastSyncTime` is carried as `None`. The page formats it with `dayjs(undefined)`, which shows the current time, and its tooltip reads "Invalid Date"; the model does not state either.
- UserForm.DefaultExpiration: `dayjs().add(1000, 'days')` adds calendar days in local time. Across a daylight-saving change it differs from `now` plus 1000 × 86 400 000 ms by up to an hour; the model uses the fixed-length days.
- UserTable.ExpirationOrder: makes no ordering claim when an expiration is missing. The source then yields NaN.
- TeamManagement.TeamInput.HandleAddTeam: `TeamManagement.jsx` calls `message.error` without importing `message`. The refusing branch would therefore throw a ReferenceError instead of showing its notice. The model returns the intended notice "Team name is invalid or already exists" with nothing changed, which is also what the throw leaves behind.
- LoginForm.OnFinish: an error whose `response` has no `data` would throw inside the handler. That case is not modelled: the server message is taken as present or absent.
- The select widgets offer only `admin`/`user` as roles and the current team list as teams. This is a widget constraint, not a validation rule, so it is not part of the validator. `UserForm.EditUnchangedResubmits` shows a prefilled role outside the options passing validation.
