# Payroll bot admin console: client-side state of the three data screens

This project models the client-side state logic of the administrative
console's three data screens and proves properties of it in Dafny 4.11.

- **Users table** (`UserTable`): the user list, the create/update modal's
  form, which user is being edited, and the handlers around the `/users`
  endpoints.
- **Broadcast form** (`BroadcastForm`): selected roles, the candidate users
  fetched for them, selected users, the message, the two "Select All" flags,
  and sending to the comma-joined phone numbers.
- **Questions table** (`QuestionTable`): the question list, the question and
  answer inputs, the id being edited, and the handlers around the
  `/questions` endpoints.

Each screen is a class. Its fields are the component's state variables, and
each handler is one method that changes them atomically. A handler does not
call the network. It receives the outcome of its call as an input
`Outcome<T>`: `Ok(data)` for a resolved call, or `Err(message)` where
`message` is the server's optional `message` field. It returns the request it
issued, if any, and the toast it shows. Each method's `ensures` states the
whole new state in terms of the old one and of the outcome.

Shared pieces:

- `Api`: the entities, the outcome and toast types, and `ErrorText`, which
  models `err.response?.data?.message || default`. An empty server message
  also falls back to the default, because it is falsy.
- `Js`: the JavaScript string semantics the screens depend on.
  - `!s` is true only for the empty string.
  - `s.trim()` strips ECMAScript's whitespace and line terminators.
  - `Array.prototype.join` is modelled, with `String.prototype.split` as
    its inverse.
- `Lists`: `map`, replace-by-key (`map(e => key(e) === k ? x : e)`) and
  filter-by-key, with their contracts and lemmas.

Two points where the code is easy to misread:

- A refresh of the candidates for a non-empty role selection keeps the
  selected users (src/components/BroadcastForm.jsx:33); only an empty
  selection clears them (lines 23-26).
- Entities are keyed by `_id`, as the components use them, although the
  interface declarations in src/api/app.ts say `id`.

Edge cases modelled literally:

- The Users table checks fields with `!x` and never trims, so a field of
  spaces passes. The Questions table and the broadcast message use
  `.trim()`.
- The Questions table picks update over create with `if (editingId)`. An
  edited item whose id is the empty string therefore goes down the create
  path (`QuestionTable.IsEditing`).
- The Users table's update targets `editingUserId`. If that were null, the
  path would read `/users/null` and no entry would be replaced
  (`UserTable.ReplaceEditing`). The invariant `UsersTable.Valid` shows that
  the modal's submit button never reaches that case: update mode is on
  exactly when a user is being edited.
- The Broadcast form's invariant `Broadcast.Valid` says that with no role
  selected there are no candidates and no selected users. The handlers of
  the user selector require `UserSelectorVisible()`, because that control
  is rendered only then (src/components/BroadcastForm.jsx:155). Under the
  invariant that is exactly when there are candidates
  (`BroadcastForm.VisibleIffCandidates`).

## Model

| member | source | states |
|---|---|---|
| `Api.ErrorText` | src/components/UserTable.jsx:46-48 | the error toast is the server's message when it is non-empty and the action's default otherwise; it is never empty when the default is not |
| `Js.Trim` | src/components/QuestionTable.tsx:26 | `s.trim()`, the end-trim of the start-trim; the contracts of `Js.TrimStart` and `Js.TrimEnd` say exactly which characters go, and `Js.TrimEnds` and `Js.TrimIdempotent` state the result's properties |
| `Js.TrimStart` | src/components/QuestionTable.tsx:26 | the result is a suffix of the input, everything cut off is whitespace, and it does not start with whitespace |
| `Js.TrimEnd` | src/components/QuestionTable.tsx:26 | the result is a prefix of the input, everything cut off is whitespace, and it does not end with whitespace |
| `Js.TrimEnds` | src/components/QuestionTable.tsx:26 | a non-empty result of `trim()` has no whitespace at either end |
| `Js.IsFalsy` | src/components/UserTable.jsx:38 | `!x` on a string: only "" is falsy; through `UserTable.MissingForCreate` it makes a field of spaces pass the Users guards |
| `Js.IsBlank` | src/components/BroadcastForm.jsx:68 | `!s.trim()`; `Js.BlankIffAllWhitespace` states that it holds exactly for strings of whitespace only |
| `Js.BlankIffAllWhitespace` | src/components/BroadcastForm.jsx:68 | `!s.trim()` holds exactly when every character of `s` is whitespace, so "" and whitespace-only input are refused and nothing else is; the Questions table's guard (src/components/QuestionTable.tsx:26) is the same check |
| `Js.TrimIdempotent` | src/components/QuestionTable.tsx:26 | trimming an already trimmed string changes nothing |
| `Js.Join` | src/components/BroadcastForm.jsx:72 | `parts.join(sep)`; `Js.JoinCount`, `Js.JoinEmptyIff` and `Js.SplitJoin` give its meaning: one separator between neighbours, empty only for no part or one empty part, undone by `split` |
| `Js.JoinCount` | src/components/BroadcastForm.jsx:72 | joining separator-free parts inserts exactly one separator between neighbours (parts minus one in all) |
| `Js.JoinEmptyIff` | src/components/BroadcastForm.jsx:72 | a join is empty exactly for no parts or one empty part |
| `Js.SplitJoin` | src/components/BroadcastForm.jsx:72 | splitting a non-empty join of comma-free parts at the separator gives back the parts in order |
| `Lists.Map` | src/components/BroadcastForm.jsx:57-60 | `map` keeps the length and puts `f(s[i])` at every index `i` |
| `Lists.ReplaceWhere` | src/components/QuestionTable.tsx:36 | replace-by-key keeps the length, puts the replacement at every index whose key matches and leaves every other entry unchanged |
| `Lists.FilterOut` | src/components/QuestionTable.tsx:68 | filter-by-key keeps exactly the entries whose key differs: no survivor has the key and every entry with another key survives |
| `Lists.FilterOutConcat` | src/components/UserTable.jsx:70 | filtering distributes over concatenation, so survivors keep their relative order |
| `Lists.FilterOutLength` | src/components/UserTable.jsx:70 | the filtered list is shorter by exactly the number of matching entries |
| `Lists.FilterOutNoMatch` | src/components/QuestionTable.tsx:68 | removing an id that no entry has leaves the list as it was |
| `Lists.FilterOutIdempotent` | src/components/QuestionTable.tsx:68 | removing the same id a second time changes nothing |
| `UserTable.Request.Path` | src/components/UserTable.jsx:58 | the URL of each call (lines 21, 42, 58, 69), with a null `editingUserId` rendered "null"; `UsersTable.Submit` proves the update path is `/users/` and the edited user's id |
| `UserTable.MissingForCreate` | src/components/UserTable.jsx:38 | the create guard: some required field, the password included, is ""; `UsersTable.HandleAddUser` sends nothing exactly when it holds |
| `UserTable.MissingForUpdate` | src/components/UserTable.jsx:53 | the update guard: one of the four profile fields is ""; `UsersTable.HandleUpdateUser` sends nothing exactly when it holds |
| `UserTable.UpdateGuardDropsPassword` | src/components/UserTable.jsx:38-53 | the create guard refuses exactly what the update guard refuses plus an empty password, so the update guard never refuses more |
| `UserTable.WithField` | src/components/UserTable.jsx:32-34 | an input change sets the named field to the typed value and leaves every other field as it was |
| `UserTable.ReplaceEditing` | src/components/UserTable.jsx:59 | the update keeps the list length, puts the server's answer at every index whose `_id` equals `editingUserId`, and leaves all other entries unchanged (a null id replaces nothing) |
| `UserTable.ReplaceEditingSpec` | src/components/UserTable.jsx:59 | after an update the answer is in the list if some entry had the edited id, every entry with another id is still there, and nothing else appears |
| `UserTable.RemoveByIdSpec` | src/components/UserTable.jsx:69-70 | after a remove no entry has that id, every entry with another id remains, and the list is shorter by the number of removed entries |
| `UserTable.UsersTable.constructor` | src/components/UserTable.jsx:7-17 | the initial state: empty list, all-empty form, nobody edited, modal closed in create mode |
| `UserTable.UsersTable.FetchUsers` | src/components/UserTable.jsx:19-26 | GET /users replaces the list wholesale on success; a failure keeps it and shows "Failed to load users" |
| `UserTable.UsersTable.HandleInputChange` | src/components/UserTable.jsx:32-34 | only the form changes: the named field takes the value |
| `UserTable.UsersTable.ResetForm` | src/components/UserTable.jsx:90-95 | form all empty, `editingUserId` null, `isEditing` and `showModal` false, list unchanged |
| `UserTable.UsersTable.OpenCreateModal` | src/components/UserTable.jsx:110-114 | "+ Add User" resets the form and opens the modal in create mode |
| `UserTable.UsersTable.HandleAddUser` | src/components/UserTable.jsx:36-49 | no request and nothing changes iff one of the five fields is ""; otherwise POST of the whole form; success appends exactly the created user after the old list and resets the form; failure changes nothing and shows the server's message or "Failed to create user" |
| `UserTable.UsersTable.HandleUpdateUser` | src/components/UserTable.jsx:51-65 | no request iff one of name/email/phone/role is "" (the password is ignored); otherwise PUT to `editingUserId` with exactly those four fields; success replaces the edited entries and resets; failure changes nothing |
| `UserTable.UsersTable.Submit` | src/components/UserTable.jsx:246-251 | the modal's button updates in update mode, always naming the edited user and no password, and creates otherwise; a successful call closes the modal with an empty form and no edited user; a blocked or failed call leaves the state unchanged; the toast is the taken branch's: its "required" text when blocked, its success text, or the server's message or its default on failure; the path is `/users/` and the edited user's id in update mode, so a null target is never rendered as `/users/null` |
| `UserTable.UsersTable.HandleRemove` | src/components/UserTable.jsx:67-75 | DELETE /users/{id}; success filters out every entry with that id; failure keeps the list and shows "Failed to remove user" |
| `UserTable.UsersTable.HandleEditClick` | src/components/UserTable.jsx:77-88 | the form takes the row's name/email/phone/role with a blank password, `editingUserId` becomes its `_id`, and the modal opens in update mode |
| `UserTable.EditThenSubmit` | src/components/UserTable.jsx:51-58 | editing a complete row and submitting sends exactly its four profile fields to its id; an incomplete row sends nothing |
| `QuestionTable.Request.Path` | src/components/QuestionTable.tsx:32 | the URL of each call (lines 14, 32, 48, 67); `QuestionsTable.HandleAddOrUpdate` proves the update goes to `/questions/` and the id and the create to `/questions` |
| `QuestionTable.IsEditing` | src/components/QuestionTable.tsx:28 | `if (editingId)`: only a non-null, non-empty id is truthy; `QuestionTable.EditThenSubmit` shows an item with id "" is created, not updated |
| `QuestionTable.QuestionsTable.constructor` | src/components/QuestionTable.tsx:7-10 | the initial state: no questions, both inputs empty, nothing being edited |
| `QuestionTable.QuestionsTable.FetchQuestions` | src/components/QuestionTable.tsx:12-19 | GET /questions replaces the list wholesale on success; failure keeps everything and shows "Failed to load questions" |
| `QuestionTable.QuestionsTable.HandleQuestionChange` | src/components/QuestionTable.tsx:91 | only the question text changes |
| `QuestionTable.QuestionsTable.HandleAnswerChange` | src/components/QuestionTable.tsx:98 | only the answer text changes |
| `QuestionTable.QuestionsTable.HandleAddOrUpdate` | src/components/QuestionTable.tsx:25-57 | no request and nothing changes iff a field trims to ""; otherwise exactly one request, an update of a truthy `editingId` or else a create, each with {question, answer} untrimmed, to `/questions/` and the id or to `/questions`; success replaces or appends and clears the inputs (update also clears `editingId`); failure changes nothing and shows the fixed text |
| `QuestionTable.QuestionsTable.SubmitUpdate` | src/components/QuestionTable.tsx:28-44 | PUT to the id; success replaces entries with that id, clears `editingId` and both inputs; failure changes nothing |
| `QuestionTable.QuestionsTable.SubmitCreate` | src/components/QuestionTable.tsx:45-56 | POST; success appends the created question after all prior entries and clears both inputs; failure changes nothing |
| `QuestionTable.QuestionsTable.HandleEdit` | src/components/QuestionTable.tsx:59-63 | the inputs take the item's question and answer, and `editingId` its id |
| `QuestionTable.QuestionsTable.HandleRemove` | src/components/QuestionTable.tsx:65-73 | DELETE /questions/{id}; success filters out that id in order; failure keeps everything |
| `QuestionTable.QuestionsTable.HandleCancelEdit` | src/components/QuestionTable.tsx:75-79 | `editingId` null and both inputs empty, list unchanged |
| `QuestionTable.EditThenSubmit` | src/components/QuestionTable.tsx:59-63 | after editing an item, submit updates that item with its own texts when its id is non-empty, creates when the id is "", and sends nothing when a text is blank |
| `BroadcastForm.Request.Path` | src/components/BroadcastForm.jsx:32 | the URL of each call (lines 32 and 73); `Broadcast.RolesChanged` proves the fetch goes to `/users?roles=` and the roles query, `Broadcast.HandleSend` that a send goes to `/broadcast` |
| `BroadcastForm.RolesQuery` | src/components/BroadcastForm.jsx:31 | `selectedRoles.map(r => r.value).join(",")`; `BroadcastForm.RolesQueryRoundTrip` and `BroadcastForm.AllRolesQuery` state its meaning |
| `BroadcastForm.Recipients` | src/components/BroadcastForm.jsx:72 | `selectedUsers.map(u => u.value).join(",")`; `BroadcastForm.RecipientsRoundTrip`, `BroadcastForm.SelectAllRecipients` and `BroadcastForm.RecipientsEmptyIff` state its meaning |
| `BroadcastForm.UserOptions` | src/components/BroadcastForm.jsx:57-60 | one option per candidate in order, with value the phone and caption "name (phone)" |
| `BroadcastForm.RolesQueryRoundTrip` | src/components/BroadcastForm.jsx:31 | the roles query splits back into the selected role values in selection order |
| `BroadcastForm.AllRolesQuery` | src/components/BroadcastForm.jsx:7-11 | the fixed role list `BroadcastForm.Roles` (Admin/admin, HR/hr, Employee/employee, in that order) queries "admin,hr,employee" |
| `BroadcastForm.RecipientsRoundTrip` | src/components/BroadcastForm.jsx:72 | the recipients string splits back into the selected phones in order |
| `BroadcastForm.SelectAllRecipients` | src/components/BroadcastForm.jsx:53-64 | after "Select All" on users the recipients are every candidate's phone, in order |
| `BroadcastForm.RecipientsEmptyIff` | src/components/BroadcastForm.jsx:72 | the recipients string is empty only for no selection or a single user with an empty phone |
| `BroadcastForm.Broadcast.UserSelectorVisible` | src/components/BroadcastForm.jsx:155 | `selectedRoles.length > 0 && users.length > 0`, the condition under which the user selector and its buttons exist; `BroadcastForm.VisibleIffCandidates` reduces it to `users != []` under the invariant, and the user-selector handlers require it |
| `BroadcastForm.VisibleIffCandidates` | src/components/BroadcastForm.jsx:155 | with the invariant that no roles means no candidates, the user selector (shown for a role and a candidate) is shown exactly when there is a candidate |
| `BroadcastForm.Broadcast.constructor` | src/components/BroadcastForm.jsx:14-19 | the initial state: everything empty, both flags false |
| `BroadcastForm.Broadcast.RolesChanged` | src/components/BroadcastForm.jsx:22-40 | no roles: candidates and selection cleared, no fetch; otherwise one fetch with the comma-joined role values; success replaces the candidates and keeps the selection; failure keeps both and shows the server's message or "Failed to fetch users" |
| `BroadcastForm.Broadcast.HandleRolesChange` | src/components/BroadcastForm.jsx:149 | the roles become the picked ones (none when cleared) and the effect runs on them: a GET of `/users?roles=` and the joined values for a non-empty pick; no toast on success or on a cleared pick, the server's message or "Failed to fetch users" on failure |
| `BroadcastForm.Broadcast.HandleSelectAllRoles` | src/components/BroadcastForm.jsx:43-50 | flag false: all three roles and a fetch of "admin,hr,employee", with no toast on success and the server's message or "Failed to fetch users" on failure; flag true: no roles, candidates and selection cleared, no toast; the flag is always negated |
| `BroadcastForm.Broadcast.HandleSelectAllUsers` | src/components/BroadcastForm.jsx:53-64 | flag false: the selection becomes one option per candidate, and is therefore non-empty; flag true: it is cleared; the flag is always negated |
| `BroadcastForm.SelectAllUsersThenSend` | src/components/BroadcastForm.jsx:53-73 | "Select All" on a shown user selector followed by sending a non-blank message always posts, to every candidate's option value: the "Select at least one user" guard cannot fire |
| `BroadcastForm.Broadcast.HandleUsersChange` | src/components/BroadcastForm.jsx:175 | the selection becomes the picked options (none when cleared) |
| `BroadcastForm.Broadcast.HandleMessageChange` | src/components/BroadcastForm.jsx:187 | only the message changes |
| `BroadcastForm.Broadcast.HandleSend` | src/components/BroadcastForm.jsx:67-85 | a blank message is refused first, then an empty selection, with no request and no change; otherwise one POST to `/broadcast` with the untrimmed message and the comma-joined selected values; success resets every field and both flags; failure changes nothing |
| `BroadcastForm.Broadcast.Post` | src/components/BroadcastForm.jsx:71-84 | once the guards pass: POST /broadcast with the message and the comma-joined selected values; success resets the message, the three lists and both flags; failure changes nothing and shows the server's message or "Failed to send broadcast" |
| `BroadcastForm.SelectAllRolesTwice` | src/components/BroadcastForm.jsx:43-50 | from flag false, two toggles fetch all roles once and then return to no roles, no candidates, no selection, flag false |

## Left out

- The HTTP client and its interceptor, which attaches the bearer token from
  browser storage (src/api/app.ts:4-14). Every call is an input outcome.
  Requests are modelled by kind, path and body, without headers.
- The login page, the auth context and router navigation
  (src/pages/Login.jsx). The auth context is not part of this model. What is
  left is one trimmed check around a foreign call.
- The sidebar and dashboard shells (src/components/Sidebar.jsx,
  src/components/Sidebar.tsx, src/pages/Dashboard.tsx). They only select a
  tab and render.
- Overlapping role-change fetches, where the last response to arrive wins.
  Each fetch completes atomically inside the handler that triggered it.
- React mechanics: batched and asynchronous `setState`, stale closures, and
  whether an effect re-runs when a state value keeps its identity. Each
  handler is one atomic transition from the state at the time of the call.
- Rendering: JSX, toast display and timing, and react-select styles
  (src/components/BroadcastForm.jsx:88-123). The "No users found" and
  "No questions found" placeholders are left out too.
- The interface declarations in src/api/app.ts:19-32. The components' `_id`
  is used instead.
- Strings are sequences of Unicode scalar values rather than UTF-16 code
  units. Lone surrogates are not representable, and `trim` never removes
  them anyway.
- `Js.SplitJoin`, `BroadcastForm.RecipientsRoundTrip`,
  `BroadcastForm.RolesQueryRoundTrip`: the backend that splits the
  comma-joined strings is not part of this model.
  `String.prototype.split` stands in for it, and the round trip holds only
  when no value contains a comma.
