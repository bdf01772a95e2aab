# mindful: a Dafny model of the habit tracker's logic

mindful is a habit tracker. A user states a goal, a plan generator turns it
into habits, and the daily habits become the day's to-dos. A dashboard shows
the goals, the to-dos, a bar chart of habits per frequency and an assistant
panel that answers a few fixed commands.

This project models the logic under the fetch calls and the rendering, on
both sides of the HTTP boundary:

- **Frontend (Next.js / React).**
  - The to-do list card: toggling and deleting by id, and the SMS summary text (`TodoList`).
  - The edit-habits page: field change, append, remove, the submit payload and its guards (`EditHabits`).
  - The frequency counters of the bar chart (`HabitBarChart`).
  - The header's three counts (`Header`).
  - The session provider, over the token slot of local storage (`AuthContext`).
  - The assistant panel's dispatch and greeting name (`AIAssist`).
- **Backend (FastAPI over MongoDB).**
  - The scripted assistant endpoint (`AiApi`).
  - Daily to-do materialisation and the completion update (`TodosApi`).
  - Goal creation from a habit plan, and goal listing (`GoalsApi`).
  - Registration and login (`AuthApi`).
  - The router table that mounts the endpoint groups (`ApiRouter`).

The MongoDB collections are the sequences of one `Database.Store` object.
They are kept in insertion order, and the store's `nextId` counter plays the
role of ObjectId generation. `Store.Valid()` says that every id lies below the
counter and that habit ids are distinct. Every endpoint handler that changes
the store (`RegisterUser`, `CreateGoal`, `GetDailyTodos`, `UpdateTodo`)
requires it and preserves it. The insert helpers they call make no promise
about it on their own.

An awaited `fetch` is a `Wrappers.Fetch` value passed in by the caller:
- `Ok(data)`, an ok response with its parsed body;
- `NotOk`, a response whose `ok` flag is false;
- `Thrown`, an exception.

Other outside effects are modelled as follows:
- **Page state.** `router.push`, the window location and the dashboard tab are out-parameters or fields.
- **Local storage.** The `token` slot is the shared object `AuthContext.TokenStore`.
- **Auth helpers.** Password hashing, password checking and token signing are function parameters (`hash`, `verify`, `sign`).
- **Plan generator.** The generated habit plan is an input list.
- **Time.** "Today" is a day number, and timestamps are integers in microseconds.

Shared helpers:
- `Text`: ASCII lower-casing, prefix test, split and join on one character.
- `Types`: the frontend records.
- `Wrappers`: `Option`, `Fetch` and `Result`, and JavaScript truthiness of an optional string (`Present`).

## Model

| member | source | states |
|---|---|---|
| Text.Lower | backend/app/api/v1/ai.py:11 | lower-casing keeps the length and maps each character independently; no upper-case ASCII letter survives |
| Text.LowerIdempotent | backend/app/api/v1/ai.py:11 | lower-casing an already lower-cased prompt changes nothing |
| TodoList.Toggled | frontend/src/components/modules/TodoList.tsx:83-87 | same length and order; every to-do keeps id, description, due date and habit id; `completed` becomes the negation of the passed flag exactly on the to-dos with the target id and is unchanged elsewhere |
| TodoList.ToggleTwiceRestores | frontend/src/components/modules/TodoList.tsx:79-87 | with unique ids, toggling a row with its current flag and then toggling it again with its new flag gives back the original list |
| TodoList.Without | frontend/src/components/modules/TodoList.tsx:116 | a to-do is in the result exactly when it was in the list and its id differs from the target; the list never grows |
| TodoList.WithoutKeepsOrder | frontend/src/components/modules/TodoList.tsx:116 | deleting distributes over concatenation, so the survivors keep their relative order |
| TodoList.WithoutRemovesMatches | frontend/src/components/modules/TodoList.tsx:116 | the result is shorter by exactly the number of to-dos with the id, and is the list itself when none has it |
| TodoList.SmsLines | frontend/src/components/modules/TodoList.tsx:34-35 | one line per to-do, in list order, each `description - Completed` or `description - Pending` |
| TodoList.SmsMessage | frontend/src/components/modules/TodoList.tsx:34-36 | the empty list gives the empty message, one to-do gives its line, and otherwise the first line, a newline, then the message of the rest |
| TodoList.SmsMessageLines | frontend/src/components/modules/TodoList.tsx:34-36 | when no description holds a newline, splitting the message on newlines gives back exactly the per-to-do lines; an empty list gives the empty message |
| TodoList.TodoListView.HandleToggle | frontend/src/components/modules/TodoList.tsx:65-94 | without a token: redirect to `/login` and the list is unchanged; with one, an ok reply replaces the list by the toggled list and any failure leaves it unchanged |
| TodoList.TodoListView.ToggleRow | frontend/src/components/modules/TodoList.tsx:166-171 | the checkbox passes the row's own id and current flag, so an ok toggle applies `Toggled` with them; otherwise the list is unchanged |
| TodoList.TodoListView.HandleDelete | frontend/src/components/modules/TodoList.tsx:96-124 | without a token: redirect and no change; a declined confirm or a failed request leaves the list; a confirmed ok delete leaves exactly the to-dos with other ids |
| TodoList.TodoListView.HandleSendSms | frontend/src/components/modules/TodoList.tsx:27-57 | without a token: redirect and no request; otherwise the request carries the phone number and the joined message, and the alert is chosen by the outcome (sent, failed, error) |
| EditHabits.WithField | frontend/src/app/edit-habits/page.tsx:58 | the chosen field takes the value and every other field keeps its value |
| EditHabits.DropIndex | frontend/src/app/edit-habits/page.tsx:69 | an index in range removes exactly that element and keeps the others in order; an index out of range leaves the list unchanged |
| EditHabits.Payload | frontend/src/app/edit-habits/page.tsx:93 | same length and order as the habits, each entry carrying only the description and frequency |
| EditHabits.AddThenRemoveRestores | frontend/src/app/edit-habits/page.tsx:62-71 | removing the habit just appended gives the previous list; changing a habit's id or goal id does not change the payload |
| EditHabits.EditHabitsPage.LoadGoal | frontend/src/app/edit-habits/page.tsx:19-54 | no goal id: go home; no token: go to login; an ok reply sets the goal and initialises the editable habits to its habits; a failure goes home and changes nothing |
| EditHabits.EditHabitsPage.HabitChange | frontend/src/app/edit-habits/page.tsx:56-60 | same length; element `index` has only the chosen field replaced; every other element is unchanged |
| EditHabits.EditHabitsPage.AddHabit | frontend/src/app/edit-habits/page.tsx:62-66 | with a goal id, exactly one blank daily habit of that goal is appended; without one, nothing changes |
| EditHabits.EditHabitsPage.RemoveHabit | frontend/src/app/edit-habits/page.tsx:68-71 | the habits become the list with that position dropped |
| EditHabits.EditHabitsPage.Submit | frontend/src/app/edit-habits/page.tsx:73-104 | the provider not authenticated, no goal id or no token: no request and a redirect to login; otherwise the request carries the goal id and the payload, and an ok reply goes home |
| HabitBarChart.CountHabits | frontend/src/components/modules/HabitBarChart.tsx:25-29 | the counter keys stay the four frequencies, and each counter grows by the number of habits with that frequency |
| HabitBarChart.ChartData | frontend/src/components/modules/HabitBarChart.tsx:16-38 | exactly four entries, labelled Daily, Weekly, Monthly, One-Time in that order, each valued at the number of habits across all goals with that frequency |
| HabitBarChart.FrequencyCount | frontend/src/components/modules/HabitBarChart.tsx:24-30 | the number of habits across all goals whose frequency is the given one (the reference the loops are proved against) |
| HabitBarChart.Hidden | frontend/src/components/modules/HabitBarChart.tsx:40 | `data.every(d => d.value === 0)`: every entry of the chart data is zero |
| HabitBarChart.CountInSplits | frontend/src/components/modules/HabitBarChart.tsx:26 | every habit of a goal lands in exactly one of the four counters or is skipped as unrecognised |
| HabitBarChart.BarsCoverHabits | frontend/src/components/modules/HabitBarChart.tsx:17-30 | the four bars plus the unrecognised habits equal the header's total, so the bars add up to at most the total |
| HabitBarChart.CountInZero | frontend/src/components/modules/HabitBarChart.tsx:25-29 | a goal's count for a frequency is zero exactly when none of its habits has that frequency |
| HabitBarChart.FrequencyCountZero | frontend/src/components/modules/HabitBarChart.tsx:24-30 | a bar is zero exactly when no habit of any goal has that frequency |
| HabitBarChart.HiddenIffNothingRecognised | frontend/src/components/modules/HabitBarChart.tsx:40-42 | the chart renders nothing exactly when no habit has one of the four frequencies, in particular with no goals |
| Header.TotalHabits | frontend/src/components/modules/Header.tsx:11 | zero exactly when no goal has a habit, and at least the habit count of each single goal |
| Header.TotalHabitsOne | frontend/src/components/modules/Header.tsx:11 | one goal contributes exactly its habit count, so with `TotalHabitsAppend` the total is the sum of the goals' habit counts |
| Header.TotalHabitsAppend | frontend/src/components/modules/Header.tsx:11 | the total over a concatenation of goal lists is the sum of the totals |
| Header.CompletedHabitTodos | frontend/src/components/modules/Header.tsx:12-14 | exactly the to-dos that are completed and carry a truthy habit id are kept |
| Header.CompletedHabitTodosAppend | frontend/src/components/modules/Header.tsx:12-14 | the filter distributes over concatenation, so each counted to-do is kept once and in order |
| Header.CompletedHabits | frontend/src/components/modules/Header.tsx:12-14 | at most the number of to-dos, and zero exactly when no to-do is a completed habit to-do |
| Header.CompletedHabitsCounts | frontend/src/components/modules/Header.tsx:12-14 | the length of the filtered list is the number of completed habit to-dos, and it adds up over any split of the list |
| Header.RemainingHabits | frontend/src/components/modules/Header.tsx:15 | between the total minus the number of to-dos and the total, and equal to the total exactly when no to-do is a completed habit to-do |
| Header.HeaderBalance | frontend/src/components/modules/Header.tsx:15 | remaining plus completed equals the total, with no clamping |
| Header.RemainingCanBeNegative | frontend/src/components/modules/Header.tsx:15 | with no goals and one completed habit to-do the remaining count is -1 |
| Header.ToggleOnCountsOne | frontend/src/components/modules/Header.tsx:12-14 | toggling a pending habit to-do on raises the completed count by exactly one |
| AuthContext.Mounted | frontend/src/context/AuthContext.tsx:20-21 | a mounted provider has no user and is loading |
| AuthContext.LoggedOut | frontend/src/context/AuthContext.tsx:74-77 | logout leaves no token and no user, and does not touch loading |
| AuthContext.Restored | frontend/src/context/AuthContext.tsx:24-48 | loading ends in every case; no truthy token changes nothing else; an ok reply sets the user; a failure or exception removes the token and clears the user |
| AuthContext.LoggedIn | frontend/src/context/AuthContext.tsx:53-72 | the token is stored and an ok reply sets the user; any failure ends in the logged-out state |
| AuthContext.TransitionsKeepConsistent | frontend/src/context/AuthContext.tsx:19-77 | a signed-in user always comes with a stored token, from mount through restore, login and logout |
| AuthContext.RestoreAuthenticates | frontend/src/context/AuthContext.tsx:23-51 | after the restore on mount, the session is authenticated exactly when a truthy token was stored and the fetch answered ok |
| AuthContext.FailedLoginIsLogout | frontend/src/context/AuthContext.tsx:64-71 | a failed login ends in the same state as logout, whatever token was given, and logout is idempotent |
| AuthContext.AuthProvider.Authenticated | frontend/src/context/AuthContext.tsx:80 | `isAuthenticated` is true exactly when the user slot is non-null |
| AuthContext.AuthProvider.constructor | frontend/src/context/AuthContext.tsx:20-21 | the provider starts with no user and loading on, over the given storage slot |
| AuthContext.AuthProvider.FetchUser | frontend/src/context/AuthContext.tsx:24-48 | the provider's state after the restore is `Restored` of its state before |
| AuthContext.AuthProvider.Login | frontend/src/context/AuthContext.tsx:53-72 | the provider's state after login is `LoggedIn` of its state before |
| AuthContext.AuthProvider.Logout | frontend/src/context/AuthContext.tsx:74-77 | the provider's state after logout is `LoggedOut` of its state before |
| AIAssist.DisplayName | frontend/src/components/modules/AIAssist.tsx:19 | "there" without an email; otherwise the prefix of the email before its first `@` (the whole email when it has none), holding no `@` |
| AIAssist.DisplayNameAsWritten | frontend/src/components/modules/AIAssist.tsx:19 | as written: "there" without an email; otherwise a non-empty array of pieces, none holding an `@` |
| AIAssist.ConcatSplit | frontend/src/components/modules/AIAssist.tsx:19 | the pieces of a split rendered side by side are the text with every separator dropped |
| AIAssist.AsWrittenShowsEmailWithoutAt | frontend/src/components/modules/AIAssist.tsx:19 | as written, the greeting shows the whole email with its `@` signs dropped |
| AIAssist.Dispatch | frontend/src/components/modules/AIAssist.tsx:21-50 | an empty prompt does nothing; an ok reply with redirect `/new-goal` (and only that) switches the tab; any other truthy redirect (and only that) navigates to it; an ok reply without one shows `data.response`; a non-ok reply and a thrown error show the same apology |
| AIAssist.OrEmpty | frontend/src/components/modules/AIAssist.tsx:43 | the reply's `response` text, read as empty when the field is absent |
| AIAssist.AssistEndToEnd | frontend/src/components/modules/AIAssist.tsx:34-44 | composed with the assistant endpoint's answer (which the wired backend does not give, see Findings), `create new goal` (and only that) switches the tab, the other commands navigate to their routes, and every other prompt shows the fallback text |
| AIAssist.AssistPanel.SetPrompt | frontend/src/components/modules/AIAssist.tsx:100 | the input's change sets the prompt and nothing else |
| AIAssist.AssistPanel.HandleSubmit | frontend/src/components/modules/AIAssist.tsx:21-51 | the panel's response, tab and location change exactly as `Dispatch` decides, and nothing else |
| AiApi.Assist | backend/app/api/v1/ai.py:9-25 | on the lower-cased prompt: `go to to-do` redirects to `/?tab=todos`, any prompt starting with `edit habits for` to `/edit-habits`, `create new goal` to `/new-goal`, `go to dashboard` to `/`; a response comes back exactly when none matches, and it is the fallback text |
| AiApi.AssistIgnoresCase | backend/app/api/v1/ai.py:11 | prompts that agree after lower-casing get the same answer |
| AiApi.ToBody | backend/app/api/v1/ai.py:14-25 | the body carries exactly one of `redirect` and `response` |
| TodosApi.GoalIdsOf | backend/app/api/v1/todos.py:21-23 | the ids of exactly the user's goals |
| TodosApi.DailyHabits | backend/app/api/v1/todos.py:26-30 | never more than the stored habits; its members and store order are pinned by `DailyHabitsMembers` and `DailyHabitsAppend` |
| TodosApi.DailyHabitsAppend | backend/app/api/v1/todos.py:26-30 | the query distributes over any split of the habit collection, so with `DailyHabitsMembers` the selected habits are the matching ones in store order, each once |
| TodosApi.DailyHabitsMembers | backend/app/api/v1/todos.py:26-30 | a habit is selected exactly when it is stored, daily, and belongs to one of the given goals |
| TodosApi.DailyHabitsDistinct | backend/app/api/v1/todos.py:26-30 | the selected habits keep the store's distinct ids |
| TodosApi.FindToday | backend/app/api/v1/todos.py:34-37 | a found to-do is stored, belongs to the habit and is due inside the day's window; none is found only when no stored to-do is |
| TodosApi.FindTodayAppend | backend/app/api/v1/todos.py:34-37 | appending to the store keeps an existing first match, and otherwise finds the first match among the appended ones |
| TodosApi.NextHabitHasNoFreshTodo | backend/app/api/v1/todos.py:33-50 | the to-dos created so far in the loop belong to earlier habits, so the next habit's lookup sees only what was stored before the call |
| TodosApi.TodayFor | backend/app/api/v1/todos.py:34-50 | an existing to-do for the habit today is returned and nothing is inserted; otherwise a new pending to-do due at the start of the day, with the habit's description and the user and habit ids, is inserted with the next id and returned carrying that id |
| TodosApi.TodosForHabits | backend/app/api/v1/todos.py:32-52 | one to-do per habit, in habit order, each belonging to its habit and due today; each is the one already stored or a fresh one made for the habit; the store grows by the fresh ones only |
| TodosApi.GetDailyTodos | backend/app/api/v1/todos.py:11-52 | the same for the daily habits of the user's goals, and afterwards each habit's lookup finds its returned to-do; users, goals and habits are unchanged and the store stays valid |
| TodosApi.GetDailyTodosTwice | backend/app/api/v1/todos.py:34-50 | a second call on the same day returns the same to-dos, ids included (see `TodosApi.TodayFor` under Left out), and inserts nothing |
| TodosApi.FindOwned | backend/app/api/v1/todos.py:63-64 | the position of a to-do with both the id and the user, or none when no to-do matches both |
| TodosApi.UpdateTodo | backend/app/api/v1/todos.py:54-72 | the matching record gets only its `completed` field set and is returned; without a match, a 404 "Todo not found" and nothing changes |
| GoalsApi.Take | backend/app/api/v1/goals.py:47 | a cursor read with a length cap gives exactly the first min(cap, size) documents, all of them when there are few enough |
| GoalsApi.GoalsOf | backend/app/api/v1/goals.py:53 | never more than the stored goals; its members and store order are pinned by `GoalsOfMembers` and `GoalsOfAppend` |
| GoalsApi.GoalsOfAppend | backend/app/api/v1/goals.py:53 | the lookup distributes over any split of the goal collection, so with `GoalsOfMembers` the user's goals come in store order, each once |
| GoalsApi.GoalsOfMembers | backend/app/api/v1/goals.py:53 | a goal is found exactly when it is stored and belongs to the user |
| GoalsApi.HabitsOf | backend/app/api/v1/goals.py:46 | the goal's habits in store order, never more than the stored habits |
| GoalsApi.HabitsOfMembers | backend/app/api/v1/goals.py:46 | a habit is found exactly when it is stored and points at the goal |
| GoalsApi.HabitsOfAppend | backend/app/api/v1/goals.py:46 | the lookup distributes over a concatenation of the habits collection |
| GoalsApi.Planned | backend/app/api/v1/goals.py:32-39 | one habit document per plan entry |
| GoalsApi.PlannedAt | backend/app/api/v1/goals.py:32-39 | the k-th habit to create copies the k-th plan entry's description and frequency and points at the new goal |
| GoalsApi.HabitsToCreate | backend/app/api/v1/goals.py:32-39 | the loop builds exactly one habit document per plan entry, in plan order |
| GoalsApi.FindGoal | backend/app/api/v1/goals.py:45 | a found goal is stored and has the id; none is found only when no stored goal has it |
| GoalsApi.FindGoalAppended | backend/app/api/v1/goals.py:45 | a goal inserted with a new id is the one found by that id |
| GoalsApi.CreatedHabitsAreThePlan | backend/app/api/v1/goals.py:45-47 | after the insert, the habits stored for the new goal are exactly the planned ones |
| GoalsApi.CreatedKeepsValid | backend/app/api/v1/goals.py:28-42 | inserting the goal and its habits keeps the store valid |
| GoalsApi.InsertGoal | backend/app/api/v1/goals.py:24-29 | the stored goal has the description and the user's id, and takes the next id |
| GoalsApi.InsertHabits | backend/app/api/v1/goals.py:41-42 | the documents are appended and the counter moves past them |
| GoalsApi.CreateGoal | backend/app/api/v1/goals.py:13-49 | an empty plan gives a 500 "Failed to generate habit plan" with nothing stored; otherwise the goal and one habit per entry are stored, and the response is the goal with its stored habits, capped at 100, which are the planned ones |
| GoalsApi.ListedGoalBelongs | backend/app/api/v1/goals.py:53-54 | every listed goal is a stored goal of the user |
| GoalsApi.ListedHabitBelongs | backend/app/api/v1/goals.py:58-59 | every listed habit is a stored habit of its goal |
| GoalsApi.GetGoals | backend/app/api/v1/goals.py:51-62 | the listed goals are exactly the first 100 of `GoalsOf` (the user's goals in store order, by `GoalsOfAppend`), each paired with the first 100 of its stored habits; every listed goal is a stored goal of the user |
| AuthApi.FindUserByEmail | backend/app/api/v1/auth.py:15 | a found user is the first stored user with the email; none is found only when no stored user has it |
| AuthApi.FindAppendedUser | backend/app/api/v1/auth.py:28-29 | a user inserted with a new email is the one found by that email |
| AuthApi.AppendKeepsEmailsUnique | backend/app/api/v1/auth.py:15-28 | inserting a user whose email is not stored keeps emails unique |
| AuthApi.AppendUserKeepsValid | backend/app/api/v1/auth.py:28 | inserting a user with the next id keeps the store valid |
| AuthApi.InsertUser | backend/app/api/v1/auth.py:21-28 | the stored user has the email, the hashed password and the time, and takes the next id |
| AuthApi.RegisterUser | backend/app/api/v1/auth.py:10-42 | a stored email gives a 400 "Email already registered" and nothing changes; otherwise exactly one user is added with the email, `hash(password)` (never the password) and the time, and is returned; email uniqueness is preserved |
| AuthApi.LoginForAccessToken | backend/app/api/v1/auth.py:51-67 | a 401 "Incorrect username or password" exactly when the email is unknown or `verify` rejects the password; otherwise a `bearer` token signed over the email and the 30-minute expiry |
| AuthApi.RegisteredUserCanLogIn | backend/app/api/v1/auth.py:56-67 | right after registering, logging in with the same email and password gives the token, when `verify` accepts a password against its own hash |
| AuthApi.WrongPasswordIsRejected | backend/app/api/v1/auth.py:56-62 | a password that `verify` rejects for every user with the email never yields a token |
| ApiRouter.AssistReply | backend/app/api/v1/api.py:4-9 | the assistant's answer comes back exactly when `/ai` is mounted; otherwise the reply is not ok |
| ApiRouter.AsWrittenEveryPromptApologises | backend/app/api/v1/api.py:4-9 | as written, no `/ai` prefix is mounted, so every non-empty prompt ends in the panel's apology |
| ApiRouter.MountedAssistEndToEnd | backend/app/api/v1/ai.py:9-25 | with the assistant mounted, `create new goal` (and only that) switches the tab, the other commands navigate, and every other prompt shows the fallback text |

## Left out

- HTTP, JSON parsing, status codes other than the ones raised, and headers.
  - Each call is an outcome value, and authentication of the backend's caller is a user id parameter.
- Rendering: React, JSX, hooks, animation and charts.
  - The dependency lists of `useEffect` and `useMemo` are also left out.
- The to-do list's redirect effect for an unauthenticated session.
  - It only calls `router.push` and is not modelled.
- Text.Lower maps only ASCII letters.
  - Python's `str.lower` also maps other alphabets.
- HabitBarChart.ChartData: the `in` test is a key lookup in the four-key counter map.
  - Inherited object keys such as `constructor` pass the source's `in` test and add a NaN-valued property that nothing reads; for `__proto__` the write is ignored.
  - The model skips such keys. The four counters the chart reads never change for them, so the chart is the same.
- HabitBarChart.CountHabits: its promise that the counter keys stay the four frequencies holds of the model only, because of the inherited keys above.
- AIAssist.OrEmpty: an ok reply without `response` shows the empty text.
  - JavaScript would set the response to `undefined`, which renders the same greeting.
- EditHabits.EditHabitsPage.HabitChange requires the index to be in range. The page only calls it for a rendered row.
  - JavaScript would extend the array at an out-of-range index.
- Time zones, `date.today()` and `datetime.utcnow()`.
  - A day is a number, and a timestamp is an integer in microseconds passed in by the caller.
- The plan generator and its OpenAI call.
  - The plan is an input list, and a plan entry missing `description` or `frequency` (a `KeyError` in the source) cannot be represented.
- The catch-all 500 handlers.
  - register_user's `except Exception` handler cannot fire in the model.
  - The same holds for the assistant endpoint's.
- ObjectId parsing of the path id in update_todo, and its failure on a malformed id.
- The backend's document ids, which are naturals handed out by the store's counter.
  - GoalsApi.HabitsToCreate therefore gives the documents their ids when it builds them.
  - The source's `insert_many` assigns them.
- TodosApi.TodayFor returns a fresh to-do with the id the store gave it.
  - The source returns the `Todo` object it built before the insert and never reads back `inserted_id`.
  - That object's id depends on a `Todo` schema that is not part of this model, so the id equality in TodosApi.GetDailyTodosTwice and the "lookup finds its returned to-do" clause of TodosApi.GetDailyTodos rest on this choice.
  - Without it, the second call still returns to-dos with the same habit, description, due date, completion and user.
- Email normalisation by the request schema, and a returned user's string id.
- Concurrency: the race between the lookup and the insert in register_user and get_daily_todos.
  - The store is sequential.
- TodoList.TodoListView.HandleToggle and TodoList.TodoListView.HandleDelete apply the list change to the list held when the reply arrives.
  - The source maps or filters the `todos` captured when the row was clicked.
  - So the model does not capture a lost update between two overlapping toggles or deletes.
- AuthContext.AuthProvider.FetchUser and AuthContext.AuthProvider.Login are atomic steps.
  - In the source, a restore started on mount can finish after a `login` and remove the token just stored.
  - The model does not capture that interleaving.
- GoalsApi.CreateGoal: the `GoalWithHabits(**None)` failure that would follow a missing created goal is not modelled.
  - The created goal is always found, and the model proves it.
- TodosApi.GetDailyTodos states that the id counter does not decrease, not its exact new value.
- The `sms/send-sms` endpoint, the users endpoint, the other pages and components, and the app wiring.
  - Each of these only renders, passes data through or configures the app.
- Password hashing, password verification and JWT creation are parameters, so bcrypt and JWT are not modelled.
- TodoList.TodoListView.HandleDelete and the goal fetch and update of EditHabits.EditHabitsPage take each reply as a parameter.
  - backend/app/api/v1/todos.py declares no DELETE route, and backend/app/api/v1/goals.py declares no GET or PUT by goal id, so as wired those replies would not be ok.
  - The backend handlers for these routes are not part of this model.

## Findings

| source | as written | input that shows it | evidently intended | confidence | as-written member | corrected member |
|---|---|---|---|---|---|---|
| backend/app/api/v1/api.py:4-9 | the table mounts auth, users, goals, todos and sms, but not the assistant's router, and main.py mounts only this table | any non-empty prompt: the POST to `/api/v1/ai/assist` finds no handler, and the panel shows "Sorry, something went wrong." | the assistant's router is also included, under `/ai` | not executed | ApiRouter.MountedAsWritten, ApiRouter.AsWrittenEveryPromptApologises | ApiRouter.Mounted, ApiRouter.MountedAssistEndToEnd |
| frontend/src/components/modules/AIAssist.tsx:19 | `user.email.split('@')` yields the array of pieces, and React renders them side by side | email `al@x` greets as `alx` | the part before the `@` (`split('@')[0]`), here `al` | not executed | AIAssist.DisplayNameAsWritten, AIAssist.AsWrittenShowsEmailWithoutAt | AIAssist.DisplayName |
