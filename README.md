# Task item and authentication logic of a task manager, in Dafny

The application is a to-do manager. Users sign in, create tasks and attach
activities (sub-items) to each task. Persistence, authentication and live
updates all belong to a hosted backend. Two pieces of the application's own
logic are modelled and proved here.

* **The task item** (`components/tasks/TaskItem.tsx`):
  * the progress percentage shown for a task;
  * the three rewrites of a task's activity list: add, set `completed` by id, and delete by id.
    The handlers send each rewritten list to the store as a whole-array replacement;
  * the guard that decides whether a title edit is sent, and with what text;
  * the loading flags each handler raises around its awaited store write.
* **The authentication context** (`context/AuthContext.tsx`):
  * the table from authentication error codes to user-facing messages;
  * the choice between a mapped message and a fixed fallback in `login` and `signup`;
  * the provider's `user`/`loading` state.

Files:

* `text.dfy` (module `Text`): JavaScript's `String.prototype.trim` and the blank test built on it.
* `activities.dfy` (module `Activities`): the pure part of the task item.
  `Progress`, `NewActivity`, `AppendActivity`, `SetCompleted` and `RemoveActivity` are functions on `seq<Activity>`.
  The lemmas relate them to each other and to progress.
* `task_item.dfy` (module `TaskItemComponent`): the title guard `TitleEdit`, and the component as a class `TaskItem`.
  Its fields are the component's state hooks. The `task` prop is a `const`.
  Each async handler is split at its one `await` into `BeginX` and `EndX`:
  * `BeginX` raises the flag and returns the `Write` the handler issues, or `None` when a guard stops it.
  * `EndX` takes the store's success/failure report, applies the success-dependent state changes and clears the flag.

  The `requires` clauses of the `BeginX` methods are the `disabled` conditions on the controls that trigger them
  (`TaskItem.tsx` lines 142, 155, 188, 228, 236, 256 and 259).
  A handler cannot run while those flags are up.
* `auth.dfy` (module `AuthContext`): `MapFirebaseAuthError`, `ErrorMessage`, and the class `AuthProvider`.
  `login` and `signup` are split the same way. The sign-in outcome is a parameter.
* `wrappers.dfy`: the `Option` type.

Progress uses exact integer arithmetic: `(200 * c + n) / (2 * n)` for `c` completed out of `n` activities.
That is `Math.round(c / n * 100)` with round-half-up and no floating-point error.
`Progress` states the rounding as `2n·p ≤ 200c + n < 2n·(p + 1)`.

"Progress is 100 exactly when every activity is completed" holds only for fewer than 200 activities.
From 200 activities on, one open activity still rounds to 100. For example, 999 of 1000 gives 99.9, shown as 100.
So the model proves three things:
* the exact condition (`ProgressFull`: at most one activity in 200 still open);
* the bounded corollary (`ProgressFullOnlyWhenAllCompleted`);
* the boundary case (`ProgressFullWithOneOpen`).

The same holds for 0 (`ProgressZero`).

The data model treats a task's activity list as optional. The code reads `task.activities || []` everywhere,
although the application's documented data model says the list is always present. The model follows the code.

## Model

| member | source | states |
|---|---|---|
| Text.TrimStart | components/tasks/TaskItem.tsx:81 | the result is a suffix of the input, starts with a non-whitespace character, and the prefix dropped is blank |
| Text.BlankCons | components/tasks/TaskItem.tsx:81 | one step of `TrimStart`: a leading whitespace character joins the blank prefix that is dropped |
| Text.TrimEnd | components/tasks/TaskItem.tsx:81 | the result is a prefix of the input, ends with a non-whitespace character, and everything dropped is whitespace |
| Text.Trim | components/tasks/TaskItem.tsx:81 | `trim()` is a contiguous slice of the input with only blank text before and after it; it is empty exactly when the input is blank, and otherwise has no whitespace at either end |
| Text.CutsBlankEndsIntro | components/tasks/TaskItem.tsx:81 | dropping a blank head and then a blank tail leaves a slice of the input with blank ends cut off |
| Text.TrimCutsBlankEnds | components/tasks/TaskItem.tsx:81 | what `TrimStart` then `TrimEnd` keep is a slice of the input whose cut-off ends are blank |
| Text.TrimEndTailBlank | components/tasks/TaskItem.tsx:81 | the suffix `TrimEnd` drops is blank |
| Text.TrimEndsTrimmed | components/tasks/TaskItem.tsx:81 | the trimmed string has no whitespace at either end, and is empty exactly when the input is blank |
| Text.TrimStartEmpty | components/tasks/TaskItem.tsx:81 | `TrimStart` leaves nothing exactly when the input is blank |
| Text.TrimEndEmpty | components/tasks/TaskItem.tsx:81 | `TrimEnd` of a string starting with a non-whitespace character is empty only when the string is |
| Text.TrimOfTrimmed | components/tasks/TaskItem.tsx:85 | a string with no whitespace at either end is left unchanged by trim |
| Text.TrimIdempotent | components/tasks/TaskItem.tsx:68 | trimming twice equals trimming once |
| Text.TrimStartLeadingBlank | components/tasks/TaskItem.tsx:62 | a blank prefix is exactly what `TrimStart` drops first |
| Text.TrimLeadingBlank | components/tasks/TaskItem.tsx:62 | any blank prefix added to a string is removed again by trim |
| Text.TrimLeadingSpace | components/tasks/TaskItem.tsx:62 | any single whitespace character added at the front is removed again by trim |
| Activities.OrEmpty | components/tasks/TaskItem.tsx:88 | an absent activity list reads as the empty list, a present one as itself |
| Activities.CompletedCount | components/tasks/TaskItem.tsx:35 | the completed count is at most the length, and equals it exactly when every activity is completed |
| Activities.RoundedPercent | components/tasks/TaskItem.tsx:36 | the result is the integer nearest 100·c/n with halves rounded up, and lies in 0..100 |
| Activities.Progress | components/tasks/TaskItem.tsx:33-37 | progress is 0 for an absent or empty list; otherwise it is round(100·completed/total); always in 0..100 |
| Activities.RoundedPercentMonotone | components/tasks/TaskItem.tsx:36 | more completed activities out of the same total never show a lower percentage |
| Activities.ProgressFull | components/tasks/TaskItem.tsx:35-36 | progress is 100 exactly when 200·(open activities) ≤ total |
| Activities.RoundedPercentZero | components/tasks/TaskItem.tsx:36 | the rounded percentage is 0 exactly when 200·c < n |
| Activities.ProgressZero | components/tasks/TaskItem.tsx:34-36 | progress of a non-empty list is 0 exactly when 200·completed < total |
| Activities.ProgressAllCompleted | components/tasks/TaskItem.tsx:35-36 | a non-empty list whose activities are all completed shows 100 |
| Activities.ProgressFullOnlyWhenAllCompleted | components/tasks/TaskItem.tsx:35-36 | with fewer than 200 activities, 100 is shown only when all are completed |
| Activities.ProgressFullWithOneOpen | components/tasks/TaskItem.tsx:36 | from 200 activities on, a list with exactly one open activity shows 100 |
| Activities.NewActivity | components/tasks/TaskItem.tsx:83-87 | the new activity has the supplied id, the trimmed name (non-empty when the draft is not blank) and is not completed |
| Activities.AppendActivity | components/tasks/TaskItem.tsx:88 | the result is one longer, its last element is the new activity, and all earlier elements are unchanged and in order |
| Activities.SetCompleted | components/tasks/TaskItem.tsx:102-104 | length is kept; every element keeps id and name; `completed` changes only where the id matches, to the given value |
| Activities.RemoveActivity | components/tasks/TaskItem.tsx:113 | no element with the id survives, every element with another id does, and nothing new appears; the length never grows |
| Activities.SetCompletedKeepsIds | components/tasks/TaskItem.tsx:102-104 | the sequence of ids, and so the order, is unchanged by a toggle |
| Activities.SetCompletedNoMatch | components/tasks/TaskItem.tsx:102-104 | a toggle whose id matches no activity returns the list unchanged |
| Activities.SetCompletedIdempotent | components/tasks/TaskItem.tsx:102-104 | applying the same toggle twice equals applying it once |
| Activities.SetCompletedCountUp | components/tasks/TaskItem.tsx:102-104 | checking activities off never lowers the completed count |
| Activities.SetCompletedCountDown | components/tasks/TaskItem.tsx:102-104 | unchecking activities never raises the completed count |
| Activities.CheckingNeverLowersProgress | components/tasks/TaskItem.tsx:33-37 | progress after checking an id off is at least progress before |
| Activities.UncheckingNeverRaisesProgress | components/tasks/TaskItem.tsx:33-37 | progress after unchecking an id is at most progress before |
| Activities.CompleteOneCount | components/tasks/TaskItem.tsx:35 | completing one open activity, others fixed, adds exactly one to the completed count |
| Activities.CompleteOneNeverLowersProgress | components/tasks/TaskItem.tsx:33-37 | completing one open activity, others fixed, never lowers progress |
| Activities.RemoveActivityLength | components/tasks/TaskItem.tsx:113 | the result is shorter by exactly the number of activities carrying the id |
| Activities.RemoveActivityIsSubsequence | components/tasks/TaskItem.tsx:113 | the survivors keep their original relative order (the result is a subsequence of the input) |
| Activities.RemoveActivityConcat | components/tasks/TaskItem.tsx:113 | removal distributes over concatenation |
| Activities.RemoveActivityNoMatch | components/tasks/TaskItem.tsx:113 | removing an id no activity carries returns the list unchanged |
| Activities.RemoveAfterAppend | components/tasks/TaskItem.tsx:88 | deleting the id of a just-appended activity equals deleting that id from the list before the append |
| Activities.AppendThenRemoveRestores | components/tasks/TaskItem.tsx:88 | appending an activity with a new id and then deleting that id restores the original list |
| Activities.RemoveAfterSetCompleted | components/tasks/TaskItem.tsx:113 | deleting an id after toggling that id equals deleting it directly |
| Activities.AppendNewKeepsCompletedCount | components/tasks/TaskItem.tsx:86-88 | adding a new (open) activity leaves the completed count unchanged |
| Activities.AppendNewNeverRaisesProgress | components/tasks/TaskItem.tsx:83-88 | adding a new activity never raises progress |
| TaskItemComponent.TitleEdit | components/tasks/TaskItem.tsx:62-68 | no update exactly when the draft is blank or equal (untrimmed) to the title; otherwise the update carries the trimmed, non-empty draft |
| TaskItemComponent.TitleEditSettles | components/tasks/TaskItem.tsx:62 | once the sent title is the current title, submitting it again sends nothing |
| TaskItemComponent.TitleEditStable | components/tasks/TaskItem.tsx:68 | re-submitting a sent title against any other title sends the same title |
| TaskItemComponent.TitleEditPaddedCurrent | components/tasks/TaskItem.tsx:62 | the current title padded with a space passes the guard and sends the unchanged title |
| TaskItemComponent.TaskItem.constructor | components/tasks/TaskItem.tsx:25-31 | mounting: collapsed, not editing, title draft = task title, empty activity draft, no flag raised |
| TaskItemComponent.TaskItem.ToggleExpanded | components/tasks/TaskItem.tsx:193 | flips `isExpanded` and nothing else |
| TaskItemComponent.TaskItem.StartEditingTitle | components/tasks/TaskItem.tsx:167 | enters edit mode and nothing else |
| TaskItemComponent.TaskItem.ChangeTitleDraft | components/tasks/TaskItem.tsx:150 | replaces the title draft and nothing else |
| TaskItemComponent.TaskItem.ChangeActivityDraft | components/tasks/TaskItem.tsx:253 | replaces the activity draft and nothing else |
| TaskItemComponent.TaskItem.BeginToggleComplete | components/tasks/TaskItem.tsx:40-42 | raises `loadingUpdate` and issues `{ completed: checked }` for this task; nothing else changes |
| TaskItemComponent.TaskItem.EndToggleComplete | components/tasks/TaskItem.tsx:43-44 | clears `loadingUpdate` whatever the outcome; nothing else changes |
| TaskItemComponent.TaskItem.BeginDelete | components/tasks/TaskItem.tsx:47-50 | declined: no write, no change; confirmed: raises `loadingDelete` and issues the delete of this task |
| TaskItemComponent.TaskItem.EndDelete | components/tasks/TaskItem.tsx:51-56 | clears `loadingDelete` whatever the outcome; nothing else changes |
| TaskItemComponent.TaskItem.BeginTitleUpdate | components/tasks/TaskItem.tsx:60-68 | guard fails: no write, leaves edit mode and resets the draft to the title; otherwise raises `loadingUpdate` and issues only `title = trim(draft)` |
| TaskItemComponent.TaskItem.EndTitleUpdate | components/tasks/TaskItem.tsx:69-76 | success leaves edit mode, failure resets the draft to the title; `loadingUpdate` is cleared either way |
| TaskItemComponent.TaskItem.BeginAddActivity | components/tasks/TaskItem.tsx:79-89 | only callable while expanded, as the add form exists only then (line 201); blank draft: no write, no change; otherwise raises `loadingActivity` and issues the list with the new activity appended |
| TaskItemComponent.TaskItem.EndAddActivity | components/tasks/TaskItem.tsx:90-97 | success clears the draft, and sets `isExpanded` only when the value captured at submit was false, which never happens; `loadingActivity` is cleared either way |
| TaskItemComponent.CollapseDuringAdd | components/tasks/TaskItem.tsx:90-97 | an item collapsed while the add write is pending stays collapsed after a successful add, with the draft cleared and the flag down |
| TaskItemComponent.TaskItem.BeginToggleActivity | components/tasks/TaskItem.tsx:100-105 | raises `loadingActivity` and issues the list with `completed` set on the activities carrying the id |
| TaskItemComponent.TaskItem.EndToggleActivity | components/tasks/TaskItem.tsx:106-107 | clears `loadingActivity` whatever the outcome |
| TaskItemComponent.TaskItem.BeginDeleteActivity | components/tasks/TaskItem.tsx:110-114 | declined: no write, no change; confirmed: raises `loadingActivity` and issues the list without the activities carrying the id |
| TaskItemComponent.TaskItem.EndDeleteActivity | components/tasks/TaskItem.tsx:115-120 | clears `loadingActivity` whatever the outcome |
| TaskItemComponent.AddActivityAttempt | components/tasks/TaskItem.tsx:79-98 | the whole add handler, submitted from an expanded item: a write is issued exactly when the draft is not blank; the draft is cleared on success and kept on failure; the item stays expanded and the activity flag is down afterwards |
| AuthContext.MapFirebaseAuthError | context/AuthContext.tsx:89-100 | total; every result is one of the table's messages; the generic message is returned exactly for codes outside the listed ones |
| AuthContext.BadCredentialsShareMessage | context/AuthContext.tsx:93-94 | `auth/user-not-found` and `auth/wrong-password` map to the same message |
| AuthContext.KnownCodesDistinct | context/AuthContext.tsx:91-97 | two listed codes share a message exactly when they are equal or are the user-not-found/wrong-password pair |
| AuthContext.ListedCodesMessages | context/AuthContext.tsx:91-98 | each of the five other listed codes maps to its own message, and none of the table's specific messages is the default one |
| AuthContext.ErrorMessage | context/AuthContext.tsx:47 | with a truthy error code the message is exactly the table's message for that code, otherwise it is the fallback |
| AuthContext.LoginFallbackOnlyWithoutCode | context/AuthContext.tsx:47 | the login fallback is shown exactly when the error has no code |
| AuthContext.SignupFallbackOnlyWithoutCode | context/AuthContext.tsx:62 | the signup fallback is shown exactly when the error has no code |
| AuthContext.LoginSignupAgreeOnCodes | context/AuthContext.tsx:47-62 | login and signup show the same message exactly when the error has a code |
| AuthContext.AuthProvider.constructor | context/AuthContext.tsx:27-28 | no user, loading |
| AuthContext.AuthProvider.AuthStateChanged | context/AuthContext.tsx:31-35 | records the reported user and ends loading |
| AuthContext.AuthProvider.BeginLogin | context/AuthContext.tsx:39-42 | sets loading before the sign-in call; the user is untouched |
| AuthContext.AuthProvider.EndLogin | context/AuthContext.tsx:43-51 | success toast and `/dashboard`, or the chosen error message and no navigation; loading is false either way |
| AuthContext.AuthProvider.BeginSignup | context/AuthContext.tsx:54-57 | sets loading before the account-creation call; the user is untouched |
| AuthContext.AuthProvider.EndSignup | context/AuthContext.tsx:58-66 | success toast and `/login`, or the chosen error message and no navigation; loading is false either way |
| AuthContext.AuthProvider.Logout | context/AuthContext.tsx:69-81 | success toast and `/login`; on failure the error's own message if truthy, else the fallback; never touches loading or user |
| AuthContext.LoginAttempt | context/AuthContext.tsx:39-52 | a whole login: loading is false and the user unchanged afterwards, and a failure toast appears exactly when the sign-in was rejected |

## Left out

- The task store (`lib/firestore.ts`) is not part of this model. A write is the returned `Write` value, and its outcome is the `success` parameter of `EndX`. The store's "not signed in" guard surfaces only as a failed write.
- The live task subscription is left out, and so are prop refreshes from it. The `task` prop is fixed for the item's lifetime. Lost updates from whole-array replacement are therefore not represented.
- Activity ids come from a foreign id generator. They are the `freshId` parameter and are not assumed unique.
- Progress: computed with exact rational arithmetic. JavaScript's floating-point `c / n * 100` may land just below or above an exact half. On such inputs `Math.round` can differ from the model by one.
- Text.Trim: works on Unicode scalar values, not UTF-16 code units. Unpaired surrogates are not modelled.
- `window.confirm` is the `confirmed` parameter.
- The task item's toasts, `console` logging and date formatting (`Intl.DateTimeFormat`) are not modelled. The auth provider's toasts are modelled as the returned `Notice` and its navigation as the returned route. Its `console.error` calls on failed login, signup and logout (context/AuthContext.tsx:46, 61, 76) are left out: they are logging with no effect on state.
- Task fields `userId` and `createdAt` are not modelled; the item's logic does not read them.
- The auth-state listener's unsubscription on unmount is not modelled.
- Presentation and routing components hold no logic to prove and are not modelled: login and signup pages and forms, header, sidebar, task list, dialogs, spinner, layouts, and the auth guard hook.
- Task filtering and counts are not modelled; their code is not part of this model.
