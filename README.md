# Task views of a team task manager, modelled in Dafny

The application is a React client over a hosted relational store. It has a
`tasks` table, a `profiles` table and a `user_roles` table. This project
models the part of the client that holds actual logic:

- the task data-access hook. It builds the listing query and turns fetched
  rows into `Task` records, resolving display names with "Unknown" as the
  fallback. It builds the create/update/delete payloads. It passes store
  errors on to the caller. It invalidates the cached listings after a
  successful mutation.
- the dashboard's stat counts: total, per status, overdue.
- the dashboard's charts: the non-empty status slices and the seven-day
  creation histogram.
- the task table's per-row rules: the due-date cell and its overdue
  highlight, the "Self"/"You"/"Unknown" names, and the edit and delete
  actions.
- the admin roster, which groups role rows per user and falls back to
  `["user"]`.
- the task form: prefill or reset, and the submit payload.
- the dialog/edit state of the tasks page.

The store, the current user, the clock ("now") and the outcome of every
mutation are parameters. Timestamps are integer instants in milliseconds on
the viewer's local clock (`Clock.Instant`). A calendar day is
`instant / 86 400 000`, and Dafny's `/` rounds down for a positive divisor.
date-fns `isPast` is "before now". `isToday` is "on the same calendar day as
now". `subDays(now, k)` is `now - k` days. Formatting a date as `yyyy-MM-dd`
is taken to identify exactly its calendar day.

Modules follow the source files: `UseTasks` (src/hooks/useTasks.tsx),
`Dashboard`, `DashboardCharts`, `TaskTable`, `AdminUsers`, `TaskDialog`,
`TasksPage` (src/pages/Tasks.tsx). Three helper modules support them:
`Wrappers` (Option/Result), `Counting` (`filter(p).length` as
`Count(s, p)`) and `Clock`. The form (`TaskDialog.TaskForm`) and the tasks
page (`TasksPage.Page`) update state step by step, so they are classes. Their
methods are proved against the pure functions `Prefill`, `Payload`,
`CreateTask`, `UpdateTask` and `DeleteTask`. The role map is built by a loop
(`AdminUsers.BuildRoleMap`), proved against `RolesOf`.

Behaviour of the code worth knowing:

- Title validation is only the title input's `required` attribute. The
  browser refuses to submit an empty title, but a title of spaces passes
  (`TaskDialog.Payload`, outcome `TitleMissing`).
- An empty assignee is replaced by the current user in the form's submit
  handler, not in the hook (`TaskDialog.Payload`).
- The hook reads `user!.id` without checking for a user. Creating while
  signed out throws before any request is sent (`UseTasks.CreateTask`,
  failure `NoUser`).
- The "Assigned To" column shows "You" when the assignee is the current
  user. A profile whose name is itself "You" is shown the same way, so the
  word alone does not identify the current user.

## Model

| member | source | states |
|---|---|---|
| Counting.Count | src/pages/Dashboard.tsx:13-18 | `filter(p).length` is at most the length, and is 0 exactly when no element satisfies `p` |
| Counting.CountPermutation | src/pages/Dashboard.tsx:13-18 | a count does not depend on the order of the tasks |
| Clock.PastNotTodayIsEarlierDay | src/pages/Dashboard.tsx:17 | "in the past and not today" holds exactly when the calendar day is before today |
| Clock.DayOfSubDays | src/components/DashboardCharts.tsx:22-23 | going back k days lands on the calendar day k before today |
| UseTasks.BuildListQuery | src/hooks/useTasks.tsx:28-35 | all tasks, newest first; a status constraint only when a filter other than "all" is given, and then exactly that status |
| UseTasks.FilteredListing | src/hooks/useTasks.tsx:33-35 | when the fetched rows satisfy the status constraint, every listed task has that status |
| UseTasks.ReferencedIds | src/hooks/useTasks.tsx:41 | the flat-mapped ids are two per row and are exactly the creators and assignees |
| UseTasks.Distinct | src/hooks/useTasks.tsx:41 | spreading a Set gives no duplicates, the same elements, and no more than the input |
| UseTasks.ProfileLookupIds | src/hooks/useTasks.tsx:41-45 | the ids looked up are exactly the distinct creators and assignees, without duplicates |
| UseTasks.DisplayName | src/hooks/useTasks.tsx:47 | a profile's name is its full name when that is present and non-empty, otherwise its email |
| UseTasks.ProfileMap | src/hooks/useTasks.tsx:47 | the map holds exactly the looked-up ids; for each id, the last profile with it gives the name |
| UseTasks.ProfileMapOf | src/hooks/useTasks.tsx:42-47 | a failed or missing profile response gives the empty map; a returned list gives its `ProfileMap`, keyed by exactly the returned ids |
| UseTasks.NameFor | src/hooks/useTasks.tsx:53-54 | the name is never empty; it is the mapped name when present and non-empty, otherwise "Unknown" |
| UseTasks.Enrich | src/hooks/useTasks.tsx:49-55 | a row keeps its id, status and creation time; each name is `NameFor` of its id in the map: the mapped name when non-empty, otherwise "Unknown" |
| UseTasks.ListingNamesFromProfiles | src/hooks/useTasks.tsx:42-54 | in a listed task, creator and assignee are named by the last returned profile with their id, or "Unknown" when that profile's name is empty or no profile has the id |
| UseTasks.FetchTasks | src/hooks/useTasks.tsx:37-55 | a listing error is thrown; otherwise one enriched task per fetched row, same length and order |
| UseTasks.EnrichKeepsColumns | src/hooks/useTasks.tsx:49-55 | enrichment keeps every column; a missing description becomes "" and a missing due date becomes none |
| UseTasks.ResolvedName | src/hooks/useTasks.tsx:47-54 | a found id gets its profile's display name, or "Unknown" when that is empty |
| UseTasks.UnresolvedName | src/hooks/useTasks.tsx:53-54 | an id without a profile is shown as "Unknown" |
| UseTasks.NoProfilesAllUnknown | src/hooks/useTasks.tsx:42-54 | with a failed or empty profile lookup the listing still succeeds and every name is "Unknown" |
| UseTasks.ListingKeepsOrder | src/hooks/useTasks.tsx:31-55 | rows fetched newest first stay newest first and keep their order |
| UseTasks.Invalidated | src/hooks/useTasks.tsx:75 | invalidating by a prefix marks exactly the cached keys that start with it |
| UseTasks.TasksPrefixCoversListings | src/hooks/useTasks.tsx:26 | the "tasks" prefix covers every listing key `["tasks", filter, isAdmin]`, and neither the profile key nor the roster key |
| UseTasks.CreatePayload | src/hooks/useTasks.tsx:68-71 | the insert copies the input's fields and sets the creator to the acting user |
| UseTasks.CreatorIsActingUser | src/hooks/useTasks.tsx:68-71 | a creator supplied by the caller is overridden by the acting user |
| UseTasks.UpdatePayload | src/hooks/useTasks.tsx:79-86 | the update is the input minus its id; the id only selects the row |
| UseTasks.UpdateKeepsIdentity | src/hooks/useTasks.tsx:79-86 | an update of the declared fields never changes a row's id or creation time and leaves other rows alone; it changes the creator only when the caller passes one beside the declared fields, which the rest-spread forwards; an empty update changes nothing |
| UseTasks.Settle | src/hooks/useTasks.tsx:86-90 | a store error is rethrown as is; only a success invalidates the "tasks" prefix |
| UseTasks.CreateTask | src/hooks/useTasks.tsx:60-76 | signed out, nothing is sent and the call throws; otherwise the acting user's payload is sent; success returns the store's row; errors and invalidation are as for any mutation |
| UseTasks.UpdateTask | src/hooks/useTasks.tsx:78-91 | sends the update payload; success returns the store's row; throws the store's error; invalidates listings only on success |
| UseTasks.DeleteTask | src/hooks/useTasks.tsx:93-99 | sends a delete of the id; throws the store's error; invalidates listings only on success |
| UseTasks.MutationRefreshesListings | src/hooks/useTasks.tsx:75-98 | after a mutation, a cached listing is stale exactly when the mutation succeeded; the profile and roster queries never are |
| Dashboard.ComputeStats | src/pages/Dashboard.tsx:12-18 | total is the number of tasks; each status number counts the tasks with that status and overdue counts the overdue tasks; pending + in progress + completed = total; overdue <= total - completed |
| Dashboard.StatusPartition | src/pages/Dashboard.tsx:13-15 | the three status counts add up to the number of tasks |
| Dashboard.OverdueNotCompleted | src/pages/Dashboard.tsx:15-18 | overdue and completed tasks are disjoint |
| Dashboard.IsOverdue | src/pages/Dashboard.tsx:16-17 | overdue holds exactly when there is a due date on an earlier day than today and the task is not completed |
| Dashboard.StatsIgnoreOrder | src/pages/Dashboard.tsx:12-18 | all five numbers are the same for any reordering of the tasks |
| DashboardCharts.KeepPositive | src/components/DashboardCharts.tsx:18 | the filter keeps exactly the slices with a positive value, in their order |
| DashboardCharts.KeepPositiveSum | src/components/DashboardCharts.tsx:18 | dropping empty slices does not change the sum |
| DashboardCharts.AllSlices | src/components/DashboardCharts.tsx:14-17 | one slice per status, in the order Pending, In Progress, Completed, each counting the tasks with its status; together they add up to the number of tasks |
| DashboardCharts.StatusData | src/components/DashboardCharts.tsx:14-18 | at most 3 slices, each positive; each status's slice is present iff its count is positive; fixed order Pending, In Progress, Completed; values sum to the number of tasks; empty iff there are no tasks |
| DashboardCharts.NoTasksYetExactlyWhenEmpty | src/components/DashboardCharts.tsx:36-37 | "No tasks yet" is shown exactly when there are no tasks |
| DashboardCharts.Last7Days | src/components/DashboardCharts.tsx:21-27 | exactly 7 buckets; bucket i is the day 6 - i days before today; each counts the tasks created that day |
| DashboardCharts.CountsOnSum | src/components/DashboardCharts.tsx:25 | over distinct days, the per-day counts add up to the tasks created on any of them |
| DashboardCharts.BucketsAreWeekCounts | src/components/DashboardCharts.tsx:21-25 | the bars are the per-day counts of the seven days ending today |
| DashboardCharts.HistogramSum | src/components/DashboardCharts.tsx:21-27 | a task lands in at most one bucket: the bars add up to the tasks created within the week, at most the number of tasks |
| DashboardCharts.OutsideWeekInNoBucket | src/components/DashboardCharts.tsx:21-25 | a task created more than six days ago, or after today, changes no bar |
| TaskTable.FormatDueDate | src/components/TaskTable.tsx:16-23 | no due date gives "No date" and is not overdue; otherwise overdue exactly when the due day is before today |
| TaskTable.OrUnknown | src/components/TaskTable.tsx:56 | a present non-empty name is shown as it is; a missing or empty one as "Unknown" |
| TaskTable.AssignedByName | src/components/TaskTable.tsx:53-56 | "Self" when the current user created the task for themself, "You" when they created it for someone else, otherwise the creator's name or "Unknown" |
| TaskTable.AssignedToName | src/components/TaskTable.tsx:57-59 | "You" when the assignee is the current user, otherwise the assignee's name or "Unknown" |
| TaskTable.RenderRow | src/components/TaskTable.tsx:51-99 | a row is keyed by the task's id; it shows the description only when non-empty; its due cell is `FormatDueDate` of the due date; it is highlighted exactly when the task is overdue; its names are `AssignedByName`/`AssignedToName`; edit iff a handler is given; delete iff a handler is given and the current user created the task |
| TaskTable.Render | src/components/TaskTable.tsx:28-62 | the empty state exactly for no tasks; otherwise one row per task, in input order, row i being task i's `RenderRow` |
| TaskTable.ActionsOffered | src/components/TaskTable.tsx:88-97 | edit is offered iff an edit handler is given; delete iff a delete handler is given and the current user created the task |
| TaskTable.HighlightIsOverdue | src/components/TaskTable.tsx:75-79 | a row is highlighted exactly when the dashboard counts the task as overdue |
| AdminUsers.RolesFromOwnRows | src/pages/AdminUsers.tsx:15-20 | a user's roles (`RolesOf`) are at most as many as the rows, and each comes from a row for that user |
| AdminUsers.AppendRoleStep | src/pages/AdminUsers.tsx:17-19 | appending one row's role to its user's list keeps the map equal to the roles of the rows seen so far, for exactly the users seen |
| AdminUsers.RolesOfCount | src/pages/AdminUsers.tsx:15-20 | a user with k role rows has exactly k roles, and none when it has no rows |
| AdminUsers.BuildRoleMap | src/pages/AdminUsers.tsx:15-20 | a user is in the role map iff it has a role row; its list is the roles of its rows in order, never empty |
| AdminUsers.RolesOrDefault | src/pages/AdminUsers.tsx:24 | a user in the map gets its list even when empty (an array is truthy); only a missing user gets ["user"]; with no empty list in the map the result is never empty |
| AdminUsers.EffectiveRoles | src/pages/AdminUsers.tsx:24 | the shown roles are never empty; they are ["user"] when the user has no rows |
| AdminUsers.LoadRoster | src/pages/AdminUsers.tsx:9-26 | a failed profile fetch throws; otherwise one entry per profile, in profile order, with its effective roles; a failed role fetch counts as no rows |
| AdminUsers.DefaultOnlyWithoutRows | src/pages/AdminUsers.tsx:15-24 | the default applies exactly when there are no rows for the user; otherwise the user gets the roles of its rows |
| AdminUsers.NoRoleRowsAllDefault | src/pages/AdminUsers.tsx:14-24 | with no role rows every user is shown as ["user"] |
| AdminUsers.OtherRowsIgnored | src/pages/AdminUsers.tsx:16-24 | role rows for other user ids do not change a user's roles |
| TaskDialog.Prefill | src/components/TaskDialog.tsx:39-53 | a task fills title, description, status, due date and assignee from the task; no task resets to an empty pending task assigned to the current user or "" |
| TaskDialog.Payload | src/components/TaskDialog.tsx:55-64 | an empty title is not submitted; the data are the fields; the assignee defaults to the current user, and is never empty for a signed-in user |
| TaskDialog.UneditedEditResubmitsTask | src/components/TaskDialog.tsx:40-63 | opening on a task and submitting unedited sends the task's own fields |
| TaskDialog.NewTaskDefaults | src/components/TaskDialog.tsx:46-63 | a new task with only a title is sent pending, with "" description, no due date, assigned to the current user |
| TaskDialog.TaskForm.constructor | src/components/TaskDialog.tsx:33-37 | the fields start empty and pending, and the effect has not yet run |
| TaskDialog.TaskForm.Render | src/components/TaskDialog.tsx:39-53 | the form is refilled by `Prefill` exactly when task, open flag or user differ from the last run |
| TaskDialog.TaskForm.SetTitle | src/components/TaskDialog.tsx:75 | editing the title changes only the title |
| TaskDialog.TaskForm.SetDescription | src/components/TaskDialog.tsx:79 | editing the description changes only the description |
| TaskDialog.TaskForm.SetStatus | src/components/TaskDialog.tsx:84 | choosing a status changes only the status |
| TaskDialog.TaskForm.SetDueDate | src/components/TaskDialog.tsx:103 | picking a date changes only the due date |
| TaskDialog.TaskForm.SetAssignedTo | src/components/TaskDialog.tsx:110 | choosing an assignee changes only the assignee |
| TaskDialog.TaskForm.HandleSubmit | src/components/TaskDialog.tsx:55-64 | the submit handler sends `Payload` of the current fields |
| UseTasks.Message | src/pages/Tasks.tsx:28 | a store error is shown with its own message; a signed-out create shows a non-empty engine message |
| TasksPage.CreateInputOf | src/pages/Tasks.tsx:22 | the form data go to create unchanged; no creator is supplied |
| TasksPage.UpdateInputOf | src/pages/Tasks.tsx:19 | the update carries the edited task's id and every form field, and no creator |
| TasksPage.EditRewritesOnlyThatTask | src/pages/Tasks.tsx:18-19 | saving an edit rewrites that row with the form's values and changes neither its creator nor any other row |
| TasksPage.Page.constructor | src/pages/Tasks.tsx:11-14 | initially: filter "all", dialog closed, no task being edited |
| TasksPage.Page.SetStatusFilter | src/pages/Tasks.tsx:59 | choosing a filter changes only the filter |
| TasksPage.Page.HandleEdit | src/pages/Tasks.tsx:32-35 | edit sets the edited task and opens the dialog |
| TasksPage.Page.NewTask | src/pages/Tasks.tsx:53 | "New Task" clears the edited task and opens the dialog |
| TasksPage.Page.OnOpenChange | src/pages/Tasks.tsx:76 | closing the dialog clears the edited task; opening keeps it |
| TasksPage.Page.HandleSubmit | src/pages/Tasks.tsx:16-30 | with a task being edited an update of its id is issued, otherwise a create; success closes the dialog and clears the edited task; failure keeps both and shows the error's message |
| TasksPage.Page.HandleDelete | src/pages/Tasks.tsx:37-44 | issues the delete and reports success or the store's message; it changes no page state |

## Left out

- The store itself: it filters, orders, inserts, updates and deletes the rows and enforces authorization. Its responses are parameters. The newest-first order is a precondition (`UseTasks.ListingKeepsOrder`), not something the model computes. `UseTasks.ApplyUpdate` gives the meaning of an update payload only as a reference.
- Column defaults and triggers of the store: an insert's default status and description, and the `updated_at` stamp. The model does not derive them.
- The query cache library. This covers `enabled: !!user`, `data ?? []`, loading and error flags, background refetch and staleness timing. Only which cached keys an invalidation marks is modelled.
- `useProfiles`, which only fetches the profile list for the assignee select.
- Date formatting text. This covers "MMM dd, yyyy", the relative distance, weekday labels and "PPP". `toISOString` is also left out: a due date is carried as its instant.
- Time zones and daylight-saving changes. A calendar day is a fixed length of time on the viewer's local clock.
- React's dependency comparison by object identity: `TaskDialog.TaskForm.Render` compares the task and the user by value (the user as its id). React re-runs the effect for a new task object with the same fields, or a new auth user object with the same id, and so refills or resets the form. The model does not.
- `UseTasks.UpdateKeepsIdentity`: the update input models the declared fields plus a caller-supplied `assigned_by`. The rest-spread would forward any other column a caller spreads in too, such as `created_at`, and the model does not cover those.
- `UseTasks.Message`: the text for a signed-out create assumes the auth hook gives `null` for no user (an `undefined` user gives a different engine message). The auth hook is not part of this model.
- Rendering, styling, the recharts charts, toast display, the roster's "Joined" date and its "—" for a missing name.
- src/pages/Auth.tsx, src/App.tsx, src/components/AppSidebar.tsx, src/components/StatusBadge.tsx and src/pages/AdminTasks.tsx. They cover sign-in, routing, navigation markup, a static label table, and a filter wrapper over the task table.
- Concurrent requests and their interleaving. Each handler is modelled as running to completion with its outcome given.
