# Wedding-planner dashboard: the client-side table caches

This project models, in Dafny, the data layer of a single-user wedding-planning
dashboard. Every data hook keeps a local cache of one remote table (guests,
vendors, tasks, budget items) and changes it only after the remote store
answers. A fifth hook keeps the user's single wedding-info row. An
authentication hook tracks the signed-in user. On top of these, the dashboard
page has submit guards for its add forms, summary counters, a progress figure,
a "next tasks" panel, a budget badge and a chat input.

Each hook operation is a pure transition: (cache, signed-in user, the remote
store's answer) → cache. The answer is an input (`Ok(rows)` or `Err`); no call
is ever made. The four near-identical list hooks are one generic store
(`Store`) with three parameters: how to read a row's id, how to merge a partial
update into a row, and where an inserted row goes. An inserted row goes either
to the front, or at the end followed by a re-sort on an integer key.

Modules, by source file:

- `src/lib/supabase.ts` → `Records` (`records.dfy`): row, draft and patch types, and the `{ ...row, ...patch }` merges.
- `src/hooks/useSupabase.ts`:
  - `Auth` (`auth.dfy`): the `useAuth` hook.
  - `Sorting` (`sorting.dfy`): the re-sort after an insert.
  - `Store` (`store.dfy`): the generic cache.
  - `Hooks` (`hooks.dfy`): guests, vendors, tasks and budget as instances of `Store`.
  - `WeddingInfoHook` (`wedding_info.dfy`): the singleton hook.
- `src/app/page.tsx`:
  - `Dashboard` (`dashboard.dfy`): forms, counters, progress, next tasks, badge and the wedding form.
  - `Chat` (`chat.dfy`): the user half of the chat.
- `Wrappers` (`wrappers.dfy`): `Option` and the remote answer `Remote`.

Abstractions:

- Sort keys are integers. Tasks are ordered by `dateKey(due_date)`. `dateKey` is a parameter that stands for the instant a well-formed date string denotes.
- Budget items are ordered by `collate(category)`. `collate` is a parameter that stands for the locale's collation order.
- Money amounts are `real`. The progress figure is computed over reals.
- The clock reading stamped on a wedding-info save is a parameter (`now`).

Behaviour of the code worth knowing:

- Signing out does not clear a hook's cache. The user becoming absent re-runs the fetch, and the fetch returns before doing anything, so the previous user's rows stay cached and `loading` is unchanged (`Store.SignOutKeepsRows`).
- A partial update may carry `id`, `created_at` and `user_id`, and the merge then overwrites them. Patches therefore have every field optional.
- Failures are not reported to the caller. Each transition returns only the new cache.
- Tasks and budget items are not inserted in place. The new row is appended and the whole list is re-sorted. `Sorting.AppendThenSortIsInsert` and `Store.SortedAddInserts` prove that this equals an in-place stable insert when the cache was already sorted.

## Model

| member | source | states |
|---|---|---|
| Records.MergeGuest | src/hooks/useSupabase.ts:71 | the guest spread `{ ...g, ...updates }`: each field the patch carries, `id` and `user_id` included, takes the patch's value; each field it omits keeps the row's |
| Records.MergeVendor | src/hooks/useSupabase.ts:133 | the vendor spread: each carried field takes the patch's value, each omitted one keeps the row's |
| Records.MergeTask | src/hooks/useSupabase.ts:197 | the task spread: each carried field takes the patch's value, each omitted one keeps the row's |
| Records.MergeBudget | src/hooks/useSupabase.ts:259 | the budget spread: each carried field takes the patch's value, each omitted one keeps the row's |
| Records.MergeIdempotent | src/hooks/useSupabase.ts:64-73 | merging the same partial update into a row twice gives the same row as merging it once, for all four row kinds |
| Records.FlagPatchesTouchOneField | src/app/page.tsx:412-416 | the checkbox patches change that one flag and nothing else: `{confirmed}` for guests here, and `{completed}` for tasks (the task checkboxes at page.tsx lines 322-324 and 611-612) |
| Auth.Step | src/hooks/useSupabase.ts:11-21 | resolving the user sets the user and clears `loading`; an auth change sets the user to the session's user, or to none without a session, and leaves `loading` alone |
| Auth.RunUserIsLastEvent | src/hooks/useSupabase.ts:11-21 | after any non-empty sequence of auth events, the user is the one installed by the last event |
| Auth.RunLoadingIffUnresolved | src/hooks/useSupabase.ts:9-15 | after any sequence of events, `loading` is still set exactly when it was set before and no user lookup has answered |
| Auth.InitialLoadingIffUnresolved | src/hooks/useSupabase.ts:8-15 | from the initial state, the hook is loading exactly while the initial user lookup has not answered |
| Sorting.FirstAbove | src/hooks/useSupabase.ts:184-186 | every row before the insertion index has a key at most the new row's, and the row at the index, if any, has a strictly larger key; on sorted rows every later row is larger too (`Sorting.FirstAboveSplits`) |
| Sorting.Insert | src/hooks/useSupabase.ts:184-186 | a stable insert adds exactly the new row: the length grows by one and the multiset gains exactly that row |
| Sorting.InsertKeepsSorted | src/hooks/useSupabase.ts:184-186 | inserting into rows sorted by key leaves them sorted |
| Sorting.Sort | src/hooks/useSupabase.ts:184-186 | the re-sort returns a permutation of its input (same length, same multiset) in ascending key order, and it is stable: the rows sharing any one key keep their input order |
| Sorting.InsertStable | src/hooks/useSupabase.ts:184-186 | inserting into sorted rows puts the new row after every row with the same key, so each run of equal keys is the old run followed by the new row |
| Sorting.InsertAtEnd | src/hooks/useSupabase.ts:184-186 | a row whose key is at least every present key is placed last |
| Sorting.SortOfSorted | src/hooks/useSupabase.ts:184-186 | re-sorting rows that are already in key order returns them unchanged |
| Sorting.FirstAboveSplits | src/hooks/useSupabase.ts:184-186 | in sorted rows, every row from the insertion index on has a strictly larger key than the new row |
| Sorting.AppendThenSortIsInsert | src/hooks/useSupabase.ts:184-186 | on sorted rows, appending a row and re-sorting equals inserting it at its stable position |
| Store.MountedWaitsForUser | src/hooks/useSupabase.ts:32-37 | a hook mounts with no rows and `loading` set, and a fetch while signed out leaves it exactly so |
| Store.Fetch | src/hooks/useSupabase.ts:36-49 | with no user, the fetch changes nothing, `loading` included; with a user it clears `loading`; on success it replaces the rows with exactly the returned rows in their returned order; on error it keeps the rows |
| Store.Place | src/hooks/useSupabase.ts:59-61 | the inserted row joins the rows as a permutation of the old rows plus it: in front for guests and vendors (lines 59-61 and 121-123); for tasks and budget (lines 184-186 and 248), the result is sorted and rows with equal keys keep the order of the old rows followed by the new one |
| Store.Add | src/hooks/useSupabase.ts:51-62 | with no user, or on error, the cache is unchanged; on success the length grows by one and the multiset gains exactly the first returned row; prepend puts it first with the old rows as the tail; the sorted policy gives sorted rows in which equal keys keep the order of the old rows followed by the new one; `loading` is untouched |
| Store.SortedAddInserts | src/hooks/useSupabase.ts:183-186 | under the sorted policy, adding to a sorted cache places the row after every row with a key at most its own and before every row with a larger key, keeping the other rows in order |
| Store.InsertRequest | src/hooks/useSupabase.ts:51-56 | no insert is sent without a user; otherwise the payload is the draft unchanged, with `user_id` equal to the signed-in user's id |
| Store.AddKeepsOwnership | src/hooks/useSupabase.ts:51-62 | a cache holding only the user's rows still does after an add whose returned row carries the owner the request stamped |
| Store.UpdateRows | src/hooks/useSupabase.ts:71 | every row whose id matches is replaced by the patch merged over it; every other row is the same; length and order are preserved |
| Store.Update | src/hooks/useSupabase.ts:64-73 | an update takes no user. On error nothing changes. On success every matching row gets the patch merged over it, every other row is the same, and the length is preserved |
| Store.RemoveRows | src/hooks/useSupabase.ts:82 | the remaining rows are exactly the old rows whose id differs; with no matching row the rows are identical |
| Store.Delete | src/hooks/useSupabase.ts:75-84 | a delete takes no user. On error nothing changes. On success no row with the id remains, every other row keeps its multiplicity, and nothing new appears |
| Store.RemoveMultiplicity | src/hooks/useSupabase.ts:82 | removal drops every copy of every matching row and keeps every copy of every other row |
| Store.RemoveCountOf | src/hooks/useSupabase.ts:82 | for any value, removal keeps no copy when its id is the removed one and every copy otherwise |
| Store.RemoveDistributes | src/hooks/useSupabase.ts:82 | removal distributes over concatenation, so the surviving rows keep their relative order |
| Store.RemoveIdempotent | src/hooks/useSupabase.ts:82 | removing an id twice is removing it once |
| Store.DeleteIdempotent | src/hooks/useSupabase.ts:75-84 | after a successful delete, deleting the same id again leaves the cache as it is, whatever the second answer |
| Store.RemoveKeepsSorted | src/hooks/useSupabase.ts:201-210 | deleting from rows sorted by key leaves them sorted |
| Store.UpdateIdempotent | src/hooks/useSupabase.ts:64-73 | when the patch merges idempotently, applying the same update twice equals applying it once, even when the patch rewrites the id |
| Store.UpdateKeepsSorted | src/hooks/useSupabase.ts:190-199 | an update whose merge leaves every row's sort key alone keeps sorted rows sorted |
| Store.FailedRunKeepsRows | src/hooks/useSupabase.ts:31-91 | any sequence of failed fetches, adds, updates and deletes leaves the cached rows identical |
| Store.SignOutKeepsRows | src/hooks/useSupabase.ts:36-48 | a refetch with no user keeps the previous rows and the `loading` flag |
| Store.SortedRunStaysSorted | src/hooks/useSupabase.ts:160-210 | under the sorted policy, sortedness is an invariant of every sequence of calls, provided fetched rows arrive sorted and successful updates do not change sort keys |
| Hooks.Guests | src/hooks/useSupabase.ts:60 | the guest hook finds rows by `id`, merges patches by the guest spread, and puts a new guest first |
| Hooks.Vendors | src/hooks/useSupabase.ts:122 | the vendor hook finds rows by `id`, merges patches by the vendor spread, and puts a new vendor first |
| Hooks.Tasks | src/hooks/useSupabase.ts:183-186 | the task hook finds rows by `id`, merges patches by the task spread, and re-sorts on the due date's key |
| Hooks.BudgetItems | src/hooks/useSupabase.ts:248 | the budget hook finds rows by `id`, merges patches by the budget spread, and re-sorts on the category's collation key |
| Hooks.GuestAndVendorAddPrepend | src/hooks/useSupabase.ts:51-62 | a new guest or vendor goes in front of the cached rows, which are otherwise unchanged |
| Hooks.TaskAddInsertsInOrder | src/hooks/useSupabase.ts:175-188 | on tasks in due-date order, an added task lands after every task due no later than it and before the first task due later |
| Hooks.BudgetAddInsertsInOrder | src/hooks/useSupabase.ts:239-250 | on items in category order, an added item lands after every item whose category collates no later and before the first that collates later |
| Hooks.BudgetInsertExample | src/hooks/useSupabase.ts:247-249 | when the categories collate as catering < flowers < music, adding the flowers item to the cached [catering, music] items gives [catering, flowers, music] |
| Hooks.TaskInsertExample | src/hooks/useSupabase.ts:183-186 | a task due before both cached tasks [feb, mar] is placed first, giving [jan, feb, mar] |
| Hooks.CompletionKeepsTaskOrder | src/hooks/useSupabase.ts:190-199 | ticking a task's completion box keeps the task list in due-date order |
| Hooks.ConfirmTwiceIsConfirmOnce | src/hooks/useSupabase.ts:64-73 | setting a guest's confirmation to the same value twice equals setting it once |
| WeddingInfoHook.Fetch | src/hooks/useSupabase.ts:286-299 | with no user nothing changes; with a user `loading` clears; success caches the returned row; an error keeps the cached one |
| WeddingInfoHook.Request | src/hooks/useSupabase.ts:301-306 | no request is sent without a user; otherwise the payload carries the form unchanged, `user_id` equal to the user's id, and `updated_at` equal to the supplied time |
| WeddingInfoHook.Upsert | src/hooks/useSupabase.ts:301-313 | with no user, or on error, nothing changes; on success the cached row becomes the returned row; `loading` is untouched |
| WeddingInfoHook.SavesConvergeToLastSuccess | src/hooks/useSupabase.ts:301-313 | after any number of saves, if the store echoes each payload, the cache holds one row: that of the last successful save, owned by the user, showing that save's form and time |
| WeddingInfoHook.FailedSavesKeepInfo | src/hooks/useSupabase.ts:310-312 | saves that all fail leave the cache identical |
| WeddingInfoHook.SignedOutSavesDoNothing | src/hooks/useSupabase.ts:301-302 | without a user, no sequence of saves changes the cache |
| Dashboard.SubmitGuest | src/app/page.tsx:63-68 | with an empty name, nothing is sent and neither the cache nor the draft changes; otherwise the draft is sent, stamped with the signed-in user if there is one, the add is applied, and the draft is reset to its defaults whatever the outcome |
| Dashboard.SubmitVendor | src/app/page.tsx:70-75 | the vendor draft is sent (stamped with the user) and added only when both name and category are non-empty, and then the draft resets to the defaults (status "Pendente", price 0) |
| Dashboard.SubmitTask | src/app/page.tsx:77-82 | the task draft is sent (stamped with the user) and added only with a non-empty title, and then the draft resets to the defaults (priority "Média", category "Geral") |
| Dashboard.SubmitBudgetItem | src/app/page.tsx:84-89 | the budget draft is sent (stamped with the user) and added only with a non-empty category, and then the draft resets to zero amounts |
| Dashboard.ResubmitDoesNothing | src/app/page.tsx:63-89 | a second press of any add button after the submit has completed sends nothing and changes nothing, because the reset draft fails its guard |
| Dashboard.SubmitKeepsOwnership | src/app/page.tsx:63-82 | for guests and tasks, a cache holding only the user's rows still does after a submit, when the store's row carries the owner that was sent |
| Dashboard.Count | src/app/page.tsx:117-124 | the completed-task and confirmed-guest counts never exceed the list's length |
| Dashboard.CountAllIff | src/app/page.tsx:117-118 | the count equals the length exactly when every row satisfies the filter |
| Dashboard.CountInsert | src/app/page.tsx:117 | inserting a row adds its own contribution to a count |
| Dashboard.CountSort | src/app/page.tsx:117 | re-sorting never changes a count |
| Dashboard.TaskAddCounts | src/app/page.tsx:117-118 | adding a task raises the total by one, and raises the completed count by one exactly when the new task is completed |
| Dashboard.CompletionMovesCountOneWay | src/app/page.tsx:322-324 | ticking a task done never lowers the completed count, and unticking never raises it |
| Dashboard.Progress | src/app/page.tsx:117-119 | the progress is 0 with no tasks; otherwise it is completed × 100 / total; it always lies in [0, 100] |
| Dashboard.ProgressFullIff | src/app/page.tsx:119 | progress is 100 exactly when there are tasks and all of them are completed |
| Dashboard.Pending | src/app/page.tsx:319 | the pending list holds only incomplete tasks from the cache, and its length is the total minus the completed count |
| Dashboard.PendingDistributes | src/app/page.tsx:319 | the pending filter distributes over concatenation, so it keeps the cache order |
| Dashboard.PendingHasAll | src/app/page.tsx:319 | every incomplete task in the cache is in the pending list |
| Dashboard.NextTasks | src/app/page.tsx:319 | the panel shows min(5, pending count) tasks, all incomplete and from the cache, as a prefix of the pending tasks in cache order |
| Dashboard.Badge | src/app/page.tsx:731-732 | an item is labelled within budget exactly when its actual amount is at most its planned amount |
| Dashboard.AllWithinMeansHealthy | src/app/page.tsx:714 | when every item's badge says within budget, the remaining total (planned minus spent) is not negative |
| Dashboard.Total | src/app/page.tsx:121-122 | a sum over one item is that item's amount, and a sum of non-negative amounts is non-negative |
| Dashboard.TotalPlanned | src/app/page.tsx:121 | the planned total is not negative when no planned amount is |
| Dashboard.TotalSpent | src/app/page.tsx:122 | the spent total is not negative when no actual amount is |
| Dashboard.RemainingIsSumOfSlack | src/app/page.tsx:714 | the remaining figure (planned total minus spent total) equals the sum of each item's planned minus actual amount |
| Dashboard.TotalInsert | src/app/page.tsx:121-122 | inserting an item adds exactly its amount to a total |
| Dashboard.TotalSort | src/app/page.tsx:121-122 | re-sorting never changes a total |
| Dashboard.BudgetAddTotals | src/app/page.tsx:121-122 | adding a budget item raises the planned and spent totals by exactly its amounts |
| Dashboard.FormFrom | src/app/page.tsx:54-61 | with no saved row the form holds the defaults; the style is never empty, because an empty one falls back to "Clássico" |
| Dashboard.PageForm | src/app/page.tsx:54-61 | as written, the form is initialised once, while the wedding-info cache is still in its mounted state, so until the user types it holds the defaults whatever the cache holds |
| Dashboard.ReloadedSaveErasesInfo | src/app/page.tsx:91-93 | as written, after a reload has fetched a saved row with couple names, saving without retyping sends other couple names than the saved ones |
| Dashboard.SyncedForm | src/app/page.tsx:54-61 | corrected: the form shows every field of the cached row, except that an empty saved style shows as "Clássico"; with nothing cached it shows the defaults |
| Dashboard.ReloadedSaveKeepsInfo | src/app/page.tsx:91-93 | corrected: after a reload, saving without retyping sends exactly the saved fields (given a style was saved) |
| Dashboard.FormRoundTrip | src/hooks/useSupabase.ts:301-313 | corrected: after a successful save whose answer echoes the payload, the form shows what was saved, except that an empty style comes back as "Clássico" |
| Chat.TrimStart | src/app/page.tsx:96 | trimming the start leaves a suffix that is empty or begins with a non-space, and drops only white space |
| Chat.TrimEnd | src/app/page.tsx:96 | trimming the end leaves a prefix that is empty or ends with a non-space, and drops only white space |
| Chat.Trim | src/app/page.tsx:96 | the trimmed text is the slice of the input left after dropping a leading run and a trailing run of white space, both runs all white space; it starts and ends with a non-space, and is empty exactly when the input is blank |
| Chat.SliceAtIsSlice | src/app/page.tsx:96 | the pointwise slice relation used in the trim contract holds exactly when the trimmed text equals `input.slice(k, k + length)` |
| Chat.TrimIsInnerSlice | src/app/page.tsx:96 | the trimmed text sits in the input between the dropped leading and trailing runs, each made only of white space |
| Chat.TrimEmptyIffBlank | src/app/page.tsx:96 | trimming leaves nothing exactly when every character is ECMAScript white space or a line terminator |
| Chat.Send | src/app/page.tsx:95-114 | blank input changes neither the messages nor the input; otherwise exactly one user message with the input as typed is appended at the end and the input is cleared |
| Chat.FirstSendFollowsGreeting | src/app/page.tsx:36-38 | the conversation starts with the assistant's greeting, so the first non-blank send gives exactly the greeting followed by the user's message, and clears the input |
| Chat.SendTwiceSendsOnce | src/app/page.tsx:95-114 | sending again right after a send adds nothing |

## Left out

- Client construction from environment variables (src/lib/supabase.ts:1-6) and every network and database call. Each call's answer is an input of the model.
- Server-side filtering by owner and ordering (`.eq`, `.order`). These are assumptions about the store, not modelled behaviour. `Store.SortedRunStaysSorted` takes sorted fetched rows as a hypothesis.
- React runtime behaviour: effect scheduling, stale closures, interleaving of concurrent calls, the separate auth subscription each hook opens, and unsubscribing.
- `signOut`. It only calls the auth provider. Its effect reaches the model as an `AuthStateChanged(None)` event.
- Date parsing and collation. `new Date(...).getTime()` and `localeCompare` are abstract integer keys. The empty due date of a fresh task draft parses to NaN, and NaN comparisons make the comparator inconsistent. That case is not modelled.
- Store.Add: requires a successful insert to return at least one row. The source would put `data[0]`, i.e. `undefined`, into the cache when an insert answers with an empty array.
- The "no data without error" answer (`data` null, `error` null) is folded into `Err`. The source also leaves the cache alone in that case.
- The chat's canned reply, which is a random string on a one-second timer.
- All markup, styling, tabs and dialogs, number formatting, and the `parseInt`/`parseFloat` input parsing of amounts.
- Typing into the wedding form. The input handlers that set single fields (src/app/page.tsx:178-221) are not modelled; `Dashboard.PageForm` is the form before any typing.
- Dashboard.ResubmitDoesNothing: covers only a press after the submit has completed. The draft is reset only once `await add…` resolves (src/app/page.tsx:65-66, 72-73, 79-80, 86-87), and the add buttons are never disabled. A press while the insert is pending therefore sends the unreset draft again and can add the row twice. Interleaving of calls is not modelled.
- `Dashboard.SubmitKeepsOwnership` covers guests and tasks, one hook per add policy. `Store.AddKeepsOwnership` is the generic fact behind it and holds for vendors and budget items too.

## Findings

| source | as written | input that shows it | evidently intended | confidence | as-written member | corrected member |
|---|---|---|---|---|---|---|
| src/app/page.tsx:54-61 | the wedding form takes its initial values from the wedding-info row once, on the first render, when the hook has not yet fetched anything; nothing refills it after the fetch | a signed-in user with a saved row whose couple names are "Ana & Rui" reloads the page and presses save without typing: the request carries couple names "": it carries the defaults for every field not retyped, which replace the saved values if the store upserts by owner | the form shows the saved row once it is fetched, so that saving unchanged keeps the stored values | medium, not executed | Dashboard.PageForm, Dashboard.ReloadedSaveErasesInfo | Dashboard.SyncedForm, Dashboard.ReloadedSaveKeepsInfo |
