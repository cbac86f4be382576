# AppManageTasks in Dafny

A model of the core of AppManageTasks. AppManageTasks is an ASP.NET Core task-management API backed by Entity Framework. The model covers:

- **Tasks and the store** (`Domain`, `Data`): the task record, the request DTO, the error kinds, and the store as a class. The store holds the task rows in enumeration order plus a count of `SaveChangesAsync` calls. Its invariant is that keys are unique and never `Guid.Empty`.
- **Repository** (`Repository`):
  - create, full replace of four fields, and remove;
  - the point lookup and the full list;
  - the paged query: filter by status, count, order by due date with null as `DateTime.MaxValue`, then skip `(page-1)*pageSize` and take `pageSize`.
- **Service** (`Service`): the guards of `UserTaskService` and the distinct errors they raise, the in-place clamping of the paging parameters, the due-date fix-up on completion, and the delete ban on tasks in progress.
- **Overdue sweep** (`Sweeper`): `CheckAndMarkOverdueTasksAsync` as a loop over the selected rows. Around it are two decisions `ExecuteAsync` makes: how it reads its configuration at start-up, and which wait follows each round.
- **Currency cache** (`Currency`): `CurrencyService` as a cache-aside class. The cache is a map from key to (value, absolute expiry) and the clock is a parameter `now`. The HTTP request together with JSON decoding is an oracle `upstream`. A ghost counter records how many fetches happened.
- **Controller** (`Controller`): the list filters of `UserTaskController` and its mapping from service outcomes to HTTP status codes. It also has the one mapping `CurrencyController` makes.
- **Validation** (`Validation`): the `FutureDate` attribute and the data annotations on `UserTaskInput`, as a list of ModelState errors and a validity predicate.

Representation choices:

- **Time:** `DateTime` is a tick count in `0 .. DateTime.MaxValue.Ticks`. Every read of `DateTime.Now` becomes a parameter `now`.
- **Keys:** a `Guid` is a natural number, with `Guid.Empty` as 0.
- **New keys:** the key Entity Framework generates for a new row is a parameter `newId`. The caller supplies it fresh.
- **Stateful operations:** each one is stated against a pure specification function (`SweepResult`, `AllRatesStep`, `RateStep`, `Paged`). The properties the source promises are proved about those functions.

## Model

| member | source | states |
|---|---|---|
| Domain.IsNullOrWhiteSpace | AppManageTasks/Services/UserTaskService.cs:28 | a title counts as blank exactly when it is null or every character (possibly none) is a white-space character |
| Seqs.Where | AppManageTasks/Controllers/UserTaskController.cs:260 | the filtered list holds exactly the elements that satisfy the predicate and is no longer than the input |
| Seqs.WhereCount | AppManageTasks/Repository/UserTaskRepository.cs:38-41 | a matching element keeps every one of its occurrences, a failing one keeps none |
| Seqs.WhereAppend | AppManageTasks/Controllers/UserTaskController.cs:260 | filtering keeps the original order: filtering a concatenation concatenates the filtered parts |
| Seqs.WhereNone | AppManageTasks/Controllers/UserTaskController.cs:316-321 | when no element matches, the result is empty |
| Validation.FutureDateIsValid | AppManageTasks/Validation/FutureDateAttribute.cs:7-14 | fails exactly for a DateTime strictly before now, carrying the configured message; null and non-DateTime values pass; a date equal to now passes |
| Validation.InputErrors | AppManageTasks/DTOs/UserTaskInput.cs:11-22 | each of the four messages is reported exactly when its constraint is broken (blank title, title over 100, description over 500, due date before now), and no other message is |
| Validation.IsValidInput | AppManageTasks/Controllers/UserTaskController.cs:133 | a valid input has a non-blank title of at most 100 characters, a description of at most 500 when given, and a due date not before now when given |
| Validation.ValidInputCharacterized | AppManageTasks/DTOs/UserTaskInput.cs:11-19 | the input is valid if and only if the title is non-blank and at most 100 characters, any description is at most 500, and any due date is not before now |
| Data.IndexOf | AppManageTasks/Repository/UserTaskRepository.cs:72 | no position exactly when no row has the key; otherwise the first row with that key |
| Data.IndexOfUnique | AppManageTasks/Repository/UserTaskRepository.cs:72 | with unique keys, looking up a row's key finds that very row |
| Data.WithoutId | AppManageTasks/Repository/UserTaskRepository.cs:102-108 | the rows left are exactly the rows with another key, and none carries the removed key |
| Data.RemoveAtIsWithoutId | AppManageTasks/Repository/UserTaskRepository.cs:108 | with unique keys, removing the found row is removing every row with its key, and the store shrinks by exactly one |
| Data.NoIdIsWithoutId | AppManageTasks/Repository/UserTaskRepository.cs:102-106 | removing a key no row carries changes nothing |
| Data.RemoveAtKeepsUniqueIds | AppManageTasks/Repository/UserTaskRepository.cs:108 | removing one row keeps the keys unique |
| Data.AppDbContext.constructor | AppManageTasks/Data/AppDbContext.cs:6-8 | a new store is empty, has saved nothing and satisfies the key invariant |
| Data.AppDbContext.SaveChanges | AppManageTasks/Repository/UserTaskRepository.cs:29 | one call commits one batch: the save count goes up by one and nothing else changes |
| Repository.InsertByDue | AppManageTasks/Repository/UserTaskRepository.cs:48 | inserting yields the old elements plus the new one, as a multiset |
| Repository.InsertKeepsSorted | AppManageTasks/Repository/UserTaskRepository.cs:48 | inserting into a list ordered by due date keeps it ordered |
| Repository.SortByDue | AppManageTasks/Repository/UserTaskRepository.cs:48 | the result is ordered by `DueDate ?? DateTime.MaxValue` and is a permutation of the input |
| Repository.SortedKeepsElements | AppManageTasks/Repository/UserTaskRepository.cs:48 | ordering neither adds nor loses a row |
| Repository.Skip | AppManageTasks/Repository/UserTaskRepository.cs:49 | a count of zero or less skips nothing, a count past the end leaves nothing, otherwise the suffix |
| Repository.Take | AppManageTasks/Repository/UserTaskRepository.cs:50 | a count of zero or less takes nothing, a count past the end takes all, otherwise the prefix |
| Repository.Window | AppManageTasks/Repository/UserTaskRepository.cs:49-50 | the window's length is fixed by offset, size and input length, and slot k holds input element offset+k |
| Repository.WindowOfSorted | AppManageTasks/Repository/UserTaskRepository.cs:47-51 | a window of an ordered list is ordered and holds only elements of that list |
| Repository.PageOffset | AppManageTasks/Repository/UserTaskRepository.cs:49 | the exact skip count is never negative for a page of at least 1 |
| Repository.Paged | AppManageTasks/Repository/UserTaskRepository.cs:33-59 | TotalCount is the number of rows matching the status filter, whatever the page; Page and PageSize are echoed; Items holds at most pageSize and at most TotalCount rows, all matching the filter, in due-date order |
| Repository.NoDueDateSortsLast | AppManageTasks/Repository/UserTaskRepository.cs:48 | in an ordered page, a row without a due date is followed only by rows without one or due at DateTime.MaxValue |
| Repository.PageHoldsPosition | AppManageTasks/Repository/UserTaskRepository.cs:47-51 | slot k of page p holds the filtered, ordered row at position (p-1)*pageSize + k |
| Repository.PastLastPageIsEmpty | AppManageTasks/Repository/UserTaskRepository.cs:49-50 | a page whose exact offset is at or past the number of matching rows is empty |
| Repository.WrapInt32 | AppManageTasks/Repository/UserTaskRepository.cs:49 | C# unchecked `int` arithmetic: the result equals the exact value modulo 2^32 |
| Repository.PageOffsetAsWritten | AppManageTasks/Repository/UserTaskRepository.cs:49 | the 32-bit skip count equals the exact one whenever the exact one fits in an `int` |
| Repository.PagedItemsAsWritten | AppManageTasks/Repository/UserTaskRepository.cs:47-50 | the query as written returns at most pageSize rows, and exactly the rows of the exact-offset page whenever the 32-bit skip count does not wrap |
| Repository.LastPageWrapsToFirstPage | AppManageTasks/Repository/UserTaskRepository.cs:49 | page int.MaxValue at page size 100: the 32-bit skip count is -200, the query as written returns the first page, and the exact count gives an empty page |
| Repository.ApplyInput | AppManageTasks/Repository/UserTaskRepository.cs:91-94 | a full replace keeps the key and sets title, description, due date and status to the input's |
| Repository.FromInput | AppManageTasks/Repository/UserTaskRepository.cs:27 | the mapped entity carries the given key, and a full replace of any row with that key yields exactly this entity, so no field of the old row survives |
| Repository.KeyFor | AppManageTasks/Repository/UserTaskRepository.cs:28-29 | an input key other than Guid.Empty is kept; the new row's key is Guid.Empty only when both the input key and the generated key are |
| Repository.UserTaskRepository.constructor | AppManageTasks/Repository/UserTaskRepository.cs:18-23 | the repository works on the given store |
| Repository.UserTaskRepository.CreateUserTask | AppManageTasks/Repository/UserTaskRepository.cs:25-31 | appends exactly one row mapped field for field from the input, saves once and returns that row; a key already present fails with nothing written; keys stay unique |
| Repository.UserTaskRepository.GetPagedUserTasks | AppManageTasks/Repository/UserTaskRepository.cs:33-59 | the paged query over the current store |
| Repository.UserTaskRepository.GetAllUserTasks | AppManageTasks/Repository/UserTaskRepository.cs:62-66 | every row, in store order |
| Repository.UserTaskRepository.GetUserTaskById | AppManageTasks/Repository/UserTaskRepository.cs:68-82 | null exactly when no row has the key; otherwise a stored row with that key |
| Repository.UserTaskRepository.UpdateUserTask | AppManageTasks/Repository/UserTaskRepository.cs:84-98 | true exactly when the key exists; then that row takes the input's title, description, due date and status, keeps its key, every other row is unchanged and one save happens; false leaves everything unchanged |
| Repository.UserTaskRepository.DeleteUserTask | AppManageTasks/Repository/UserTaskRepository.cs:100-111 | true exactly when the key exists; then that one row is gone, the others stay in order and one save happens; false leaves everything unchanged |
| Service.TaskQueryParams.constructor | AppManageTasks/Controllers/UserTaskController.cs:97-102 | the parameters object holds the page, size and status it was built with |
| Service.ClampPage | AppManageTasks/Services/UserTaskService.cs:44 | the page ends at least 1; a page of at least 1 is kept; anything lower becomes 1 |
| Service.ClampPageSize | AppManageTasks/Services/UserTaskService.cs:45-46 | the size ends in 1..100; a size in range is kept; below 1 becomes 10; above 100 becomes 100 |
| Service.CreateCheck | AppManageTasks/Services/UserTaskService.cs:28-32 | passes exactly when the title is not blank and any due date is not before now; a blank title is reported before a past due date, each with its own message |
| Service.ValidInputPassesCreateCheck | AppManageTasks/Services/UserTaskService.cs:28-32 | an input ModelState accepts at the same instant also passes the service's create guards |
| Service.WithCompletionDate | AppManageTasks/Services/UserTaskService.cs:116-119 | an input marked Completed always leaves with a due date; only a Completed input without one changes, and it gets `now`; every other field is kept |
| Service.UserTaskService.constructor | AppManageTasks/Services/UserTaskService.cs:14-18 | the service works through the given repository |
| Service.UserTaskService.CreateUserTask | AppManageTasks/Services/UserTaskService.cs:26-35 | a blank title or a past due date fails with an argument error and leaves the store unchanged; otherwise the repository's create |
| Service.UserTaskService.GetPagedUserTasks | AppManageTasks/Services/UserTaskService.cs:42-53 | corrects the parameters object in place to the clamped values and returns the page for them |
| Service.UserTaskService.GetAllUserTasks | AppManageTasks/Services/UserTaskService.cs:59-64 | every stored row |
| Service.UserTaskService.GetUserTaskById | AppManageTasks/Services/UserTaskService.cs:73-95 | Guid.Empty is an argument error, an unknown key is not found, otherwise the stored row with that key |
| Service.UserTaskService.UpdateUserTask | AppManageTasks/Services/UserTaskService.cs:104-122 | Guid.Empty or a blank title is an argument error and an unknown key is not found, each with the store unchanged; otherwise the row takes the fixed-up input and one save happens |
| Service.UserTaskService.DeleteUserTask | AppManageTasks/Services/UserTaskService.cs:132-145 | Guid.Empty is an argument error, an unknown key not found and a task in progress an invalid operation, each with the store unchanged; otherwise the row is removed |
| Sweeper.IsOverdueCandidate | AppManageTasks/Services/BackgroundServices/OverdueTaskBackgroundService.cs:67-70 | a row that is Overdue or Completed, has no due date, or is due at or after now is never selected |
| Sweeper.MarkIfOverdue | AppManageTasks/Services/BackgroundServices/OverdueTaskBackgroundService.cs:77 | a selected row becomes Overdue and any other keeps its status; key, title, description and due date never change; the result is never selected again at the same now |
| Sweeper.SweepResult | AppManageTasks/Services/BackgroundServices/OverdueTaskBackgroundService.cs:75-77 | a sweep changes no row count |
| Sweeper.OverdueFrom | AppManageTasks/Services/BackgroundServices/OverdueTaskBackgroundService.cs:66-71 | the selected positions are increasing and are exactly those at or after k whose row is due before now and neither Completed nor Overdue |
| Sweeper.OverdueIndices | AppManageTasks/Services/BackgroundServices/OverdueTaskBackgroundService.cs:66-71 | the query selects a row exactly when it has a due date strictly before now and its status is neither Completed nor Overdue |
| Sweeper.CheckAndMarkOverdueTasks | AppManageTasks/Services/BackgroundServices/OverdueTaskBackgroundService.cs:60-85 | the loop leaves the store equal to the sweep of the old store at the one captured `now`; exactly one save happens when something was selected and none otherwise; keys stay unique |
| Sweeper.SameIdsKeepValid | AppManageTasks/Services/BackgroundServices/OverdueTaskBackgroundService.cs:75-77 | a change that touches no key keeps the key invariant |
| Sweeper.SweepMarksExactlyTheCandidates | AppManageTasks/Services/BackgroundServices/OverdueTaskBackgroundService.cs:66-77 | a selected row ends Overdue with its key, title, description and due date kept; an unselected row ends exactly as it was |
| Sweeper.NothingLeftAfterSweep | AppManageTasks/Services/BackgroundServices/OverdueTaskBackgroundService.cs:69-70 | after a sweep, the same query at the same `now` selects nothing, so a second run writes nothing |
| Sweeper.NoCandidateNoIndices | AppManageTasks/Services/BackgroundServices/OverdueTaskBackgroundService.cs:66-71 | when no row from k on qualifies, the query returns nothing |
| Sweeper.SweepIdempotent | AppManageTasks/Services/BackgroundServices/OverdueTaskBackgroundService.cs:69-77 | a second sweep with the same `now` changes nothing |
| Sweeper.LaterSweepSubsumesEarlier | AppManageTasks/Services/BackgroundServices/OverdueTaskBackgroundService.cs:66-77 | sweeping at an earlier time and then at a later one gives the same store as the later sweep alone |
| Sweeper.StartUp | AppManageTasks/Services/BackgroundServices/OverdueTaskBackgroundService.cs:29-37 | the service stops before its loop exactly when the switch is set to false (it defaults to on); otherwise the interval is the configured one, 1 minute by default |
| Sweeper.NextDelay | AppManageTasks/Services/BackgroundServices/OverdueTaskBackgroundService.cs:41-53 | the loop ends exactly on a stop request; after a failed sweep the wait is 5 minutes; after a good one it is the interval when that lies in 0..71582 minutes, and 5 minutes otherwise, because Task.Delay throws and the catch clause takes over |
| Currency.KeysDisjoint | AppManageTasks/Services/CurrencyService.cs:29-63 | no per-code key is the bulk key, and distinct codes have distinct keys |
| Currency.Lookup | AppManageTasks/Services/CurrencyService.cs:31 | an entry is found exactly when it is present and its expiry lies strictly after now |
| Currency.AllRatesStep | AppManageTasks/Services/CurrencyService.cs:27-52 | a call without a fetch leaves the cache unchanged; a failed fetch is an upstream error with the cache unchanged; a success is then served from the cache at the same now; no entry other than the bulk key is touched |
| Currency.RateStep | AppManageTasks/Services/CurrencyService.cs:61-79 | a returned rate is then served from its per-code key at the same now; a failure touches no entry other than the bulk key |
| Currency.StepsKeepWellTyped | AppManageTasks/Services/CurrencyService.cs:44-74 | both operations keep documents under the bulk key and single rates under every other key |
| Currency.AllRatesFetchesOnMiss | AppManageTasks/Services/CurrencyService.cs:31-51 | GetAll fetches exactly when there is no live bulk entry; a hit returns the cached document and changes nothing; a failed fetch leaves the cache unchanged |
| Currency.AllRatesMissStores | AppManageTasks/Services/CurrencyService.cs:38-46 | on a miss, a good fetch returns the document and stores it under the bulk key, expiring five minutes after now, with every other entry kept |
| Currency.AllRatesSecondCallWithinTtl | AppManageTasks/Services/CurrencyService.cs:29-46 | two GetAll calls less than five minutes apart fetch once, and the second returns what the first fetched |
| Currency.AllRatesRefetchesAfterExpiry | AppManageTasks/Services/CurrencyService.cs:31-38 | once the bulk entry has expired, GetAll fetches again |
| Currency.RateHitSkipsBulk | AppManageTasks/Services/CurrencyService.cs:63-68 | a live per-code entry is returned without a fetch, without reading the bulk entry, and with the cache unchanged |
| Currency.RateMissStores | AppManageTasks/Services/CurrencyService.cs:70-76 | on a per-code miss with the code in the document, the result is `Valute[code]`, stored under its own key with its own five-minute expiry; the bulk entry is whatever GetAll left |
| Currency.UnknownCodeFails | AppManageTasks/Services/CurrencyService.cs:70-78 | an unknown code fails with an argument error whose message names the code; its per-code key is left as it was; the bulk entry may still have been written |
| Currency.RateSecondCallWithinTtl | AppManageTasks/Services/CurrencyService.cs:61-79 | two GetRate calls for one code less than five minutes apart fetch at most once, and the second returns the first's rate with the cache unchanged |
| Currency.CurrencyService.constructor | AppManageTasks/Services/CurrencyService.cs:13-20 | the shared cache is empty at start-up |
| Currency.CurrencyService.GetAllCurrencyRates | AppManageTasks/Services/CurrencyService.cs:27-52 | result, new cache and fetch count follow the GetAll step |
| Currency.CurrencyService.GetCurrencyRate | AppManageTasks/Services/CurrencyService.cs:61-79 | result, new cache and fetch count follow the GetRate step, which goes through GetAll on a miss; the default code is "USD" |
| Controller.LookupErrorStatus | AppManageTasks/Controllers/UserTaskController.cs:59-73 | an argument error maps to 400, a missing key to 404, anything else to 500 |
| Controller.CreateErrorStatus | AppManageTasks/Controllers/UserTaskController.cs:142-149 | an argument error maps to 400, anything else to 500 |
| Controller.DeleteErrorStatus | AppManageTasks/Controllers/UserTaskController.cs:226-241 | an argument error maps to 400, a missing key to 404, an invalid operation to 409, anything else to 500 |
| Controller.BoolResultStatus | AppManageTasks/Controllers/UserTaskController.cs:180-183 | false maps to 404 and true to 204 |
| Controller.CurrencyErrorStatus | AppManageTasks/Controllers/CurrencyController.cs:29-36 | an argument error (an unknown code) maps to 404, anything else to 500 |
| Controller.FilterByStatus | AppManageTasks/Controllers/UserTaskController.cs:259-260 | exactly the tasks with the requested status |
| Controller.FilterByStatusKeepsOrder | AppManageTasks/Controllers/UserTaskController.cs:260 | the status filter keeps the store order |
| Controller.OverdueView | AppManageTasks/Controllers/UserTaskController.cs:283-288 | exactly the tasks due before now that are not Completed |
| Controller.OverdueViewAndSweep | AppManageTasks/Controllers/UserTaskController.cs:284-288 | the overdue view holds every row the sweep would select plus rows already Overdue, and after a sweep at the same instant every row in it is Overdue |
| Controller.Deadline | AppManageTasks/Controllers/UserTaskController.cs:314 | the deadline lies `hours` hours after now, and exists exactly when it stays inside the DateTime range |
| Controller.UpcomingDeadlines | AppManageTasks/Controllers/UserTaskController.cs:308-328 | 200 exactly when the deadline is representable, with exactly the tasks due after now and no later than the deadline that are not Completed; otherwise 500; 24 hours by default |
| Controller.NoUpcomingWithoutHours | AppManageTasks/Controllers/UserTaskController.cs:314-321 | a window of zero or fewer hours lists nothing |
| Controller.UpcomingAndOverdueDisjoint | AppManageTasks/Controllers/UserTaskController.cs:284-321 | no task is both upcoming and overdue at one instant |
| Controller.UserTaskController.constructor | AppManageTasks/Controllers/UserTaskController.cs:17-21 | the controller works through the given service |
| Controller.UserTaskController.GetTaskById | AppManageTasks/Controllers/UserTaskController.cs:37-74 | 400 exactly for Guid.Empty, 404 exactly for an unknown key, 200 exactly for a known one, with the stored row |
| Controller.UserTaskController.GetPagedTasks | AppManageTasks/Controllers/UserTaskController.cs:90-114 | a query that did not bind is 400; otherwise 200 with the page for the clamped parameters |
| Controller.UserTaskController.CreateTask | AppManageTasks/Controllers/UserTaskController.cs:128-150 | invalid input is 400 with nothing written; a valid input is 201 with the new row appended, or 500 with nothing written when its key is taken |
| Controller.UserTaskController.UpdateTask | AppManageTasks/Controllers/UserTaskController.cs:166-197 | invalid input, or a route id that differs from the body's, is 400 before the service is called; then Guid.Empty is 400 and an unknown key 404, each with the store unchanged; otherwise 204 with the row replaced |
| Controller.UserTaskController.DeleteTask | AppManageTasks/Controllers/UserTaskController.cs:214-242 | 400 exactly for Guid.Empty, 404 exactly for an unknown key and 409 exactly for a task in progress, each with the store unchanged; otherwise 204 with the row removed |
| Controller.UserTaskController.GetTasksByStatus | AppManageTasks/Controllers/UserTaskController.cs:254-268 | 200 with exactly the stored tasks with that status |
| Controller.UserTaskController.GetOverdueTasks | AppManageTasks/Controllers/UserTaskController.cs:279-296 | 200 with exactly the stored tasks due before now that are not Completed |
| Controller.UserTaskController.GetUpcomingDeadlines | AppManageTasks/Controllers/UserTaskController.cs:308-329 | the upcoming-deadline view over the stored tasks |

## Left out

- **Clock:** every `DateTime.Now` read is the parameter `now`, one per operation.
  - `GetUpcomingDeadlines` reads the clock twice (UserTaskController.cs:314, 318); the model uses one instant.
  - Validation and the service's create guard read the clock separately. So the case where a due date passes `FutureDate` but is in the past by the time the service checks it (400 from the service) is not modelled.
- **Background loop:** the timer loop of `ExecuteAsync`, its cancellation token and `StopAsync`. Only the start-up reading of the settings and the per-round choice of wait are modelled.
- **Configuration:** a setting that does not parse as a boolean or an integer, which makes `GetValue` throw, is not modelled.
- **Logging:** all logging, including the log assertions in the unit tests.
- **Entity Framework and PostgreSQL:**
  - The store is an in-memory sequence.
  - A save never fails, except for a duplicate key on create.
  - Transactions, isolation and concurrent requests are not modelled.
  - The sweep's query returns tracked entities; the model represents them by their positions in the store.
  - With the PostgreSQL provider, a negative skip count reaches the database as a negative OFFSET, which PostgreSQL rejects. The model follows LINQ semantics, where a negative count skips nothing.
- **Repository.Paged:** the paging chain uses the exact skip count `(page-1)*pageSize`, not the 32-bit one of UserTaskRepository.cs:49. The same holds for `Repository.UserTaskRepository.GetPagedUserTasks`, `Service.UserTaskService.GetPagedUserTasks` and `Controller.UserTaskController.GetPagedTasks`. Where that count wraps (for example page int.MaxValue at page size 100), they return an empty page. The program returns the first page under LINQ semantics, or a 500 under PostgreSQL. `Repository.PagedItemsAsWritten` models the query as written, and the Findings table records the difference.
- **Key generation:** the model takes a fresh key as a parameter.
- **Mapping:** the AutoMapper mappings copy fields one for one, so the entity, summary and detail types are one datatype.
- **Service.UserTaskService.UpdateUserTask:** the due-date fix-up writes into the caller's input object (UserTaskService.cs:118). The model hands a fixed-up copy to the repository, so the caller never sees its input change.
- **ASP.NET model binding:** a body or query string that fails to bind (malformed JSON, a null body, a non-numeric page) is not modelled. `GetPagedTasks` takes whether the query bound as a flag. TaskQueryParams.cs is not part of this model, so validation attributes it may carry are not modelled either.
- **Response bodies:** error response bodies and messages are not modelled; only status codes and success payloads are.
- **Controller.UserTaskController.GetTaskById:** the controller's null check (UserTaskController.cs:48-52) is unreachable, because the service throws rather than returning null. So that 404 is produced only through the not-found error.
- **Controller.UserTaskController.GetPagedTasks:** the 500 path (an exception from the store) is not modelled, because the in-memory store does not fail.
- **CurrencyController.GetAllCurrencyRates:** not modelled separately. It maps any error to 500.
- **Upstream:** the HTTP request, `EnsureSuccessStatusCode` and the JSON decoding are the oracle `upstream`. A non-success status, a transport error and a malformed body are all one `FetchFailed`.
- **CurrencyRate:** CurrencyRate.cs is not part of this model. Its fields follow the published document shape, and a null entry inside `Valute` is not modelled.
- **Currency.CurrencyService.constructor:** `CurrencyService` is registered per request (AppManageTasksModule.cs:14), but every instance works on the one process-wide `IMemoryCache` (Program.cs:40). The model uses one long-lived `CurrencyService` object to stand for that shared cache across the per-request instances, so its constructor is the application's start-up.
- **IMemoryCache:** size limits, eviction, and the removal of an expired entry on lookup are left out. Expired entries stay in the map and lookups ignore them, so callers see the same results as long as the clock does not go backwards.
- **Cache expiry arithmetic:** the expiry `now + 5 minutes` is an unbounded integer. The overflow `MemoryCache` would raise within five minutes of `DateTime.MaxValue` is not modelled.
- **Unknown currency code:** an unknown code fails and its per-code key is never written, but the bulk document fetched on the way stays cached (CurrencyService.cs:44, 70; `Currency.UnknownCodeFails`).
- **String lengths:** `StringLength` counts UTF-16 code units, while the model counts characters. A string with characters outside the Basic Multilingual Plane is measured differently.
- **Sort order for equal due dates:** the database promises no order among rows with equal due dates. The model fixes one order: rows with the same key keep their relative order from the filtered list, so `Repository.PageHoldsPosition` speaks about that order.

## Findings

| source | as written | input that shows it | evidently intended | confidence | as-written member | corrected member |
|---|---|---|---|---|---|---|
| AppManageTasks/Repository/UserTaskRepository.cs:49 | `(page - 1) * pageSize` is computed in 32-bit `int`, which wraps | `page = 2147483647`, `pageSize = 100` (both accepted by the clamping): the skip count wraps to -200, `Skip(-200)` skips nothing, and the first page is returned instead of an empty one | the skip count of the page, computed without overflow, so that a page past the last row is empty | not executed | Repository.LastPageWrapsToFirstPage | Repository.PastLastPageIsEmpty |
