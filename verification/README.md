# The embedded store and what runs on it

This project models the hand-written database of the mall server (`src/storage`), the repositories and routes
that keep their invariants in it, and four small cores beside it: the token codec, two data migrations, the
mini-program cart and its paging order list. Everything is stated for all inputs, all runs or all reachable
states.

## How it is built

- `Values`, `Seqs`, `Tables`: JSON values and records, JavaScript's array searching, filtering and stable
  sorting, and one table with its id discipline.
- `StoreSpec`: the state of `file_store.ts` (cache, dirty flag, timer handle, pending timeouts, file, and what is
  shared with `DEFAULT_DATA`) and what each operation does to it, as functions. `FileStores` is the module itself:
  a class whose fields are its variables and whose arrays can be shared between the cache and `DEFAULT_DATA`; each
  method is proved to do what `StoreSpec` says.
- `Machines`: the engine as a step relation. An action is a handler (a synchronous piece of code over the store), a
  timer callback, `clearAll`, or the beginning, commit or rollback of a transaction. A crash can strike after any
  step of any action, also between the write of the tmp file and its rename. Every run is also a replay of a history
  of handlers, one for memory and one for the disk. `Durability` proves what runs keep.
- `Accounts`, `Listing`, `Catalog`, `Welfare`, `OrderLog`, `References`: the repositories and routes as handlers,
  and their properties over runs of the machine. `Repositories` holds the same functions as methods that make
  their calls one after the other on a `FileStore` object, each proved to be its handler. `Server` has a call for every
  handler of the mounted routes that writes to the store or sorts it, and puts the four invariants of accounts, codes,
  order log and references together for runs of them.
- `Carts`, `OrderListPages`, `Jwt`, `NoteMigration`, `MultiSku`: the cores beside the store.

`dafny verify dfyconfig.toml` verifies all of it.

## Assumptions

- One process; `rename` is atomic; reads and writes of the file do not fail. A file that cannot be parsed is
  modelled. A timer callback runs between synchronous pieces of code, and so does the code of a transaction
  between its awaits.
- A stored record is a map from field names to values. A field set to `undefined` and an absent field are one: both
  read alike, and JSON text has neither. Writing JSON text and reading it back gives the same value. Numbers are
  integers, and the fields that arithmetic touches hold numbers where they are present.
- The timestamps of `_meta` are left out. The clock enters as a parameter, with one value for a handler.
- Stored categories have a `sort_order`, as their routes give them one; the comparator has no default for it.
- String collation is any total preorder; lower-casing, the phone in a JSON address, JSON text, the keyed hash and
  JavaScript's number conversion are parameters.
- `Array.prototype.sort` is the stable sort; `Seqs.SortUnique` shows there is only one.
- In the migrations SQL NULL is `None`, two NULLs do not join, strings compare exactly. Order numbers are unique, as
  `sql/cloud_init_database.sql:157` declares; that item ids and welfare code ids are unique is assumed.
- `JSON.parse` reads back what `JSON.stringify` printed, which at every depth leaves out members that are `undefined`
  and makes `null` of items that are.

## Where the plain statement is false

- A rollback restores memory and not the disk, and clears the dirty flag (`src/storage/file_store.ts:319-323`).
  Changes made before the transaction and not yet saved stay off the disk, and what a timer, a flush or another commit
  saved inside it stays on the disk. `Durability.RollbackDurableIff` says for every body when disk and memory agree:
  exactly when the last save inside the transaction, or else the disk before it, agrees with the memory at its start.
  `Durability.UnsavedInsertStaysOff` is an input for the first, `Durability.TimerInsideTransaction` for the second. A
  first login inside such a transaction is forgotten, and the next may get another user: `Accounts.LoginAfterRollback`.
- The comment on `withTransaction` speaks of a copy in memory; the code works on the live cache and puts a snapshot
  back. The model follows the code.
- `loadData` puts arrays of `DEFAULT_DATA` itself into the cache, so `clearAll` can bring old rows back with counters
  reset. In every run from the start of a process, it leaves right ids exactly when the file had no `_meta` or every
  default table that the file lacked is still empty: `Durability.ClearAllIdsIff`, with
  `Durability.ClearAllReusesIds` for an input.
- `update` spreads its argument over the row, id included: `Tables.UpdateKeepsIdsIff`, with `Tables.BorrowedId` for an
  input. The admin routes pass raw bodies to it (`src/routes/api_v1/admin/welfare_codes.ts:69`, `products.ts:69`,
  `properties.ts:332`), so an edit can put a code over its limit or leave references dangling:
  `Welfare.EditKeepsIff` with `Welfare.RawEditBreaksLimit`, and `References.RawEditIff`. The property routes store an
  unchecked category: `References.RawPropertyIff`, with `References.UnknownCategoryDangles` for an input.
  `Server.CallKeepsAllIff` has the exact condition for every handler, and `Server.AllOkIffFair` for runs of them.
- An edit of a sort key can be seen through the in-place sort: `Listing.EditsInvisibleIff` says when over runs of edits,
  `Listing.EditInvisibleIff` for one edit of a just sorted table, `Catalog.SortKeyEditIsSeen` for an input.
- The cancel of `me/orders.ts` writes no log entry and breaks the chain of that order each time
  (`OrderLog.UnloggedCancelBreaks`), and no logged call mends it (`OrderLog.LoggedChangeMendsNothing`). Over runs an
  order's chain is whole exactly when no unlogged cancel has taken effect on it since it was placed:
  `OrderLog.WholeIffNoUnloggedCancel`, and `OrderLog.WholeIffOverRuns` with timers, transactions and crashes.
- Deletes look after four references: order items to orders, SKUs to products, code items to welfare codes, and
  properties to categories. They forget others: products to categories (`References.ProductCategoriesIff`, with
  `References.ProductLosesItsCategory` for an input), log entries to orders (`References.LogOrdersIff`; every order
  with a logged status leaves its log, `References.LoggedOrderLeavesItsLog`), order items to products
  (`References.ItemProductsIff`) and orders to properties (`References.OrderPropertiesIff`).
- The order list skips a page whose request fails, and after a failed reload it skips page 1, until a later reload
  succeeds: `OrderListPages.FailedPageIsSkipped`, `OrderListPages.FailedReloadSkipsPageOne`. It shows the first pages
  exactly when no request has failed since the last reload: `OrderListPages.PrefixIffNothingFailed`. That is for
  requests that do not overlap. A pull-down during a scroll makes two, and the scroll's answer can end up behind
  page 1: `OrderListPages.StaleAnswerIsAppended`, with the condition for every run in
  `OrderListPages.PrefixIffPartsInOrder`.
- `verifyJwt` reads the first three parts of a token and ignores the rest, and accepts a token at its expiry second,
  where section 4.1.4 of RFC 7519 says "on or after": `Jwt.OnlyThreePartsCount`, `Jwt.AcceptedUntilExpiry`. A token
  whose payload sets `exp` to undefined, or to any other falsy value or no number, never expires: `Jwt.AcceptedIff`.
- The precheck of the note migration lets a NULL code pass against a NULL invite code, and no update joins on it:
  `NoteMigration.NullCodeIsReported`.

## Model

| member | source | states |
|---|---|---|
| FileStores.FileStore.constructor | src/storage/file_store.ts:39-67 | a fresh process has no cache, no timer, and its own default tables |
| FileStores.FileStore.LoadData | src/storage/file_store.ts:72-95 | loads the file once, fills missing tables with the very arrays of DEFAULT_DATA, saves defaults when there is no file |
| FileStores.FileStore.SaveDataSync | src/storage/file_store.ts:100-118 | the file becomes the image of the whole cache and the dirty flag falls; nothing happens without a cache |
| FileStores.FileStore.MarkDirty | src/storage/file_store.ts:123-135 | the earlier timeout is cancelled and one new one is pending |
| FileStores.FileStore.FlushNow | src/storage/file_store.ts:140-148 | cancels the timeout, saves if dirty |
| FileStores.FileStore.FireTimer | src/storage/file_store.ts:130-134 | the callback saves if dirty and leaves the handle |
| FileStores.FileStore.NextId | src/storage/file_store.ts:153-159 | gives the counter or 1, moves the counter on, also in DEFAULT_DATA when `_meta` is shared |
| FileStores.FileStore.Insert | src/storage/file_store.ts:181-194 | pushes one row under the next id to the live array, seen by DEFAULT_DATA exactly when the array is shared |
| FileStores.FileStore.Update | src/storage/file_store.ts:223-238 | replaces the first row of the id in place, true exactly when there is one |
| FileStores.FileStore.UpdateWhere | src/storage/file_store.ts:243-265 | replaces every matching row in place, counts them, marks dirty exactly when some matched |
| FileStores.FileStore.Remove | src/storage/file_store.ts:270-280 | splices the first row of the id out of the live array |
| FileStores.FileStore.RemoveWhere | src/storage/file_store.ts:285-295 | puts a new array without the matching rows in the cache, so the table is no longer shared |
| FileStores.FileStore.SortTable | src/storage/repositories/properties.ts:90-136 | sorts the live array and does not mark the store dirty |
| FileStores.FileStore.Snapshot | src/storage/file_store.ts:309-311 | the snapshot is the loaded data by value |
| FileStores.FileStore.RollBack | src/storage/file_store.ts:318-323 | new arrays with the snapshot's content, not dirty, the timeout left pending |
| FileStores.FileStore.ClearAll | src/storage/file_store.ts:329-332 | the cache becomes a copy of DEFAULT_DATA as it stands, and is saved |
| Seqs.SortUnique | src/storage/repositories/properties.ts:128-136 | any sorted arrangement that keeps the order of ties is the stable sort |
| Seqs.SortFilter | src/storage/repositories/properties.ts:93-136 | stable sorting commutes with every filter |
| Seqs.SortEqualIffClasses | src/storage/repositories/properties.ts:128-136 | two arrays sort alike exactly when each class of ties stands in the same order in both |
| Tables.UpdateKeepsIdsIff | src/storage/file_store.ts:230-234 | ids stay distinct, positive and below the counter exactly when the updates carry no id, find no row, or carry that row's own id or an unused valid one |
| Tables.BorrowedId | src/storage/file_store.ts:230-234 | two rows, and an update of the second that carries the id of the first |
| Tables.FindByIdMeaning | src/storage/file_store.ts:199-202 | findById gives a row exactly when it is in the table and has the id |
| Tables.OrderUnobservable | src/storage/file_store.ts:199-303 | permuted tables answer lookups and counts by id alike, and update and remove by id succeed alike and leave permuted tables |
| StoreSpec.MutationKeepsIds | src/storage/file_store.ts:153-295 | every operation that leaves the id field alone keeps the id discipline of all tables |
| StoreSpec.CleanKeepsContent | src/storage/file_store.ts:223-295 | an operation that does not mark the store dirty leaves counters and rows the same up to row order |
| Machines.ActionFacts | src/storage/file_store.ts:72-148 | every action keeps the engine invariant, and changes the file only by a last rename that writes the memory it leaves |
| Machines.ActionsAreCalls | src/storage/file_store.ts:72-332 | each action run to its end leaves the module as its function does: handler, fired timer, clearAll, begin, commit, rollback |
| Machines.FileHoldsABoundaryState | src/storage/file_store.ts:100-118 | in every run, with crashes anywhere, the file holds one complete memory state taken at an action boundary |
| Machines.RecoveryLosesASuffix | src/storage/file_store.ts:72-118 | after a crash at any step of any action the restarted process loads a state of the history, and loses exactly what came after it and nothing that was saved |
| Machines.InvariantAlongRun | src/storage/file_store.ts:72-148 | what each action of a run keeps from where it starts holds of memory, file and every snapshot after the run |
| Machines.InvariantSince | src/storage/file_store.ts:309-324 | the same when snapshots of transactions begun earlier are left out and none of those is rolled back |
| Machines.InvariantOverRuns | src/storage/file_store.ts:72-148 | the same for what handlers keep from any data, with clearAll when nothing was shared at load |
| Machines.RunsAreReplays | src/storage/file_store.ts:72-324 | after any run from a start, memory, disk and every snapshot are the results of replaying known sequences of handlers, so what holds of all sequences holds of them |
| Durability.FlushInvariant | src/storage/file_store.ts:89-148 | in every run a dirty store has exactly one timeout pending, and a clean one agrees with its file up to row order unless a rollback came after the last save |
| Durability.DurableIsLastSaved | src/storage/file_store.ts:100-118 | after any run a restart would load the memory as it was at the last saving event, or what was on disk at the start |
| Durability.RollbackRestores | src/storage/file_store.ts:309-324 | a failed transaction restores every table and counter whatever ran inside; on disk stays what the last save inside it wrote, or what was there before |
| Durability.CommitSaves | src/storage/file_store.ts:313-317 | a successful transaction leaves nothing pending and the disk equal to memory if anything was unsaved |
| Durability.RollbackDurableIff | src/storage/file_store.ts:309-324 | after a rollback of any body and any timers, commits and reads, disk and memory agree exactly when what was last saved inside, or before, agrees with the memory at the start |
| Durability.UnsavedInsertStaysOff | src/storage/file_store.ts:318-323 | an insert, then a transaction that fails before the timer: disk and memory differ, whatever timers and reads follow |
| Durability.TimerInsideTransaction | src/storage/file_store.ts:130-134 | a timer inside a transaction, after any body, writes the uncommitted state, and the rollback leaves it on disk unless something saves in between |
| Durability.IdsOverRuns | src/storage/file_store.ts:153-332 | the id discipline holds in memory, file and snapshots after every run of handlers that do not overwrite ids |
| Durability.ClearAllIdsIff | src/storage/file_store.ts:76-84 | in every run, from any file, of handlers that leave ids alone, clearAll leaves right ids exactly when the file had no `_meta` or every default table the file lacked is still empty |
| Durability.ClearAllReusesIds | src/storage/file_store.ts:329-332 | for every file that lacks a table: insert, clearAll, insert leaves the first row in the table and gives the second id 1 |
| Accounts.KnownIff | src/storage/repositories/users.ts:85-98 | under the joint invariant an identity always has its user, so the later update branch is not reached |
| Accounts.LoginKeeps | src/storage/repositories/users.ts:77-147 | every login keeps the joint invariant, returns a user and never throws, links the pair to that user, and leaves other pairs alone |
| Accounts.LoginAnswer | src/storage/repositories/users.ts:85-126 | which user a login gives: the pair's, else the UnionID's, else one that did not exist |
| Accounts.IdentitiesOverRuns | src/storage/repositories/users.ts:77-147 | one row per pair, every identity's user exists and one user per UnionID, over every run of logins and of handlers that spare users and identities, with crashes and transactions |
| Accounts.FirstLoginSaves | src/storage/repositories/users.ts:142-146 | the first login of a pair leaves the account on disk |
| Accounts.LoginIsStable | src/storage/repositories/users.ts:85-147 | after its first login later logins of a pair give the same user whatever comes between, crashes and rollbacks included, but for rollbacks of transactions that were open at the first login (LoginAfterRollback) |
| Accounts.LoginAfterRollback | src/storage/file_store.ts:309-324 | after the rollback of a transaction around a first login the pair is answered from the accounts at its start, by the UnionID or the next id, and gets the same id exactly when those lead to it |
| Listing.NarrowIsFilter | src/storage/repositories/properties.ts:93-124 | the chain of filters is one filter by their conjunction |
| Listing.AnswerBySort | src/storage/repositories/properties.ts:126-144 | a list answer depends on the table only through its stable sort |
| Listing.ListsAreInvisible | src/storage/repositories/properties.ts:89-145 | over every run of creates, deletes, lists with any filters and edits the comparator cannot see, all answers are those of a store that never sorts in place |
| Listing.ReplaceSortsAlike | src/storage/file_store.ts:230-234 | two arrangements of the same rows sort alike after a row is replaced exactly when as many ties stand before it in both |
| Listing.EditInvisibleIff | src/storage/repositories/properties.ts:128-136 | an edit after an in-place sort is invisible exactly when the new row ties with the old one or no tie of the new one stands on the wrong side |
| Listing.AnswersAlikeIff | src/storage/repositories/properties.ts:89-145 | all lists, with any filters and pages, answer alike on two tables exactly when their stable sorts are equal |
| Listing.EditsInvisibleIff | src/storage/repositories/properties.ts:89-145 | over runs of calls with any edits that carry no id, sort keys included, all lists answer at every point as in a store that never sorts if and only if each edit finds as many ties of its new row ahead of the old one in both |
| Listing.PagesPartition | src/storage/repositories/orders.ts:122-126 | pages 1 to ceil(total / size) give every row once and in order, and later pages are empty |
| Catalog.PropertyOrder | src/storage/repositories/properties.ts:128-136 | the three-key comparator is a total preorder for every collation that is one |
| Catalog.NewestOrder | src/storage/repositories/orders.ts:119-120 | so is newest first |
| Catalog.CategoryOrder | src/storage/repositories/categories.ts:23-28 | so is the category comparator, where categories have a sort_order |
| Catalog.PlainEditsUnseen | src/storage/repositories/properties.ts:128-136 | edits that leave the id and the sort fields alone cannot be seen by the comparators |
| Catalog.SortKeyEditIsSeen | src/storage/repositories/properties.ts:128-136 | two rows and an edit of sort_order whose later order depends on whether a list ran before |
| Catalog.PropertyListMeaning | src/storage/repositories/properties.ts:89-145 | an answer is the page of exactly the rows that pass every active condition, sorted, ties in table order; total counts them all |
| Catalog.CallsAreMutations | src/storage/repositories/properties.ts:270-293 | the calls of Listing move one table of the store the same way and leave the others alone |
| Catalog.StoreListsAreInvisible | src/storage/repositories/orders.ts:87-153 | the store with its live sorting answers every run of calls like one that never sorts |
| Catalog.ListsAcrossRuns | src/storage/repositories/orders.ts:87-153 | the same after every run of the machine with timers, transactions and crashes, other handlers between, for lists in memory and lists after a crash |
| OrderListPages.OrderListPage.Reload | miniapp/pages/order-list/index.js:29-35 | page 1, empty list, a replacing request waits for the login |
| OrderListPages.OrderListPage.OnReachBottom | miniapp/pages/order-list/index.js:60-66 | asks for the next page exactly when not loading and rows are missing |
| OrderListPages.OrderListPage.OnLogin | miniapp/pages/order-list/index.js:36-40 | after the login the request is sent for the page of that moment |
| OrderListPages.OrderListPage.OnAnswer | miniapp/pages/order-list/index.js:49-54 | whichever outstanding request is answered, its rows replace the list or are appended, and the total is taken over |
| OrderListPages.OrderListPage.OnFailure | miniapp/pages/order-list/index.js:55-57 | whichever login or request fails, loading ends and page and list stay |
| OrderListPages.PrefixIffNothingFailed | miniapp/pages/order-list/index.js:29-66 | over every run whose requests do not overlap an idle client shows the first `page` pages if and only if no request has failed since the last reload, or the list is empty |
| OrderListPages.ScrollingShowsAPrefix | miniapp/pages/order-list/index.js:29-66 | while nothing has failed since the last reload and no requests overlap, an idle client shows exactly the first `page` pages, and scrolling asks for more exactly while rows are missing |
| OrderListPages.FailedPageIsSkipped | miniapp/pages/order-list/index.js:55-66 | after a failed page the next successful scroll appends the page after it, and the list is no prefix any more |
| OrderListPages.FailedReloadSkipsPageOne | miniapp/pages/order-list/index.js:29-66 | after a reload that fails, at the login or later, of a list known to have rows the next successful scroll shows page 2 alone |
| OrderListPages.ListIsItsParts | miniapp/pages/order-list/index.js:29-66 | in every run, with failures and overlapping requests, the list is the pages answered since the last reload or replacing answer, one after the other |
| OrderListPages.PrefixIffPartsInOrder | miniapp/pages/order-list/index.js:29-66 | in every run, over rows that look different, the client shows the first `page` pages if and only if its non-empty answers were for the pages 1, 2, 3 up to it |
| OrderListPages.StaleAnswerIsAppended | miniapp/pages/order-list/index.js:21-54 | a pull-down during a scroll whose answer comes last: that page stands behind page 1 and the client is at page 1 |
| Welfare.UseMeaning | src/storage/repositories/welfare_codes.ts:130-135 | a use succeeds exactly when the code exists with uses left, and moves that one row's count by one |
| Welfare.CreateKeepsIff | src/routes/api_v1/admin/welfare_codes.ts:51-58 | a raw create keeps all codes within their limits exactly when its own counts fit |
| Welfare.EditKeepsIff | src/routes/api_v1/admin/welfare_codes.ts:61-74 | a raw edit keeps ids and limits exactly when there is no such code, or the id it carries is free and the counts it leaves fit |
| Welfare.RawEditBreaksLimit | src/routes/api_v1/admin/welfare_codes.ts:61-74 | two uses of one allowed, put on any stored code, break the limit |
| Welfare.UsesAreConserved | src/storage/repositories/welfare_codes.ts:103-135 | over every run of fair calls each row stays within its limit and the total of used counts grows by the successful uses, plus what creates and edits bring and minus what removed rows take |
| Welfare.LimitsIffFair | src/storage/repositories/welfare_codes.ts:103-135 | the limits hold after every call of a run if and only if every create and edit of it fits where it is made |
| Welfare.ValidThenUsed | src/routes/welfare_codes.ts:24-38 | the verdict is valid exactly when the use that follows succeeds and the code is enabled and inside its dates |
| Welfare.LimitsOverRuns | src/storage/repositories/welfare_codes.ts:103-135 | no row exceeds its limit in memory, on disk or after a crash, in any run of fair calls on codes, raw edits included, and of handlers that leave their ids and counts alone |
| OrderLog.ChangeShape | src/routes/api_v1/admin/orders.ts:124-157 | a logged change, in any store with good ids, replaces one order row and adds one entry with the values it was given |
| OrderLog.CallTrail | src/routes/api_v1/admin/orders.ts:124-166 | what each call does to the status and the status entries of every order, in any store with good ids and distinct numbers |
| OrderLog.CallKeepsLogsIff | src/storage/repositories/orders.ts:172-181 | each logged call keeps all logs whole, except an order placed under a number that another has or whose old entries do not lead back to PENDING_PAYMENT |
| OrderLog.LogsOverRuns | src/routes/api_v1/orders.ts:72-95 | in every run of the logged handlers and of others that leave numbers, statuses and status entries alone, the entries of each order lead from PENDING_PAYMENT to its present status, after crashes too |
| OrderLog.CancelOnlyPending | src/routes/api_v1/orders.ts:77-89 | a cancel moves the caller's own pending order to CANCELLED and changes nothing in every other case |
| OrderLog.UnloggedTrail | src/routes/api_v1/me/orders.ts:62-80 | the unlogged cancel moves the status of the caller's pending order, adds no entry and leaves every other order's trail |
| OrderLog.UnloggedCancelBreaks | src/routes/api_v1/me/orders.ts:62-80 | in any store the unlogged cancel breaks the whole chain of an order each time it cancels it, and only then |
| OrderLog.LoggedChangeMendsNothing | src/routes/api_v1/admin/orders.ts:124-166 | after any logged call on any order, in any store, an order's chain is whole exactly when it was whole before |
| OrderLog.WholeIffNoUnloggedCancel | src/routes/api_v1/me/orders.ts:62-80 | over every sequence of logged handlers, unlogged cancels and neutral handlers an order's chain is whole if and only if no unlogged cancel took effect on it since it was placed |
| OrderLog.WholeIffOverRuns | src/routes/api_v1/me/orders.ts:62-80 | the same in memory and on disk after runs with timers, transactions and crashes, for the handlers whose changes each of them holds |
| References.CascadeAll | src/storage/repositories/orders.ts:204-210 | a cascade removes the parent and exactly its children, keeps the other children in order and the other tables as they were |
| References.DeletesLeaveNothingDangling | src/storage/repositories/products.ts:123-127 | no delete of an order, product, welfare code or property and no guarded delete of a category leaves one of four references dangling: items to orders, SKUs to products, code items to codes, properties to categories |
| References.ProductCategoriesIff | src/routes/api_v1/admin/categories.ts:78-92 | products' category references survive a category delete exactly when no product points at it |
| References.ProductLosesItsCategory | src/routes/api_v1/admin/categories.ts:78-92 | a category without properties and with one product: the delete goes through and the product dangles |
| References.LogOrdersIff | src/storage/repositories/orders.ts:204-210 | after an order delete the log's references to orders resolve exactly when no entry carries its number |
| References.LoggedOrderLeavesItsLog | src/storage/repositories/orders.ts:204-210 | the delete of any order with a logged status leaves an entry dangling |
| References.ItemProductsIff | src/storage/repositories/products.ts:123-127 | after a product delete the items' references to products resolve exactly when no item is of that product |
| References.OrderPropertiesIff | src/storage/repositories/properties.ts:291-293 | after a property delete the orders' references to properties resolve exactly when no order is for it |
| References.RawEditIff | src/routes/api_v1/admin/products.ts:61-74 | after a raw edit of a product, property or welfare code the four references resolve exactly when there is no such row, or its id is free, a property's category exists and nothing points at an id that goes |
| References.RawPropertyIff | src/routes/api_v1/admin/properties.ts:251-284 | after a raw create of a property they resolve exactly when its category exists or it has none |
| References.UnknownCategoryDangles | src/routes/api_v1/admin/properties.ts:251-284 | a store without categories and a body with category 1: the property dangles |
| References.NothingDanglesOverRuns | src/storage/repositories/welfare_codes.ts:122-125 | a crash cannot separate the halves of a cascade: none of the four references dangles in memory, file or snapshot after any run of deletes and of handlers whose adds and edits resolve, that change no key of a parent and remove none |
| Repositories.FindOrCreateUserByIdentity | src/storage/repositories/users.ts:77-147 | the step-by-step code is the login handler, in state and result |
| Repositories.ApplyFilters | src/storage/repositories/properties.ts:93-124 | the successive filters give the filter chain |
| Repositories.ListProperties | src/storage/repositories/properties.ts:89-145 | list sorts the live table exactly when no filter is active, and returns the page and total of Listing |
| Repositories.ListOrders | src/storage/repositories/orders.ts:87-126 | the same for orders |
| Repositories.ListCategories | src/storage/repositories/categories.ts:20-29 | always sorts the live table and returns all of it |
| Repositories.BulkInsert | src/storage/repositories/properties.ts:298-306 | the loop of creates and the flush are one handler; the count is the number of rows |
| Repositories.InsertsMeaning | src/storage/repositories/properties.ts:298-304 | a run of inserts appends the rows in order under consecutive ids and touches no other table |
| Repositories.BulkSaves | src/storage/repositories/properties.ts:298-306 | after an import nothing is pending and the file holds the import and all that was unsaved |
| Repositories.UseCode | src/storage/repositories/welfare_codes.ts:130-135 | the method is the use handler and returns whether it succeeded |
| Repositories.CancelOrder | src/routes/api_v1/orders.ts:72-95 | find, check, update, log is the cancel handler, with its answer in each case |
| Repositories.SetStatus | src/routes/api_v1/admin/orders.ts:124-142 | find, update, log is the status handler |
| Repositories.Delete | src/routes/api_v1/admin/categories.ts:78-92 | the five deletes are their handlers and report whether a row went |
| Repositories.InitDefaultData | src/storage/file_store.ts:337-363 | filling empty tables and flushing is one handler |
| Repositories.SecondInitChangesNothing | src/storage/file_store.ts:337-363 | after one start-up both tables have rows, and another changes no counter, row, timer or file |
| Server.CallKeepsAllIff | src/server.ts:88-132 | each call that stands for a handler of the mounted routes (logins, code, order, property, product and category calls with raw creates and edits, import, deletes, lists) keeps the four invariants together exactly when it is fair: the condition named for each |
| Server.ServerOverRuns | src/server.ts:88-132 | in every run of fair calls and of handlers with neutral changes, with timers, transactions and crashes: one user per account, no code over its limit, a whole log for every order and none of the four references dangling, in memory, on disk and in every snapshot |
| Server.AllOkIffFair | src/server.ts:88-132 | over every run of those calls, none cut short, the four invariants hold after every event if and only if every call is fair where it starts |
| Server.ServerFromNoFile | src/server.ts:88-132 | a server started without a data file has all four, and keeps them in every run of fair calls |
| Carts.KeysInjective | miniapp/utils/cart.js:13-15 | different (product, SKU) pairs have different keys |
| Carts.KeysUnique | miniapp/utils/cart.js:17-53 | no two items of a reachable cart share a key |
| Carts.CartRefinesBasket | miniapp/utils/cart.js:17-71 | after every run of calls the array stands for the map from pairs to quantities that the calls make, each at least 1, no welfare item |
| Carts.AddsAreSummed | miniapp/utils/cart.js:20-53 | after any run of adds each quantity is the sum of the amounts added |
| Carts.CartStorage.AddToCart | miniapp/utils/cart.js:17-53 | merges into the item of the key or pushes one, and refuses welfare items |
| Carts.CartStorage.UpdateQty | miniapp/utils/cart.js:55-65 | sets the quantity of the key's item, at least 1 |
| Carts.CartStorage.RemoveItem | miniapp/utils/cart.js:67-71 | keeps exactly the items of other keys |
| Jwt.DecodeEncode | src/utils/jwt.ts:4-26 | decoding undoes encoding for byte strings of every length (section 5 of RFC 4648) |
| Jwt.EncodingIsUrlSafe | src/utils/jwt.ts:4-6 | the encoding has only URL-safe characters, no '.' and no padding, and its length |
| Jwt.TokenParts | src/utils/jwt.ts:8-21 | a signed token splits into exactly its three parts |
| Jwt.PlainIffPure | src/utils/jwt.ts:13 | JSON stands for a value itself exactly when nothing in it, at any depth, is undefined, and always for such a value |
| Jwt.ClaimsArrive | src/utils/jwt.ts:11-12 | the printed body carries every claim of the payload that is not undefined, as JSON gives it, and iat and exp by default where the payload does not name them |
| Jwt.VerifySigned | src/utils/jwt.ts:8-33 | verifying a signed token gives its body back as printed, exactly while it has not expired, for every payload, nested arrays and objects included |
| Jwt.AcceptedIff | src/utils/jwt.ts:8-33 | a signed token is accepted exactly when its expiry is falsy or no number, or the clock is not past it |
| Jwt.AcceptedUntilExpiry | src/utils/jwt.ts:27-29 | with the default expiry it is accepted up to and including that second, and not after (at any time if that second is 0); with exp set to undefined, always |
| Jwt.OnlyThreePartsCount | src/utils/jwt.ts:21-22 | anything after a further '.' changes nothing |
| Jwt.AcceptedIsSigned | src/utils/jwt.ts:19-33 | whatever is accepted begins with data and the signature of that data, and the payload is what the data decodes to |
| NoteMigration.CheckOrders | scripts/migrate_welfare_note_to_buyer_note.ts:330-347 | the loop collects the order errors |
| NoteMigration.CheckItems | scripts/migrate_welfare_note_to_buyer_note.ts:349-374 | the nested loops collect the item errors |
| NoteMigration.Verify | scripts/migrate_welfare_note_to_buyer_note.ts:234-374 | maps of the rows before and both loops give the errors of the snapshots |
| NoteMigration.InOrderShots | scripts/migrate_welfare_note_to_buyer_note.ts:277-299 | the order snapshot has a row for every consumed pair and no other |
| NoteMigration.InItemShots | scripts/migrate_welfare_note_to_buyer_note.ts:302-327 | the item snapshot has exactly the items of consumed orders |
| NoteMigration.ZeroErrorsMeans | scripts/migrate_welfare_note_to_buyer_note.ts:330-383 | no error means: every note copied, sku_attrs NULL on sku 1, every compared field and other sku_attrs as before |
| NoteMigration.MigrationPassesIff | scripts/migrate_welfare_note_to_buyer_note.ts:238-374 | the verification after the migration finds nothing exactly when every consumed pair was ready for it |
| NoteMigration.PrecheckedPassesIff | scripts/migrate_welfare_note_to_buyer_note.ts:119-141 | past the precheck, if no consumed pair has a NULL, it finds nothing exactly when the codes of each order agree on the note |
| NoteMigration.NullCodeIsReported | scripts/migrate_welfare_note_to_buyer_note.ts:135-141 | a NULL code passes the precheck and is reported afterwards |
| NoteMigration.SecondRunChangesNothing | scripts/migrate_welfare_note_to_buyer_note.ts:238-266 | a second run changes nothing |
| NoteMigration.Database.Transact | scripts/migrate_welfare_note_to_buyer_note.ts:237-272 | both updates, or after a failing statement or commit the tables as they were |
| NoteMigration.Database.Migrate | scripts/migrate_welfare_note_to_buyer_note.ts:101-384 | a failed precheck, a dry run or a failing statement leaves the tables as they were; otherwise both updates are made and the outcome is the report's |
| MultiSku.ItemsAfter | scripts/migrate_welfare_codes_to_multi_sku.ts:60-92 | a code keeps its items, or gets exactly one of quantity 1 at its price with the default SKU |
| MultiSku.OnlyAdds | scripts/migrate_welfare_codes_to_multi_sku.ts:83-100 | old items stay, and a code changes only in a zero or missing original price, which becomes its price |
| MultiSku.SkuIsThere | scripts/migrate_welfare_codes_to_multi_sku.ts:38-57 | the SKU that new items point at is in the table |
| MultiSku.EveryCodeHasAnItem | scripts/migrate_welfare_codes_to_multi_sku.ts:60-92 | afterwards every code has an item |
| MultiSku.SecondRunChangesNothing | scripts/migrate_welfare_codes_to_multi_sku.ts:60-105 | a second run changes nothing |
| MultiSku.Database.EnsureSku | scripts/migrate_welfare_codes_to_multi_sku.ts:38-57 | finds the first SKU of the code or creates it |
| MultiSku.Database.Transact | scripts/migrate_welfare_codes_to_multi_sku.ts:75-116 | the loop makes both changes for every row, or after an error leaves codes and items as they were |
| MultiSku.Database.Migrate | scripts/migrate_welfare_codes_to_multi_sku.ts:29-122 | the whole script is the migration function, or keeps only the new SKU when a query throws |

## Left out

- Parallel requests inside one synchronous piece of code: JavaScript has none. Code of different requests between
  awaits is covered, since runs interleave handlers in any order.
- `setTable`, `getMiniIdentity`, getters, default filling, `decreaseStock` and `increaseStock`, the
  reviews and admins repositories: they add only easy members.
- `listMall`, `findMallById`, `listEnabled`, `countByStatus`, `getChangeLogs` and the shaping of returned rows (user
  names on orders, SKU texts on codes): projections of the answers proved here.
- The product list: its comparator has no default for missing numbers, which would need NaN; its filter, sort and page
  are those of the property list.
- Not-a-number and the printing of large or fractional numbers: numbers are integers.
- Negative pages and page sizes: the model computes what `slice` gives, and no property is claimed for them.
- Randomness of order numbers: the number of a new order is part of the call; `OrderLog.MayPlace` says which it may
  be given.
- WeChat login, payment and notification code, Express wiring, request schemas, authentication, uploads, Excel files,
  the views, the MySQL driver, the SQL schema files, `FLcode/` and the mock endpoints.
- The order in which a migration's queries return rows, and the report files: the verdict does not depend on them.
- OrderListPages.PrefixIffNothingFailed: is for requests that do not overlap, where failure decides; overlapping ones
  are in OrderListPages.PrefixIffPartsInOrder. Both are for a list that does not change on the server meanwhile.
- Row references: rows are values, so that a log entry holds the status from before the change is so by construction
  here; in the source it is so because `update` puts a new row object in the array
  (`src/storage/file_store.ts:230-234`).
