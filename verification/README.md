# A verified model of the multi-tenant order backend

The backend serves several tenants, each with a database of its own. Orders are built line by line, handed to a queue,
paid and completed with nothing running in a transaction. Tenant databases are created and migrated by a queue consumer
that requeues on failure. Product reads go through a Redis cache, and every route through a fixed-window rate limiter.
This project models that behaviour in Dafny and proves what it promises, for every input, run or interleaving.

Code that changes state is modelled as classes and methods with loops; each method is proved equal to a function of the
old state, and the whole-run results are proved about those functions. Clocks, generated identifiers, the success of each
store call and the order of events are parameters, so every result holds for all of them.

| file | what it models |
|---|---|
| `OrderModel`, `OrderProtocol` | rows and item grouping; the order protocol with one step per `await`, any interleaving |
| `StockLedger` | where stock goes in those runs |
| `OrderLifecycle` | what those runs achieve: published, payable, paid, complete |
| `OrderService`, `SerialisedRuns`, `RequestOutcomes` | the same operations as whole requests; refusals, redelivery and repeated payment |
| `RequestsAlone` | the two agree: a request that is not interleaved is its whole-request function |
| `Broker` | publish, deliver, ack, nack with requeue, consumer crash |
| `Provisioning`, `ProvisioningRuns` | create, migrate, roll back, flag; whole runs with users, messages and failures |
| `MigrationSplitter`, `ScriptShapes` | the line-by-line SQL splitter, and what it makes of quotes, comments and statements |
| `SplitterAgreement`, `SplitterExactness` | exactly when it agrees with the simple splitter |
| `TenantMigration` | the migration runner over all tenants |
| `Checksum` | the 32-bit rolling checksum and identifier quoting |
| `RateLimiter` | keys, counters, headers, sliding intervals |
| `Json`, `ResponseCache` | cache keys, the store and the interceptor |
| `ProductCache`, `CachedProducts`, `OrderListCache` | runs of the product routes and of the order list behind it |
| `Listing`, `OrdersOnPages` | cross-tenant listing and pagination, and which orders show how often |
| `Money` | floating-point totals |
| `Text`, `Sorting`, `Wrappers` | string, sorting and option helpers |

Where a natural claim does not hold of the code, the model keeps the code, a lemma gives the failing case, and another
says exactly when the claim does hold:

- The splitters disagree on a comment line holding a carriage return (`CrlfScriptDisagrees`); on scripts of code lines and
  comments between statements they agree if and only if no comment line does (`SplittersAgreeExactly`).
- Two spellings of one tenant code are both accepted and share a database (`OtherSpellingIsFlagged`), and then each of its
  orders is listed twice (`TwoSpellingsListTwice`); `OrdersShownOnceExactly` says when every order is on one page.
- A database whose admin connection fails to close after CREATE DATABASE stays empty, and the retry takes it for complete
  (`FailedDisconnectIsNotRepaired`); a handler run is safe exactly under `HandlerIsSafeExactly`.
- A payment that fails at its status update and is repeated takes the stock twice (`RepeatedPaymentTakesTwice`), and so do
  two payments at once (`ConcurrentPaymentsTakeTwice`). An item's stock is deducted at most once if and only if at most one
  payment of the order got past the item: `SerialisedRuns.AtMostOnceExactly` and, for every interleaving,
  `StockLedger.AtMostOnceExactly`.
- A payment changes `updatedAt` as well as `stock` without evicting anything (`PaymentsShowInUpdatedAt`), and an eviction
  error is swallowed (`LostEvictionServesTheOldPrice`). `CachedProductsAgree` says exactly how a cached product differs from
  its row, and `UpdatesLeaveEntriesExactly` when an update leaves an entry behind.
- Updating or removing a product names the list route among its evictions but leaves every cached list in place
  (`ListsOutliveProductWrites`); a write evicts an entry exactly under `EvictionIsExact`.
- The comment at src/common/interceptors/cache.interceptor.ts:63 says that all of a user's keys go. Exactly those go
  whose arguments text starts with the user id (`UserEvictionIsByPrefix`), so keys with arguments stay.
- A query that reuses the name `id` makes one product answer for another (`ReusedNameServesAnotherProduct`); two reads
  share an entry exactly under `KeysMeetExactly`.
- The product pagination differs from the order pagination exactly past the last page of a non-empty table
  (`PaginationsAgreeExactly`).

## Model

| member | source | states |
|---|---|---|
| `OrderModel.FindItem` | src/order/order.service.ts:100-105 | the item found is one for the product, and none is found only if there is none |
| `OrderModel.GroupedStep` | src/order/order.service.ts:100-146 | adding one line to items that are the earlier lines grouped by product gives the items grouped for all lines: quantities summed, price kept from the first |
| `OrderProtocol.RunsKeep` | src/order/order.service.ts:59-152 | the protocol invariant holds after every sequence of steps, under every interleaving, failure and redelivery |
| `OrderProtocol.PublishedOrdersAreBuilt` | src/order/order.controller.ts:69-86 | in every interleaved run, from the moment a create call is about to publish, its items are exactly the request lines grouped by product, and the total is their sum |
| `OrderProtocol.EveryPriceWasRead` | src/order/order.service.ts:77-97 | each price an order was built with is the one found by the call's own read of the product for that line |
| `OrderProtocol.PayableOrdersAreFinal` | src/rabbitmq/order-processing.consumer.ts:30-49 | an order waiting for payment or paid has an item, the right total, a payment id, and its create call is over |
| `OrderProtocol.CompleteOrdersHaveTransactions` | src/rabbitmq/order-completed.consumer.ts:28-45 | a complete order has a transaction id that is not blank, because the route refuses blank ones |
| `OrderProtocol.PublishedOrdersStay` | src/rabbitmq/order-completed.consumer.ts:37-41 | in every interleaved run, deliveries, redeliveries, payments, completions and admin writes never change the owner, items or total of a published order |
| `OrderLifecycle.OrdersLive` | src/order/order.controller.ts:64-86 | from any moment of any run, a new order whose lines are available goes through creation, processing, payment and completion, ends COMPLETE with its items grouped and total right, and takes from every product exactly what its lines asked for |
| `OrderLifecycle.CreatePublishesExactly` | src/order/order.controller.ts:69-86 | in every run an uninterrupted create call publishes its order if and only if it has lines and every product has enough stock |
| `OrderLifecycle.CreateSucceedsExactly` | src/order/order.service.ts:77-97 | `create` as a whole succeeds if and only if there is a line and all are available; products are untouched |
| `OrderLifecycle.DeliveryMakesPayable` | src/rabbitmq/order-processing.consumer.ts:38-42 | in every run a delivered processing message leaves its order WAITING_FOR_PAYMENT under the payment id drawn, and changes no more of it |
| `OrderLifecycle.PaymentStartsExactly` | src/order/order.service.ts:233-248 | a payment starts if and only if its order waits for payment and the caller owns it; otherwise nothing changes |
| `OrderLifecycle.PaymentEndsPaid` | src/order/order.service.ts:250-275 | in every run a payable order's payment by its owner, not interrupted, ends PAID and takes exactly the order's items |
| `OrderLifecycle.CompletionRequestedExactly` | src/order/order.controller.ts:147-150 | a completion is queued if and only if its transaction id is not blank and the caller owns the order |
| `OrderLifecycle.DeliveryCompletes` | src/rabbitmq/order-completed.consumer.ts:37-41 | in every run a delivered completion leaves its order COMPLETE under its transaction id, and changes no more of it |
| `OrderLifecycle.PublishedOrdersAreFulfilled` | src/order/order.service.ts:232-298 | in every run a published order can be processed, paid and completed |
| `OrderLifecycle.OrderedProductsExist` | prisma/schema.prisma:77-78 | in every run the product of every ordered item exists |
| `OrderLifecycle.AdminWritesShow` | src/product/product.service.ts:84-92 | an update shows field by field what was given, else what was there |
| `StockLedger.StockIsLastWriteMinusDecrements` | src/order/order.service.ts:250-267 | in every interleaving of payment loops, finished or not, a product's stock is the last admin write minus all decrements since |
| `StockLedger.PaymentsTakeTheirItems` | src/order/order.service.ts:232-275 | whatever runs beside it, a payment has taken exactly the items it got through, and its whole order once finished |
| `StockLedger.DecrementsAreThePayments` | src/order/order.service.ts:250-267 | all that was taken from a product is the sum of what each payment took |
| `StockLedger.PaymentTakesItemsWhole` | src/order/order.service.ts:250-267 | in every interleaving a payment has taken an item of its order wholly if it got past it, and not at all otherwise |
| `StockLedger.AtMostOnceExactly` | src/order/order.service.ts:246-267 | in every interleaving of payments, an item's stock is deducted for its order at most once if and only if at most one payment of the order got past the item |
| `OrderService.Backend.AddItemToOrder` | src/order/order.service.ts:59-152 | outcome and new tables: refusals in the code's order, else the line is added and the total recomputed |
| `OrderService.Backend.RecalculateOrderTotal` | src/order/order.service.ts:452-467 | the order's total becomes the sum of price times quantity, nothing else changes |
| `OrderService.Backend.Create` | src/order/order.controller.ts:64-86 | the loop ends at the first refused line, keeps what came before, and publishes only if it got through |
| `OrderService.Backend.CheckoutOrder` | src/order/order.service.ts:154-230 | every refusal in order, the first item short of stock, else only the status changes |
| `OrderService.StockCheckIsAll` | src/order/order.service.ts:176-199 | checkout passes its stock check if and only if every item's product is there with enough stock |
| `OrderService.Backend.PaymentReceived` | src/order/order.service.ts:232-298 | on success each product drops by the order's quantity of it; on a store error, by the items before it, and the order stays unpaid |
| `RequestOutcomes.PaymentOutcomes` | src/order/order.service.ts:233-248 | accepted exactly from the owner of an order waiting for payment; not found, forbidden and bad request each exactly for their case |
| `RequestOutcomes.AddOutcomes` | src/order/order.service.ts:60-97 | a line is accepted exactly from the owner of a pending order with enough stock, each refusal exactly for its case |
| `RequestOutcomes.CheckoutOutcomes` | src/order/order.service.ts:155-207 | accepted exactly from the owner of a pending order with items, all in stock; then it waits for payment |
| `RequestOutcomes.CompletionOutcomes` | src/order/order.service.ts:46-57 | accepted exactly with a non-blank transaction id from the owner, each refusal exactly for its case |
| `RequestOutcomes.StrangersChangeNothing` | src/order/order.service.ts:242-244 | whoever does not own an order changes nothing by paying, checking out or completing it |
| `RequestOutcomes.ProcessingMakesPayable` | src/rabbitmq/order-processing.consumer.ts:38-42 | in every serialised run a processing delivery of a published order makes it payable |
| `RequestOutcomes.FaultFreePayments` | src/order/order.service.ts:250-275 | with no store failure a payment succeeds exactly when its checks pass, ends PAID and takes exactly the items; else nothing changes |
| `RequestOutcomes.CompletionsComplete` | src/rabbitmq/order-completed.consumer.ts:37-41 | a requested and delivered completion leaves the order COMPLETE under its transaction id |
| `RequestOutcomes.CreateOutcomes` | src/order/order.controller.ts:69-86 | a create request publishes exactly with lines that are all available |
| `RequestsAlone.PaymentAloneIsPay` | src/order/order.service.ts:232-298 | the payment steps of the interleaved model, run alone and stopped anywhere, change the tables as the whole request does |
| `RequestsAlone.ConcurrentPaymentsTakeTwice` | src/order/order.service.ts:246-275 | two payments that both passed the status check before either decremented take the quantities twice |
| `RequestsAlone.CreateAloneIsCreate` | src/order/order.controller.ts:69-86 | the create steps run alone change the tables as the whole request does, and end published exactly when it succeeds |
| `SerialisedRuns.PaymentsAreBounded` | src/order/order.service.ts:246-275 | with serialised requests and any redelivery, payments accepted plus one if waiting never exceed deliveries handled plus checkouts |
| `SerialisedRuns.TakenPerPayment` | src/order/order.service.ts:250-275 | an order has taken its quantities once per accepted payment, plus what stopped payments took |
| `SerialisedRuns.StockLosesWhatIsTaken` | src/order/order.service.ts:250-267 | in every serialised run a stock column has lost exactly what the orders took since the product was last written |
| `SerialisedRuns.StockDeductedAtMostOnce` | src/order/order.service.ts:246-275 | processed once and never checked out: taken is what stopped payments took, plus nothing or the quantity once |
| `SerialisedRuns.TakenPerPass` | src/order/order.service.ts:246-267 | an order has taken an item's quantity once per payment that passed its checks and got past the item before a store failure |
| `SerialisedRuns.AtMostOnceExactly` | src/order/order.service.ts:246-267 | in every serialised run, however often processed or checked out, an item's stock is deducted at most once if and only if at most one such payment got past the item |
| `SerialisedRuns.RepeatedPaymentTakesTwice` | src/order/order.service.ts:250-275 | a payment that fails at the status update and its repetition take the quantities twice |
| `SerialisedRuns.ServeRequest` | src/order/order.controller.ts:64-150 | each kind of request through the backend methods is one step of the serialised runs |
| `SerialisedRuns.ServeAll` | src/order/order.service.ts:59-298 | a new backend that serves any sequence of requests ends with the tables of that run |
| `Broker.QueueConserves` | src/rabbitmq/rabbitmq.service.ts:90-107 | in every run with failures and crashes, published is queued plus in flight plus acknowledged, and each acknowledgement has its own completed handler run |
| `Broker.DeliveredIsRunning` | src/rabbitmq/rabbitmq.service.ts:92-105 | a delivery that resolves and is acknowledged, or is rejected, moves its own message and no other |
| `Broker.Channel.Consume` | src/rabbitmq/rabbitmq.service.ts:90-107 | the net effect of one delivery: acknowledged and gone from the queue if the handler resolves, the queue as before if it rejects |
| `Broker.Channel.Replay` | src/rabbitmq/rabbitmq.service.ts:62-107 | the channel under any sequence of publishes, deliveries, settlements and crashes is the queue of that run |
| `Provisioning.Server.ExecuteStatements` | src/rabbitmq/database-creation.consumer.ts:176-225 | the statements that ran before the failing operation, for every skip test |
| `Provisioning.Server.MigrateDirectory` | src/rabbitmq/database-creation.consumer.ts:151-251 | one directory: skipped, already recorded, finished, rolled back, or left neither when the rollback UPDATE fails too, at every point of failure |
| `Provisioning.Server.FillTenantDatabase` | src/rabbitmq/database-creation.consumer.ts:126-253 | the rows written and whether an operation failed, directories in sorted order |
| `Provisioning.Server.CreateAndMigrateTenantDatabase` | src/rabbitmq/database-creation.consumer.ts:81-273 | databases and outcome for every fault, including rollback and the "already exists" rule |
| `Provisioning.SortedDirs` | src/rabbitmq/database-creation.consumer.ts:146-149 | the migrations run are the directories, in name order |
| `Provisioning.TextLeqExactly` | src/rabbitmq/database-creation.consumer.ts:146-149 | directory names are ordered lexicographically: a prefix, or smaller where they first differ |
| `Provisioning.FillOutcome` | src/rabbitmq/database-creation.consumer.ts:151-253 | the rows are every migration finished once, in order, exactly when nothing before the last disconnect failed |
| `Provisioning.HandlerIsSafeExactly` | src/rabbitmq/database-creation.consumer.ts:81-273 | from complete databases a handler run leaves complete databases and an honest report if and only if the database was there or its faults are not harmful |
| `Provisioning.ProvisionExactly` | src/rabbitmq/database-creation.consumer.ts:81-273 | for every pattern of faults: when success is reported, which databases exist afterwards, and that a run with no fault leaves the missing database complete |
| `Provisioning.KeptExactly` | src/rabbitmq/database-creation.consumer.ts:203-210 | the statements executed are exactly those not skipped, each as often as the script has it |
| `Provisioning.KeptInOrder` | src/rabbitmq/database-creation.consumer.ts:182-214 | they are executed in the order of the script |
| `ProvisioningRuns.MessagesAreConserved` | src/rabbitmq/rabbitmq.service.ts:90-107 | database-creation messages are conserved in every provisioning run |
| `ProvisioningRuns.AcknowledgedMeansFlagged` | src/rabbitmq/database-creation.consumer.ts:41-59 | in every run, crashes included, the user of an acknowledged message is flagged for as long as it exists |
| `ProvisioningRuns.FlaggedUsersHaveDatabases` | src/user/user.service.ts:57-89 | in every interleaving of handlers of different databases, with no crash inside a handler and no harmful fault to one that creates its database, each database that no handler is creating is complete, and a flagged user with a tenant code has a complete one at every moment |
| `ProvisioningRuns.AdminsGetTheirDatabase` | src/rabbitmq/database-creation.consumer.ts:41-59 | in every run, a new administrator whose message is delivered without a fault and acknowledged ends flagged with its database in place, complete if it was missing |
| `ProvisioningRuns.CleanDeliveryProvisions` | src/rabbitmq/database-creation.consumer.ts:46-52 | from any state a delivery that meets no fault flags its user and completes a missing database |
| `ProvisioningRuns.FailedDeliveryIsRetried` | src/rabbitmq/rabbitmq.service.ts:101-105 | a delivery whose handler fails flags nobody and is queued again |
| `ProvisioningRuns.NewAdminsAreQueued` | src/user/user.service.ts:42-89 | an administrator is accepted exactly with a code of its own, starts unflagged, and its message is queued |
| `ProvisioningRuns.OthersAreFlaggedAtOnce` | src/user/user.service.ts:64 | anybody else is flagged from the start and sends no message |
| `ProvisioningRuns.CodesAreForAdmins` | src/user/user.service.ts:20-26 | a tenant code is demanded of administrators and refused to everybody else |
| `ProvisioningRuns.FailedDisconnectIsNotRepaired` | src/rabbitmq/database-creation.consumer.ts:107-115 | one failed disconnect and a clean retry leave a flagged user with an empty database |
| `ProvisioningRuns.OtherSpellingIsFlagged` | src/user/user.service.ts:43-51 | a second spelling of a tenant code is accepted and flagged for the same database |
| `MigrationSplitter.ScanLine` | src/rabbitmq/database-creation.consumer.ts:188-196 | the character loop is the one-pass quote scanner on that line |
| `ScriptShapes.MarkClosesExactly` | src/rabbitmq/database-creation.consumer.ts:188-196 | a mark opens a quotation whatever comes before, and the same mark closes it exactly when no backslash stands before it |
| `ScriptShapes.MarkOpens` | src/rabbitmq/database-creation.consumer.ts:190-192 | text after a mark that does not repeat it stays inside the quotation |
| `ScriptShapes.BareStaysOutside` | src/rabbitmq/database-creation.consumer.ts:188-196 | text free of marks stays outside quotes |
| `ScriptShapes.PiecesAreBalanced` | src/rabbitmq/database-creation.consumer.ts:188-196 | a line of bare text and closed quotations is balanced |
| `ScriptShapes.OpenQuotesAreNotBalanced` | src/rabbitmq/database-creation.consumer.ts:188-196 | a line with a quotation left open is not |
| `MigrationSplitter.SplitStatements` | src/rabbitmq/database-creation.consumer.ts:177-225 | statements, closed chunks and remainder of the line loop |
| `ScriptShapes.OneStatementEach` | src/rabbitmq/database-creation.consumer.ts:182-225 | on every script of comment lines between statements and statements of balanced lines of which the last alone ends in a semicolon, the splitter yields one statement per statement, in order |
| `ScriptShapes.CommentsExactly` | src/rabbitmq/database-creation.consumer.ts:183-186 | a comment line is one that starts, after blanks, with two dashes |
| `MigrationSplitter.NothingLost` | src/rabbitmq/database-creation.consumer.ts:182-225 | for every script, chunks and remainder put together are exactly the lines minus comments met while only blanks had accumulated |
| `MigrationSplitter.QuotesAreOnePass` | src/rabbitmq/database-creation.consumer.ts:178-214 | the carried quote state is that of one scan over all kept text, and each closed chunk is balanced on its own |
| `MigrationSplitter.OnlyBlankPiecesAreDropped` | src/rabbitmq/database-creation.consumer.ts:200-225 | the comment tests drop no non-blank statement |
| `SplitterAgreement.SplittersAgree` | src/prisma/tenant-migration.service.ts:56-63 | on every canonical script both splitters give the same statements in the same order |
| `SplitterExactness.SplittersAgreeExactly` | src/prisma/tenant-migration.service.ts:56-63 | on every script of code lines and comments between statements, the splitters agree if and only if no comment line holds a line terminator |
| `SplitterExactness.UnstrippedCommentDisagrees` | src/prisma/tenant-migration.service.ts:58 | any comment with a line terminator before any line of code makes them disagree |
| `SplitterExactness.CrlfScriptDisagrees` | src/prisma/tenant-migration.service.ts:58 | such a script: a comment and a statement with CRLF line ends |
| `SplitterAgreement.StripsExactlyOneLineComments` | src/prisma/tenant-migration.service.ts:58 | a comment line is stripped to blanks if and only if it holds no line terminator |
| `ScriptShapes.StripsTrailingComments` | src/prisma/tenant-migration.service.ts:58 | the simple splitter strips everything from the first two dashes on, if no line terminator follows |
| `TenantMigration.Runner.Apply` | src/prisma/tenant-migration.service.ts:55-75 | statements tried up to the first failure, and success only if all and the record's insert succeed |
| `TenantMigration.TriedExactly` | src/prisma/tenant-migration.service.ts:64-66 | the statements tried are those before the first failure and the one that failed |
| `TenantMigration.Runner.MigrateFile` | src/prisma/tenant-migration.service.ts:48-79 | one existing file: already applied, applied and recorded, or failed and not recorded |
| `TenantMigration.Runner.MigrateFiles` | src/prisma/tenant-migration.service.ts:46-80 | the loop over one tenant's files |
| `TenantMigration.Runner.MigrateAllTenants` | src/prisma/tenant-migration.service.ts:29-86 | records, results and executed statements of a whole run, errors outside the `try` included |
| `TenantMigration.RecordedOnceAndExactlyWhenApplied` | src/prisma/tenant-migration.service.ts:50-78 | over any number of runs, a migration is recorded at most once per database, exactly when it was before or a run applied it |
| `TenantMigration.RecordedExactlyWhenGotThrough` | src/prisma/tenant-migration.service.ts:29-83 | over any number of runs, a migration is recorded on a database at most once, if and only if it was before, or some run reached it and got through all its statements and the insert |
| `TenantMigration.RunRecordsExactly` | src/prisma/tenant-migration.service.ts:46-80 | one run records a migration if and only if it reaches the file with no error outside the `try` and gets through it, for some spelling of the code |
| `TenantMigration.StatusesAreTruthful` | src/prisma/tenant-migration.service.ts:54-78 | "applied" is reported only if every statement and the insert succeeded, "failed" only if one did not, "already applied" only if it was recorded before the run or applied earlier in it |
| `TenantMigration.ExecutedExactly` | src/prisma/tenant-migration.service.ts:64-78 | what a run executes is, result by result and in order, every statement of an applied migration once, those of a failed one up to the failing statement, none of one already applied |
| `TenantMigration.OneResultEach` | src/prisma/tenant-migration.service.ts:27-83 | a run reports one result per tenant and existing file, in order; a run that throws has reported the first of them |
| `TenantMigration.AfterACleanRunNothingExecutes` | src/prisma/tenant-migration.service.ts:49-78 | after a run with no "failed" result, a later run over the same tenants and files executes and records nothing, whatever ran in between |
| `Checksum.HashLoop` | src/rabbitmq/database-creation.consumer.ts:340-345 | the loop computes the base-31 polynomial of the code units modulo 2^32, read as signed 32 bits |
| `Checksum.HashComposes` | src/rabbitmq/database-creation.consumer.ts:340-345 | the hash of a concatenation follows from the two hashes and a length |
| `Checksum.CalculateChecksum` | src/rabbitmq/database-creation.consumer.ts:339-347 | exactly eight lower-case hex digits that parse back to the absolute value |
| `Checksum.HexRoundTrip` | src/rabbitmq/database-creation.consumer.ts:346 | hexadecimal printing parses back |
| `Checksum.PadKeepsValue` | src/rabbitmq/database-creation.consumer.ts:346 | padding gives the width and keeps the value |
| `Checksum.EscapedIsOneToken` | src/rabbitmq/database-creation.consumer.ts:325-327 | an escaped identifier is lexed as one quoted token with the original text |
| `RateLimiter.RateLimitInterceptor.Intercept` | src/common/interceptors/rate-limit.interceptor.ts:24-59 | the one counter that changes, and the decision and headers that follow from it |
| `RateLimiter.InterceptNext` | src/common/interceptors/rate-limit.interceptor.ts:24-59 | one intercepted request is the next decision of the run, for any requests still to come |
| `RateLimiter.InterceptAll` | src/common/interceptors/rate-limit.interceptor.ts:24-59 | an interceptor that meets any sequence of requests decides them as the run results say |
| `RateLimiter.HandlerBeforeController` | src/common/interceptors/rate-limit.interceptor.ts:61-72 | field by field: the handler's option, else the controller's, else a minute, 60 requests, by user |
| `RateLimiter.HandlerMaximumRules` | src/common/interceptors/rate-limit.interceptor.ts:46-56 | with a maximum on the handler, exactly that many first requests of a window are admitted and it is the limit shown, whatever the controller says |
| `RateLimiter.FirstMaxAreAdmitted` | src/common/interceptors/rate-limit.interceptor.ts:46-56 | of the requests of a window the first max are admitted and no other, each with the right limit and remainder |
| `RateLimiter.PrincipalPrecedence` | src/common/interceptors/rate-limit.interceptor.ts:75-82 | a user is known by id, else userId, else sub; everybody else by address, connection address, or as unknown |
| `RateLimiter.TenantPrecedence` | src/common/interceptors/rate-limit.interceptor.ts:78-80 | the user's tenant comes before the path's |
| `RateLimiter.KeysSeparateCallers` | src/common/interceptors/rate-limit.interceptor.ts:74-84 | two callers share a key exactly when tenant, handler and principal are the same, for any tenant codes with user ids and addresses as principals, or any principals with colon-free tenant codes |
| `RateLimiter.CallersAreIndependent` | src/common/interceptors/rate-limit.interceptor.ts:36-58 | a caller is decided as if its requests were the only ones |
| `RateLimiter.SlidingBound` | src/common/interceptors/rate-limit.interceptor.ts:33-58 | in every time-ordered run, any half-open interval of k windows holds at most (k+1)·max − 1 admitted requests of a caller |
| `RateLimiter.SlidingBoundIsTight` | src/common/interceptors/rate-limit.interceptor.ts:36-42 | for every k, every max and every window of at least 2 ms, a run reaches (k+1)·max − 1 |
| `RateLimiter.RemainingIsExact` | src/common/interceptors/rate-limit.interceptor.ts:46-51 | of the further requests in the window, the first Remaining are admitted and no other |
| `RateLimiter.ResetSuffices` | src/common/interceptors/rate-limit.interceptor.ts:47-52 | the next request sent no sooner than Reset seconds later is admitted when max is at least 1 |
| `RateLimiter.ResetIsTight` | src/common/interceptors/rate-limit.interceptor.ts:47-52 | with the window full, a request more than a second before Reset is refused |
| `Json.PrintUnique` | src/common/services/cache.service.ts:38-43 | printed JSON followed by anything is read back in one way only |
| `Json.StringsReadBack` | src/common/services/cache.service.ts:43 | a printed string is read back by a JSON reader as itself |
| `Json.StringifyIsInjective` | src/common/services/cache.service.ts:43 | values that print alike are equal, nested lists and objects included |
| `ResponseCache.CacheInterceptor.GetMethodArguments` | src/common/interceptors/cache.interceptor.ts:141-158 | path parameters, then the query overriding shared names in place |
| `ResponseCache.CacheInterceptor.AssignInto` | src/common/interceptors/cache.interceptor.ts:148-155 | property assignment in order |
| `ResponseCache.AssignHolds` | src/common/interceptors/cache.interceptor.ts:147-155 | merged arguments hold what the query gives under a name, else what the path does |
| `ResponseCache.CacheInterceptor.InterceptRead` | src/common/interceptors/cache.interceptor.ts:95-132 | hit, or the handler's result, which is then stored under the same key |
| `ResponseCache.CacheInterceptor.Invalidate` | src/common/interceptors/cache.interceptor.ts:38-93 | the store after all eviction targets, whichever store calls fail |
| `ResponseCache.KeyDetermines` | src/common/services/cache.service.ts:31-45 | a key without user id determines tenant, controller, method and arguments |
| `ResponseCache.UsersNeverShareEntries` | src/common/interceptors/cache.interceptor.ts:95-115 | with the user in the key, two requests share an entry only if tenant, controller, method, user and arguments are the same |
| `ResponseCache.LiteralMatches` | src/common/services/cache.service.ts:120-121 | a prefix without pattern characters followed by `*` matches exactly the keys that start with it |
| `ResponseCache.UserEvictionIsByPrefix` | src/common/services/cache.service.ts:112-129 | evicting a user's keys removes exactly those whose arguments text starts with the user id, for names and ids without pattern characters |
| `ResponseCache.WildcardEvictsTheController` | src/common/services/cache.service.ts:134-147 | a wildcard target removes exactly the controller's keys of that tenant |
| `ResponseCache.MatchingTargetsMeet` | src/common/interceptors/cache.interceptor.ts:51-84 | a target declared like a cached route deletes the key that route files under |
| `ResponseCache.DefaultTargetsMeetDefaultReads` | src/common/services/cache.service.ts:37 | a default-tenant target speaks of entries filed without a tenant, whatever the writer's tenant |
| `ResponseCache.LifetimeRule` | src/common/interceptors/cache.interceptor.ts:127 | an entry lives as long as declared, or 300 seconds if nothing or zero is |
| `ResponseCache.ArgumentKeysOutliveEviction` | src/common/interceptors/cache.interceptor.ts:58-70 | a user's cached request outlives that eviction exactly when it has arguments |
| `OrderListCache.HitsAreTheUsersOwn` | src/order/order.controller.ts:98-108 | in every sequential run, a cached order list is what that user's own handler answered to the same query less than 300 seconds ago |
| `OrderListCache.FiledReadsHit` | src/common/interceptors/cache.interceptor.ts:114-131 | a read that missed and was filed is a hit for the same user and query |
| `OrderListCache.OrderWritesEvictExactly` | src/order/order.controller.ts:63 | creating or completing an order removes a cached list if and only if it was filed without tenant and query by a user whose id starts with the writer's |
| `OrderListCache.OwnListIsEvicted` | src/order/order.controller.ts:137 | the writer's own plain list goes |
| `ProductCache.KeysNameRequests` | src/common/services/cache.service.ts:31-45 | two product reads whose queries reuse no path name share a key only if they are the same request |
| `ProductCache.AnswersAreRecent` | src/common/interceptors/cache.interceptor.ts:95-132 | in every sequential run, whatever a product read answers its own handler would have returned at a moment less than 300 seconds ago, unless it is a miss the rate limiter refuses |
| `ProductCache.UpdatedIsRead` | src/product/product.service.ts:84-92 | an update is read back field by field, under any spelling of the tenant code |
| `ProductCache.CreatedIsRead` | src/product/product.service.ts:24-33 | a created product is read back as drafted, with stock 0 if none was given |
| `ProductCache.RemovedIsGone` | src/product/product.service.ts:101-108 | a removed product is not found any more |
| `ProductCache.OthersAreUntouched` | src/product/product.service.ts:84-108 | a write changes no other product, and one whose handler throws changes nothing |
| `CachedProducts.CachedProductsAgree` | src/product/product.controller.ts:67-98 | when every update and removal of the product spells the tenant code as the reader does, adds no query and has its eviction reach the store, a cached product is its row but for what payments took and the last one's time; the two agree except for `stock` if and only if no payment came since, or the last one came at the cached `updatedAt` |
| `CachedProducts.UpdatesLeaveEntriesExactly` | src/common/services/cache.service.ts:100-106 | an update leaves the old entry in place if and only if it spells the code otherwise, carries a query, or its eviction fails |
| `CachedProducts.LostEvictionServesTheOldPrice` | src/common/services/cache.service.ts:104-106 | after a swallowed eviction error the next read shows the old price |
| `CachedProducts.KeysMeetExactly` | src/common/interceptors/cache.interceptor.ts:141-158 | two reads share an entry if and only if route, tenant and merged arguments coincide |
| `CachedProducts.EvictionIsExact` | src/common/interceptors/cache.interceptor.ts:38-86 | a write evicts a read's entry if and only if it targets the route, reaches the store, and has the same tenant code and arguments |
| `CachedProducts.CreateEvictsOneList` | src/product/product.controller.ts:42-45 | creating a product evicts the list read with the same query and no other |
| `CachedProducts.ListsOutliveProductWrites` | src/product/product.controller.ts:78-98 | updating or removing a product evicts no list whose query has no `id` |
| `CachedProducts.ProductWritesEvictExactly` | src/product/product.controller.ts:78-98 | it evicts a product's entry exactly for its own tenant spelling, id and query, and if the store is reached |
| `CachedProducts.PaymentsShowInUpdatedAt` | src/order/order.service.ts:253-260 | after a payment a hit shows the old `updatedAt` |
| `CachedProducts.ReusedNameServesAnotherProduct` | src/common/interceptors/cache.interceptor.ts:152-155 | a query that reuses `id` files one product under another's key |
| `Listing.ClampPage` | src/product/product.controller.ts:62 | a page of at least 1 is kept, anything else is page 1 |
| `Listing.ClampPerPage` | src/product/product.controller.ts:63 | a size from 1 to 100 is kept, a missing or zero one is 10, all others are brought into range |
| `Listing.FindAll` | src/order/order.service.ts:362-420 | the requested page of the merged, sorted list over databases shared by all spellings of a code; a tenant that cannot be read adds nothing |
| `Listing.PagesAreTheWholeList` | src/order/order.service.ts:362-420 | pages 1 to total_pages concatenate to a newest-first permutation of the user's orders, once per listed code that reads their database |
| `Listing.EachPlaceOnOnePage` | src/order/order.service.ts:408-412 | each place of the list is on exactly one page |
| `Listing.PageLabels` | src/order/order.service.ts:408-420 | page, size, total and the least number of pages, at least one, that holds the list |
| `OrdersOnPages.OrdersShownOnceExactly` | src/order/order.service.ts:362-420 | every readable order (database and id) is on exactly one page, at one place, if and only if no two listed codes read one database with orders of the user |
| `OrdersOnPages.OrderShownOnceExactly` | src/prisma/database-manager.service.ts:36 | an order is shown once if and only if one listed code reads its database |
| `OrdersOnPages.ShownOnceExactly` | src/order/order.service.ts:408-412 | an entry is on exactly one page, at one place, if and only if the list holds it once |
| `OrdersOnPages.TwoSpellingsListTwice` | src/order/order.service.ts:365-398 | with "ACME" and "acme" both listed, an order is on page 1 and again on page 2 |
| `Listing.PastTheEndIsLast` | src/order/order.service.ts:409-412 | a larger page returns the last page |
| `Listing.PaginationsAgreeExactly` | src/product/product.service.ts:38-56 | skip and take agree with the order slicing if and only if the page exists or the table is empty |
| `Money.StoredTotalIsExact` | src/order/order.service.ts:457-466 | for up to 100,000 items and a true total below 10^8, the stored total is the exact cent total however each operation rounds |
| `Money.OrderTotalIsStored` | src/order/order.service.ts:457-466 | the whole-cent total of an order's items is what the floating-point reduction stores |
| `Money.TotalIsExactCents` | src/order/order.service.ts:457-459 | the two ways of adding up an order in cents agree |
| `Money.TotalWithin` | src/order/order.service.ts:457-459 | the floating-point sum of n products is within n + 2 rounding errors of the true total |

## Left out

- Prisma, PostgreSQL, ioredis and amqplib internals: maps, multisets and success flags stand for them.
- DatabaseManagerService and PrismaService: the connection map and the memoised client getter would only add easy members; a tenant's database is identified by its lower-cased code.
- Authentication, guards, roles, logging, response wrapping, bootstrap, connection retry and the informational statement count.
- URL extraction and masking: they depend on the platform's `URL` class.
- The users-table skip test is an arbitrary predicate, so results hold for every such test.
- Strings are sequences of Unicode scalar values, not UTF-16 units (except in the checksum, which takes code units); lower-casing covers A to Z; directory names sort by scalar value.
- An unset `DATABASE_PREFIX` (the two services default differently) and the tenant code `_default_`.
- Email and user-name uniqueness, role changes and password handling in the user service; user updates cannot change the readiness flag or tenant code.
- The interleaved order model performs the two operations of `enqueueOrderCompleted` as one step: its checks stay true once they hold. A published message may be delivered any number of times, which includes what the broker does.
- Handlers of one database never overlap, and a database that a handler is creating may be in any state until the handler ends. At most one operation on the tenant connection fails per handler run, besides the rollback UPDATE and DROP.
- `checkoutOrder` is reached by no route; it appears in the serialised model only.
- Cache fills and evictions count as done when the request ends, though the interceptor does not wait for them: the cache results are about sequential runs.
- The rate limiter's decision inside a cached route is a flag; its counters are the subject of `RateLimiter`.
- Object keys that look like array indices are listed first by JavaScript; the model keeps insertion order in cache keys. The cached value is what the handler returned, without its JSON form.
- ResponseCache.UserEvictionIsByPrefix: speaks of names and user ids without KEYS pattern characters, as UUIDs and identifiers are; with such characters the eviction is by pattern, as `Matches` says.
- OrderListCache.HitsAreTheUsersOwn: speaks of queries that leave the reserved argument name alone and of user ids that do not open with a brace, as UUIDs never do.
- ProductCache.AnswersAreRecent: needs colon-free tenant codes and query names apart from the path's; `ReusedNameServesAnotherProduct` shows why.
- Broker.Channel.Consume: one delivery at a time; interleaved deliveries are the events of `Broker.Channel.Replay`.
- OrderService.Backend.RecalculateOrderTotal: sums whole cents; `Money.OrderTotalIsStored` relates that to the floating-point sum.
