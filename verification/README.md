# Meatyns backend: a verified model of its order, catalogue and money logic

This project models the controllers, jobs and scripts of a grocery marketplace backend (Express and MongoDB) in
Dafny and proves what they keep true. MongoDB collections are maps or sequences held in the fields of a class; each
handler is a method proved against a function, and the properties are lemmas about those functions, up to whole runs.
Money is integer paise, except in `ReturnRefund`, where it is 1/1000 paise so that rounding can be seen; quantities are
integer thousandths. Clocks, generated ids, signature checks and the approval settings come in as parameters.

| module | what it models |
|---|---|
| `Text`, `Picks`, `Slugify`, `ProductNames`, `OwnNames`, `ProductCatalog`, `NamingRules` | slugs and SKUs: the search against the collection, the batch allocator with its prefetch, the unique indexes |
| `CategoryForest`, `CategoryStore` | the category tree, its type check, and the three deletions |
| `DottedPaths`, `SettingsMerge`, `SettingsUpdate`, `SettingsHandler` | nested settings, the flat `$set` made from them, its meaning, and what is read back |
| `OrderTimeout`, `TimeoutProtocol` | payment expiry: one job, and any number of replicas with other writers |
| `RateLimiter` | the fixed-window limiter on its in-memory store |
| `CodCash`, `ReturnRefund`, `StockLedger`, `Withdrawals` | cash submission, the rows of a return and the race for its commission, stock and its history, balances |
| `PaymentStatus`, `PaymentAttempts` | the transition table, and the create and verify handlers |
| `Moderation`, `Cart`, `LedgerBackfill` | product approval, cart lines, the restartable ledger script |

Where the code does not do what its design or comments promise, the model follows the code, a lemma gives an input, and
another says exactly when the promise holds:

- Two rows of a bulk upload whose names have no slug character: the first gets the empty slug, which the schema refuses,
  the second `-1`; created one by one both are refused (`ProductNames.EmptyTwiceDisagrees`, `SlugBatchAgreesIff`).
- Own SKUs in bulk are not those of row-by-row creation. A batch counts the SKUs of variants and of refused rows as used,
  and a row without variants gets one; `generateUniqueSku` looks at products' own SKUs alone. Two rows with nothing but
  the same name already differ (`ProductCatalog.TwinRowsDisagree`). `ProductCatalog.BulkSkusPushedIff` is the exact
  condition at the loop, `ProductCatalog.BulkSkusAgreeIff` the one on the rows and the stored SKUs. Besides, a batch ignores
  case (`ProductNames.MixedCaseDisagrees`), and makes a SKU sent without a hyphen from the product's name
  (`ProductCatalog.SkuBaseAgreesIff`).
- `validateParentForType` looks at types only, so an update can close a cycle (`CategoryStore.TypeCheckAllowsCycle`), on
  which the recursive handlers would not end (`CategoryForest.RecursionEndsIff`); they are modelled for roots that are on
  no cycle, and `CategoryForest.ReparentAcyclicIff` says which updates make one. A header's parent is not checked at all, and a
  category that has children can be made a subcategory; deleting all subcategories then orphans what is below them
  (`CategoryStore.HeaderUnderSubcategory`, `CategoryStore.RetypedParent`). It orphans nothing exactly when all children of
  subcategories are deleted as well (`CategoryStore.OrphansNothingIff`).
- The customer's refund row is rounded to paise and the seller's is not (`ReturnRefund.ZeroSumIff`). The pickup
  commission is paid by a background job: wallet, row, flag. The refund can write a second row for it
  (`ReturnRefund.RacePaysTwice`; exactly when: `ReturnRefund.RaceSettles`), and a row that is refused after its credit is
  made up for by a second credit (`ReturnRefund.OrderlyCreditsTwice`; exactly when: `ReturnRefund.RiderPaidOnceIff`).
- A refund call credits the customer before its row is written. Two QC handlers at once credit twice
  (`ReturnRefund.TwoHandlersCreditTwice`; exactly when: `ReturnRefund.CustomerPaidOnceIff`), and so does a call in turn that
  meets its own row (`ReturnRefund.RetryHarmlessIff`).
- An exception in the middle of a cash submission leaves orders remitted without a settlement row
  (`CodCash.RemittedWithoutRecord`; exactly when: `CodCash.RecordedIff`).
- `adjustStock` accepts types that the stock history refuses, after the product has been saved
  (`StockLedger.AdjustExplainedIff`).
- A withdrawal that has failed can be marked settled later, and a settled credit failed, whatever the balance
  (`Withdrawals.StatusChangeSafeIff`).
- An in-memory count starts anew when a request reads the clock after the entry of its key has expired
  (`RateLimiter.LateReadForgets`); `RateLimiter.AllCountedIff` says exactly when counts are right.
- A second open payment attempt is created beside one of another gateway (`PaymentAttempts.SecondOpenAttempt`,
  `PaymentAttempts.CreateKeepsOneOpenIff`).
- The backfill keeps the sign of refunds, and of other types only when it is the usual one
  (`LedgerBackfill.CollectionTurnsNegative`, `LedgerBackfill.SignKeptIff`).

`dafny verify dfyconfig.toml` checks the project.

## Model

| member | source | states |
|---|---|---|
| Slugify.SlugifyIsSlug | backend/app/utils/slugify.js:1-10 | every slug consists of a-z, 0-9, _ and single hyphens, whatever the text |
| Slugify.SlugifyIdempotent | backend/app/utils/slugify.js:1-10 | a slug sent again is its own base; lower-casing and trimming by the schema leave it alone |
| Slugify.SlugOfWords | backend/app/utils/slugify.js:1-10 | the slug of words parted by any white space is the words in lower case, cleaned of other characters, joined by single hyphens |
| Slugify.SlugForgets | backend/app/utils/slugify.js:8 | inside a text, a character that has no place in a slug makes no difference, alone between blanks or in a word |
| Slugify.SlugOfFreshMilk | backend/app/utils/slugify.js:1-10 | "Fresh Milk" gives "fresh-milk" |
| NamingRules.CandidateReads | backend/app/controller/productController.js:777-778 | the n-th name is the base, a hyphen and n without leading zeros; the base itself for 0 |
| NamingRules.OthersLeaveNoTrace | backend/app/controller/productController.js:75-81 | characters other than letters and digits make no difference to the prefix of a made SKU |
| NamingRules.PrefixOfLetters | backend/app/controller/productController.js:75-81 | of letters and digits the prefix is the first five in lower case, or "item" |
| NamingRules.MadeSkuReads | backend/app/controller/productController.js:75-81 | after prefix and hyphen the index stands in three digits, more only from 1000 on |
| NamingRules.NamedAfter | backend/app/controller/productController.js:1797-1803 | which text a row's slug and own SKU start from |
| NamingRules.VariantNamedAfter | backend/app/controller/productController.js:1807-1809 | which text each variant's SKU starts from, and with which number |
| NamingRules.SingleNamedAfter | backend/app/controller/productController.js:924-970 | the same for a single creation, where a SKU without a hyphen is made from itself |
| NamingRules.SlugFromName | backend/app/controller/productController.js:1797-1799 | a row without a slug starts from its name's words joined by hyphens |
| ProductNames.CandidateInjective | backend/app/controller/productController.js:763-780 | base, base-1, base-2, … are all different |
| ProductNames.TriedGrows | backend/app/controller/productController.js:1836-1838 | each taken candidate uses up one more taken name, so every search loop ends |
| ProductNames.AllocateFresh | backend/app/controller/productController.js:1831-1863 | all names of a batch differ from each other and from every used name, case ignored |
| ProductNames.NumberedNamesMatch | backend/app/controller/productController.js:1818-1826 | a stored name that equals a candidate, case ignored, is matched by the prefetch pattern |
| ProductNames.PrefilterLosesNothing | backend/app/controller/productController.js:1820-1829 | the prefetched names lead to the same allocation as the whole collection |
| ProductNames.MixedCaseDisagrees | backend/app/controller/productController.js:1843-1850 | a SKU stored in other case is numbered by the batch and not by the single search |
| ProductNames.SlugBatchAgreesIff | backend/app/controller/productController.js:1831-1841 | for lower-case slugs the two agree iff at most one base is empty |
| ProductCatalog.FindFreeInBatch | backend/app/controller/productController.js:1834-1839 | the search loop returns the least free candidate, case ignored |
| ProductCatalog.AllocateRow | backend/app/controller/productController.js:1831-1863 | one row: slug, then own SKU, then the SKUs of its variants, each added to its used set |
| ProductCatalog.AllocateBatch | backend/app/controller/productController.js:1791-1863 | the whole batch from prefetch on equals the allocation against all stored names |
| ProductCatalog.BatchInsertable | backend/app/controller/productController.js:1865-1869 | no unique index refuses and no schema setter changes an allocated name |
| ProductCatalog.InsertManyKeepsBatch | backend/app/controller/productController.js:1865-1876 | unordered insertion of a batch stores every row but those with an empty slug |
| ProductCatalog.WithRowsHas | backend/app/controller/productController.js:1865-1876 | old documents stay, and each row with a slug is stored under its id |
| ProductCatalog.AtMostOneRefused | backend/app/controller/productController.js:1831-1841 | no two rows of a batch have an empty slug |
| ProductCatalog.BulkSlugsAgreeIff | backend/app/controller/productController.js:1831-1841 | bulk creation gives the slugs of row-by-row creation iff at most one row has an empty base |
| ProductNames.EmptyTwiceDisagrees | backend/app/controller/productController.js:1831-1841 | two empty bases are an input on which they disagree |
| OwnNames.AgreesIff | backend/app/controller/productController.js:1843-1863 | a batch gives the own names of the single search iff its loop never finds used what the single search finds |
| OwnNames.SharedBaseDisagrees | backend/app/controller/productController.js:1852-1863 | an own name is always pushed by an earlier name of its base that the single search does not see, whatever is stored |
| OwnNames.ApartAgrees | backend/app/controller/productController.js:1831-1863 | where no earlier name and no stored one can push them, the own names agree |
| OwnNames.CommonCandidate | backend/app/controller/productController.js:787-799 | two bases share a candidate only if they are equal or one is numbered from the other |
| ProductCatalog.SkuBaseAgreesIff | backend/app/controller/productController.js:1802-1803 | batch and single creation start from the same SKU iff the one sent has a hyphen or begins like the name |
| ProductCatalog.BulkSkusPushedIff | backend/app/controller/productController.js:1843-1863 | rows that start from the same bases get in bulk the own SKUs of row-by-row creation iff no name handed out before pushes one |
| ProductCatalog.BulkSkusAgreeIff | backend/app/controller/productController.js:1843-1863 | for bases not numbered from each other: they do iff they start from the same bases and share none with an earlier variant, refused row, or row in other case |
| ProductCatalog.TwinRowsDisagree | backend/app/controller/productController.js:1852-1863 | two equal rows with only a name: the second product is numbered 2 in bulk and 1 row by row |
| ProductCatalog.ProductCollection.GenerateUniqueSlug | backend/app/controller/productController.js:763-780 | returns the least numbered slug that no other product has |
| ProductCatalog.ProductCollection.GenerateUniqueSku | backend/app/controller/productController.js:782-800 | returns the least numbered SKU that no other product has |
| ProductCatalog.ProductCollection.Insert | backend/app/models/product.js:10-21 | an insert is refused iff the slug is empty or the slug or SKU is taken |
| ProductCatalog.ProductCollection.InsertBatch | backend/app/controller/productController.js:1865-1876 | a refused document does not stop the others |
| ProductCatalog.ProductCollection.CreateProduct | backend/app/controller/productController.js:887-974 | a created product has the least free slug and the least free SKU, and both stay unique |
| ProductCatalog.ProductCollection.CreateEach | backend/app/controller/productController.js:887-999 | rows created in turn get the one-by-one slugs, and those that get created the one-by-one SKUs, variants left out |
| ProductCatalog.ProductCollection.BulkCreate | backend/app/controller/productController.js:1791-1876 | the allocated names are stored, rows with an empty slug excepted; uniqueness is kept |
| ProductCatalog.ProductCollection.ChangeSlug | backend/app/controller/productController.js:1092-1099 | the product gets the least numbered slug that no other product has, and nothing else changes |
| CategoryForest.SiblingsDisjoint | backend/app/controller/categoryController.js:656-664 | subtrees of two children of a category share nothing |
| CategoryForest.SubtreeAfterRemoval | backend/app/controller/categoryController.js:686-692 | a query on the shrunk collection sees what is left of the original subtree |
| CategoryForest.RecursionEndsIff | backend/app/controller/categoryController.js:656-664 | the recursion through children comes back to a category iff that is on a cycle |
| CategoryForest.ReparentAcyclicIff | backend/app/controller/categoryController.js:429-447 | a new parent keeps the forest acyclic iff it is not in the moved subtree |
| CategoryStore.TypeCheckAllowsCycle | backend/app/controller/categoryController.js:35-51 | the type check accepts a move that closes a cycle |
| CategoryStore.RootsAsSet | backend/app/controller/categoryController.js:527-530 | order, repetition and nesting of the ids do not matter |
| CategoryStore.RemovedIff | backend/app/controller/categoryController.js:558-631 | for each filter, by types and parents alone, which stored categories are removed |
| CategoryStore.LookedUpIff | backend/app/controller/categoryController.js:558-583 | for each filter, by types and parents alone, where the search for linked products starts |
| CategoryStore.RemovedUnderParent | backend/app/controller/categoryController.js:564-576 | a parent narrows the removal to its own subtree, and to its own children for subcategories |
| CategoryStore.OtherBranchKept | backend/app/controller/categoryController.js:564-570 | deleting the categories of one parent touches nothing in another, separate branch |
| CategoryStore.CountIs | backend/app/controller/categoryController.js:594-601 | the count is the number of products with one of the ids as header, category or subcategory |
| CategoryStore.NoneLinked | backend/app/controller/categoryController.js:670-676 | the product count is zero iff no product refers to any of the ids |
| CategoryStore.ShortcutAgreesIff | backend/app/controller/categoryController.js:619-626 | deleting matching categories alone equals recursive deletion iff all their children match |
| CategoryStore.LeafShortcutExact | backend/app/controller/categoryController.js:621-626 | where no category sits under a subcategory the shortcut is exact |
| CategoryStore.OrphansNothingIff | backend/app/controller/categoryController.js:619-626 | taking categories away orphans nothing iff all their children are taken away as well |
| CategoryStore.HeaderUnderSubcategory | backend/app/controller/categoryController.js:35-51 | a header under a subcategory passes the type check and loses its parent to the shortcut |
| CategoryStore.RetypedParent | backend/app/controller/categoryController.js:429-447 | a category with children can be made a subcategory; the shortcut then orphans its children |
| CategoryStore.Store.CollectDescendantIds | backend/app/controller/categoryController.js:656-664 | lists the root and its subtree, each id once |
| CategoryStore.Store.DeleteWithChildren | backend/app/controller/categoryController.js:686-692 | removes exactly the subtree; in no intermediate state has a category lost its parent |
| CategoryStore.Store.CountLinked | backend/app/controller/categoryController.js:670-676 | counts the products that refer to one of the ids |
| CategoryStore.Store.DeleteCategory | backend/app/controller/categoryController.js:646-709 | refused with the number of linked products, or the subtree is gone and every product reference still resolves |
| CategoryStore.Store.DeleteBulk | backend/app/controller/categoryController.js:473-540 | the forest minus the union of the subtrees, or refused; references and parents kept |
| CategoryStore.Store.DeleteAll | backend/app/controller/categoryController.js:545-641 | for each filter, what is refused and exactly what is removed; product references kept; recursive deletion orphans nothing in any state, deleting subcategories orphans nothing iff all their children match |
| CategoryStore.Store.CreateCategory | backend/app/controller/categoryController.js:332-361 | a new category passes the type check and closes no cycle |
| CategoryStore.Store.UpdateCategory | backend/app/controller/categoryController.js:419-447 | an update takes effect iff the type check passes, and closes a cycle iff the new parent is in the subtree |
| DottedPaths.SplitJoin | backend/app/controller/settingsController.js:81-83 | a path of dot-free keys is recovered from its dotted form |
| SettingsMerge.FlattenForMongoSet | backend/app/controller/settingsController.js:61-84 | writes one entry per leaf into the target, in order, and nothing else |
| SettingsMerge.LeavesAre | backend/app/controller/settingsController.js:61-84 | the leaves are exactly the values found at a path of the payload, but for undefined and objects with keys |
| SettingsMerge.LeavesPrefixFree | backend/app/controller/settingsController.js:61-84 | paths of different leaves differ and none is a prefix of another |
| SettingsMerge.EmittedFieldsAreLeaves | backend/app/controller/settingsController.js:61-84 | what is emitted are exactly the leaves, undefined skipped, each under its joined path |
| SettingsMerge.DottedKeysCollide | backend/app/controller/settingsController.js:81-83 | a key that contains a dot can collide with a nested key |
| SettingsUpdate.SetKeyByKey | backend/app/controller/settingsController.js:239-243 | a $set acts on each field as that field's own entries do |
| SettingsUpdate.SettingLeavesMerges | backend/app/controller/settingsController.js:227-243 | setting the leaves in any order is the deep merge, or fails iff a leaf of the document stands in the way |
| SettingsHandler.LeafReadsBack | backend/app/controller/settingsController.js:239-243 | every leaf of the payload is read back from the merged document with the value that was sent |
| SettingsHandler.RestReadsAsBefore | backend/app/controller/settingsController.js:239-243 | every path that neither leads to nor through a leaf of the payload is read as before |
| SettingsHandler.CompatibleIff | backend/app/controller/settingsController.js:239-243 | the merge is defined iff no stored leaf stands on the way to a leaf of the payload |
| SettingsHandler.FlatSetIsLeaves | backend/app/controller/settingsController.js:227-231 | the flat $set holds exactly the leaves and has no clashing paths |
| SettingsHandler.SettingsStore.FindOneAndUpdate | backend/app/controller/settingsController.js:239-243 | all entries are applied, in whatever order, or none is |
| SettingsHandler.SettingsStore.UpdateSettings | backend/app/controller/settingsController.js:227-243 | unchanged iff the payload has no leaf, failed iff a stored leaf is in the way of one; after an update each leaf reads back as sent and everything apart from them as before |
| OrderTimeout.OrderCollection.TimeOutIfUnpaid | backend/app/jobs/orderAutoCancelJob.js:111-127 | goes through iff the order is there, Created and not Paid; then it is Cancelled and nothing else about it changes |
| OrderTimeout.OrderCollection.CancelExpired | backend/app/jobs/orderAutoCancelJob.js:98-146 | alone, the job cancels and releases exactly the orders that are Created, online, not Paid, unreleased and past their time, leaves every other one, and conserves stock |
| OrderTimeout.HeldUpdate | backend/app/services/stockService.js:176-235 | what one order's change does to the stock that all orders hold of each product |
| TimeoutProtocol.StepKeepsInv | backend/app/jobs/orderAutoCancelJob.js:98-146 | every step of every replica, and every write of others, keeps the protocol's invariant |
| TimeoutProtocol.StepKeepsStock | backend/app/jobs/orderAutoCancelJob.js:128-129 | every step conserves stock in hand plus stock held, of each product |
| TimeoutProtocol.RunKeepsInv | backend/app/jobs/orderAutoCancelJob.js:98-146 | invariant and stock conservation over all runs |
| TimeoutProtocol.AtMostOnce | backend/app/jobs/orderAutoCancelJob.js:109-138 | in every run an order is timed out at most once, compensated at most once, and only by the replica that timed it out |
| TimeoutProtocol.OwnWinComesFirst | backend/app/jobs/orderAutoCancelJob.js:128-138 | before a replica compensates or gives up on an order it has timed that order out itself |
| TimeoutProtocol.OnlyUnpaidTimedOut | backend/app/jobs/orderAutoCancelJob.js:111-127 | in every run each order that was timed out was Created and not Paid at that moment |
| TimeoutProtocol.UpdateDecides | backend/app/jobs/orderAutoCancelJob.js:111-127 | an update cancels the order of its row iff that is Created and not Paid by then, whatever the scan saw |
| TimeoutProtocol.PaidIsSafe | backend/app/jobs/orderAutoCancelJob.js:111-116 | no step taken while an order is paid, or no longer Created, times it out |
| TimeoutProtocol.StaysSafe | backend/app/jobs/orderAutoCancelJob.js:98-146 | from the time an order is paid, and while it stays so, no replica times it out |
| TimeoutProtocol.NothingForgotten | backend/app/jobs/orderAutoCancelJob.js:128-145 | a timed-out order is released, given up on after an error, or still in its winner's hands |
| RateLimiter.KeyTextInjective | backend/app/middleware/rateLimiter.js:70-72 | different client and bucket give different key texts, colons in the client notwithstanding |
| RateLimiter.SafeWindow | backend/app/middleware/rateLimiter.js:64 | the window as configured, 60 s where it is missing, and never under 1 s |
| RateLimiter.SafeMax | backend/app/middleware/rateLimiter.js:65 | the maximum as configured, 60 where it is missing, and never under 1 |
| RateLimiter.LocalStore.Cleanup | backend/app/middleware/rateLimiter.js:10-17 | exactly the expired entries are removed |
| RateLimiter.LocalStore.IncrementCount | backend/app/middleware/rateLimiter.js:31-55 | the store is swept, and the key's entry counted up or started anew |
| RateLimiter.LocalStore.Handle | backend/app/middleware/rateLimiter.js:64-95 | a request is let through iff its count is at most the maximum |
| RateLimiter.SingleReadInOwnBucket | backend/app/middleware/rateLimiter.js:71-73 | one clock read per request always falls in its own bucket |
| RateLimiter.CountedIff | backend/app/middleware/rateLimiter.js:45-54 | after a run that came in time, the next request sees the number of its key iff it comes before the first request's entry expires |
| RateLimiter.AllCountedIff | backend/app/middleware/rateLimiter.js:45-54 | in a run every request sees the number of its key iff every request comes in time, sweeps and other limiters notwithstanding |
| RateLimiter.OwnBucketInTime | backend/app/middleware/rateLimiter.js:64-79 | requests that end their clock reads within their bucket come in time, since the entry lives for the window rounded up |
| RateLimiter.AdmittedExactly | backend/app/middleware/rateLimiter.js:79-90 | a bucket admits the first `max` requests of a client and no more |
| RateLimiter.AtMostTwicePerWindow | backend/app/middleware/rateLimiter.js:64-90 | any interval of one window length admits at most twice the maximum |
| RateLimiter.TwiceIsReached | backend/app/middleware/rateLimiter.js:64-90 | that bound is reached |
| RateLimiter.LateReadForgets | backend/app/middleware/rateLimiter.js:45-51 | a request whose last clock read falls after its bucket can start the count anew |
| CodCash.OldestFirst | backend/app/controller/deliveryController.js:134-158 | an order gets something only when all older ones are settled in full |
| CodCash.TotalAvailableConcat | backend/app/controller/deliveryController.js:78-103 | what is available is the sum of what is pending of orders in cash, not cancelled and marked as collected |
| CodCash.AnswerIs | backend/app/controller/deliveryController.js:90-128 | the amount asked for is the one submitted, everything when none is named, and each refusal has its condition |
| CodCash.NotReadyUntouched | backend/app/controller/deliveryController.js:78-86 | orders that have no cash ready stay as they are |
| CodCash.SharesAddUp | backend/app/controller/deliveryController.js:134-158 | the shares add up to the amount, as far as there is cash |
| CodCash.SettleEach | backend/app/controller/deliveryController.js:134-158 | each order moves its share from pending to remitted, goes below zero in neither, and keeps the rest as it was |
| CodCash.SettleWhole | backend/app/controller/deliveryController.js:134-158 | a submission that gets to its end moves exactly its amount from pending to remitted |
| CodCash.OutcomeMoves | backend/app/controller/deliveryController.js:134-179 | a submission moves what it has remitted, also when a reconciliation throws, and all of its amount if it is recorded |
| CodCash.RecordedIff | backend/app/controller/deliveryController.js:134-179 | pending cash and settlement rows add up as before iff the submission is recorded or has remitted nothing |
| CodCash.RemittedWithoutRecord | backend/app/controller/deliveryController.js:139-149 | an exception at the second order leaves the first remitted without a row |
| CodCash.SubmitAll | backend/app/controller/deliveryController.js:67-179 | over any run recorded, unrecorded and pending cash are constant; recorded plus pending is iff nothing is lost |
| CodCash.Rider.ReconcileCodCash | backend/app/services/finance/orderFinanceService.js:629-732 | refused iff not positive or more than the order owes; otherwise order, cash in hand and admin balance move by the amount |
| CodCash.Rider.SettleOldestFirst | backend/app/controller/deliveryController.js:130-158 | the loop stops at the first order that throws, with each one before it at its share |
| CodCash.Rider.Submit | backend/app/controller/deliveryController.js:67-179 | every answer with its condition, and orders, balances and settlement row after it, also after an exception |
| ReturnRefund.ReturnDesk.VerifyPickup | backend/app/controller/orderWorkflowController.js:357-360 | the order is in transit, and the background job has it as it is now |
| ReturnRefund.ReturnDesk.PayPickupCommission | backend/app/controller/orderWorkflowController.js:370-390 | the rider is credited, then the row is written or refused, unless the order as loaded says that it was paid |
| ReturnRefund.ReturnDesk.MarkPickupPaid | backend/app/controller/orderWorkflowController.js:392-395 | the flag is set, and nothing else |
| ReturnRefund.ReturnDesk.CompleteReturnAndRefund | backend/app/controller/orderController.js:998-1134 | customer, seller and rider in turn, each wallet before its row; a held payout is cancelled instead of a debit; a refused or failed write ends the call before the order is completed |
| ReturnRefund.RefundOutcome | backend/app/controller/orderController.js:998-1134 | status, rows and customer credit of a call as a whole, whatever is refused |
| ReturnRefund.RefundAmountIs | backend/app/controller/orderController.js:1007-1015 | the amount laid down for the return, or else price times quantity over all its items |
| ReturnRefund.RefundParties | backend/app/controller/orderController.js:1022-1128 | what a call moves on each wallet and does to a held payout, by how far it gets |
| ReturnRefund.RowsWritten | backend/app/controller/orderController.js:1022-1128 | a completed call writes exactly one row for each party concerned, with its amount, and changes none |
| ReturnRefund.PickupMoves | backend/app/controller/orderWorkflowController.js:370-390 | what the background job of a pickup does to wallet and rows |
| ReturnRefund.RefundTotal | backend/app/controller/orderController.js:1007-1128 | whichever parties exist, and whether or not the flag followed the pickup's row: what the rows add up to and how much commission was paid |
| ReturnRefund.ZeroSumIff | backend/app/controller/orderController.js:1026-1128 | the rows cancel out iff the refund is whole paise and QC's order says paid just when the pickup has its row; for fractional commissions, iff rounding makes up the difference |
| ReturnRefund.WalletsFollowRows | backend/app/controller/orderController.js:1022-1128 | without failures and held payouts each wallet moves by its row |
| ReturnRefund.CallsCredit | backend/app/controller/orderController.js:1022-1036 | n calls in turn credit the customer once if the first completes, and n times if its row is refused |
| ReturnRefund.RetryHarmlessIff | backend/app/controller/orderController.js:1022-1036 | calling again on the stored order leaves the customer's wallet alone iff the first call completed or there is nothing to credit |
| ReturnRefund.RunKeepsInv | backend/app/controller/orderWorkflowController.js:357-397 | over all interleavings of pickups, their jobs, QC handlers and failures, rows have the right amounts and a flag has a row behind it |
| ReturnRefund.RaceSettles | backend/app/controller/orderController.js:1101-1128 | in every such run that completed a refund there is one commission row, and a second iff the pickup has its row and the completing call had not seen the flag; rows sum to zero iff that is not so and the refund is whole |
| ReturnRefund.RacePaysTwice | backend/app/controller/orderWorkflowController.js:370-397 | a run without any failure that writes both commission rows |
| ReturnRefund.RiderWallet | backend/app/controller/orderWorkflowController.js:374-390 | over every run the rider's wallet rises by one commission for each credit, refused rows or not |
| ReturnRefund.RiderPaidOnceIff | backend/app/controller/orderWorkflowController.js:374-390 | it rises by one commission iff credits without a row, and a second row, are made up for by rows without a credit |
| ReturnRefund.OrderlyPaysOnce | backend/app/controller/orderController.js:1101-1128 | when QC loads the order after the pickup jobs have ended and the flag follows the row, there is exactly one commission row; the wallet agrees iff refused rows and missing credits balance |
| ReturnRefund.OrderlyCreditsTwice | backend/app/controller/orderWorkflowController.js:374-390 | such a run in which the pickup's row fails and the rider is credited twice |
| ReturnRefund.CustomerWallet | backend/app/controller/orderController.js:1022-1036 | over every run the customer's wallet rises by the refund for every call that QC has passed on |
| ReturnRefund.CustomerPaidOnceIff | backend/app/controller/orderController.js:1022-1036 | the customer is paid once iff one call was passed on, and as the row says iff that call alone wrote it |
| ReturnRefund.TwoHandlersCreditTwice | backend/app/controller/orderController.js:655-677 | two QC handlers that load the order before either saves it credit the customer twice |
| ReturnRefund.RoundingLeavesADifference | backend/app/controller/orderController.js:1026-1096 | the customer's row is rounded to paise, the seller's is not |
| StockLedger.Inventory.AdjustStock | backend/app/controller/stockController.js:14-64 | product, variants and history after each kind of adjustment, and every refusal |
| StockLedger.AdjustIs | backend/app/controller/stockController.js:14-64 | each answer with its condition; stock, variants and row after it by type and quantity; other products untouched |
| StockLedger.PutBackRest | backend/app/controller/orderController.js:490-505 | putting back lines changes neither sellers nor variants and appends one row for each line |
| StockLedger.Inventory.CancelOrder | backend/app/controller/orderController.js:489-505 | all lines are put back once, with a row each |
| StockLedger.CancelAddsLines | backend/app/controller/orderController.js:490-505 | a cancellation raises each product by the sum over all its lines; a second one does nothing |
| StockLedger.AdjustExplainedIff | backend/app/controller/stockController.js:45-64 | stock and history stay together iff the type is one the history lists, or nothing changes |
| StockLedger.SetIsNotRecorded | backend/app/controller/stockController.js:30-64 | the accepted type "Set" changes stock without a history row |
| StockLedger.RunLedger | backend/app/controller/stockController.js:24-64 | over any run: stock = first stock + history + what was changed under unlisted types, and never negative |
| StockLedger.ListedRunsSilentNever | backend/app/controller/stockController.js:24-64 | with listed types the history explains every change |
| Withdrawals.Account.RequestWithdrawal | backend/app/controller/sellerController.js:73-120 | refused iff not positive or beyond the balance; otherwise the balance falls by the amount and stays non-negative |
| Withdrawals.RequestIs | backend/app/controller/sellerController.js:73-120 | each answer with its condition and the row it appends |
| Withdrawals.AvailableIs | backend/app/controller/sellerController.js:82-102 | the balance is settled amounts less withdrawals that are pending or processing |
| Withdrawals.StatusChange | backend/app/services/admin/walletAdminService.js:139-156 | settling a withdrawal leaves the balance, failing it gives back exactly the amount, reviving it takes it again; other transactions count while settled |
| Withdrawals.StatusChangeSafeIff | backend/app/services/admin/walletAdminService.js:139-156 | a status change of any transaction leaves a non-negative balance iff the balance covers what it takes out |
| Withdrawals.RevivedWithdrawalOverdraws | backend/app/services/admin/walletAdminService.js:139-156 | a failed withdrawal that is settled later can overdraw the balance |
| Withdrawals.FailedCreditOverdraws | backend/app/services/admin/walletAdminService.js:139-156 | so can a settled credit that is failed |
| Withdrawals.RunSolventIff | backend/app/controller/deliveryController.js:301-326 | over any run of credits, requests and status changes the balance never goes negative iff each change is covered |
| PaymentStatus.AtMostFourChanges | backend/app/constants/payment.js:26-55 | at most four effective changes, linked from Created to the current status |
| PaymentStatus.ReachedFrom | backend/app/constants/payment.js:26-55 | from which statuses each status is reached |
| PaymentStatus.WhatFollows | backend/app/constants/payment.js:26-55 | captured stays captured or is refunded; failed, cancelled and refunded are final |
| PaymentStatus.FailedIsNeverCaptured | backend/app/constants/payment.js:26-55 | an attempt that failed at some point is never captured later |
| PaymentAttempts.PaymentDesk.CreateRazorpayOrder | backend/app/controller/paymentController.js:125-205 | re-uses the open Razorpay attempt, fails with the gateway, or appends an attempt with the next number |
| PaymentAttempts.PaymentDesk.TransitionPayment | backend/app/services/paymentService.js:222-275 | moves by the table and records the change, or refuses |
| PaymentAttempts.PaymentDesk.VerifyRazorpayPayment | backend/app/controller/paymentController.js:232-289 | as the function of which VerifyMeans and VerifyUnknown tell every answer and the payments after it |
| PaymentAttempts.CreateMeans | backend/app/controller/paymentController.js:125-205 | which attempt is used again, and the fields and number of one that is stored |
| PaymentAttempts.VerifyMeans | backend/app/controller/paymentController.js:243-289 | each answer iff its condition on payment, user and signature; captured by a right signature, failed by a wrong one, untouched otherwise |
| PaymentAttempts.VerifyUnknown | backend/app/controller/paymentController.js:239-242 | not found iff no payment has the gateway order, and then nothing changes |
| PaymentAttempts.CapturedOnlyIf | backend/app/controller/paymentController.js:260-289 | in every run a captured payment was verified by its customer with a right signature, or reported captured by the gateway |
| PaymentAttempts.CapturedWasSigned | backend/app/controller/paymentController.js:260-289 | without reports of the gateway, only by a signed verification of its customer |
| PaymentAttempts.SecondOpenAttempt | backend/app/controller/paymentController.js:141-205 | a Razorpay attempt opened beside a pending PhonePe one |
| PaymentAttempts.CreateKeepsOneOpenIff | backend/app/controller/paymentController.js:141-205 | a second open attempt arises iff the latest open one is of another gateway |
| PaymentAttempts.RunKeepsInv | backend/app/controller/paymentController.js:137-289 | over all runs: one open attempt per scope, numbers 1 to n in order, linked histories of at most four changes |
| Moderation.StripRestricted | backend/app/controller/productController.js:245-260 | exactly the six moderation fields are taken out of a payload |
| Moderation.MarksAre | backend/app/controller/productController.js:272-303 | the marks of a write by its author: pending, approved by default, or approved by an admin |
| Moderation.CreatedIs | backend/app/controller/productController.js:806-992 | a new product field by field: marks, seller, and the rest as sent |
| Moderation.EditedIs | backend/app/controller/productController.js:1029-1227 | an edited product field by field: new marks, its old seller, what was sent over what was there |
| Moderation.ReviewedIs | backend/app/controller/productController.js:294-314 | a review leaves verdict, time, author and note, and every other field as it was |
| Moderation.ValidIff | backend/app/controller/productController.js:1659-1757 | which rows of an upload are valid |
| Moderation.RejectedIs | backend/app/controller/productController.js:1659-1757 | invalid rows are reported by index, in order, and no others |
| Moderation.ProductDesk.CreateProduct | backend/app/controller/productController.js:806-992 | refused exactly when seller, name, hierarchy or schema say so; otherwise the payload's content with the marks of its author |
| Moderation.ProductDesk.BulkCreate | backend/app/controller/productController.js:1659-1757 | each invalid row is reported by its index; the others are created unless their insertion is refused |
| Moderation.ProductDesk.UpdateProduct | backend/app/controller/productController.js:1029-1227 | content and marks after an edit; refused to a stranger, or when hierarchy or schema say so |
| Moderation.ProductDesk.ApproveProduct | backend/app/controller/productController.js:1562-1574 | the product becomes approved, its content is left and counts as vetted |
| Moderation.ProductDesk.RejectProduct | backend/app/controller/productController.js:1602-1616 | the product stops being approved, content and what was vetted are left |
| Moderation.PayloadCannotModerate | backend/app/controller/productController.js:245-260 | moderation fields in a payload, and a seller in an edit, have no effect |
| Moderation.SellerEditVettedIff | backend/app/controller/productController.js:1207-1227 | a seller's edit leaves only vetted content approved iff edits need approval or the content is the vetted one |
| Moderation.SellerCreateVettedIff | backend/app/controller/productController.js:976-990 | a seller's new product is not shown unvetted iff creation needs approval |
| Moderation.ApprovedIsVetted | backend/app/controller/productController.js:976-990 | while approval is on, over all runs approved content is what an admin last wrote or approved |
| Cart.CartDocument.AddToCart | backend/app/controller/cartController.js:73-118 | the map gains the quantity at the key iff every check passes |
| Cart.CartDocument.UpdateQuantity | backend/app/controller/cartController.js:130-169 | the map is set, or loses the key, iff every check passes |
| Cart.CartDocument.RemoveFromCart | backend/app/controller/cartController.js:181-203 | the map loses one variant, or all lines of the product when none is named |
| Cart.CartDocument.ClearCart | backend/app/controller/cartController.js:215-224 | the map is empty |
| Cart.CartDocument.ReorderPreviousOrder | backend/app/controller/cartController.js:300-402 | an order not found or without items is refused before a cart is made; otherwise what is added, what is reported, and when it is saved |
| Cart.AddReplyIs | backend/app/controller/cartController.js:73-100 | each refusal of adding iff its condition on product, quantity and what the cart holds |
| Cart.AddSavedIff | backend/app/controller/cartController.js:101-118 | what is not refused is saved iff every line has at least 0.01 |
| Cart.UpdateReplyIs | backend/app/controller/cartController.js:130-169 | each answer to setting a quantity iff its condition on cart and product |
| Cart.OfferIs | backend/app/controller/cartController.js:323-371 | when a past item is unavailable, and how much of it is offered otherwise |
| Cart.ReorderPerProduct | backend/app/controller/cartController.js:323-398 | of each product exactly what is offered for its past items is added, and nothing of others |
| Cart.FilterMap | backend/app/controller/cartController.js:193-201 | filtering lines is restricting the map, and lines stay distinct |
| Cart.AddAnyMaps | backend/app/controller/cartController.js:377-389 | a reorder adds to exactly one key, of that product |
| Cart.ReorderTotal | backend/app/controller/cartController.js:323-398 | lines stay distinct and the total rises by the sum of what was added |
| Cart.ReorderAccounts | backend/app/controller/cartController.js:323-398 | each past item is reported exactly once, as added or unavailable |
| LedgerBackfill.SignKeptIff | backend/scripts/backfill-ledger-from-transactions.js:152-166 | an entry keeps its transaction's signed amount for refunds, and else iff the sign is its type's |
| LedgerBackfill.EntryIs | backend/scripts/backfill-ledger-from-transactions.js:38-175 | where each field of an entry comes from: type, direction, actor, status, amount and ids |
| LedgerBackfill.UnmappedIff | backend/scripts/backfill-ledger-from-transactions.js:127-140 | left out are transactions of unknown type or kind of user |
| LedgerBackfill.UnmappedHas | backend/scripts/backfill-ledger-from-transactions.js:130-139 | the unmapped counted and sampled are exactly those |
| LedgerBackfill.CollectionTurnsNegative | backend/scripts/backfill-ledger-from-transactions.js:152-166 | a positive cash collection becomes a debit |
| LedgerBackfill.LedgerStore.Backfill | backend/scripts/backfill-ledger-from-transactions.js:122-195 | the ledger after any prefix; processed = created + skipped + unmapped; a dry run inserts nothing |
| LedgerBackfill.MigrateAllKeeps | backend/scripts/backfill-ledger-from-transactions.js:142-150 | existing entries are never changed and every mapped transaction has one |
| LedgerBackfill.NothingElse | backend/scripts/backfill-ledger-from-transactions.js:142-182 | a new entry is the own entry of a mapped transaction |
| LedgerBackfill.Restartable | backend/scripts/backfill-ledger-from-transactions.js:122-183 | any number of interrupted runs and a full one equal one uninterrupted run |
| LedgerBackfill.EachGetsItsOwn | backend/scripts/backfill-ledger-from-transactions.js:142-182 | each mapped transaction gets exactly its own entry under its own id |

## Left out

- Express handling, responses, tokens, OTP checks, sockets, notifications, logging, caches, search indexing, Redis and Bull: I/O or foreign code.
- Unicode: lower-casing is that of ASCII letters; the whitespace removed by trim is listed in full. Decimal rendering has no upper bound.
- `createProduct` variant SKUs: each is the least numbered one that is no product's own SKU, searched for on its own as the code does concurrently; two variants may get the same one.
- ProductCatalog.ProductCollection.CreateProduct: refusals for other reasons than names (seller, hierarchy, schema) are in `Moderation`, not here.
- `generateUniqueCategorySlug`: the same loop as for product slugs.
- `updateProduct` naming beyond a slug that is sent: filling in a missing slug or SKU is the same search again.
- Image upload: foreign code. Whether price and stock are numbers is a parameter of a bulk row.
- Categories: names, images, commission fields and their hooks. `deleteMany` is one step here, so no claim is made about states in the middle of it.
- Settings: the whitelist of keys, the value schema and the tenant filter, which together guarantee the dot-free keys assumed here. Arrays are leaves, so a numeric key that would address an array element is an error in the model. An upsert starts from a missing document; schema defaults are not added.
- The other three expiry scans of the auto-cancel job, which delegate to the workflow service, and the legacy one.
- OrderTimeout.HeldUpdate: a product's stock is one number; variants and the history rows of a release are not modelled.
- TimeoutProtocol.StepKeepsStock: writes of others that change stock without changing an order are not part of the runs.
- Compensation beyond stock: the seller's transaction, the checkout group and the wallet reversal. Releasing an order's stock is one step. A crash between its writes is not modelled.
- Other writers in `TimeoutProtocol`: they may do anything except return an order to Created, move the stock of an order this job has timed out, or take more than is in stock.
- `RateLimiter` with Redis; the hash is taken as injective; namespaces are taken as distinct between limiters.
- `ReturnRefund`: the transactional variant of the refund; what cancelling a held payout does elsewhere. Whether wallet services and writes succeed are parameters. One refund call is one step of a run; its amounts and parties do not change during a return.
- Stock in updateOrderStatus: `$inc` on a product with unsaved variants, low-stock alerts.
- `Withdrawals`: two requests of one user at the same moment; debits other than withdrawals, which do not ask for the balance.
- PaymentAttempts.PaymentDesk.VerifyRazorpayPayment: what a captured or failed payment does to its orders is not modelled.
- Payments: eligibility is a parameter, and a scope is one key. That an order is always paid for in the same scope is not part of this model.
- `Moderation`: normalisation of content fields before they are written; a review's note is taken as already sanitised. The category hierarchy and the schema's checks are one parameter of a write.
- Cart: prices, population of product data, and the summary message. Whether a product is visible and open now are parameters.
- `maxOrderQty` across a reorder, and monotonicity of return statuses: the code does not give them.
- Reminders for abandoned carts: a counter with a bound, never reset; only easy properties.
- Dashboards, pagination, roles and permissions.
