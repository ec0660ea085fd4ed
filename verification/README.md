# Verified model of the OK Footwear ERP services

This project models the services of the ERP that hold protocols, ledgers, state machines and codecs, and proves
what they promise over all inputs and all runs. `dafny verify dfyconfig.toml` checks everything.

Each service follows one plan. A `State` value holds the tables the service works on; `Step` is the effect of one
call, with its error replies; `Run` is any sequence of calls. Lemmas prove what every step and every run keeps.
Beside it a class holds the same tables as fields, and its methods, written with the loops and early exits of the
service, are proved to take the old state to exactly the state and reply of the call's transition. What each transition answers and writes is stated once more
in terms of the tables alone, by the lemmas named `…Law` and `…Laws`. Rows are named
by their position in a table. Money, quantities and days are integers at the scale of the database columns; times
are milliseconds. Database constraints come from the migrations under `prisma/migrations`.

| files | part of the system |
|---|---|
| `SlidingWindow` | the rate limiter's pruned, expiring sorted sets against the full request log |
| `Int32`, `BitStrings`, `Base32`, `Base32Numerals`, `Totp` | the base32 codec on an unmasked 32-bit accumulator, one-time passwords (section 6 of RFC 4648, section 5.3 of RFC 4226, section 5.2 of RFC 6238) |
| `ProcurementStates`, `Procurement`, `ProcurementRuns`, `ProcurementLaws`, `ProcurementServices` | purchase orders and goods receipts |
| `Stock`, `StockRuns`, `StockLaws`, `StockServices` | stock ledger, balances, stock counts |
| `Pipeline` | receipt approval events and their handler, from order line to stock |
| `GeneralLedger`, `GeneralLedgerRuns`, `GeneralLedgerLaws`, `TrialBalance`, `GeneralLedgerServices` | journals, periods, trial balance |
| `ChartOfAccounts` | the account tree and its cycle check |
| `PermissionCache`, `PermissionLaws`, `PermissionServices` | roles, permissions and the Redis cache in front of them |
| `Lockout`, `RefreshTokens`, `RefreshTokenLaws` | failed-login lockout, refresh token rotation |
| `JobLock` | the Redis lock around scheduled jobs |
| `Leave`, `Csv`, `Bom` | leave calendar, CSV line splitter, bills of materials and production orders |
| `Results`, `Sums` | replies and optional values, sums over sequences |

Where the code does not meet what it promises, the model keeps the code and says exactly when it does:

- `removeLine` deletes an order line by its own key through any draft order. Conservation, receipts and their
  orders, legal status changes and stock inflow survive every removal (`RunKeepsInv`). That an order in receipt has
  exactly the derived status survives exactly when the line's own order is a draft or cancelled or keeps another line
  that is not fully received (`RemoveLineKeepsFitIff`, `StatusesFitThroughoutIff`), as it always does for an order's
  own line (`OwnLineIsTolerated`); `RemovalThroughAnotherOrder` is a run that loses it.
- Rejecting a pending order writes `draft`, a step the order status table does not list
  (`EveryStatusChangeIsLegal` names it as the only one).
- Approving a stock count posts line by line without a transaction. A failure leaves the ledger alone exactly when
  no line before the failing one has a variance (`FailedApprovalIsCleanIff`), and each variance is posted once
  throughout a run exactly when no approval of it fails otherwise (`ReachablePostedOnceIff`). A retry can post a
  variance twice (`RetriedApprovalPostsTwice`).
- Base amounts are rounded line by line, so a balanced journal can skew the trial balance (`RoundingCanSkew`). A
  one-rate journal does not skew exactly when its rounding errors cancel (`OneRateSkewIsRounding`), and the same
  decides when the nets of a reachable trial balance add up to zero (`NetsAreRounding`).
- Leave: used days equal approved days after a call exactly when the call is not a manager's approval or a rejection
  of an HR-approved request (`UsedStaysApprovedIff`).
- The rate limiter's count falls short of the log when two requests of one millisecond draw the same random suffix,
  and when a request with a smaller ttl pruned, or let expire, what a later and larger window still covers. It is
  right exactly otherwise (`CountIsExactIff`; `GrowingTtlUndercounts` is a history). The limit itself holds for any
  ttls (`StorageNeverOverAdmits`).
- In the first 30 seconds of the epoch no one-time password is accepted (`CodeStaysValid`).
- A job that outlives its lock's lifetime can let two others into the job together (`OverrunBreaksExclusion`).
  Exclusion on a key holds throughout a run exactly when no call begins on it while another is active past its lock's
  lifetime (`MutualExclusion`); the call owns its lock throughout exactly when it is not overtaken (`RunIsSafeIff`).
- One lost cache deletion serves old permissions (`LostDeletionServesStale`); the cache is coherent exactly while no
  call misses a user whose permissions it changes (`CoherentThroughoutIff`).
- The refresh-token blacklist never changes the outcome of a call (`BlacklistNeverDecides`).
- `src/modules/procurement/services/goods-receipts.service.ts` never consults the order status table when it
  approves a receipt; that its writes are legal is `ApprovalWritesLegalStatus`.

## Model

Class methods without a loop or a search of their own have no row. Each is proved equal to its transition and, in its
own contract, to keep what its service promises: `Upholds` of the service (the invariant, lawful status changes,
frozen receipts, counts, periods, requests, BOMs), coherence of the cache, `LockFits` of an account, `Safe` of the
locks, or, for the two calls that need it, the exact condition.

| member | source | states |
|---|---|---|
| SlidingWindow.RedisSlidingWindowStorage.Increment | src/shared/throttler/redis-throttler-storage.service.ts:56-115 | for any ttls: the count is that of the remembered members, never more than the requests of the log in (now - ttl, now], and equal to them exactly when no two drew the same member and none was pruned or let expire since; blocked exactly above the limit; the waiting time lies in [1, ttl] and is the least whole second count after which the oldest remembered member has left; a failed pipeline passes the request uncounted |
| SlidingWindow.StoreIsRemembered | src/shared/throttler/redis-throttler-storage.service.ts:72-86 | after any requests whatever, each sorted set holds exactly the members that some request brought and no request of the key since pruned or let expire, read off the log alone |
| SlidingWindow.CountIsExactIff | src/shared/throttler/redis-throttler-storage.service.ts:72-94 | the stored count equals the number of requests of the window exactly when no two drew the same member and none of them was lost |
| SlidingWindow.MemberCountIsExactIff | src/shared/throttler/redis-throttler-storage.service.ts:72-94 | the stored count equals the number of members of the window exactly when each of them survives, perhaps through a later request that drew it again |
| SlidingWindow.LargestLatestTtlIsExact | src/shared/throttler/redis-throttler-storage.service.ts:72-94 | nothing of the window is lost when no earlier ttl of the key was smaller |
| SlidingWindow.GrowingTtlUndercounts | src/shared/throttler/redis-throttler-storage.service.ts:72-84 | a concrete history in which a growing ttl loses a request of the window and the count falls short |
| SlidingWindow.MembersVersusHits | src/shared/throttler/redis-throttler-storage.service.ts:66-78 | distinct members equal requests exactly when no two requests of the window drew the same member |
| SlidingWindow.StorageNeverOverAdmits | src/shared/throttler/redis-throttler-storage.service.ts:65-108 | in every state of the storage and for any ttls not below it, a window of length ttl, wherever it starts, holds at most `limit` admitted members, and so admitted requests unless two drew the same member |
| SlidingWindow.AtMostLimitMembers | src/shared/throttler/redis-throttler-storage.service.ts:65-108 | the same for every log whose answers were decided by the stored count |
| SlidingWindow.WaitIsExactIff | src/shared/throttler/redis-throttler-storage.service.ts:96-105 | the reported seconds are right for the whole window exactly when every member of it, lost or not, stays longer than all but the last of them |
| Base32.BytesToBase32 | src/modules/system/services/totp.service.ts:137-145 | the accumulator loops compute the zero-filled bit-string encoding of section 6 of RFC 4648 although the accumulator wraps at 32 bits |
| Base32.Base32ToBytes | src/modules/system/services/totp.service.ts:147-156 | the accumulator loop regroups the bits of the kept characters into bytes |
| Base32.RoundTrip | src/modules/system/services/totp.service.ts:137-156 | decoding an encoding gives back the bytes, for every length |
| Base32.EncodingSpells | src/modules/system/services/totp.service.ts:137-145 | the encoding has ceil(8n/5) characters and spells the input's bits followed by zeros |
| Base32.ReEncode | src/modules/system/services/totp.service.ts:137-156 | re-encoding what was decoded gives the kept characters exactly when fewer than five bits were dropped, all zero |
| Base32.DecodeIgnoresFormatting | src/modules/system/services/totp.service.ts:148-148 | padding and separators anywhere do not change what is decoded, and neither does lower-casing a text without the three characters that gain letters by it |
| Base32.SanitizeLowerIff | src/modules/system/services/totp.service.ts:148-148 | lower-casing a text leaves what the sanitizer keeps exactly when the text has no dotted capital I, capital sharp s or Kelvin sign |
| Base32Numerals.AlphabetIsStandard | src/modules/system/services/totp.service.ts:27 | the alphabet is A to Z and then 2 to 7, in this order |
| Base32Numerals.EncodingIsNumeral | src/modules/system/services/totp.service.ts:137-145 | the encoding, read as a base-32 numeral over that alphabet, is the base-256 number of the bytes with zero bits behind it |
| Base32Numerals.DecodingIsNumber | src/modules/system/services/totp.service.ts:147-156 | the decoded bytes, as a base-256 number, are the base-32 number of the kept characters without its low bits |
| Totp.TruncationIsWord | src/modules/system/services/totp.service.ts:89-94 | for every digest the truncation reads in bounds and equals the big-endian word modulo 2^31 |
| Totp.RenderIsFaithful | src/modules/system/services/totp.service.ts:95-96 | six decimal digits from which the number can be read back |
| Totp.CodeIsTruncatedWord | src/modules/system/services/totp.service.ts:85-97 | byte by byte: the six digits of a code read as the four digest bytes at the offset, top bit dropped, modulo one million |
| Totp.StandardExample | src/modules/system/services/totp.service.ts:85-97 | the digest of section 5.4 of RFC 4226 gives 872921 |
| Totp.GenerateTotp | src/modules/system/services/totp.service.ts:85-97 | the code by the word definition, and a throw exactly outside the unsigned 64-bit counter range |
| Totp.CheckTotp | src/modules/system/services/totp.service.ts:99-109 | at every time in [30000k, 30000(k+1)) ms, k at least 1, accepts exactly the codes of steps k-1, k and k+1; throws exactly on a wrong length or before 30000 ms |
| Totp.Verify | src/modules/system/services/totp.service.ts:66-74 | true exactly for a readable secret and, at every time in [30000k, 30000(k+1)) ms, the codes of steps k-1, k and k+1, six characters long; every exception reads as false |
| Totp.CodeStaysValid | src/modules/system/services/totp.service.ts:85-109 | a code made from the raw secret at t is accepted against the stored secret at every time within 30 s of t, exactly when the clock is past the first 30 s |
| Totp.CodeExpires | src/modules/system/services/totp.service.ts:99-109 | a code made at t is refused at every time 60 s or more away from t, if it differs from the codes of the three steps then in force |
| ProcurementRuns.RunKeepsInv | src/modules/procurement/services/goods-receipts.service.ts:66-243 | every run, whatever lines it removes, keeps: receipts belong to orders in receipt, an order's status is the derived one or can move to it, received equals accepted by approved receipts, events announce what was received |
| ProcurementRuns.ReachableInv | src/modules/procurement/services/purchase-orders.service.ts:82-311 | in every state reached from the empty database that invariant holds: each line's received quantity is the sum accepted by approved receipts, and per item the events announce what was received |
| ProcurementRuns.StepKeepsInv | src/modules/procurement/services/purchase-orders.service.ts:82-311 | each order and receipt call keeps that invariant, and keeps the exact derived statuses exactly unless it is a removal that is not tolerated |
| ProcurementRuns.RemoveLineKeepsInv | src/modules/procurement/services/purchase-orders.service.ts:301-311 | nothing was received on a line that can be deleted, so deleting it through any order keeps the invariant |
| ProcurementRuns.RemoveLineKeepsFitIff | src/modules/procurement/services/purchase-orders.service.ts:301-311 | deleting a line keeps the exact statuses exactly when its own order tolerates it |
| ProcurementRuns.StatusesFitThroughoutIff | src/modules/procurement/services/purchase-orders.service.ts:82-311 | the exact statuses hold in every state of a run exactly when each removal of the run is tolerated |
| ProcurementRuns.RemovalThroughAnotherOrder | src/modules/procurement/services/purchase-orders.service.ts:301-311 | a run of five calls that leaves an approved order without lines, where its lines would make it received |
| ProcurementRuns.ApprovalWritesLegalStatus | src/modules/procurement/services/goods-receipts.service.ts:190-217 | the status written by receipt approval is a transition of the table or the order's own status |
| ProcurementRuns.EveryStatusChangeIsLegal | src/modules/procurement/state/po-state-machine.ts:9-20 | along every run from the empty database each status change of an order is in the table, receipt approvals included, except pending back to draft by rejection |
| ProcurementRuns.OrderWithReceiptStaysInReceipt | src/modules/procurement/services/purchase-orders.service.ts:236-277 | over every run an order that has a receipt is never draft, pending or cancelled again |
| ProcurementRuns.DecidedReceiptIsFrozen | src/modules/procurement/services/goods-receipts.service.ts:126-156 | approved and rejected receipts keep all their lines along every run |
| ProcurementRuns.AddAcceptedRows | src/modules/procurement/services/goods-receipts.service.ts:190-201 | each order line grows by all that the receipt accepted for it and by nothing else |
| ProcurementRuns.AddAcceptedTotal | src/modules/procurement/services/goods-receipts.service.ts:190-229 | per item the order lines grow by what the event announces |
| ProcurementLaws.CreateOrderLaw | src/modules/procurement/services/purchase-orders.service.ts:82-130 | when an order is created, and that its rows carry the given items and quantities with nothing received |
| ProcurementLaws.UpdateOrderLaw | src/modules/procurement/services/purchase-orders.service.ts:132-172 | new lines replace those of a draft order whose lines no receipt names; every other row stays |
| ProcurementLaws.StatusLaws | src/modules/procurement/services/purchase-orders.service.ts:174-278 | from which status, and to which, submission, approval, rejection and cancellation move an order, and nothing else |
| ProcurementLaws.AddLineLaw | src/modules/procurement/services/purchase-orders.service.ts:280-299 | a line joins a draft order exactly with a positive quantity, its row last and nothing received on it |
| ProcurementLaws.RemoveLineLaw | src/modules/procurement/services/purchase-orders.service.ts:301-311 | exactly which line leaves, and when |
| ProcurementLaws.CreateGrnLaw | src/modules/procurement/services/goods-receipts.service.ts:66-124 | when a receipt is created: an order in receipt, lines of that order, accepted and rejected within received |
| ProcurementLaws.UpdateGrnLineLaw | src/modules/procurement/services/goods-receipts.service.ts:126-156 | each of received, accepted and rejected takes its own new value or keeps its own old one |
| ProcurementLaws.ReceiptStatusLaws | src/modules/procurement/services/goods-receipts.service.ts:158-243 | a receipt goes to quality control exactly from draft and is rejected exactly before its approval |
| ProcurementLaws.ApprovalLaw | src/modules/procurement/services/goods-receipts.service.ts:168-233 | done exactly on a receipt in quality control; each order line grows by the accepted quantities of its receipt lines, nothing else of it changes |
| ProcurementLaws.ApprovalStatusLaw | src/modules/procurement/services/goods-receipts.service.ts:203-217 | received when every line of the order has all it ordered, partly received when some line has something |
| ProcurementLaws.ApprovalAnnounces | src/modules/procurement/services/goods-receipts.service.ts:220-229 | one event with one line per receipt line: the order line's item, the warehouse of the call, the accepted quantity |
| ProcurementLaws.ReachableQuantities | src/modules/procurement/services/goods-receipts.service.ts:66-201 | in every reachable state an order line's received quantity is the sum accepted for it by approved receipts, and every receipt line accepts and rejects no more than it received |
| ProcurementLaws.OrderNotFoundIff | src/modules/procurement/services/purchase-orders.service.ts:82-311 | exactly which refusals of order calls are a missing row |
| ProcurementLaws.ReceiptNotFoundIff | src/modules/procurement/services/goods-receipts.service.ts:66-243 | exactly which refusals of receipt calls are a missing row |
| ProcurementServices.Database.CreateReceipt | src/modules/procurement/services/goods-receipts.service.ts:66-124 | the validation loop lets through exactly lines of the order that obey the quantity rule |
| ProcurementServices.Database.ApproveReceipt | src/modules/procurement/services/goods-receipts.service.ts:168-233 | the loops of checks and increments, the derived status and the event have the effect of one transition (`ApproveGrn`), and the event announces each receipt line for the warehouse of the call |
| StockRuns.ReachableInv | src/modules/inventory/services/stock-transactions.service.ts:49-111 | in every reachable state each balance is the signed sum of its rows, no prefix of the ledger was negative, and reviewed counts are completely counted |
| StockRuns.MovementKeepsLedger | prisma/migrations/20260806000000_sprint6_inv_schema/migration.sql:147-177 | a movement with its trigger keeps balances equal to ledger sums and the history non-negative |
| StockRuns.MovementSucceedsIff | src/modules/inventory/services/stock-transactions.service.ts:50-77 | a movement is posted exactly when item and warehouse are active and the balance stays non-negative |
| StockRuns.PostLinesOutcome | src/modules/inventory/services/stock-counts.service.ts:170-188 | posting a count's variances succeeds exactly when each line could be posted on its own, and moves each balance by its variance |
| StockRuns.ApproveSucceedsIff | src/modules/inventory/services/stock-counts.service.ts:166-199 | exactly when approval succeeds, and that it then changes each counted balance by physical - system and no other |
| StockRuns.UndisturbedCountLeavesPhysical | src/modules/inventory/services/stock-counts.service.ts:72-199 | with no movement of the counted items in the warehouse since the snapshot and all keys active approval cannot fail and leaves every balance at the physical quantity |
| StockRuns.FailedApprovalIsCleanIff | src/modules/inventory/services/stock-counts.service.ts:170-188 | a failed approval changes nothing exactly when no earlier line has a variance |
| StockRuns.StepPostsOnceIff | src/modules/inventory/services/stock-counts.service.ts:166-199 | a call keeps the rows posted from each count equal to its variances when approved, and to nothing otherwise, exactly unless it is an approval that fails behind a variance |
| StockRuns.ReachablePostedOnceIff | src/modules/inventory/services/stock-counts.service.ts:166-199 | each variance is posted once in every state of a run from the empty database exactly when no approval of the run fails behind a variance |
| StockRuns.RetriedApprovalPostsTwice | src/modules/inventory/services/stock-counts.service.ts:166-199 | a run of thirteen calls from the empty database in which a failed and repeated approval posts one variance twice |
| StockRuns.SnapshotOk | src/modules/inventory/services/stock-counts.service.ts:84-108 | a new count has one line per active item with a balance row, carrying that balance |
| StockRuns.RunExtends | src/modules/inventory/state/stock-count-state-machine.ts:8-21 | over every run the ledger only grows at its end, snapshots are frozen and decided counts do not change |
| StockLaws.RecordLaw | src/modules/inventory/services/stock-transactions.service.ts:49-111 | when a movement is posted, and that it adds one row and moves one balance by its signed quantity |
| StockLaws.ReceiptRowsLaw | src/modules/inventory/listeners/grn-approved.handler.ts:27-53 | a handled event, to its end or not, adds incoming rows that name it and leaves every row before them |
| StockLaws.CreateCountLaw | src/modules/inventory/services/stock-counts.service.ts:72-113 | a line for every active item with a balance row in the warehouse and no other, each with that balance and not yet counted |
| StockLaws.UpdateCountLineLaw | src/modules/inventory/services/stock-counts.service.ts:115-144 | the given quantity becomes the physical one of that line alone |
| StockLaws.CountStatusLaws | src/modules/inventory/services/stock-counts.service.ts:146-208 | a count is submitted exactly when it is being counted and each line has a physical quantity, cancelled exactly before its approval |
| StockLaws.ApproveCountLaw | src/modules/inventory/services/stock-counts.service.ts:166-199 | when an approval is done, that it then sets each counted balance to itself plus physical less system, and what stays |
| StockLaws.NotFoundIff | src/modules/inventory/services/stock-counts.service.ts:72-208 | exactly which refusals are a missing or inactive row |
| StockServices.Warehouse.CreateSheet | src/modules/inventory/services/stock-counts.service.ts:72-113 | the loop over items builds exactly the snapshot of balances (`CreateCount`) |
| StockServices.Warehouse.Approve | src/modules/inventory/services/stock-counts.service.ts:166-199 | the posting loop with its early exit: what was posted before a failure stays, the status does not move (`ApproveCount`) |
| StockServices.Warehouse.HandleGrnApproved | src/modules/inventory/listeners/grn-approved.handler.ts:18-60 | the loop posts the accepted lines in order until one fails (`PostReceipt`) |
| Pipeline.HandlerCompletesIff | src/modules/inventory/listeners/grn-approved.handler.ts:27-53 | the handler completes exactly when every accepted line names an active item and warehouse |
| Pipeline.HandlerBringsItsPrefix | src/modules/inventory/listeners/grn-approved.handler.ts:27-53 | completed or not, the handler brings into stock exactly what the lines before the first refused one announce, per item |
| Pipeline.OtherMovesBringNoInflow | src/modules/inventory/services/stock-transactions.service.ts:49-111 | no other call changes what the handler brought in |
| Pipeline.InflowIsReceivedIff | src/modules/procurement/services/goods-receipts.service.ts:180-229 | end to end, in every reachable state, per item over all warehouses: handler-posted inflow is never more than the received quantity of the item's order lines, and equal exactly when no pending event and no line behind a refused one has any of it left |
| Pipeline.InflowIsReceived | src/modules/procurement/services/goods-receipts.service.ts:180-229 | end to end: once every event is handled to its last line, handler-posted inflow per item over all warehouses equals the received quantity of the item's order lines |
| Pipeline.EventsAreApprovals | src/modules/procurement/services/goods-receipts.service.ts:220-229 | over every run, per item and warehouse, the events announce what the approvals of the run accepted for that warehouse |
| Pipeline.InflowIsApprovedIff | src/modules/inventory/listeners/grn-approved.handler.ts:27-44 | end to end, in every reachable state, per item and warehouse: handler-posted stock is never more than what was approved for that warehouse, and equal exactly when no event has any of it left |
| Pipeline.HandlerLaw | src/modules/inventory/listeners/grn-approved.handler.ts:27-53 | the handler succeeds exactly when each line with a positive quantity names an active item and warehouse |
| GeneralLedgerRuns.ReachableInv | src/modules/finance/services/finance.service.ts:33-172 | every journal has two or more one-sided lines, equal totals, and its own date on every line; reversals point at existing journals |
| GeneralLedgerRuns.UpdateKeepsInv | src/modules/finance/services/finance.service.ts:92-172 | the same across every update, a date-only update that re-inserts lines included |
| GeneralLedgerRuns.OrderedIsPermutation | src/modules/finance/services/finance.service.ts:251-258 | reading lines back orders them and neither loses nor adds one |
| GeneralLedgerRuns.OrderedSum | src/modules/finance/services/finance.service.ts:251-258 | re-insertion in that order keeps every total |
| GeneralLedgerRuns.ClosedPeriodIsFrozen | src/modules/finance/services/gl.service.ts:123-163 | a period that left open never opens again and keeps exactly its journals and lines along every run |
| GeneralLedgerRuns.GoneIffDeletedUnreferenced | src/modules/finance/services/finance.service.ts:177-224 | a journal is gone after a run exactly when one of its deletions met it in an open period with no invoice, bank transaction, gratuity provision, provident fund transaction or reversal pointing at it |
| GeneralLedgerLaws.PostLaw | src/modules/finance/services/finance.service.ts:30-86 | when a journal is posted, and that its i-th line has the account, debit, credit and rate of the i-th entry under the given date |
| GeneralLedgerLaws.UpdateLaw | src/modules/finance/services/finance.service.ts:92-172 | given lines replace the old field by field; with a date alone the same entries come back, largest debits first and then largest credits; with neither the lines are untouched; absent fields keep their value |
| GeneralLedgerLaws.UpdateSucceedsIff | src/modules/finance/services/finance.service.ts:92-172 | exactly when an update succeeds, in terms of the journal, both periods, the accounts and the dates; a failed one changes nothing |
| GeneralLedgerLaws.PeriodLaws | src/modules/finance/services/gl.service.ts:103-163 | close, lock and unlock move one period along open, closed, locked, and months differ |
| GeneralLedgerLaws.NotFoundIff | src/modules/finance/services/finance.service.ts:30-224 | exactly which refusals are a missing journal or period |
| GeneralLedgerLaws.PeriodTotal | src/modules/finance/services/gl.service.ts:180-207 | a total over a period's lines is the sum of the totals of its journals |
| GeneralLedgerLaws.TrialBalanceLaw | src/modules/finance/services/gl.service.ts:167-217 | exactly one row, in the order of their keys, per active account with a base total, with that account's own base debits and base credits |
| TrialBalance.NetsAreActiveSkews | src/modules/finance/services/gl.service.ts:180-207 | the nets add up to base debit less base credit over the lines on active accounts, for any lines |
| TrialBalance.NetsAreJournalSkews | src/modules/finance/services/gl.service.ts:167-217 | with no line on an inactive account the nets add up to the skews of the period's journals |
| TrialBalance.OneRateSkewIsRounding | prisma/migrations/20260810000000_sprint7_fin_schema/migration.sql:99-100 | a one-rate journal is skewed by its rounding errors alone, by nothing exactly when they cancel |
| TrialBalance.OneRateSkewIsSmall | prisma/migrations/20260810000000_sprint7_fin_schema/migration.sql:99-100 | that skew is at most half a unit of the last digit per line |
| TrialBalance.TwoLinesHaveNoSkew | prisma/migrations/20260810000000_sprint7_fin_schema/migration.sql:99-100 | two lines at one rate never skew, however they round |
| TrialBalance.NetsAreRounding | src/modules/finance/services/gl.service.ts:167-217 | in every reachable state with one rate per journal and no line on an inactive account the nets add up to the accumulated rounding errors, to zero exactly when these cancel |
| TrialBalance.NetsAddUpToZero | src/modules/finance/services/gl.service.ts:180-217 | in every reachable state the nets are zero when journals use one rate each and are unrounded or have two lines, and no line lies on an inactive account |
| TrialBalance.RoundingCanSkew | prisma/migrations/20260810000000_sprint7_fin_schema/migration.sql:99-100 | a balanced one-rate journal that skews |
| GeneralLedgerServices.AssertBalanced | src/modules/finance/services/finance.service.ts:260-290 | the loop accepts exactly two or more one-sided lines with equal totals |
| GeneralLedgerServices.Books.Post | src/modules/finance/services/finance.service.ts:30-86 | the transition `PostJournal`; the new journal holds the given entries, in order and field by field, under its date |
| GeneralLedgerServices.Books.Update | src/modules/finance/services/finance.service.ts:92-172 | the transition `UpdateJournal`; given entries are stored in order and field by field, a date alone keeps the multiset of entries, neither keeps the lines |
| ChartOfAccounts.AssertNoCycle | src/modules/finance/services/chart-of-accounts.service.ts:161-179 | on any table, cyclic ones included, the walk terminates and accepts exactly when it reaches a root without meeting the account |
| ChartOfAccounts.ReparentingIffForest | src/modules/finance/services/chart-of-accounts.service.ts:91-115 | on a forest a new parent is refused exactly when it is the account or a descendant, and that is exactly when the result would not be a forest |
| ChartOfAccounts.RunKeepsInv | src/modules/finance/services/chart-of-accounts.service.ts:64-151 | every run keeps a forest with parents in the table and distinct codes |
| ChartOfAccounts.NoParentCycle | src/modules/finance/services/chart-of-accounts.service.ts:64-151 | after any run no path along parent pointers leads from an account back to itself |
| ChartOfAccounts.UpdateLaw | src/modules/finance/services/chart-of-accounts.service.ts:91-125 | exactly when an update is done: the new parent exists and lies neither at nor below the account, the code is free; each field takes its given value or keeps its own |
| ChartOfAccounts.CreateAndRemoveLaws | src/modules/finance/services/chart-of-accounts.service.ts:64-151 | when an account is created or deactivated, and what that writes |
| ChartOfAccounts.NotFoundIff | src/modules/finance/services/chart-of-accounts.service.ts:64-151 | exactly which refusals are a missing account |
| ChartOfAccounts.RepeatNeverEnds | src/modules/finance/services/chart-of-accounts.service.ts:161-179 | a walk that meets an account twice never reaches a root, so refusing on a repeat is right |
| ChartOfAccounts.Chart.Update | src/modules/finance/services/chart-of-accounts.service.ts:91-125 | absent, null and given parents told apart; a given one only if the walk accepts it (`UpdateAccount`) |
| PermissionCache.CacheIsCoherent | src/modules/system/services/roles.service.ts:93-197 | while no deletion is lost every cached entry is what the role tables give, after any calls |
| PermissionCache.CoherentThroughoutIff | src/modules/system/services/roles.service.ts:93-281 | the cache is coherent throughout a run exactly when no call misses a cached user whose permissions it changes |
| PermissionCache.AnswersAreCurrent | src/modules/system/services/auth.service.ts:706-759 | then every answer is the current permissions |
| PermissionCache.StaleForAtMostTtl | src/modules/system/services/auth.service.ts:706-784 | whatever Redis commands fail, an answer is the true permissions at some call of the last 300 seconds |
| PermissionLaws.AnswersAreGranted | src/modules/system/services/auth.service.ts:731-741 | while no deletion is lost, a permission is in the answer of a run's n-th call exactly when some role links the user to it in the two tables |
| PermissionLaws.AnswersWereGranted | src/modules/system/services/auth.service.ts:706-784 | whatever is lost, the answer is exactly what some roles granted at a call of the last 300000 ms |
| PermissionLaws.GetLaw | src/modules/system/services/auth.service.ts:706-759 | a hit answers the entry; a miss answers what the user's roles grant, and stores it for 300000 ms if Redis takes it |
| PermissionLaws.AddPermissionLaw | src/modules/system/services/roles.service.ts:117-175 | every holder of the role gains that permission and nobody anything else; the holders' entries are forgotten |
| PermissionLaws.RemovePermissionLaw | src/modules/system/services/roles.service.ts:177-197 | a holder loses that permission unless another of the holder's roles grants it; nobody loses anything else |
| PermissionLaws.AssignRoleLaw | src/modules/system/services/users.service.ts:243-259 | the user gains exactly the role's permissions, nobody else anything |
| PermissionLaws.RemoveRoleLaw | src/modules/system/services/users.service.ts:261-281 | the user keeps exactly what the other roles grant |
| PermissionLaws.SetRolesLaw | src/modules/system/services/users.service.ts:162-220 | the user's roles become exactly the given ones |
| PermissionLaws.CreateUserLaw | src/modules/system/services/users.service.ts:114-160 | a new user has exactly the given roles, or none if one of them is unknown, and is there in both cases |
| PermissionLaws.DeleteRoleLaw | src/modules/system/services/roles.service.ts:93-115 | a role goes exactly when nobody holds it, with its permission rows and no other |
| PermissionLaws.NotFoundIff | src/modules/system/services/roles.service.ts:93-197 | exactly which refusals are a missing user, role, permission or link |
| PermissionServices.Authorization.InvalidateUsersWithRole | src/modules/system/services/roles.service.ts:257-281 | the loop deletes the keys of exactly the role's users, less those missed |
| PermissionServices.Authorization.AddToRole | src/modules/system/services/roles.service.ts:117-175 | one permission more and every holder of the role forgotten by the cache (`Grant`) |
| PermissionServices.Authorization.TakeFromRole | src/modules/system/services/roles.service.ts:177-197 | one permission less and every holder of the role forgotten by the cache (`Revoke`) |
| Lockout.AtMostFivePerWindow | src/modules/system/services/auth.service.ts:155-223 | any half-open 30-minute window without a checked right password holds at most 5 failed checks |
| Lockout.LoginLaw | src/modules/system/services/auth.service.ts:155-259 | the verdict and the account after every kind of attempt: logged in exactly when not locked, with the right password and, with two factors, a valid code; the fifth failure locks for 1800000 ms |
| Lockout.FailuresTakeTime | src/modules/system/services/auth.service.ts:183-210 | k failed checks in a row take at least k - 5 lockout periods |
| Lockout.ThresholdMeansLock | src/modules/system/services/auth.service.ts:183-223 | five or more failed attempts exactly when a lock is set |
| Lockout.LockedIsInert | src/modules/system/services/auth.service.ts:155-178 | while locked nothing changes the account, a right password included |
| RefreshTokens.RedeemedAtMostOnce | src/modules/system/services/auth.service.ts:395-486 | over every run a token is redeemed at most once, unexpired and with an active owner |
| RefreshTokens.NotRedeemedAfterLogout | src/modules/system/services/auth.service.ts:535-559 | never after its logout, even when Redis failed |
| RefreshTokens.NotRedeemedAfterPasswordChange | src/modules/system/services/auth.service.ts:643-652 | never after its owner's password change |
| RefreshTokens.BlacklistedIsRevoked | src/modules/system/services/auth.service.ts:425-452 | every blacklisted token is revoked in the table |
| RefreshTokens.BlacklistNeverDecides | src/modules/system/services/auth.service.ts:422-434 | so the blacklist branch is never taken |
| RefreshTokens.SessionsAtMostLogins | src/modules/system/services/auth.service.ts:310-353 | a user's unrevoked tokens never outnumber the user's full logins |
| RefreshTokenLaws.RefreshIssuesIff | src/modules/system/services/auth.service.ts:395-486 | in every reachable state a token is issued exactly when the presented one is in the table, unrevoked and unexpired, its owner active and Redis up; it is a fresh row of the same user, good for 2592000000 ms |
| RefreshTokenLaws.RefusedRefreshLaw | src/modules/system/services/auth.service.ts:395-486 | what every refused refresh answers and leaves behind |
| RefreshTokenLaws.RevokedIffEnded | src/modules/system/services/auth.service.ts:395-652 | over runs a token is revoked exactly when a refresh with Redis readable, a logout or its owner's password change met it |
| RefreshTokenLaws.GoodForThirtyDays | src/modules/system/services/auth.service.ts:310-486 | a token from a login is redeemed by a later refresh exactly within 30 days, with its owner active, and with no call in between that ends it |
| RefreshTokenLaws.RevocationLaws | src/modules/system/services/auth.service.ts:535-652 | logout revokes one token, a password change all of one user's |
| RefreshTokenLaws.ActivationLaw | src/modules/system/services/users.service.ts:162-241 | only the named user becomes active or inactive, and no token is touched |
| RefreshTokenLaws.BlacklistedUntilExpiry | src/modules/system/services/auth.service.ts:535-576 | a logged-out token stays on the blacklist until it expires and at most a second longer |
| JobLock.MutualExclusion | src/infrastructure/scheduler/monthly-scheduler.service.ts:61-72 | in every state of a run at most one call is active on a key exactly when no call begins on that key while another is active on it past its lock's lifetime |
| JobLock.StepIsExclusiveIff | src/infrastructure/scheduler/monthly-scheduler.service.ts:61-72 | the same for one step, while the key carries its active call's entry |
| JobLock.RunIsSafeIff | src/infrastructure/scheduler/monthly-scheduler.service.ts:61-72 | over every run: the key's active call owns its lock in every state exactly when no tick overtakes it, and then the key is not contended |
| JobLock.BeginLaw | src/infrastructure/scheduler/monthly-scheduler.service.ts:61-66 | a call starts the job exactly when the key is absent or expired, and then holds it for 3600000 ms |
| JobLock.ReleaseLaw | src/infrastructure/scheduler/monthly-scheduler.service.ts:67-72 | the end of a job leaves its key until its one DEL, which frees that key and no other |
| JobLock.CrashLaw | src/infrastructure/scheduler/monthly-scheduler.service.ts:61-72 | a call that never gets its DEL through leaves its key to the key's expiry |
| JobLock.DeletesOwnLock | src/infrastructure/scheduler/daily-scheduler.service.ts:25-51 | while its key is not contended every DEL removes the entry its own call wrote, overrun or not |
| JobLock.SkippedNeverDeletes | src/infrastructure/scheduler/daily-scheduler.service.ts:34-37 | a call that did not acquire never deletes, in any run |
| JobLock.ExpiredKeyIsFree | src/infrastructure/scheduler/monthly-scheduler.service.ts:61-66 | after any run, crashes and overruns included, every key can be taken once one lifetime has passed |
| JobLock.OverrunBreaksExclusion | src/infrastructure/scheduler/monthly-scheduler.service.ts:61-72 | a contended run in which one overrunning job puts two later calls into the job together |
| JobLock.Redis.WithLock | src/infrastructure/scheduler/monthly-scheduler.service.ts:61-66 | acquisition is the protocol's step and reports whether the job may run |
| Leave.LivePacking | src/modules/hr/services/leave.service.ts:40-139 | in every reachable state live requests of an employee are disjoint and those inside n days add up to at most n days |
| Leave.DeadStaysDead | src/modules/hr/services/leave.service.ts:61-139 | no call changes a range or revives a rejected or cancelled request |
| Leave.ApplyLaw | src/modules/hr/services/leave.service.ts:40-59 | exactly when a request is taken: known type and employee, ordered dates, no live request of the employee that shares a day, enough balance; and the request that is then stored |
| Leave.DecisionLaws | src/modules/hr/services/leave.service.ts:61-139 | from which status each decision is possible, the status it writes and the days it uses or returns |
| Leave.NotFoundIff | src/modules/hr/services/leave.service.ts:40-139 | exactly which refusals are a missing leave type or request |
| Leave.UsedStaysApprovedIff | src/modules/hr/services/leave.service.ts:61-139 | used days stay equal to approved days exactly unless an HR-approved request is manager-approved or rejected |
| Leave.UsedIsApprovedThroughoutIff | src/modules/hr/services/leave.service.ts:61-139 | used days equal approved days throughout a run exactly when it contains no such call |
| Csv.SplitCsvLine | src/modules/finance/utils/csv-ofx-parser.ts:83-102 | the one-pass scan computes the recursive definition of quoted, trimmed fields |
| Csv.RoundTripIff | src/modules/finance/utils/csv-ofx-parser.ts:83-102 | splitting inverts a quoting writer exactly for non-empty lists of trimmed fields without double quotes |
| Csv.PlainRoundTripIff | src/modules/finance/utils/csv-ofx-parser.ts:83-102 | splitting inverts joining with commas exactly for non-empty lists of trimmed fields without commas or double quotes |
| Csv.SplitIsClean | src/modules/finance/utils/csv-ofx-parser.ts:83-102 | whatever the line, at least one field, all trimmed and without double quotes |
| Csv.FieldCount | src/modules/finance/utils/csv-ofx-parser.ts:83-102 | fields are one more than commas at even quote depth |
| Bom.AlwaysExactlyOneApproved | src/modules/manufacturing/services/bom.service.ts:182-204 | once an article has an approved BOM it has exactly one for ever |
| Bom.OrderedBomIsFrozen | src/modules/manufacturing/services/production-orders.service.ts:55-109 | a production order keeps its BOM, and the BOM its lines and size overrides, along every run |
| Bom.ReachableInv | src/modules/manufacturing/services/bom.service.ts:141-223 | at most one approved BOM and distinct versions per article, and every production order's BOM approved or superseded, of its article, with a positive plan |
| Bom.CreateBomLaw | src/modules/manufacturing/services/bom.service.ts:20-93 | when a version is created, and what it takes over from its source |
| Bom.UpdateBomLaw | src/modules/manufacturing/services/bom.service.ts:141-180 | only drafts change, and exactly in the lists that were given |
| Bom.ApproveBomLaw | src/modules/manufacturing/services/bom.service.ts:182-204 | the draft is approved and exactly the approved versions of its article are superseded |
| Bom.DeleteDraftLaw | src/modules/manufacturing/services/bom.service.ts:206-214 | exactly drafts without a cost sheet are deleted, since no production order points at a draft |
| Bom.CreateOrderLaw | src/modules/manufacturing/services/production-orders.service.ts:40-112 | exactly when an order is planned: a ready customer order, the one approved BOM of its article, a positive plan; and what is stored |
| Bom.OrderLaws | src/modules/manufacturing/services/production-orders.service.ts:149-233 | plans change only while planned, and the moves between statuses are exactly the five of the table |
| Bom.NotFoundIff | src/modules/manufacturing/services/bom.service.ts:141-214 | exactly which refusals are a missing BOM, item, line or order |

## Left out

- SlidingWindow.RedisSlidingWindowStorage.Increment: a pipeline that Redis executed but whose reply was lost is not modelled; requests that pass on a Redis failure are not in the log and not bounded.
- SlidingWindow: the throttler module passes its ttl in milliseconds while the storage documents seconds; the storage is modelled as documented.
- Totp.GenerateTotp: HMAC-SHA1 is any function to 20 bytes; AES-GCM decryption is a value or a failure; tokens are strings of one-byte characters.
- TrialBalance.NetsAddUpToZero: one direction, for unrounded or two-line journals; `NetsAreRounding` says exactly when the nets are zero.
- ProcurementRuns.RunKeepsInv: order totals, approver roles, vendor ratings and e-mails are not modelled.
- Stock: average cost, reorder events, document numbers and movement types are not modelled; the balance trigger is an addition that refuses a negative result.
- Pipeline.InflowIsReceivedIff: an event is handled at most once; the emitter does not repeat it after a failure.
- GeneralLedger: amounts are exact multiples of 1/10000 and rates of 1/1000000, so floating-point sums and rounding before storage are not modelled; the account balance report, document numbers and the `reversed` status, which no code writes, are left out.
- PermissionCache: permissions embedded in access tokens live as long as the token; only the cache behind new tokens is modelled.
- RefreshTokens: token hashes are distinct; a password set by an administrator, which revokes no token, is not a password change here.
- JobLock: the work inside the jobs is not modelled; a DEL that is lost counts as a crash.
- Leave: accrual and carry-forward are grants of any size; the year of a start date is part of the application; pending requests reserve no balance.
- Csv: the header row, dates and the OFX parser are left out.
- Bom: version numbering, cost sheets, factory lines and dates are left out; customer orders enter as article, readiness and sizes.
- Races between a check and its write inside one call, except in the lock protocol.
- Controllers, request validation beyond numeric bounds, logging, auditing, storage, mail, search and pagination.
- Samples, quotations, quality, payroll, buyer invoices and bank reconciliation: status checks and formulas without run-level properties.
