# Personal finance tracker: a verified model of its ledgers and its import

This project models the parts of the tracker that hold money or must not lose data, and proves what
their users rely on.

**Money.** A tenant's monthly plans put packets into a fixed-deposit ledger, rupees into mutual funds
and stocks, and payments into goals. Packets are broken oldest month first, investments are sold, goal
money is moved out, and each of these can be undone. `FdLedger` is the lot ledger and its allocator;
`FdAllocation`, `FdRuns` and `FdSummary` prove what the allocator takes, what every run keeps, and that
the summary and the allocator agree. `Books` adds plans, opening balances, sales and goal moves as
transactions that first decide and then write rows; `BooksInvariant` proves what every run of them
keeps, `Dashboard` what can and cannot move the corpus, and `Buckets` which bucket of it every transaction
takes money out of and puts it into. `Interleaving` cuts the same transactions
into lock, read, check, write and commit steps of any number of clients and proves that every schedule
is the committed transactions in commit order; `Progress` proves that an accepted transaction can always
commit and a rejected one never does; `SettingsWriteBack` is the one write outside the locks.
`FdLedgerServices`, `BooksServices` and `Payments` hold the services as classes and loops over stored
rows, each proved to be the transaction it stands for.

**Import.** `CcTxnImport` is the import of one mail folder (watermark, filter, batches, dedupe, write
or failure row, watermark last) with a fault possible at every database call: the call works, raises
before taking effect, raises after taking effect, or the process dies there. Dying right after a call
is dying at the next one. `ImportHistory` runs whole histories of imports, replays and ignores;
`MessageSafety` proves that no message is lost over them. `ReplaySafety` and `ReplayCounts` look at one
replay: when it keeps RESOLVED honest, and what it does to every failure row. `ImportOutcomes` spells out
what happens when no call fails: the answer to each message, exactly which mail a run stores and counts,
and how a replayed failure is settled. `ImportServices` proves
the chunked loops and the try/catch of the service to be these runs. `Overlap`, `OverlapRuns`,
`OverlapAlone` and `OverlapSafety` cut imports, replays and ignores into their database calls and
interleave any number of them: one run on its own is the whole run, and of overlapping ones the safety
theorems hold over every schedule.
`ImportLock` is the lease that keeps import runs apart, with its acquire as two separate statements.

**Smaller kernels.** `Pagination` is the keyset listing of transactions, `EffectiveAmount` the
amortisation arithmetic, `CardSummary` the 60-month query of the card tiles.

## What is false, and exactly when

- A transaction without a timestamp can break the cursor walk: rows are lost. `CompleteIff` gives the
  exact condition on the row that closes the first page, `UndatedRowLost` a listing of three rows that
  loses one, `StableDeliveredIff` the condition while the table changes. No row is ever delivered twice
  (`NeverTwice`).
- A stored message is stored a second time exactly when an insert for it takes effect and the database
  constraint is missing; its key was then not among the loaded ones, because it is older than the newest
  10000 or was stored since by another run (`StoredAgainIff`). An import and a replay that overlap do so
  exactly when one of them had not loaded the key (`RaceStoresOnceIff`). The schema has that constraint,
  and under it no overlap does (`OverlapStoresOnce`).
- The watermark can move although the run raised. It moves exactly when the last call of a live run with
  something due takes effect, and the run raises exactly when that call then fails (`WatermarkMovesIff`);
  `MovedThoughRaised` is such a run. Even so the watermark covers only messages that are stored or on
  the failure list, and a run that died before its last call took effect has not moved it
  (`WatermarkSafe`).
- Mail that first shows up at or below the watermark is not imported (`LateMailUncovered` is such a run).
  `PolledCoveredIff` says exactly which polled messages a returned run covers.
- One replay that holds the same message under two bank keys can mark a failure RESOLVED with nothing
  stored (`ReplayTwiceUnsound`). Replaying a selection of failures is sound for a message in every
  environment exactly when the selection holds it at most once (`ReplaySoundIff`). The message is not
  lost by that: the row whose insert failed stays on the list under its own bank key (`NeverLost`).
- A run that outlives its lease takes away another run's lock exactly when its release does not tell the
  two apart (`ReleaseSafeIff`). Runs exclude each other however late they are exactly when they name
  their owner in the release and owners differ (`ToleratesLatenessIff`). The transaction import does not
  name its owner (`UnscopedUnsafe`). With punctual holders every kind of run is safe (`LeaseSafety`).
- A settings update that names no opening balance writes the old balances back without lock or check.
  It keeps the books sound exactly when, since the read, each asset's sales net of purchases were
  within its balance (`WriteBackSolventIff`), and is harmless when nobody set an opening balance in
  between (`WriteBackHarmless`). An interleaved raise and sale makes it oversell (`WriteBackCanOversell`).
- An amortisation over fewer than two months counts in its cycle and in no calendar month
  (`ViewsAgreeIff`); the service never accepts one (`AcceptedIsValidated`).
- A plan request empties the stored custom expenses or banks when it does not name them; every other
  omitted field keeps its value (`OmittedKeptIff`).
- A goal break or its undo can change the corpus total: a break exactly when it takes the tenant's moved
  goal money beyond its goal funding, an undo exactly when it was beyond before (`MoneyMoveTotalIff`).
  `BreakCanMoveTotal` and `UndoCanMoveTotal` are runs that do it; nothing else that leaves plans and
  opening balances alone moves the total.

## Assumptions

Year and month are unique per tenant for plans and contributions, job keys for locks, and (bank key,
message) for failure rows, as the schema declares. A read under an advisory lock sees the last
committed state. Mail ids that differ still differ once trimmed. Rows are listed in creation order, and
ids that the program draws at random are drawn here from a counter that only grows.

Owners of runs are made from the clock in milliseconds; two runs started in the same millisecond share
one, and then `ToleratesLatenessIff` applies with owners not apart. Import runs exclude each other by
the lease, but replays and ignores take no lease (src/modules/import-jobs/import-jobs.service.ts:185-204)
and may overlap an import. `NeverStoredTwice`, `HistoryHonest` and `NeverLost` are about jobs that run one
after the other; `OverlapStoresOnce`, `OverlapHonest` and `OverlapNeverLost` are about jobs whose calls
interleave. Watermarks and failure rows carry no tenant, so the import model is that of one importing
tenant: a second one with the same folders would share, and move, the first one's watermarks. A query
selects each failure row once.

## Model

| member | source | states |
|---|---|---|
| FdLedger.NormalizePacket | src/modules/fd-ledger/fd-ledger.service.ts:34-48 | a packet is accepted exactly when it is an object with two non-negative numbers that are zero together, and is stored as given |
| FdRuns.EveryRunWellFormed | src/modules/fd-ledger/fd-ledger.service.ts:78-230 | over every run of plan syncs, breaks and undos each break has a positive quantity and the price of the lot it names, and no lot has given out more packets than it holds |
| FdRuns.StepKeeps | src/modules/fd-ledger/fd-ledger.service.ts:78-230 | any single transaction, accepted or rejected, keeps the ledger well formed |
| FdRuns.SyncAcceptedIff | src/modules/fd-ledger/fd-ledger.service.ts:88-124 | a month is rewritten exactly when it keeps at least its broken packets, and its price once any was broken; the other rows stay |
| FdRuns.UpdateKeeps | src/modules/fd-ledger/fd-ledger.service.ts:97-113 | the two guards on a rewritten lot are enough to keep its breaks priced and covered |
| FdRuns.BreakKeeps | src/modules/fd-ledger/fd-ledger.service.ts:141-196 | an accepted break keeps every lot covered |
| FdRuns.UndoKeeps | src/modules/fd-ledger/fd-ledger.service.ts:210-222 | deleting a break row keeps the ledger well formed |
| FdAllocation.CandidatesOrdered | src/modules/fd-ledger/fd-ledger.service.ts:143-151 | the lots a break may use come each once, earlier years first and within a year earlier months first |
| FdAllocation.BreakRowsTake | src/modules/fd-ledger/fd-ledger.service.ts:176-196 | the inserted rows take from each lot exactly what is still needed after the earlier lots are exhausted, capped by what it holds, and nothing from any other lot |
| FdAllocation.TakesSum | src/modules/fd-ledger/fd-ledger.service.ts:176-196 | the packets taken are all that was asked for, or all there is |
| FdAllocation.OldestFirst | src/modules/fd-ledger/fd-ledger.service.ts:145-196 | the rows of an accepted break take the packets asked for, from lots of the asked denomination at their price, and from a lot only when every such lot of an earlier year, or of an earlier month of its year, has given all its packets |
| FdRuns.SplitConsumption | src/modules/fd-ledger/fd-ledger.service.ts:143-196 | when q1 + q2 packets can be broken, so can q1 and then q2, and every lot gives the same packets either way |
| FdSummary.SplitBreak | src/modules/fd-ledger/fd-ledger.service.ts:143-202 | splitting a break changes neither the rupees paid out nor the summary nor the packets left in any lot |
| FdSummary.SplitAcceptedIff | src/modules/fd-ledger/fd-ledger.service.ts:135-174 | q1 and then q2 packets are accepted exactly when q1 + q2 are |
| FdRuns.UndoInverts | src/modules/fd-ledger/fd-ledger.service.ts:176-230 | undoing all rows of one break, in any order, restores the table |
| FdSummary.LotsMeaning | src/modules/fd-ledger/fd-ledger.service.ts:239-258 | the reported lots ascend strictly by amount, and an amount is listed exactly when its net packets are positive, with that figure |
| FdSummary.NetIsPerLot | src/modules/fd-ledger/fd-ledger.service.ts:239-264 | in a well-formed ledger the net totals are per-lot accounting, for packets, packets of one denomination and rupees |
| FdSummary.AvailableIsNet | src/modules/fd-ledger/fd-ledger.service.ts:147-164 | what the allocator has to give is the net figure of that choice of denomination |
| FdSummary.AcceptedIffShown | src/modules/fd-ledger/fd-ledger.service.ts:135-174 | a break is accepted exactly when it is positive and fits the figure the summary reports |
| FdSummary.ReceiptIsSummary | src/modules/fd-ledger/fd-ledger.service.ts:197-206 | the balances a break returns are those of the new ledger's summary, and balance plus broken rupees is unchanged |
| FdSummary.UndoConserves | src/modules/fd-ledger/fd-ledger.service.ts:210-230 | an undo returns exactly the rupees and packets by which the summary changes |
| FdSummary.FilterDropsNothing | src/modules/fd-ledger/fd-ledger.service.ts:255-264 | the listed lots add up to all remaining packets and all remaining rupees |
| FdLedgerServices.OrderedCandidates | src/modules/fd-ledger/fd-ledger.service.ts:143-151 | filtering the ordered rows yields the allocator's candidates |
| FdLedgerServices.OrderingKeepsFigures | src/modules/fd-ledger/fd-ledger.service.ts:143-160 | the order of the query changes no figure a break uses |
| FdLedgerServices.FdLedgerService.SummarizeEntries | src/modules/fd-ledger/fd-ledger.service.ts:232-265 | the fold over counters and a map computes the summary |
| FdLedgerServices.FdLedgerService.ConsumedBySource | src/modules/fd-ledger/fd-ledger.service.ts:152-160 | the map holds what each lot has given out |
| FdLedgerServices.FdLedgerService.AvailablePackets | src/modules/fd-ledger/fd-ledger.service.ts:161-164 | the reduction is the packets the candidates still hold |
| FdLedgerServices.FdLedgerService.InsertBreaks | src/modules/fd-ledger/fd-ledger.service.ts:176-196 | the loop appends exactly the allocated rows and adds up their rupees |
| FdLedgerServices.FdLedgerService.BreakPackets | src/modules/fd-ledger/fd-ledger.service.ts:129-208 | the call is the break transaction, and spelled out: the rows it adds take the asked packets oldest month first and pay the rupees of the receipt; it is rejected exactly for a bad quantity, a bad denomination or more packets than the summary shows; a rejected one changes nothing |
| FdLedgerServices.FdLedgerService.SyncContribution | src/modules/fd-ledger/fd-ledger.service.ts:78-127 | the call is the sync transaction: below its broken packets or repriced after a break a month is rejected, with that error; a rejected one changes nothing |
| FdLedgerServices.FdLedgerService.UndoBreak | src/modules/fd-ledger/fd-ledger.service.ts:210-230 | exactly break rows can be undone; an undo removes the one row and returns its rupees and packets |
| Payments.NormalizeCanonical | src/modules/monthly-plans/monthly-plans.service.ts:45-60 | whatever list arrives, stored goal payments have trimmed, non-blank ids and names |
| Payments.NormalizeStored | src/modules/monthly-plans/monthly-plans.service.ts:45-60 | reading a stored list back through the normaliser changes nothing |
| Payments.NormalizeList | src/modules/monthly-plans/monthly-plans.service.ts:45-60 | the schema check and the repair loop compute the normalised list |
| Payments.TrimMeans | src/modules/monthly-plans/monthly-plans.service.ts:45-60 | trimming cuts blanks off both ends, only blanks, and all of them |
| Payments.RepairOne | src/modules/monthly-plans/monthly-plans.service.ts:50-58 | a row the schema rejects is dropped without a usable id or amount; else its texts are trimmed and a blank name becomes the id |
| Payments.RepairEach | src/modules/monthly-plans/monthly-plans.service.ts:50-58 | a list the schema rejects is repaired one row after the other, in order |
| Payments.AcceptedRowStored | src/modules/monthly-plans/monthly-plans.service.ts:45-60 | a row the schema accepts is stored with its texts trimmed, in an accepted list and in a repaired one |
| Payments.LoansAllOrNothing | src/modules/monthly-plans/monthly-plans.service.ts:38-43 | loan payments are stored as sent when every row is usable, and not at all otherwise |
| Payments.ExpensesAllOrNothing | src/modules/monthly-plans/monthly-plans.service.ts:62-67 | custom expenses likewise |
| Payments.BanksAllOrNothing | src/modules/monthly-plans/monthly-plans.service.ts:68-72 | bank balances likewise |
| Payments.ListsStored | src/modules/monthly-plans/monthly-plans.service.ts:38-72 | stored loan payments, custom expenses and banks read back through their all-or-nothing normalisers unchanged |
| BooksInvariant.FullRequestStores | src/modules/monthly-plans/monthly-plans.service.ts:233-301 | a request that names every field stores exactly that plan, all lists, banks and remarks included, whatever was stored |
| BooksInvariant.MergedAsAsked | src/modules/monthly-plans/monthly-plans.service.ts:236-286 | field by field, for every request and stored month: a named number, remark or packet is stored as sent and a named list normalised; an omitted field keeps its value in an old month and is 0, empty text or empty in a new one; omitted custom expenses and banks are emptied |
| BooksInvariant.PlanAcceptedIff | src/modules/monthly-plans/monthly-plans.service.ts:287-309 | a request with a proper packet is accepted exactly when, with the month as saved, no asset has sold more than it holds and the month keeps its broken packets at their price; the first oversold asset is the error |
| BooksInvariant.PacketAcceptedIff | src/modules/monthly-plans/monthly-plans.service.ts:235-235 | a request carries a proper packet exactly when it omits it or names two non-negative numbers that are zero together |
| BooksInvariant.OmittedKeptIff | src/modules/monthly-plans/monthly-plans.service.ts:234-262 | an update keeps every field it omits exactly when it names the custom expenses or none are stored, and names the banks or none are stored |
| BooksInvariant.EmptyRequestKeepsIff | src/modules/monthly-plans/monthly-plans.service.ts:234-262 | in particular a request that names nothing empties those two and keeps the rest |
| BooksInvariant.PurchasedAfterPut | src/modules/investments/investments.service.ts:155-162 | the purchases validated for an edited month are the purchases of the plans as stored |
| BooksInvariant.PutKeepsMirror | src/modules/monthly-plans/monthly-plans.service.ts:295-309 | writing a plan and syncing its packet keeps contribution rows and plans equal month by month, for new and old months and with fd omitted |
| BooksInvariant.PlanKeeps | src/modules/monthly-plans/monthly-plans.service.ts:232-312 | a plan write, accepted or rejected, keeps all invariants |
| BooksInvariant.SellKeeps | src/modules/investments/investments.service.ts:80-110 | a sale keeps both asset balances non-negative |
| BooksInvariant.OpeningKeeps | src/modules/investments/investments.service.ts:182-218 | a validated opening balance keeps both asset balances non-negative |
| BooksInvariant.EveryRunSound | src/modules/investments/investments.service.ts:80-218 | over every run from empty books, with plan amounts of any sign and partial updates, no asset is sold below zero and the FD lots are the plans' packets |
| BooksInvariant.CurrentAfterPut | src/modules/monthly-plans/monthly-plans.service.ts:295-301 | the stored plan of the edited month is the saved one |
| BooksServices.MoneyServices.Upsert | src/modules/monthly-plans/monthly-plans.service.ts:232-312 | plan row, validation and FD sync are one transaction that a rejected sync rolls back; an accepted one leaves the month field by field as asked, the other months and tables as they were, and sound books |
| BooksServices.MoneyServices.Sell | src/modules/investments/investments.service.ts:80-110 | a sale is accepted exactly when positive and within the balance, and adds the one row |
| BooksServices.MoneyServices.UndoSale | src/modules/investments/investments.service.ts:112-130 | an undo removes the named sale and returns its amount and asset |
| BooksServices.MoneyServices.SetOpening | src/modules/settings/settings.service.ts:185-200 | opening balances change exactly when they still cover both assets' sales; the error names the asset that is not covered |
| BooksServices.MoneyServices.FundedAmount | src/modules/goals/goals.service.ts:225-246 | the nested loops add up the positive payments of one goal |
| BooksServices.MoneyServices.BreakGoal | src/modules/goals/goals.service.ts:164-202 | a goal break of the nearest whole rupees is accepted exactly when that is at least one rupee, the goal exists and still has so much; it adds the one move, and returns the new moved and remaining amounts of the goal |
| BooksServices.MoneyServices.UndoGoal | src/modules/goals/goals.service.ts:141-154 | an undo removes the named move and returns its goal and amount |
| BooksServices.MoneyServices.GetDashboardSummary | src/modules/monthly-plans/monthly-plans.service.ts:88-230 | the loops compute the corpus: stocks and MF are opening plus purchases minus sales of that asset, fd the net rupees of the ledger, liquid is cash plus goals plus fd, investment MF plus stocks, total both; and the stash, the current plan, the FD summary, what each loan was paid and what remains of all loans |
| Dashboard.ContributedIsPlanned | src/modules/fd-ledger/fd-ledger.service.ts:108-124 | the rupees ever contributed to the FD ledger are the sum over the plans |
| Dashboard.TotalFormula | src/modules/monthly-plans/monthly-plans.service.ts:163-181 | in every reachable state the total is a plan-only base plus the larger of goal funding and moved goal money |
| Buckets.FdBreakMoves | src/modules/fd-ledger/fd-ledger.service.ts:129-208 | an accepted FD break moves the rupees of its receipt from fd to cash, and no other figure of the corpus |
| Buckets.FdUndoMoves | src/modules/fd-ledger/fd-ledger.service.ts:210-230 | undoing a break row moves its packets times their price back |
| Buckets.SaleMoves | src/modules/investments/investments.service.ts:80-110 | an accepted sale moves its amount from its own asset and the investments to cash and the liquid money |
| Buckets.SaleUndoMoves | src/modules/investments/investments.service.ts:112-130 | undoing it moves the amount back into that asset |
| Buckets.GoalBreakMoves | src/modules/goals/goals.service.ts:164-202 | an accepted break of a covered goal moves the nearest whole rupees from the goals to cash |
| Buckets.GoalUndoMoves | src/modules/goals/goals.service.ts:141-154 | undoing it moves the amount back to the goals |
| Buckets.OpeningMoves | src/modules/investments/investments.service.ts:182-218 | new opening balances move each bucket by the change of its own balance |
| Buckets.MonthAdds | src/modules/monthly-plans/monthly-plans.service.ts:122-161 | what one more month adds to purchases, savings, goal funding, FDs, stash, deficits, and to each goal and loan |
| Buckets.PaymentAdds | src/modules/goals/goals.service.ts:225-246 | one more payment adds to its own goal, when positive, and to its own loan |
| Buckets.LoanAdds | src/modules/monthly-plans/monthly-plans.service.ts:182-186 | one more loan adds its principal less what was paid to it, and never less than nothing |
| Dashboard.MoneyMoveTotalIff | src/modules/monthly-plans/monthly-plans.service.ts:163-181 | told before the call: an FD break, sale or undo of them keeps the total; a goal break keeps it exactly when it is rejected or stays within the tenant's goal funding, its undo exactly when nothing is undone or moved money was within funding |
| Dashboard.UndoCanMoveTotal | src/modules/goals/goals.service.ts:141-154 | fund a goal, move the money out, take the funding back: undoing the move changes the total |
| Dashboard.BreakCanMoveTotal | src/modules/goals/goals.service.ts:164-202 | fund a goal, move the money out, plan it for another goal instead: moving it out of that one too changes the total |
| Dashboard.TotalByMonth | src/modules/monthly-plans/monthly-plans.service.ts:139-181 | in every reachable state, with amounts of any sign, the total is the opening balances plus, for each month, the smaller of what it sets aside and what its income leaves over, plus goal money moved beyond all funding |
| Dashboard.ClampIdle | src/modules/monthly-plans/monthly-plans.service.ts:133-163 | when every goal is covered, the clamp on the goal figure never fires |
| Dashboard.FundingPartition | src/modules/goals/goals.service.ts:234-243 | funding summed over distinct goals is within the dashboard's goal funding, and equals it when every funded goal is among them |
| Dashboard.MoneyMoveCovered | src/modules/goals/goals.service.ts:164-202 | every transaction that leaves the plans alone keeps each goal's moves within its funding |
| Dashboard.CorpusConserved | src/modules/monthly-plans/monthly-plans.service.ts:127-181 | no run of FD breaks, goal breaks, sales and undos changes the corpus total when moved goal money is within goal funding at both ends |
| Dashboard.CoveredConserved | src/modules/goals/goals.service.ts:164-202 | in particular from a state in which each goal is covered, a condition such runs keep |
| Interleaving.DecideFrame | src/modules/investments/investments.service.ts:140-154 | a transaction's decision depends only on the tables it reads |
| Interleaving.WritesGuarded | src/modules/fd-ledger/fd-ledger.service.ts:267-269 | while one client may commit, no other may read a table it writes |
| Interleaving.PlanChecked | src/modules/monthly-plans/monthly-plans.service.ts:287-309 | a plan write that validated under one lock and synced under the other is the atomic plan write |
| Interleaving.StepRefines | src/modules/fd-ledger/fd-ledger.service.ts:86-108 | each step keeps the locking invariant and changes the tables only by committing one atomic transaction on them |
| Interleaving.Serializable | src/modules/investments/investments.service.ts:85-102 | every interleaving of any number of clients equals its committed transactions in commit order |
| Progress.AcceptedCommits | src/modules/investments/investments.service.ts:80-110 | while no other client holds a lock, an idle client on its own can commit every accepted transaction: the tables are then the atomic ones, the other clients as they were |
| Progress.CommittedAccepted | src/modules/investments/investments.service.ts:80-110 | over every schedule each committed transaction was accepted on the tables it found |
| Progress.RejectedNeverCommits | src/modules/investments/investments.service.ts:90-94 | a client whose transaction is rejected commits nothing on its own, whatever it steps through |
| Interleaving.EveryScheduleSound | src/modules/fd-ledger/fd-ledger.service.ts:141-222 | every schedule from empty books keeps the FD and investment invariants |
| Interleaving.NoDeadlock | src/modules/monthly-plans/monthly-plans.service.ts:287-309 | whenever a client waits for a lock, some running client does not wait or can take the lock it waits for |
| SettingsWriteBack.WriteBackSolventIff | src/modules/settings/settings.service.ts:117-202 | an unlocked write-back of the balances read before a run of transactions is sound exactly when, per asset, that run sold net of its purchases at most the balance at the read |
| SettingsWriteBack.WriteBackAmongClients | src/modules/settings/settings.service.ts:117-202 | the same over the interleaved steps of any number of clients |
| SettingsWriteBack.WriteBackHarmless | src/modules/settings/settings.service.ts:142-202 | a write-back changes nothing when nobody set an opening balance since the read |
| SettingsWriteBack.WriteBackCanOversell | src/modules/settings/settings.service.ts:117-202 | a run in which the unlocked write-back leaves a negative balance |
| CcTxnImport.KeyIdentifies | src/modules/import-jobs/services/cc-txn-import.service.ts:792-802 | two mails share a dedupe key exactly when their trimmed ids are equal |
| CcTxnImport.StoreTxnGrows | src/modules/import-jobs/services/cc-txn-import.service.ts:587-630 | an insert adds at most its own key, never a taken one under the constraint, and inserted or duplicate means the key is stored |
| CcTxnImport.ProcessGrows | src/modules/import-jobs/services/cc-txn-import.service.ts:632-723 | one message adds at most its own unseen key and touches only its own failure rows |
| CcTxnImport.ProcessAccounts | src/modules/import-jobs/services/cc-txn-import.service.ts:632-723 | a message whose processing returns is stored or has an OPEN failure row |
| CcTxnImport.DrainAccounts | src/modules/import-jobs/services/cc-txn-import.service.ts:246-297 | a drain that reaches its end has accounted for every message, the same mail twice included |
| CcTxnImport.WatermarkSafe | src/modules/import-jobs/services/cc-txn-import.service.ts:204-312 | however a live run ends, a watermark that moved covers only accounted messages and is the newest time among them, above the old one; a run that returned moved it, one that died before its last call took effect did not |
| CcTxnImport.WatermarkMovesIff | src/modules/import-jobs/services/cc-txn-import.service.ts:299-301 | the watermark moves exactly when a live run with something due reaches its last call and that call takes effect, and then the run raises exactly when the call fails all the same |
| CcTxnImport.MovedThoughRaised | src/modules/import-jobs/services/cc-txn-import.service.ts:562-585 | a run of one message that raises with its watermark moved |
| CcTxnImport.DryRunStoresNothing | src/modules/import-jobs/services/cc-txn-import.service.ts:675-678 | a dry run stores no transaction and moves no watermark, however it ends |
| ImportHistory.HistoryPersists | src/modules/import-jobs/services/import-failure.service.ts:19-122 | over any history with crashes anywhere, transactions and failure rows only accumulate |
| ImportHistory.HistoryHonest | src/modules/import-jobs/services/import-failure.service.ts:81-122 | a RESOLVED failure of a message is a stored transaction after any history of serial jobs in which no replay selects that message twice |
| ImportHistory.NeverStoredTwice | src/modules/import-jobs/services/cc-txn-import.service.ts:670-685 | over any history of serial jobs, repeated mail and repeated selections included, at most one transaction carries a key, under the constraint or while at most 10000 keys are stored |
| ImportHistory.StoredAgainIff | src/modules/import-jobs/services/cc-txn-import.service.ts:670-685 | in every environment, whatever the parsers make of it and whatever keys were loaded: a message ends up stored twice exactly when its insert takes effect, there is no constraint and it was stored |
| ImportHistory.RaceStoresOnceIff | src/modules/import-jobs/import-jobs.service.ts:185-194 | an import and a replay that each loaded stored keys and then process one message store it once exactly under the constraint or when both had loaded its key |
| OverlapRuns.OverlapStoresOnce | prisma/schema.prisma:260-260 | under the constraint no schedule of overlapping imports, replays and ignores stores a message twice |
| OverlapSafety.OverlapHonest | src/modules/import-jobs/import-jobs.service.ts:185-204 | over every schedule of overlapping runs a RESOLVED failure of a message is stored, when each replay selects it at most once |
| OverlapSafety.OverlapNeverLost | src/modules/import-jobs/services/cc-txn-import.service.ts:217-301 | once a live import has come to its last call, every due message is stored or on its bank's failure list, then and over every schedule of overlapping runs that follows, when each replay selects it at most once |
| OverlapSafety.OverlapWatermark | src/modules/import-jobs/services/cc-txn-import.service.ts:299-301 | among overlapping runs a watermark moves only in the last call of an import, to the newest time of its due messages |
| Overlap.MessageAloneIsProcess | src/modules/import-jobs/services/cc-txn-import.service.ts:632-723 | handling one message call by call, with no other run in between, is processMessage |
| OverlapAlone.ImportAlone | src/modules/import-jobs/services/cc-txn-import.service.ts:204-312 | an import call by call on its own ends in the tables and the way of the folder run |
| OverlapAlone.ReplayAlone | src/modules/import-jobs/services/cc-txn-import.service.ts:324-418 | and so does a replay |
| OverlapAlone.IgnoreAlone | src/modules/import-jobs/services/cc-txn-import.service.ts:426-440 | and so does an ignore |
| OverlapAlone.AloneIsSchedule | src/modules/import-jobs/import-jobs.service.ts:108-148 | running alone is a schedule that names one run again and again |
| MessageSafety.NeverLost | src/modules/import-jobs/services/cc-txn-import.service.ts:217-301 | a due message of a live run that returned or moved the watermark is, after any later history of serial jobs and from any tables, stored, or some failure row of it under some bank key is not RESOLVED, whatever messages the replays select |
| MessageSafety.ReplaySafe | src/modules/import-jobs/services/cc-txn-import.service.ts:344-407 | a replay keeps that for every message, also one it selects under several bank keys |
| ImportHistory.NeverLostUnderBank | src/modules/import-jobs/services/cc-txn-import.service.ts:217-301 | under its own bank key the same holds when no replay selects the message twice |
| ImportHistory.PolledCoveredIff | src/modules/import-jobs/services/cc-txn-import.service.ts:216-220 | after a live run that returned, a polled message is stored or on the failure list exactly when it was received after the old watermark or was so before |
| ImportHistory.LateMailUncovered | src/modules/import-jobs/services/cc-txn-import.service.ts:217-220 | a run that returns with a polled message below the watermark neither stored nor on the failure list |
| ImportHistory.StatsPartition | src/modules/import-jobs/services/cc-txn-import.service.ts:226-303 | the folder's counters add up to its due messages |
| ImportOutcomes.Unmatched | src/modules/import-jobs/services/cc-txn-import.service.ts:640-668 | without faults: a mail that cannot be parsed, is not understood or is of no card of the wallet leaves its failure row of that type, and no key |
| ImportOutcomes.Matched | src/modules/import-jobs/services/cc-txn-import.service.ts:670-716 | without faults: a mail of a wallet card is a duplicate, a dry insert, a missing card or a new transaction with the key EMAIL:: and its trimmed id, exactly under these conditions |
| ImportOutcomes.InsertFails | src/modules/import-jobs/services/cc-txn-import.service.ts:587-630 | when only the insert fails, the row says WRITE_FAILED, and the key is stored exactly when the insert took effect |
| ImportOutcomes.FolderStores | src/modules/import-jobs/services/cc-txn-import.service.ts:204-312 | a live run without faults returns, stores exactly the new trimmed ids whose first use is of a card with a row, counts them as inserted, and sets the watermark to the newest due time |
| ImportOutcomes.NewMailStored | src/modules/import-jobs/services/cc-txn-import.service.ts:670-716 | in particular a due mail of a stored card, whose trimmed id no earlier due mail carries and whose key is not stored, is stored and counted |
| ImportOutcomes.DueIs | src/modules/import-jobs/services/cc-txn-import.service.ts:217-220 | due is every polled mail above the folder's own watermark, without one above that of its legacy key, without either all of it |
| ImportOutcomes.DrainTallies | src/modules/import-jobs/services/cc-txn-import.service.ts:240-297 | each counter of a folder is the number of its answers of that kind, in every environment |
| ImportOutcomes.ReplaySettles | src/modules/import-jobs/services/cc-txn-import.service.ts:344-407 | without faults: a replayed failure ends RESOLVED and is counted so exactly when its mail is found, is of a wallet card and is stored or seen; otherwise it ends OPEN, counted as not found when the mail is gone; one attempt either way |
| ImportOutcomes.TallyIs | src/modules/import-jobs/services/cc-txn-import.service.ts:339-417 | each counter of a replay, overall and of one bank, is the number of failures with that outcome |
| ImportOutcomes.IgnoreSets | src/modules/import-jobs/services/cc-txn-import.service.ts:426-440 | without faults an ignore sets exactly the selected rows to IGNORED |
| ReplaySafety.ReplaySoundIff | src/modules/import-jobs/services/cc-txn-import.service.ts:344-407 | for any selection of failures and any message: a replay leaves RESOLVED honest for it under all faults, answers and stores exactly when the selection holds it at most once |
| ReplaySafety.ReplayTwiceUnsound | src/modules/import-jobs/services/cc-txn-import.service.ts:670-675 | one replay with a message under two bank keys can resolve a failure that is not stored |
| CcTxnImport.UpsertReopens | src/modules/import-jobs/services/import-failure.service.ts:42-78 | recording a failure leaves its row OPEN with the new type, with one attempt if it is new and its old count otherwise, and no other row changed |
| CcTxnImport.ProcessKeepsRows | src/modules/import-jobs/services/cc-txn-import.service.ts:632-723 | processing a message counts no attempt, adds only OPEN rows and changes others only to OPEN, or to RESOLVED for the replayed one |
| ReplayCounts.ReplayTriesEach | src/modules/import-jobs/services/import-failure.service.ts:81-122 | a replay that returns has counted one attempt for each selected failure, none for any other, and left none of the selected ones RETRYING |
| ImportServices.ChunksCover | src/modules/import-jobs/services/cc-txn-import.service.ts:997-1003 | chunking loses and reorders nothing |
| ImportServices.ChunkMessages | src/modules/import-jobs/services/cc-txn-import.service.ts:997-1003 | the slicing loop yields non-empty chunks of at most the batch size that concatenate to the messages |
| ImportServices.CcTxnImportService.UpsertFailure | src/modules/import-jobs/services/import-failure.service.ts:19-79 | the read and write of a failure row, with their faults |
| ImportServices.CcTxnImportService.UpsertTransaction | src/modules/import-jobs/services/cc-txn-import.service.ts:587-630 | the insert with its three answers and its faults |
| ImportServices.CcTxnImportService.ProcessMessage | src/modules/import-jobs/services/cc-txn-import.service.ts:632-723 | the try/catch of one message is its run, with the same outcome, store and seen keys |
| ImportServices.CcTxnImportService.ResolveWindow | src/modules/import-jobs/services/cc-txn-import.service.ts:519-543 | the folder's own watermark wins over the legacy one |
| ImportServices.CcTxnImportService.DrainMessages | src/modules/import-jobs/services/cc-txn-import.service.ts:240-297 | the batched loops are one drain of all messages, and track the newest receive time |
| ImportServices.CcTxnImportService.RunImportForBank | src/modules/import-jobs/services/cc-txn-import.service.ts:204-312 | the service call is the folder run, however it ends |
| ImportServices.CcTxnImportService.RetryFailures | src/modules/import-jobs/services/cc-txn-import.service.ts:324-418 | the replay loop is the replay run, and its counters, overall and per bank, are the tallies of its outcomes |
| ImportServices.TallyPartitions | src/modules/import-jobs/services/cc-txn-import.service.ts:339-417 | resolved, still open and not found add up to attempted, overall and bank by bank, and overall to the selected failures |
| ImportServices.CcTxnImportService.RetryOneFailure | src/modules/import-jobs/services/cc-txn-import.service.ts:344-407 | one replayed failure, from RETRYING to RESOLVED or back to OPEN |
| ImportLock.ImportLockService.Acquire | src/modules/import-jobs/services/import-lock.service.ts:8-27 | alone on the table, acquiring succeeds exactly when no unexpired row is there |
| ImportLock.ImportLockService.Release | src/modules/import-jobs/services/import-lock.service.ts:29-33 | a release removes the job's row, unless it names another owner |
| ImportLock.AcquiresAlone | src/modules/import-jobs/services/import-lock.service.ts:8-27 | statement by statement and with nothing in between, a run gets the lease exactly when the job has no row or an expired one, and else changes nothing |
| ImportLock.LeaseSafety | src/modules/import-jobs/services/import-lock.service.ts:8-33 | in every interleaving with punctual holders at most one run per job holds the lease, whichever way runs release |
| ImportLock.LeaseSafetyFromStart | src/modules/import-jobs/import-jobs.service.ts:115-147 | the same from an empty table, for any number of runs |
| ImportLock.ReleaseSafeIff | src/modules/import-jobs/services/import-lock.service.ts:29-33 | a release leaves every live holder its row exactly when no other live holder of the job exists, or the release is scoped and those have other owners |
| ImportLock.ScopedSafety | src/modules/import-jobs/import-jobs.service.ts:371-401 | with owner-scoped releases and distinct owners no two runs of a job ever hold an unexpired lease, however late they are |
| ImportLock.ToleratesLatenessIff | src/modules/import-jobs/import-jobs.service.ts:115-147 | for every length of lease: a kind of runs excludes each other on every schedule, however late, exactly when it releases by owner and owners are distinct |
| ImportLock.UnscopedUnsafe | src/modules/import-jobs/import-jobs.service.ts:145-147 | for every length of lease, a schedule of three transaction imports, one late, after which two hold an unexpired lease |
| Pagination.WalkDelivers | src/infrastructure/repositories/prisma-transaction.repository.ts:124-166 | following the cursor ends and delivers exactly the rows its condition selects, once and in order |
| Pagination.PageIs | src/infrastructure/repositories/prisma-transaction.repository.ts:144-166 | a page holds the newest wanted rows up to the limit, says that there are more exactly when there are, counts all rows, and its cursor is the time (or date) and id of its last row |
| Pagination.CompleteIff | src/infrastructure/repositories/prisma-transaction.repository.ts:124-166 | the walk from the start delivers every row once in listing order exactly when the row closing the first page has a timestamp, is the last, or all later rows lie below its fallback date |
| Pagination.DatedComplete | src/infrastructure/repositories/prisma-transaction.repository.ts:144-166 | with timestamps everywhere the walk is complete for every page size |
| Pagination.UndatedRowLost | src/infrastructure/repositories/prisma-transaction.repository.ts:162-164 | three rows without timestamps and pages of two lose the third |
| Pagination.NeverTwice | src/infrastructure/repositories/prisma-transaction.repository.ts:124-166 | a walk over a still table is in strict listing order and delivers no row twice, dated or not |
| Pagination.StableRowsDelivered | src/infrastructure/repositories/prisma-transaction.repository.ts:124-166 | while rows come and go between pages, dated or not, no row is delivered twice; rows present throughout are all delivered when the first page closes with a dated row |
| Pagination.StableDeliveredIff | src/infrastructure/repositories/prisma-transaction.repository.ts:130-164 | a row present throughout is delivered by a finished walk exactly when it stood on the first page or lies below the cursor that closed it |
| EffectiveAmount.EffectiveForCalendarMonth | src/modules/transactions/domain/effective-amount.ts:31-55 | the loop over months is membership of the month in the span of the transaction |
| EffectiveAmount.AcceptedIsValidated | src/modules/transactions/services/transaction-adjustment.service.ts:34-49 | every accepted adjustment reads back as a validated one |
| EffectiveAmount.AcceptedCounts | src/modules/transactions/domain/effective-amount.ts:17-55 | which adjustments are accepted, and that then an exclusion counts nothing, a split its share in its cycle and month, an amortisation an n-th in its cycle and in each of its n months |
| EffectiveAmount.RoundsToPaise | src/modules/transactions/domain/effective-amount.ts:9-11 | rounding yields the nearest whole paise, halves up |
| EffectiveAmount.CalendarTotal | src/modules/transactions/domain/effective-amount.ts:31-55 | summed over months, the calendar amounts are the span times the cycle amount |
| EffectiveAmount.ViewsAgreeIff | src/modules/transactions/domain/effective-amount.ts:17-55 | the two views agree exactly when the adjustment is not an amortisation under two months, or the amount rounds to nothing |
| EffectiveAmount.AmortisedTotalClose | src/modules/transactions/domain/effective-amount.ts:9-54 | an amortised total is within n/2 paise of the rounded original |
| CardSummary.OutsideCountsNothing | src/modules/transactions/services/card-cycle-summary.service.ts:241-250 | a validated transaction outside the queried window has no share in this month |
| CardSummary.OneMore | src/modules/transactions/services/card-cycle-summary.service.ts:260-282 | one more transaction adds to its own card only: its amount in its own month, and what counts of it in this one |
| CardSummary.WindowWideEnoughIff | src/modules/transactions/services/card-cycle-summary.service.ts:241-241 | the window suffices exactly for amortisations of up to 61 months |
| CardSummary.PrunedExact | src/modules/transactions/services/card-cycle-summary.service.ts:238-282 | per card, the sums over the query are the sums over all transactions ever |
| CardSummary.ComputeCalendarMonthByCard | src/modules/transactions/services/card-cycle-summary.service.ts:233-289 | the loop over the pruned query yields each card's rounded raw and effective spend over all transactions |

## Left out

- Money is integers in the smallest unit in the ledgers and exact reals in the amortisation; Decimal columns, IEEE doubles and the epsilon of the rounding are not modelled.
- Trimming knows four blank characters, not every Unicode one.
- Break quantities and amounts that are not finite integers or numbers are rejected by the service and cannot be written here, except in packets and goal payments, where they are modelled.
- GetDashboardSummary: returns the loans' totals, but not their descriptive fields; the period outlook and plan listings are queries only.
- Dashboard reads are taken from one snapshot; the service reads its tables side by side without a transaction.
- The set of goals is fixed during a run; creating and closing goals is simple row keeping.
- `MoneyServices` methods run one at a time; `Interleaving` is where their steps interleave, on values.
- Settings writes other than the opening balances; the unlocked write-back is modelled beside `Interleaving`, over what other clients commit between its read and its write.
- Every parser sets the mail id of a transaction to the id of its message, so only keys of the EMAIL kind arise; REF and FALLBACK keys are not modelled.
- Gmail, Gemini, regular expressions and PDF decryption are arbitrary oracles; poll start dates, which only narrow the query, and waits between batches are not modelled.
- Which failures a replay selects is arbitrary; the folder that a bank key stands for is part of the selected item.
- Run rows and run-level aggregates; the aggregate is no partition of the messages.
- NeverLost: is about jobs that run one after the other; of overlapping ones OverlapNeverLost promises it when each replay selects the message at most once.
- OverlapNeverLost: leaves out the counters of a run, which no other run sees, and leases, which are in ImportLock.
- Moving a watermark by hand, which may skip messages, and clearing locks at startup, which assumes that nothing runs.
- DryRunStoresNothing: does not say that a dry run writes nothing, because the code records failure rows in a dry run too.
- The cursor's text encoding, the filter of a listing and its total beyond the row count.
- Ids of transactions are compared as integers; the database compares text, also by a total order.
- Billing-cycle windows, statements and time zones; a date is its calendar month in the card summary.
- NormalizeList: rows are JSON values split into text, number and other, with what String() and Number() make of the others given as input.
