# Point-of-sale back end: model and proofs

A Dafny model of the cores that decide money, stock, permissions and evidence in a point-of-sale
back end of cloud functions over a document store.

Five parts, hardest first:

- **Returns** (`Allocation`, `Refund`, `Lots`, `Sale`, `Evidence`, `Returns`, `ReturnRuns`, `ReturnAcceptance`,
  `ReturnRefusals`, `FreeSale`, `Supported`): a bill discount and a fee allocated over lines by largest remainder,
  cumulative round-half-up refunds, the FIFO units that come back, and the per-sale ledger over any number of partial
  returns.
- **Stock** (`Fifo`, `SharedLots`, `Settlement`, `SettleReturn`, `TransferReversal`, `SettleOnce`, `Reconcile`):
  in-place lot cutting shared by several lines, merged writes, oversell, at-least-once delivery with administrator
  retry, and the round trip from settlement to return.
- **Protocols over shared documents** (`RolePermissions`, `Adjudication`, `EvidenceCapture`, `EvidenceOrder`,
  `UserAccounts`, `AccountEffects`): each transaction is one atomic step, and the theorems hold over every interleaving.
- **Shift close** (`ShiftClose`, `CloseMeaning`): the strict fold of the cash drawer and the refund audit that
  implies the drawer equation.
- **Binary frames** (`Bytes`, `Paa1`, `Oks1`, `FrameLayout`): printers and strict parsers, and where each field stands.

`Wrappers` and `Arithmetic` hold shared helpers. Each stateful part has a class with the documents as fields
and one method per transaction; a method's contract equates the new state with a function of the old one,
and the lemmas are about runs of that function.

Conventions: money is integer satang, quantities are integer milli-units, a unit factor is an exact positive
rational, and the base quantity of a quantity is defined exactly when the product is an integer. Hashes are
injective, signatures and clocks are parameters.

## What does not hold as written

- A fully returned sale refunds exactly what was paid iff its subtotal is positive or its fee is zero: with a zero
  subtotal no line carries the fee (`ReturnRuns.MoneyConserved`, `FreeSale.FeeOfFreeSaleKept`).
- The largest-returnable-quantity search gives up after 1000 steps; with a factor finer than 0.001 it can answer
  zero although a return is possible (`Supported.FinerFactorMissed`; the exact condition is in
  `Supported.MaxSupportedReturnQty`).
- A transfer with a negative item can fit the counter and the lots in total and still be refused for a lot shortfall
  (`TransferReversal.NegativeItemHidesShortfall`).
- An exception patch that lands after a settlement leaves the order reading "exception" for good, although its
  effects are in place (`SettleOnce.StatusAfterEffects`, `SettleOnce.NeverSettledAgain`).
- The adjudication record of an approval made after its order's day is unreadable from the start, and so is one
  completed by a relay that started before the consuming one; a non-decreasing clock alone does not prevent the
  latter (`Adjudication.LateApprovalUnreadable`, `Adjudication.EarlierStarterBreaksReplay`).
- The stored evidence of a shift close is not independent of delivery order: the hash that names it rounds money to
  satang and omits the close time, so of two captures with one id the first delivered is kept. Everything a replay
  checks is confluent (`EvidenceOrder.Confluent`); the documents agree iff the first contents do
  (`EvidenceOrder.SameEvidenceIff`, `EvidenceOrder.SameDocumentsIff`, `EvidenceOrder.HashMissesCloseTime`).
- Renaming a deleted account reserves a name nobody live holds (`UserAccounts.DeletedHolderIffRenamed`,
  `UserAccounts.DeletedHolderBlocksName`).
- The code comments call the frame decoders strict, but they drop the high bit of the magic, so bytes other than the
  printed ones are accepted; the key-set reader does the same to key ids (`Paa1.EncodeDecodeIff`,
  `Oks1.EncodeDecodeIff`).

## Model

| member | source | states |
|---|---|---|
| `Allocation.AllocateProportional` | functions/src/saleReturnCore.ts:406-422 | the in-place base/leftover loop returns the largest-remainder allocation; parts sum to the amount iff some weight is positive or the amount is zero |
| `Allocation.AllocationUnique` | functions/src/saleReturnCore.ts:406-422 | floors, remainders and the tie-break by index determine one allocation |
| `Allocation.QuotaBounds` | functions/src/saleReturnCore.ts:406-422 | each part is the floor or the ceiling of its exact quota |
| `Allocation.PartWithinWeight` | functions/src/saleReturnCore.ts:406-422 | an amount of at most the sum of weights gives no part above its weight |
| `Refund.RoundsHalfUp` | functions/src/saleReturnCore.ts:771-777 | the cumulative refund is the one integer r with r - 1/2 <= share * returned / sold < r + 1/2 |
| `Refund.CumulativeMonotone` | functions/src/saleReturnCore.ts:771-777 | the cumulative refund never falls as more comes back |
| `Refund.CumulativeBounds` | functions/src/saleReturnCore.ts:771-777 | it stays between zero and the share and reaches the share exactly at the sold quantity |
| `Refund.RefundsTelescope` | functions/src/saleReturnCore.ts:779-789 | two returns refund together what one return of both refunds |
| `Lots.PlanLotRestoration` | functions/src/saleReturnCore.ts:811-833 | the cursor loop computes the restoration, and refuses exactly a negative offset, a non-positive quantity or an overrun |
| `Lots.RestorationIsSlice` | functions/src/saleReturnCore.ts:811-833 | its portions, expanded unit by unit, are exactly the sold units at offsets [previous, previous + qty) |
| `Lots.RestorationsConcatenate` | functions/src/saleReturnCore.ts:811-833 | two successive restorations bring back, in order, the units one larger restoration would |
| `Lots.OversellFreeBaseEnd` | functions/src/saleReturnCore.ts:840-847 | the loop finds the length of the oversell-free prefix |
| `Lots.OversellFreeEndMeaning` | functions/src/saleReturnCore.ts:840-847 | no unit before that offset is oversold and the unit at it, if any, is |
| `Lots.OversellGuard` | functions/src/saleReturnCore.ts:990-1009 | a restoration starting in the prefix touches oversold stock iff it ends beyond it |
| `Sale.ExactBaseMeaning` | functions/src/saleReturnCore.ts:136-144 | the base quantity is defined exactly when quantity times factor is an integer, and is that integer |
| `Sale.ExactBaseAdds` | functions/src/saleReturnCore.ts:136-144 | exact base quantities of two returns add up to that of their sum |
| `Sale.ShareNonNegative` | functions/src/saleReturnCore.ts:561-572 | every refundable share of valid evidence is non-negative |
| `Sale.SharesSum` | functions/src/saleReturnCore.ts:561-572 | the shares add up to at most the sale total, and to exactly it iff there is a subtotal or no fee |
| `Evidence.ParseLots` | functions/src/saleReturnCore.ts:511-545 | accepts exactly lists of well-formed lot references, keeps them in order and adds up their quantities |
| `Evidence.NetPaid` | functions/src/saleReturnCore.ts:484-505 | accepts exactly payments whose tenders net of change add up to the total; each tender keeps the sum of the amounts paid with it, cash less the change; a refusal names the first bad payment or the sum |
| `Evidence.ParseLine` | functions/src/saleReturnCore.ts:511-560 | accepts exactly complete lines whose factor, quantities and lots agree; a refusal names the first check that fails |
| `Evidence.ParseSaleEvidence` | functions/src/saleReturnCore.ts:433-609 | accepts exactly acceptable documents; what it returns is valid evidence carrying the document's own figures and, tender by tender, its payments; a refusal names money, then payments, then lines |
| `Returns.LedgerConsistentWithSale` | functions/src/saleReturnCore.ts:672-708 | the early-exit loops decide exactly the consistency predicate over lines, tenders and totals |
| `Returns.FirstFailureDecides` | functions/src/saleReturnCore.ts:988-1048 | the first failing line decides the code, whatever follows |
| `Returns.PlanEachLine` | functions/src/saleReturnCore.ts:988-1048 | the first loop returns the planned lines and their refund and revenue sums, or the first failure |
| `Returns.AdvanceLines` | functions/src/saleReturnCore.ts:1066-1078 | the second loop advances exactly the planned entries of the copied ledger |
| `Returns.PlanSaleReturn` | functions/src/saleReturnCore.ts:978-1096 | the whole planner in order; which requests it accepts and refuses, and what it moves, is in `ReturnAcceptance` and `ReturnRefusals` |
| `ReturnRuns.PlanLineAccepts` | functions/src/saleReturnCore.ts:990-1009 | a line is accepted exactly when enough is left, the base is exact and no oversold unit is touched |
| `ReturnRuns.ReturnKeepsSound` | functions/src/saleReturnCore.ts:978-1096 | an accepted request keeps the sound-ledger invariant |
| `ReturnRuns.RunConsistent` | functions/src/saleReturnCore.ts:672-708 | after any run of valid requests from the empty ledger the ledger passes the consistency check |
| `ReturnRuns.TotalCapNeverFires` | functions/src/saleReturnCore.ts:1050-1064 | at a sound ledger the sale-total cap can never be what rejects a request |
| `ReturnRuns.MoneyConserved` | functions/src/saleReturnCore.ts:757-789 | over any run the refunded total stays within the shares and the sale total; once fully returned it is the total, and every tender got its net payment back, iff subtotal > 0 or fee = 0 |
| `ReturnAcceptance.RequestAcceptedIff` | functions/src/saleReturnCore.ts:978-1064 | at a sound ledger a valid request is accepted iff something is still out, every named line is in range with its product and acceptable quantity, the expected refund is the sum of the lines' cumulative differences, and either nothing is due and no tender named or the named tender still covers it and is cash or has a reference |
| `ReturnAcceptance.AcceptedMoves` | functions/src/saleReturnCore.ts:1066-1086 | an acceptance moves exactly its own lines, its own tender, the totals and the id list, each by its own figure |
| `ReturnAcceptance.PlanFigures` | functions/src/saleReturnCore.ts:988-1048 | the plan's refund and revenue are the sums of cumulative differences, and each planned line restores the next slice of its sold units |
| `ReturnAcceptance.RestCanBeReturned` | functions/src/saleReturnCore.ts:978-1096 | progress: after any run an oversell-free sale paid with one tender accepts the request for all the rest, cash without a reference, and is then fully returned |
| `ReturnAcceptance.TendersGetBack` | functions/src/saleReturnCore.ts:757-789 | once fully returned each tender has got back the sum of what was paid with it, less the change if it is cash |
| `ReturnRefusals.NotEligibleIff` | functions/src/saleReturnCore.ts:987 | exactly a sale with nothing out is not eligible |
| `ReturnRefusals.FirstBadLineAnswers` | functions/src/saleReturnCore.ts:990-1016 | the first line that cannot come back decides: misnamed, more than is out, no exact base, or into oversold units |
| `ReturnRefusals.MoneyAnswers` | functions/src/saleReturnCore.ts:1050-1064 | with every line acceptable the answer is decided by the sum, then the tender, its cap and its reference, each exactly |
| `ReturnRuns.RestoredIsPrefix` | functions/src/saleReturnCore.ts:811-833 | over any run, what came back of a line is exactly a prefix of its sold units in FIFO order, no unit twice |
| `ReturnRuns.OversoldNeverRestored` | functions/src/saleReturnCore.ts:990-1009 | no run restores an oversold unit |
| `ReturnRuns.LotNeverOverRestored` | functions/src/saleReturnCore.ts:811-833 | no run restores more of a lot than was sold from it; a full return restores all units |
| `Supported.StartIsTight` | functions/src/saleReturnCore.ts:854-869 | accepted quantities are exactly the multiples of the factor's period up to the search start |
| `Supported.MaxSupportedReturnQty` | functions/src/saleReturnCore.ts:854-869 | the countdown returns the largest accepted quantity iff the nearest multiple lies within 1000 steps of the start |
| `Supported.ThreeDecimalsSuffice` | functions/src/saleReturnCore.ts:854-869 | for every factor that is a multiple of 0.001, however written, the 1000 steps always suffice |
| `Supported.FinerFactorMissed` | functions/src/saleReturnCore.ts:854-869 | with factor 3/2000 a returnable quantity exists and the search still answers zero |
| `FreeSale.FeeOfFreeSaleKept` | functions/src/saleReturnCore.ts:561-572 | one free line and a fee of ten: fully returned, nothing refunded |
| `Fifo.PlanFifoCutFromState` | functions/src/fifo.ts:43-60 | walking the lots in place leaves exactly the cut lots, the recorded cuts and the remainder |
| `Fifo.LeftIsExcess` | functions/src/fifo.ts:43-60 | the remainder is what exceeds everything the lots hold; a non-positive request is untouched |
| `Fifo.CutsAndLeft` | functions/src/fifo.ts:43-60 | every unit asked for is cut or left over |
| `Fifo.OldestFirst` | functions/src/fifo.ts:43-60 | a lot is touched only once every older lot is empty |
| `Fifo.CutsCompose` | functions/src/fifo.ts:43-60 | cutting twice is cutting the sum once, lot by lot |
| `Fifo.LeftComposes` | functions/src/fifo.ts:43-60 | two cuts leave over together what the one larger cut leaves over |
| `Fifo.CutIsLoss` | functions/src/fifo.ts:43-60 | the cuts recorded against a lot are what it lost |
| `Fifo.MergeLotCuts` | functions/src/fifo.ts:63-72 | one entry per cut document, holding the sum of its cuts |
| `SharedLots.ItemsComposeToOneCut` | functions/src/reconcileOrder.ts:381-402 | items sharing lots leave them as one item for their summed quantity would, and fall short by as much |
| `SharedLots.DemandIsSum` | functions/src/reconcileOrder.ts:381-402 | the signed and the wanted quantity of a product as sums over its items |
| `SharedLots.SameCutsPerDocument` | functions/src/reconcileOrder.ts:381-402 | and they cut each document by as much as that one item would |
| `SharedLots.StockConserved` | functions/src/reconcileOrder.ts:381-402 | wanted = what the lots lost + what was short |
| `SharedLots.MergedCutIsLoss` | functions/src/reconcileOrder.ts:414-419 | the merged cut of a document is its initial minus its final quantity |
| `SharedLots.ConsumedPrefix` | functions/src/reconcileOrder.ts:381-402 | all items together consume an oldest-first prefix with at most one partial lot |
| `SharedLots.NoStrayCut` | functions/src/reconcileOrder.ts:414-419 | a document that belongs to no loaded lot is never written |
| `SharedLots.PlanItem` | functions/src/reconcileOrder.ts:389-391 | planning one item in place leaves every other product's lots alone |
| `SharedLots.LotCollection.WriteCuts` | functions/src/reconcileOrder.ts:414-419 | one update per cut document, depleted exactly when its initial quantity is used up |
| `SharedLots.WritePlan` | functions/src/reconcileOrder.ts:414-419 | after the writes every loaded document holds what its lot has left and is depleted exactly at zero; no other document changes |
| `SharedLots.RecordInitial` | functions/src/reconcileOrder.ts:371-374 | the initial quantity of every loaded lot and nothing else |
| `Settlement.ResolveOversellCost` | functions/src/reconcileOrder.ts:140-150 | the backward loop computes the fallback cost of uncovered stock |
| `Settlement.OversellCostMeaning` | functions/src/reconcileOrder.ts:140-150 | the newest lot with a positive cost decides; without any the manual cost if positive, else the average if positive, else zero |
| `Settlement.OversoldAtFallback` | functions/src/reconcileOrder.ts:140-150 | every oversold reference of a settled sale carries the newest positive lot cost, else the product's manual cost if positive, else its average if positive, else zero |
| `Settlement.SettleSale` | functions/src/reconcileOrder.ts:370-435 | documents, counters, recorded references and the oversell flag after settling all lines in place |
| `Settlement.LineRefsComplete` | functions/src/reconcileOrder.ts:389-405 | the references recorded for a line are positive and add up to its base quantity |
| `Settlement.SaleConservesStock` | functions/src/reconcileOrder.ts:422-435 | each counter loses exactly what the product's lots lost plus what was oversold |
| `SettleReturn.RecordedRefsParse` | functions/src/saleReturnCore.ts:530-543 | references settlement records pass every lot check of the evidence parser and parse back to themselves |
| `SettleReturn.RecordedLineAcceptable` | functions/src/saleReturnCore.ts:511-543 | a line storing what settlement recorded is acceptable iff its other fields are |
| `SettleReturn.ParseSettledOrder` | functions/src/saleReturnCore.ts:433-609 | settle, store, parse: evidence accepted from a settled order carries the settlement's own references, line by line |
| `SettleReturn.LineRestoresItsCuts` | functions/src/saleReturnCore.ts:993-1004 | per line and lot: any run restores at most what FIFO took, and all of it once the line is fully back |
| `SettleReturn.LotRoundTrip` | functions/src/reconcileOrder.ts:381-405 | settle, then return in any parts: a lot never gets back more than the sale took, and exactly that once everything is returned |
| `SettleReturn.RestoredAtLotCost` | functions/src/reconcileOrder.ts:381-405 | every restored unit carries the cost its lot had when sold |
| `TransferReversal.ShortfallIffExceeded` | functions/src/resolveReversal.ts:623-632 | cutting item by item falls short iff some product's positive quantities exceed its active lots |
| `TransferReversal.ShortfallOfSums` | functions/src/resolveReversal.ts:623-632 | with no negative quantity that is: iff some summed transfer quantity exceeds the active lots |
| `TransferReversal.NegativeItemHidesShortfall` | functions/src/resolveReversal.ts:591-642 | with a negative item the summed quantity fits counter and lots and the reversal still reports a shortfall |
| `TransferReversal.ReverseTransfer` | functions/src/resolveReversal.ts:591-658 | stock conflict, lot conflict and success exactly characterised; nothing written on a conflict; on success lots and counters give up exactly the transfer |
| `TransferReversal.AcceptedTakesAll` | functions/src/resolveReversal.ts:649-658 | an accepted reversal takes each product's positive quantities in full |
| `SettleOnce.OrderDocs.SettleTransaction` | functions/src/reconcileOrder.ts:277-294 | the guarded transaction: no-op unless pending, throws on an existing canonical order or a bad source, else settles once |
| `Reconcile.ReconcileSale` | functions/src/reconcileOrder.ts:278-435 | lots, counters and references are written in the very step that settles the order; in every other case nothing of the stock changes |
| `SettleOnce.OrderDocs.ReconcileOnWrite` | functions/src/reconcileOrder.ts:169-221 | one delivery, including an attempt that commits but is reported failed |
| `SettleOnce.OrderDocs.PatchException` | functions/src/reconcileOrder.ts:198-221 | the exception patch is unconditional on the status |
| `SettleOnce.OrderDocs.PerformReconcileRetry` | functions/src/retryReconcile.ts:55-98 | re-arms exactly an exception below the cap |
| `SettleOnce.SettledAtMostOnce` | functions/src/reconcileOrder.ts:277-294 | over every interleaving the effects commit at most once, the canonical order exists iff they did, and settled implies they did |
| `SettleOnce.EffectsIff` | functions/src/reconcileOrder.ts:277-294 | the effects are in place exactly when some delivery of the run found the order pending, not booked and its source in order, and was not aborted |
| `SettleOnce.InvalidNeverBooked` | functions/src/reconcileOrder.ts:277-294 | an order whose source is never in order is never booked, however often it is delivered or re-armed |
| `SettleOnce.ReArmsCapped` | functions/src/retryReconcile.ts:76-98 | at most RECONCILE_RETRY_CAP - 1 re-arms ever succeed |
| `SettleOnce.CapIsReached` | functions/src/retryReconcile.ts:76-98 | that many are reached |
| `SettleOnce.StatusAfterEffects` | functions/src/reconcileOrder.ts:194-221 | with the effects in place the order reads settled iff no exception patch landed after the commit |
| `SettleOnce.NeverSettledAgain` | functions/src/reconcileOrder.ts:285-289 | once it reads otherwise no delivery or retry makes it read settled again |
| `SettleOnce.LatePatchHappens` | functions/src/reconcileOrder.ts:194-221 | a run that ends with the effects in place and the status exception |
| `RolePermissions.InterimMinusRemovedIsNext` | functions/src/setRolePermissionsCore.ts:32-49 | the interim row minus the removals is the requested row, as sets |
| `RolePermissions.RoleDocs.PerformSetRolePermissions` | functions/src/setRolePermissions.ts:91-137 | one transaction: refusal, immediate addition, or staged removal with head, job and interim row |
| `RolePermissions.RoleDocs.AdvanceJob` | functions/src/roleSweepScheduler.ts:81-95 | decides again on fresh reads and moves job and head together |
| `RolePermissions.RoleDocs.FinalizeJob` | functions/src/roleSweepScheduler.ts:97-117 | applies the target row and completes job and head together |
| `RolePermissions.RoleDocs.VisitJob` | functions/src/roleSweepScheduler.ts:64-117 | one listed job, decided on the listed job and the head read, both possibly stale |
| `RolePermissions.RoleDocs.RunRoleSweepTick` | functions/src/roleSweepScheduler.ts:60-120 | one tick over the listed jobs, with its counters |
| `RolePermissions.StepKeeps` | functions/src/roleSweepScheduler.ts:60-116 | every transaction keeps head and job in lockstep (change id, state, target row, one active job per active head) and the accepted row in force |
| `RolePermissions.DecisionIsEffective` | functions/src/privilegedActionAuthority.ts:166-193 | a permission is granted iff it is in the row and not denied by an active head |
| `RolePermissions.ReasonMeaning` | functions/src/privilegedActionAuthority.ts:170-194 | every reason of a decision on the documents' own fields |
| `RolePermissions.GrantsLastAccepted` | functions/src/privilegedActionAuthority.ts:93-98 | over every run of changes and sweep transactions a single snapshot grants exactly the row last accepted |
| `RolePermissions.ChangeAcceptedIff` | functions/src/setRolePermissions.ts:63-114 | a change is accepted iff its caller is authorized, its row has no blank and no repeated permission, and the role has no unfinished head; who gets the staged answer |
| `RolePermissions.StagedDocuments` | functions/src/setRolePermissionsCore.ts:84-113 | an accepted removal stages head and job of one round that deny exactly what the new row drops |
| `RolePermissions.ImproperChangesNothing` | functions/src/setRolePermissions.ts:63-71 | over any run from any lockstep store, changes of a role that are all unauthorized or invalid leave every decision about the role as it was |
| `RolePermissions.SweepStutters` | functions/src/roleSweepScheduler.ts:60-116 | a sweep transaction changes no role's effective permissions |
| `RolePermissions.SweepMeaning` | functions/src/roleSweepSchedulerCore.ts:38-54 | what a sweep does with a job: only an unfinished one whose role's head is of the same round moves, one state at a time |
| `RolePermissions.VisitMoves` | functions/src/roleSweepScheduler.ts:64-117 | however stale a visit's reads, afterwards the job is past the state it was listed in |
| `RolePermissions.ThreeTicksComplete` | functions/src/roleSweepSchedulerCore.ts:38-50 | three ticks complete any round, whatever other ticks and changes run between and inside them; an active round afterwards was staged later |
| `RolePermissions.CompletionFreesRole` | functions/src/setRolePermissionsCore.ts:73-82 | the step that completes a round makes the role's next valid change acceptable |
| `RolePermissions.NextRoundAccepted` | functions/src/setRolePermissionsCore.ts:73-82 | three ticks after a round was listed the role's next change is accepted, unless another change of that role came first |
| `RolePermissions.ActiveRoundRefuses` | functions/src/setRolePermissions.ts:104-114 | as long as a role's round is active, any run leaves its row, denials and target alone |
| `RolePermissions.SettledRowIsAccepted` | functions/src/roleSweepScheduler.ts:97-117 | with no round in flight the stored row is the accepted row |
| `Adjudication.AdjudicationDoc.TerminalizeTx` | functions/src/adjudicateOfflinePrivilegedActionCore.ts:1189-1223 | a rejection with that reason and no execution is created only where no record exists; otherwise the record is adopted |
| `Adjudication.AdjudicationDoc.ConsumeTx` | functions/src/adjudicateOfflinePrivilegedActionCore.ts:1436-1615 | only where no record exists: authority found revoked creates a rejection with that reason and no execution, else a pending record bound to this execution |
| `Adjudication.AdjudicationDoc.TerminalizePhaseCTx` | functions/src/adjudicateOfflinePrivilegedActionCore.ts:986-1015 | the terminal write happens iff the record parses, matches the binding and is still pending, and then sets the patch's verdict and nothing else |
| `Adjudication.OnlyLegalTransitions` | functions/src/privilegedActionRegistry.ts:652-667 | every step leaves the record or makes one legal transition; binding, execution id, first-seen time and lifetime never change; terminal records are never rewritten |
| `Adjudication.VerdictsAgree` | functions/src/adjudicateOfflinePrivilegedActionCore.ts:959-1118 | over every interleaving, crash, clock and caller, any two verdicts agree on verdict, reason or outcome, and timestamp |
| `Adjudication.CreatedReadable` | functions/src/adjudicateOfflinePrivilegedActionCore.ts:359-501 | a created record re-parses iff the relay id is canonical, its clock positive and the lifetime ends after the approval |
| `Adjudication.PatchedReadable` | functions/src/adjudicateOfflinePrivilegedActionCore.ts:503-578 | a completed record re-parses iff the completing relay id is canonical and it started no earlier than the consuming one |
| `Adjudication.LateApprovalUnreadable` | functions/src/adjudicateOfflinePrivilegedActionCore.ts:1391-1417 | an approval made after its order's day is always rejected at the lifetime checks, and that rejection record does not re-parse |
| `Adjudication.LifetimePasses` | functions/src/adjudicateOfflinePrivilegedActionCore.ts:1391-1417 | the checks pass iff same day, attested expiry within both bounds and clock before both; and each reason exactly |
| `Adjudication.SoundRunReadable` | functions/src/adjudicateOfflinePrivilegedActionCore.ts:359-578 | with canonical callers, approvals before the day's end and no completion by an earlier starter, no relay is ever told the record is unreadable |
| `Adjudication.ReplayReturnsVerdict` | functions/src/adjudicateOfflinePrivilegedActionCore.ts:1090-1118 | then every eligible relay with the same bytes replays the stored verdict |
| `Adjudication.EarlierStarterBreaksReplay` | functions/src/adjudicateOfflinePrivilegedActionCore.ts:1008-1010 | a relay that started before the consuming one and finishes for it leaves an unreadable record |
| `Adjudication.IneligibleLearnsNothing` | functions/src/adjudicateOfflinePrivilegedActionCore.ts:1106-1108 | over every run, a relay not eligible for the branch is never given a verdict and never writes the record |
| `Adjudication.CompletionNeedsThisExecution` | functions/src/adjudicateOfflinePrivilegedActionCore.ts:1051-1087 | completion is chosen iff the order carries this very execution, with the outcome of the void that ran; a generic void never suffices |
| `Adjudication.AttentionNames` | functions/src/adjudicateOfflinePrivilegedActionCore.ts:1051-1087 | which question is left open otherwise: correlation missing, in conflict, or execution unresolved |
| `Adjudication.ExecutionIdOrigin` | functions/src/adjudicateOfflinePrivilegedActionCore.ts:1562-1615 | over every run, an execution id in the record was put there by a consume of an eligible relay of the same bytes, inside its lifetime, whose authority still held |
| `Adjudication.RevokedAuthorityRejects` | functions/src/adjudicateOfflinePrivilegedActionCore.ts:1590-1601 | authority found revoked at the consume leaves a rejection with that reason and answers it |
| `Adjudication.OutlivedRejects` | functions/src/adjudicateOfflinePrivilegedActionCore.ts:1391-1417 | past its lifetime a frame is rejected whatever its authority |
| `Adjudication.RejectionOrigin` | functions/src/adjudicateOfflinePrivilegedActionCore.ts:1189-1223 | over every run, a recorded rejection is the one a step found where no record existed |
| `Adjudication.CompletionOrigin` | functions/src/adjudicateOfflinePrivilegedActionCore.ts:1051-1087 | over every run, a completed record was completed by a relay of its bytes that saw this execution on the order |
| `Adjudication.ForeignBytesLearnNothing` | functions/src/adjudicateOfflinePrivilegedActionCore.ts:1096-1104 | over every run, only relays carrying the record's own bytes are given a verdict |
| `Adjudication.StageAnswers` | functions/src/adjudicateOfflinePrivilegedActionCore.ts:1090-1118 | what a relay is told of the record it meets |
| `EvidenceCapture.EvidenceDocs.CaptureOnWrite` | functions/src/shiftCloseEvidenceCapture.ts:77-140 | one delivery: anomaly, no-op, init or conflict, all creates or none |
| `EvidenceCapture.AnomalyIff` | functions/src/shiftCloseEvidenceCaptureCore.ts:457-482 | for any documents: an anomaly exactly when evidence or case contradict the capture field by field or the case is gone, and then nothing is written |
| `EvidenceCapture.DeliveryWrites` | functions/src/shiftCloseEvidenceCaptureCore.ts:484-493 | for any documents: held evidence changes nothing; a case is made once, then only its version, revision and latest pointers move |
| `EvidenceCapture.EvidenceIdInjective` | functions/src/shiftCloseEvidenceCaptureCore.ts:343 | ids with hashes of one length never collide, also across shifts |
| `EvidenceCapture.RunCaptures` | functions/src/shiftCloseEvidenceCaptureCore.ts:457-493 | after any delivery sequence, with duplicates and in any order, evidence, cases, audits and alerts are exactly those of each shift's first captures |
| `EvidenceCapture.FirstsMeaning` | functions/src/shiftCloseEvidenceCaptureCore.ts:457-493 | the first captures are one per id delivered for the shift |
| `EvidenceCapture.FirstDeliveryStored` | functions/src/shiftCloseEvidenceCaptureCore.ts:233-264 | the stored document has, field by field, the contents of the first capture delivered with its id |
| `EvidenceCapture.NoAnomaly` | functions/src/shiftCloseEvidenceCaptureCore.ts:457-493 | no delivery is an anomaly or a failed create, as long as each shift closes under one identity |
| `EvidenceCapture.ForeignIdentityRefused` | functions/src/shiftCloseEvidenceCaptureCore.ts:470-472 | a close under another identity is an anomaly and changes nothing |
| `EvidenceCapture.VersionIsCount` | functions/src/shiftCloseEvidenceCaptureCore.ts:490-492 | caseVersion = sourceRevision = number of distinct captures of the shift |
| `EvidenceCapture.OneAuditEach` | functions/src/shiftCloseEvidenceCaptureCore.ts:501-505 | each distinct evidence has exactly one audit event |
| `EvidenceOrder.Confluent` | functions/src/shiftCloseEvidenceCaptureCore.ts:516-616 | order and duplicates never show in ids, identities, hashes, versions or audited evidence |
| `EvidenceOrder.SameEvidenceIff` | functions/src/shiftCloseEvidenceCaptureCore.ts:233-264 | two orders store the same evidence iff they agree on the contents that come first under each id |
| `EvidenceOrder.SameDocumentsIff` | functions/src/shiftCloseEvidenceCaptureCore.ts:516-616 | all documents alike iff every shift's new captures come in the same order with the same contents |
| `EvidenceOrder.HashMissesFigures` | functions/src/shiftCloseEvidenceCaptureCore.ts:457-493 | two captures with one id and different contents: the second is a no-op, and the order shows in the stored evidence |
| `EvidenceOrder.HashMissesCloseTime` | functions/src/shiftCloseEvidenceCaptureCore.ts:322-343 | such captures exist: one hash, two close times |
| `EvidenceOrder.LatestDependsOnOrder` | functions/src/shiftCloseEvidenceCaptureCore.ts:608-614 | the latest pointers depend on the order, too |
| `UserAccounts.AccountDocs.CreateAccount` | functions/src/setUserAccountCore.ts:248-346 | create: every refusal in order, replay by key, or user, credential, reservation and intent together |
| `UserAccounts.AccountDocs.RotatePin` | functions/src/setUserAccountCore.ts:348-432 | rotate: replay by key, or credential and auth version bumped together |
| `UserAccounts.AccountDocs.ChangeAccount` | functions/src/setUserAccountCore.ts:434-561 | profile, activity and soft delete; a delete releases the reservation only if it is the target's |
| `UserAccounts.AccountDocs.RenameAccount` | functions/src/setUserAccountCore.ts:563-612 | rename: marker, target, conflict, then the old name released and the new one taken |
| `UserAccounts.AccountDocs.PerformSetUserAccount` | functions/src/setUserAccountCore.ts:614-637 | dispatch behind the actor check |
| `UserAccounts.NormalizeIdempotent` | functions/src/setUserAccountCore.ts:257 | normalizing a normalized name changes nothing |
| `UserAccounts.StepKeeps` | functions/src/setUserAccountCore.ts:287-330 | every command keeps: live users own their names, reservations point at the user so named, names are normalized |
| `UserAccounts.NamesNeverShared` | functions/src/setUserAccountCore.ts:532-548 | after any run each non-deleted user owns its current name and no two share one |
| `UserAccounts.DeletedHolderIffRenamed` | functions/src/setUserAccountCore.ts:578-599 | a step makes a deleted user hold a name iff it is a rename of a deleted user that passes its guards |
| `UserAccounts.DeletedHolderBlocksName` | functions/src/setUserAccountCore.ts:578-599 | delete, rename, and the new name is refused to everyone although no live user has it |
| `UserAccounts.SoftDeleteFrees` | functions/src/setUserAccountCore.ts:532-548 | a delete frees the target's name and no other, even if its old name was taken again |
| `UserAccounts.CreateOnce` | functions/src/setUserAccountCore.ts:274-285 | after any run a create key only confirms or conflicts, and changes nothing |
| `UserAccounts.RotateOnce` | functions/src/setUserAccountCore.ts:364-378 | after any run a rotation key never rotates again |
| `UserAccounts.OldSessionsCutOff` | functions/src/setUserAccountCore.ts:146-159 | a change to an administrator's account locks out every session issued before, for good |
| `UserAccounts.ChangeAcceptedIff` | functions/src/setUserAccountCore.ts:169-182 | who may change whom, exactly; an accepted change always changes the state |
| `UserAccounts.UnclearedTargetUntouched` | functions/src/setUserAccountCore.ts:169-182 | over any run of staff actors, an account none of them was cleared for stays exactly as it was |
| `UserAccounts.RoleIsLastGiven` | functions/src/setUserAccountCore.ts:434-486 | over any run an account's role is the one the last accepted update naming a role gave it |
| `AccountEffects.NormalizedIsCore` | functions/src/setUserAccountCore.ts:257 | a name loses its outer white space and its capitals and nothing else |
| `AccountEffects.TurnedAwayIff` | functions/src/setUserAccountCore.ts:146-159 | exactly callers that are not a live administrator of the current session are turned away, and change nothing |
| `AccountEffects.OutsidersChangeNothing` | functions/src/setUserAccountCore.ts:146-159 | a run of such callers changes no document |
| `AccountEffects.GuardMet` | functions/src/setUserAccountCore.ts:169-185 | a staff actor not cleared for the target is told the administrator guard iff the target is or becomes an administrator |
| `AccountEffects.CreatedIff` | functions/src/setUserAccountCore.ts:248-346 | when a create goes through |
| `AccountEffects.CreatedAccount` | functions/src/setUserAccountCore.ts:287-346 | the created account, its name, credential and intent field by field; everyone else as before |
| `AccountEffects.CreateReplay` | functions/src/setUserAccountCore.ts:274-285 | after any run a replayed create confirms exactly a request with the same fields, branches in any order, whatever its PIN |
| `AccountEffects.RotatedIff` | functions/src/setUserAccountCore.ts:348-432 | when a rotation goes through |
| `AccountEffects.RotatedAccount` | functions/src/setUserAccountCore.ts:348-432 | a rotation moves credential and session version on by one each and touches nothing else |
| `AccountEffects.ActivitySet` | functions/src/setUserAccountCore.ts:488-520 | an activity command sets the activity and the session version of its target alone |
| `AccountEffects.Deleted` | functions/src/setUserAccountCore.ts:522-561 | a delete marks and deactivates its target and touches no other account |
| `AccountEffects.ProfileSet` | functions/src/setUserAccountCore.ts:434-486 | an update sets what it names and keeps the rest |
| `AccountEffects.RenamedAccount` | functions/src/setUserAccountCore.ts:563-612 | a rename moves the account from the one name it held to the new one |
| `AccountEffects.ActivityIsLastGiven` | functions/src/setUserAccountCore.ts:488-561 | over any run an account is active exactly as the last accepted activity or delete command left it |
| `AccountEffects.VersionsCount` | functions/src/setUserAccountCore.ts:348-612 | over any run the session version counts the changes of the account and the credential version its rotations |
| `ShiftClose.FoldShiftCashEntriesStrict` | functions/src/closeShiftAuthoritativeCore.ts:358-404 | accepts exactly lists within the cap of well-formed entries with distinct ids, and totals them |
| `ShiftClose.VerifyRefundAudit` | functions/src/closeShiftAuthoritativeCore.ts:464-513 | succeeds iff refunds, returns and server entries list the same amounts by return id, one to one to one; the codes in order, the first failing refund deciding between missing and mismatch |
| `ShiftClose.OrderIrrelevant` | functions/src/closeShiftAuthoritativeCore.ts:464-513 | the match does not depend on the order of refunds and returns |
| `ShiftClose.ServerPaysRefunds` | functions/src/closeShiftAuthoritativeCore.ts:493-505 | the server's entries pay out exactly the refunds and pay nothing in |
| `ShiftClose.AuditShift` | functions/src/closeShiftAuthoritative.ts:164-182 | fold and audit together: pay-in is the hand-made pay-in, pay-out the hand-made pay-out plus the refunds |
| `ShiftClose.CloseShift` | functions/src/closeShiftAuthoritativeCore.ts:590-602 | accepted iff audited and within bounds; then drawer = starting + cash sales + hand-made in - hand-made out - refunds |
| `CloseMeaning.AuditedIff` | functions/src/closeShiftAuthoritativeCore.ts:422-513 | a shift audits iff every refund is a cash refund of this shift, branch and staff with ids after its document, has one completed return and one pay-out entry of its amount, and no return or server entry is left over |
| `CloseMeaning.FoldableIff` | functions/src/closeShiftAuthoritativeCore.ts:358-404 | the entry lists the fold accepts, on their own fields and bounds |
| `CloseMeaning.RefundParses` | functions/src/closeShiftAuthoritativeCore.ts:422-435 | which refund records count, on their own fields |
| `CloseMeaning.ReturnParses` | functions/src/closeShiftAuthoritativeCore.ts:437-452 | which return records count, on their own fields |
| `CloseMeaning.PaidIsSum` | functions/src/closeShiftAuthoritativeCore.ts:358-404 | the drawer's totals are sums over the entries of that kind and origin |
| `CloseMeaning.RefundTotalIsSum` | functions/src/closeShiftAuthoritativeCore.ts:464-513 | the refund total is the sum of the records' amounts |
| `CloseMeaning.InBoundsIff` | functions/src/closeShiftAuthoritativeCore.ts:590-602 | the bounds of a close on its own totals |
| `Bytes.FromLeLe` | functions/src/privilegedActionAttestationFrame.ts:203-226 | little-endian numbers read back |
| `Bytes.ReadAllBack` | functions/src/privilegedActionAttestationFrame.ts:95-109 | length-prefixed fields read back one after another |
| `Paa1.ReadTail` | functions/src/privilegedActionAttestationFrame.ts:294-305 | the offset loop reads the eight strings |
| `Paa1.DecodePaa1` | functions/src/privilegedActionAttestationFrame.ts:257-342 | the decoder by offsets is the specification of accepted bytes |
| `Paa1.DecodeEncode` | functions/src/privilegedActionAttestationFrame.ts:149-250 | every structurally valid frame with a 64-byte signature decodes back to itself |
| `Paa1.EncodeDecodeIff` | functions/src/privilegedActionAttestationFrame.ts:257-342 | accepted bytes re-encode to themselves iff their first four bytes are exactly the magic |
| `Paa1.AcceptsExactlyPrinted` | functions/src/privilegedActionAttestationFrame.ts:257-342 | accepted are exactly the printed frames, up to the high bits of the magic |
| `Paa1.MagicHighBitAccepted` | functions/src/privilegedActionAttestationFrame.ts:259 | with the first byte 0xD0 the same frame is accepted |
| `Paa1.SignedPrefixInjective` | functions/src/privilegedActionAttestationFrame.ts:200-239 | two valid frames with one signed prefix agree on everything but the signature |
| `FrameLayout.WellFormedIff` | functions/src/privilegedActionAttestationFrame.ts:149-199 | what a frame must say, field by field, to be printed or accepted: among it that nobody approves their own action |
| `FrameLayout.Paa1Layout` | functions/src/privilegedActionAttestationFrame.ts:257-342 | every field of accepted bytes stands at its own absolute offset, numbers little-endian, strings after their lengths, the signature last |
| `FrameLayout.Paa1Refused` | functions/src/privilegedActionAttestationFrame.ts:257-275 | length, magic and version are looked at first, with these codes |
| `Oks1.EncodeOks1` | functions/src/oacFrame.ts:469-530 | prints exactly key sets of 1 to 255 valid keys with distinct ids and numbers that fit their fields |
| `Oks1.DecodeOks1` | functions/src/oacFrame.ts:532-583 | the decoder by offsets is the specification |
| `Oks1.KeysBack` | functions/src/oacFrame.ts:547-578 | key boundaries are never misread, in any mix of statuses |
| `Oks1.DecodeEncode` | functions/src/oacFrame.ts:528-583 | every valid manifest decodes back to itself |
| `Oks1.EncodeDecodeIff` | functions/src/oacFrame.ts:532-583 | accepted bytes print back to themselves iff the magic is exact and no key id carries a high bit |
| `Oks1.IdHighBitAccepted` | functions/src/oacFrame.ts:456-465 | byte 225 of a key id reads as the letter of byte 97 |
| `Oks1.SignedPrefixInjective` | functions/src/oacFrame.ts:469-526 | two valid manifests with one signed prefix have the same epoch, time and keys |
| `FrameLayout.Oks1Layout` | functions/src/oacFrame.ts:532-583 | the same for the manifest: epoch, time, count, and every key with its id, key bytes, status byte and expiry |
| `FrameLayout.Oks1Refused` | functions/src/oacFrame.ts:532-546 | length, magic, version and key count are looked at first, with these codes |
| `Oks1.MagicHighBitAccepted` | functions/src/oacFrame.ts:534 | with the high bit of the magic set the same manifest is accepted |

## Left out

- Evidence.ParseSaleEvidence: the settled/voided eligibility gates and the branch match before the figures are not modelled.
- Returns.PlanSaleReturn: the cost figures of restored portions and the safe-integer bounds on products are not modelled; quantities are unbounded integers.
- Sale.ExactBaseMeaning: the source accepts a product within an absolute tolerance of 1e-4 of an integer; the model asks for the exact integer.
- Sale.ExactBaseAdds: additivity is for exact products; the same tolerance is dropped.
- Supported.MaxSupportedReturnQty: the same tolerance in the floor of the search start is dropped.
- Fifo.MergeLotCuts: the insertion order of merged entries is not kept, only the entries.
- Settlement.SettleSale: cost of goods, profit, customer and credit postings, stock movements, payment and canonical documents are not modelled; the lots a query loads are a parameter.
- TransferReversal.ReverseTransfer: authority, stale-client, status and empty-document gates, and the lots recreated at the source branch, are not modelled; cuts are merged over the whole transfer instead of per product, which is the same because documents belong to one product.
- Reconcile.ReconcileSale: ties status, lots, counters and references together; credit, movement, payment and canonical documents are not modelled.
- SettleOnce.OrderDocs.PerformReconcileRetry: the caller is taken to be a live administrator and the order to have no void request; those refusals are not modelled.
- SettleOnce.OrderDocs.ReconcileOnWrite: orders with a void request take another path and are not modelled; runs count the commits of a settlement, whose stock effects are those of `Reconcile.ReconcileSale`.
- RolePermissions.GrantsLastAccepted: holds for a snapshot that reads matrix and head together; torn reads of the two documents are not modelled. Malformed documents are excluded by the types, blank permissions are ASCII white space, and a staged job id is taken to be fresh.
- Adjudication.VerdictsAgree: authentication, staff, manager, device and order checks are one nondeterministic rejection each; the closed key set and hexadecimal fields of the stored record are typed away.
- Adjudication.LifetimePasses: the calendar arithmetic that yields the day's end is a parameter.
- EvidenceCapture.EvidenceDocs.CaptureOnWrite: stored figures are one list, and case fields that every new case sets to the same constant are not modelled.
- EvidenceCapture.RunCaptures: other writers of the case document are not modelled; the planning of a capture from the shift document is a parameter.
- UserAccounts.NamesNeverShared: a name is trimmed and lower-cased over ASCII only, target ids arrive trimmed, and credentials are version numbers.
- ShiftClose.CloseShift: the floating-point variance and its precision check are dropped; replay of an already closed shift is not modelled.
- Paa1.DecodePaa1: UTF-8 decoding is modelled as far as ids go: a byte above 127 always yields a character no id may contain.
- Oks1.DecodeEncode: times above the largest safe integer, which the reader rounds, are outside the valid frames.
- The other binary frames, manager-approval lockout, device enrolment, login, reporting and display code: they would add only easy members.
