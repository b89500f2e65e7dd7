# Worklog settlement engine — a Dafny model

This project models the settlement engine of the worklog service. Workers log time against tasks in
*worklogs*. Each worklog holds *time segments* (intervals of work) and *adjustments* (bonuses,
deductions and corrections). Both carry a settlement status, UNREMITTED or REMITTED. A *remittance* is
one payout to one worker.

The service does three things with these tables, and the model covers each:

- **The ledger.** For each worklog it reports what has already been paid, what is still owed and the
  total. From those amounts it classifies the worklog as REMITTED or UNREMITTED, and the listing can
  filter by that classification.
- **The pricing rule.** An ACTIVE segment is worth its duration in hours times the worklog's hourly
  rate, rounded half-up to the cent. Any other segment is worth nothing. A segment that ends before it
  starts is an error.
- **The remittance batch.** It resolves a settlement period (by default the current month). It picks
  up every unremitted ACTIVE segment and every unremitted adjustment, and groups them by the worker
  who owns their worklog. Each worker gets a *gross* (the positive amounts) and a *net* (all amounts,
  signed). A worker whose gross and net are both zero is passed over. Every other worker gets one
  remittance with the requested payout status (COMPLETED by default). For a COMPLETED payout the
  worker's units are marked REMITTED and linked to the remittance, and each worklog's running
  `total_remitted_amount` is credited. A dry run reports the same remittances and changes nothing.

Layout, one module per file:

| file | module | contents |
|---|---|---|
| `wrappers.dfy` | `Wrappers` | `Option`, `Result` |
| `errors.dfy` | `Errors` | the three validation errors the service answers with |
| `models.dfy` | `Models` | the enumerations and the four tables' records, with their column defaults |
| `store.dfy` | `Database` | the `Store` class holding the four tables, which the batch updates in place |
| `pricing.dfy` | `Pricing` | the pricing of one segment and its rounding |
| `period.dfy` | `Period` | calendar dates and period resolution |
| `ledger.dfy` | `Ledger` | the per-worklog ledger and its classification |
| `listing.dfy` | `Listing` | the listing of all worklogs with the filter |
| `selection.dfy` | `Selection` | what a batch picks up, what it reports, and what the tables hold once workers are settled (the specification of the batch) |
| `settlement.dfy` | `Settlement` | step lemmas relating one worker's settlement to the specification |
| `remittances.dfy` | `Remittances` | the batch itself: grouping, tallying, persisting, settling |
| `credits.dfy` | `Credits` | the running paid total: settling credits each worklog with exactly what its ledger owed, so a total that matched the paid amount still matches it |
| `rerun.dfy` | `Rerun` | properties of a finished batch: gross covers net, and a second run pays nobody and changes nothing |

Modelling conventions:

- Money is integer cents, since every monetary column has two decimal places.
- Durations and timestamps are whole seconds.
- A row's id is its position in its table. A worklog reference past the end of the worklog table is a
  missing worklog.
- A new remittance's id is the next position in the remittance table. Dry-run preview ids are
  numbered the same way, so they never collide with a persisted id.
- Today's date and the current time are parameters.
- Python's set order, which decides the order in which workers are visited, is an arbitrary choice.
  The contracts hold for every order.

## Model

| member | source | states |
|---|---|---|
| Models.NewWorkLog | backend/app/api/routes/worklog/models.py:108-120 | a new worklog has nothing remitted and no remittance link, and keeps its worker and hourly rate |
| Models.NewTimeSegment | backend/app/api/routes/worklog/models.py:141-153 | a new segment is ACTIVE, UNREMITTED and unlinked, on the given worklog |
| Models.NewAdjustment | backend/app/api/routes/worklog/models.py:167-177 | a new adjustment is UNREMITTED and unlinked, and keeps its signed amount |
| Models.NewRemittance | backend/app/api/routes/worklog/models.py:78-95 | a new remittance is PENDING, with zero gross and net, no failure reason and no processing time |
| Pricing.ProratedCents | backend/app/api/routes/worklog/service.py:66-67 | no contract of its own: the rounding is stated by Pricing.ProratedCentsRounds and Pricing.RoundingExamples |
| Pricing.SegmentValue | backend/app/api/routes/worklog/service.py:56-67 | no contract of its own: its value is stated by Pricing.Price and Pricing.PriceRounds |
| Pricing.Price | backend/app/api/routes/worklog/service.py:51-68 | fails, with the negative-duration error, exactly for an ACTIVE segment that ends before it starts (the one segment condition every priceability check of the model is built from); a non-ACTIVE segment is worth 0; otherwise the value is the prorated price |
| Pricing.ProratedCentsRounds | backend/app/api/routes/worklog/service.py:66-67 | the prorated price is the exact value seconds × rate / 3600 rounded to the nearest cent, with ties away from zero (ROUND_HALF_UP), and keeps the sign of the exact value |
| Pricing.PriceRounds | backend/app/api/routes/worklog/service.py:56-67 | at a non-negative rate a price is never negative, and an ACTIVE segment's price is within half a cent of hours × rate |
| Pricing.RoundingExamples | backend/app/api/routes/worklog/service.py:66-67 | worked values: 1.5 h at 20.00 is 30.00, 3601 s at 33.34 is 33.35, a half cent rounds away from zero on both sides, and 3634 s at 9.00 (exactly 9.085) is 9.09 |
| Period.DaysInMonth | backend/app/api/routes/worklog/service.py:121-124 | a month has 28 to 31 days, and February has 29 exactly in leap years |
| Period.NextDay | backend/app/api/routes/worklog/service.py:123 | the day after a valid date is a valid, later date |
| Period.PreviousDay | backend/app/api/routes/worklog/service.py:124 | the day before a valid date is a valid, earlier date |
| Period.AddDaysWithinMonth | backend/app/api/routes/worklog/service.py:123 | adding days that stay inside the month only moves the day of the month |
| Period.AddDaysSplit | backend/app/api/routes/worklog/service.py:123 | adding a + b days is adding a days, then b days |
| Period.LastOfMonth | backend/app/api/routes/worklog/service.py:121-124 | no contract of its own: Period.LastOfMonthIsMonthEnd states that it is the month's last day |
| Period.LastOfMonthIsMonthEnd | backend/app/api/routes/worklog/service.py:121-124 | first of the month plus 32 days, back to the first of that month, minus one day, is the last day of the month, in every month and year |
| Period.ResolvePeriod | backend/app/api/routes/worklog/service.py:107-132 | a missing start is the first of today's month and a missing end is its last day; the result fails, with the period error, exactly when the resolved end is before the resolved start; a successful period never ends before it starts |
| Period.DefaultPeriodIsWholeMonth | backend/app/api/routes/worklog/service.py:116-124 | with no bounds given the period is today's whole month and is never refused |
| Ledger.LedgerAmounts | backend/app/api/routes/worklog/service.py:80-105 | no contract of its own: Ledger.WorklogAmounts computes it, Ledger.LedgerPartition states that paid plus owed is everything payable, Ledger.RetroactiveAdjustment how an adjustment moves it |
| Ledger.Classify | backend/app/api/routes/worklog/service.py:170-173 | no contract of its own: Ledger.EmptyWorkLogIsUnremitted, Ledger.FullySettledIsRemitted and Ledger.UnpaidDeductionReportedRemitted state the classification in each case |
| Ledger.WorklogAmounts | backend/app/api/routes/worklog/service.py:70-105 | fails exactly when some ACTIVE segment of the worklog ends before it starts; otherwise returns the paid amount, the owed amount and their sum, as the ledger defines them |
| Ledger.SegmentsPartition | backend/app/api/routes/worklog/service.py:84-95 | every ACTIVE segment's price lands in exactly one of the two buckets |
| Ledger.LedgerPartition | backend/app/api/routes/worklog/service.py:80-105 | paid plus owed is everything payable on the worklog (every ACTIVE segment and every adjustment), whatever the settlement states |
| Ledger.NothingUnpaidInSegments | backend/app/api/routes/worklog/service.py:84-95 | when every ACTIVE segment is REMITTED, the segments owe nothing |
| Ledger.NothingUnpaidInAdjustments | backend/app/api/routes/worklog/service.py:98-102 | when every adjustment is REMITTED, the adjustments owe nothing |
| Ledger.EmptyWorkLogIsUnremitted | backend/app/api/routes/worklog/service.py:170-173 | a worklog with no segments and no adjustments has all amounts 0 and is classified UNREMITTED |
| Ledger.FullySettledIsRemitted | backend/app/api/routes/worklog/service.py:170-173 | a fully settled worklog owes nothing, and is classified REMITTED exactly when its total is not 0 |
| Ledger.RetroactiveAdjustment | backend/app/api/routes/worklog/service.py:98-104 | a new adjustment leaves the paid amount alone and adds its amount to the owed amount, so a positive one makes a fully paid worklog UNREMITTED again |
| Ledger.DeductionsOweNothing | backend/app/api/routes/worklog/service.py:98-102 | adjustments whose unpaid ones are all deductions (or zero) owe at most nothing |
| Ledger.UnpaidDeductionReportedRemitted | backend/app/api/routes/worklog/service.py:170-173 | for every worklog whose ACTIVE segments are all paid and whose unpaid adjustments are all deductions, the owed amount is at most 0, and the worklog is classified REMITTED whenever its total is not 0, although units on it are unsettled |
| Ledger.UnpaidDeductionExample | backend/app/api/routes/worklog/service.py:170-173 | a witness: an hour paid at 10.00 and an unpaid deduction of 2.00 give 10.00 paid, -2.00 owed, 8.00 total, classified REMITTED |
| Listing.WorklogSegmentsExact | backend/app/api/routes/worklog/models.py:126-128 | a worklog's segments are exactly the segments in the table that point at it |
| Listing.WorklogAdjustmentsExact | backend/app/api/routes/worklog/models.py:129-131 | a worklog's adjustments are exactly the adjustments in the table that point at it |
| Listing.ParseFilter | backend/app/api/routes/worklog/service.py:153-159 | the filter is refused, with the filter error, exactly when it is given and is neither REMITTED nor UNREMITTED; an accepted filter names the classification it asks for |
| Listing.ShownByName | backend/app/api/routes/worklog/service.py:176-177 | an accepted filter keeps a worklog exactly when no filter is given or the filter equals the name of the worklog's classification |
| Listing.PricedBelowAll | backend/app/api/routes/worklog/service.py:166-167 | every worklog already passed can be priced |
| Listing.ListAllWorklogs | backend/app/api/routes/worklog/service.py:153-219 | fails on an invalid filter, and on any worklog that cannot be priced, even one the filter would drop; otherwise lists, in table order, the view (ledger and classification) of every worklog the filter keeps, and the count is the list's length |
| Listing.ListedKept | backend/app/api/routes/worklog/service.py:166-177 | the listing built worklog by worklog is the filter applied to the views of the worklogs passed so far |
| Listing.KeptFrom | backend/app/api/routes/worklog/service.py:176-177 | every listed view is a view of the table, and the filter keeps it |
| Listing.KeptBelow | backend/app/api/routes/worklog/service.py:166-177 | every listed id is a worklog of the table |
| Listing.KeptOrdered | backend/app/api/routes/worklog/service.py:166-177 | the listed ids strictly increase, so no worklog is listed twice |
| Listing.ListsAppend | backend/app/api/routes/worklog/service.py:217 | appending to a listing lists exactly the worklogs of either part |
| Listing.KeptExactly | backend/app/api/routes/worklog/service.py:166-177 | worklog l is listed if and only if it is in the table and the filter keeps its view |
| Listing.ListedExactly | backend/app/api/routes/worklog/service.py:166-219 | in the listing, worklog l appears if and only if it exists and the filter keeps it, and the listing is in table order |
| Selection.SegmentIdsExact | backend/app/api/routes/worklog/service.py:256-285 | a segment is filed under a worker if and only if it is ACTIVE, UNREMITTED, on an existing worklog, and that worklog is the worker's |
| Selection.AdjustmentIdsExact | backend/app/api/routes/worklog/service.py:264-297 | an adjustment is filed under a worker if and only if it is UNREMITTED, on an existing worklog, and that worklog is the worker's |
| Selection.WorkerSegmentsSelected | backend/app/api/routes/worklog/service.py:256-285 | every segment filed under a worker is picked up and belongs to that worker |
| Selection.WorkerAdjustmentsSelected | backend/app/api/routes/worklog/service.py:264-297 | every adjustment filed under a worker is picked up and belongs to that worker |
| Selection.ChosenStatus | backend/app/api/routes/worklog/service.py:334 | no contract of its own: Remittances.GenerateRemittances states that every summary carries it, COMPLETED when no payout status is requested, and that only COMPLETED settles |
| Selection.FailureReason | backend/app/api/routes/worklog/service.py:335-337 | a payout has a failure reason exactly when its status is FAILED or CANCELLED |
| Selection.RecordOf | backend/app/api/routes/worklog/service.py:340-349 | no contract of its own: Selection.RecordsPointwise and Remittances.GenerateRemittances state that the k-th new row is the record of the k-th summary |
| Selection.Records | backend/app/api/routes/worklog/service.py:340-349 | one remittance row is persisted per reported summary |
| Selection.SummaryWorkersMembers | backend/app/api/routes/worklog/service.py:393-402 | the reported workers are exactly the workers of the summaries |
| Selection.DistinctWorkersPairwise | backend/app/api/routes/worklog/service.py:307 | no two summaries are for the same worker, stated pairwise |
| Selection.AsExpectedPointwise | backend/app/api/routes/worklog/service.py:307-405 | each reported summary is the expected one for its worker, the ids counting up from the first free id |
| Selection.RecordsPointwise | backend/app/api/routes/worklog/service.py:340-349 | the k-th persisted row is the record of the k-th summary |
| Selection.AssignmentOfSummaries | backend/app/api/routes/worklog/service.py:372-391 | the workers settled are the reported workers, each under its own remittance |
| Settlement.SelectedWorkersHaveUnits | backend/app/api/routes/worklog/service.py:299-300 | a worker is visited exactly when it owns a picked-up segment or adjustment |
| Settlement.PaidWorkersExactly | backend/app/api/routes/worklog/service.py:307-331 | the workers paid are the workers visited minus those whose gross and net are both 0 |
| Settlement.PriceableByWorker | backend/app/api/routes/worklog/service.py:316-317 | every picked-up segment can be priced exactly when every worker's segments can |
| Settlement.ForeignSegments | backend/app/api/routes/worklog/service.py:373-382 | settling a worker's segments credits nothing to, and links nothing on, another worker's worklog |
| Settlement.ForeignAdjustments | backend/app/api/routes/worklog/service.py:384-391 | settling a worker's adjustments credits nothing to another worker's worklog |
| Settlement.NothingSettled | backend/app/api/routes/worklog/service.py:372 | settling no worker leaves all three tables as they are |
| Settlement.StepSegments | backend/app/api/routes/worklog/service.py:373-376 | marking one more worker's segments settles the segment table for that worker as well |
| Settlement.StepAdjustments | backend/app/api/routes/worklog/service.py:384-387 | marking one more worker's adjustments settles the adjustment table for that worker as well |
| Settlement.StepWorklogs | backend/app/api/routes/worklog/service.py:378-391 | crediting one more worker's worklogs (segments first, then adjustments) settles the worklog table for that worker as well |
| Settlement.SummaryAppend | backend/app/api/routes/worklog/service.py:393-405 | reporting one more summary adds its worker, its record, its gross and net to the totals, and its remittance to the assignment |
| Settlement.ReportStep | backend/app/api/routes/worklog/service.py:329-405 | visiting one more worker keeps the report exact: skipped workers add nothing, others add their expected summary |
| Settlement.Unvisited | backend/app/api/routes/worklog/service.py:307 | a worker not yet visited has not been reported |
| Settlement.Advance | backend/app/api/routes/worklog/service.py:307-405 | visiting one more worker keeps the report and the running totals exact |
| Remittances.GroupedSegmentsExact | backend/app/api/routes/worklog/service.py:271-285 | the grouping dictionary files each worker's picked-up segments under it, in table order |
| Remittances.GroupedAdjustmentsExact | backend/app/api/routes/worklog/service.py:272-297 | the grouping dictionary files each worker's picked-up adjustments under it, in table order |
| Remittances.GroupSegments | backend/app/api/routes/worklog/service.py:255-285 | groups the unremitted ACTIVE segments on existing worklogs by owner, and nothing else |
| Remittances.GroupAdjustments | backend/app/api/routes/worklog/service.py:263-297 | groups the unremitted adjustments on existing worklogs by owner, and nothing else |
| Remittances.TallyWorker | backend/app/api/routes/worklog/service.py:311-327 | fails, with the negative-duration error, exactly when one of the worker's segments cannot be priced; otherwise net is every amount signed, gross only the positive ones, and the worklogs are the distinct ones touched |
| Remittances.SegmentsSettledByExact | backend/app/api/routes/worklog/service.py:373-376 | marking a list of segments settles exactly those segments under the remittance |
| Remittances.CreditedBySegmentsExact | backend/app/api/routes/worklog/service.py:378-382 | each worklog is credited with the prices of its marked segments and linked to the remittance when it has one |
| Remittances.SettleSegments | backend/app/api/routes/worklog/service.py:373-382 | marks the worker's segments REMITTED and linked; credits each worklog with its segments' prices and links it; changes nothing else |
| Remittances.AdjustmentsSettledByExact | backend/app/api/routes/worklog/service.py:384-387 | marking a list of adjustments settles exactly those adjustments under the remittance |
| Remittances.CreditedByAdjustmentsExact | backend/app/api/routes/worklog/service.py:389-391 | each worklog is credited with the amounts of its marked adjustments and keeps its link |
| Remittances.SettleAdjustments | backend/app/api/routes/worklog/service.py:384-391 | marks the worker's adjustments REMITTED and linked; credits each worklog with its adjustments' amounts without relinking it; changes nothing else |
| Remittances.PayWorker | backend/app/api/routes/worklog/service.py:367-391 | persists the worker's remittance as the next row and, for a COMPLETED payout only, settles the worker's units under it |
| Remittances.ReportWorker | backend/app/api/routes/worklog/service.py:311-349 | fails on an unpriceable segment; reports nothing exactly when gross and net are both 0; otherwise reports the expected summary |
| Remittances.DryRunTables | backend/app/api/routes/worklog/service.py:351-365 | in a dry run, reporting more summaries leaves every table unchanged |
| Remittances.VisitWorker | backend/app/api/routes/worklog/service.py:307-405 | one iteration of the worker loop: fails on an unpriceable segment, skips a zero worker, otherwise reports the expected summary and leaves the tables as that summary's payment requires (nothing in a dry run) |
| Remittances.Started | backend/app/api/routes/worklog/service.py:302-304 | before any worker is visited, nothing is reported, the totals are 0 and the tables are as found |
| Remittances.VisitNext | backend/app/api/routes/worklog/service.py:307-405 | one iteration of the worker loop keeps the report, the running totals and the tables exact |
| Remittances.VisitAll | backend/app/api/routes/worklog/service.py:307-405 | fails exactly when some visited worker has an unpriceable segment; otherwise every visited worker is reported or skipped as expected, the totals are the sums, and the tables are as the payments require |
| Remittances.RunBatch | backend/app/api/routes/worklog/service.py:255-405 | fails exactly when a picked-up segment cannot be priced; otherwise reports, once each, exactly the workers with non-zero gross or net, each with its expected summary, and the totals are the sums |
| Remittances.AssignmentBelow | backend/app/api/routes/worklog/service.py:367-376 | the remittance a worker is settled under is one of the rows the run adds |
| Remittances.SettlingKeepsLinks | backend/app/api/routes/worklog/service.py:372-391 | settling under the rows a run adds leaves every remittance link on a segment, adjustment or worklog naming a persisted remittance |
| Remittances.RunKeepsLinks | backend/app/api/routes/worklog/service.py:367-391 | the tables a run leaves satisfy the remittance-link foreign keys, whatever the payout status and in a dry run |
| Remittances.RunKeepsPaidExact | backend/app/api/routes/worklog/service.py:372-391 | the tables a run leaves keep every worklog's running total equal to its paid amount when it was before |
| Remittances.GenerateRemittances | backend/app/api/routes/worklog/service.py:221-418 | fails with the period error or the negative-duration error, and then changes nothing; a dry run changes nothing; otherwise every worker with something to pay gets exactly one remittance with the expected gross, net, status, worklog count and period, appended to the remittance table, and a COMPLETED payout leaves the tables settled under those remittances while any other status leaves the units unsettled; the remittance-link foreign keys hold before and after, and a running total that matched its worklog's paid amount still matches it |
| Rerun.SegmentsGrossCoversNet | backend/app/api/routes/worklog/service.py:316-321 | a list of segments has a gross that is never negative and never below its net |
| Rerun.AdjustmentsGrossCoversNet | backend/app/api/routes/worklog/service.py:323-327 | a list of adjustments has a gross that is never negative and never below its net |
| Rerun.WorkerGrossCoversNet | backend/app/api/routes/worklog/service.py:311-327 | every worker's gross is at least 0 and at least its net |
| Rerun.TotalGrossCoversNet | backend/app/api/routes/worklog/service.py:403-413 | a batch's total gross is at least 0 and at least its total net |
| Rerun.SettledWorklogsSameOwners | backend/app/api/routes/worklog/service.py:378-391 | settling never changes which worker owns a worklog, or its rate |
| Rerun.SettledSegmentIds | backend/app/api/routes/worklog/service.py:256-261 | after settling, a settled worker has no segments left to pick up and any other worker's are unchanged |
| Rerun.SettledAdjustmentIds | backend/app/api/routes/worklog/service.py:264-268 | after settling, a settled worker has no adjustments left to pick up and any other worker's are unchanged |
| Rerun.SamePrices | backend/app/api/routes/worklog/service.py:316-321 | segments priced the same have the same gross and net |
| Rerun.SameAmounts | backend/app/api/routes/worklog/service.py:323-327 | adjustments with the same amounts have the same gross and net |
| Rerun.UnsettledWorkerUnchanged | backend/app/api/routes/worklog/service.py:372-391 | settling other workers leaves a worker's units, gross and net unchanged |
| Rerun.SettledPaysNobody | backend/app/api/routes/worklog/service.py:229-230 | once every paid worker is settled, no worker has anything left to be paid |
| Rerun.SecondRunCreatesNothing | backend/app/api/routes/worklog/service.py:229-231 | right after a COMPLETED batch, a second batch creates no remittance and changes no table |
| Rerun.PaidWorklogsSettled | backend/app/api/routes/worklog/service.py:170-173 | after a COMPLETED batch, a worklog of a paid worker owes nothing, and is classified REMITTED exactly when its total is not 0 |
| Database.Store.constructor | backend/app/api/routes/worklog/models.py:71-181 | an empty store satisfies the remittance-link foreign keys (`Valid`, which Remittances.GenerateRemittances requires and preserves) |
| Credits.SegmentsCreditOwed | backend/app/api/routes/worklog/service.py:256-261 | what settling a worker credits a worklog of it for segments is what that worklog's ledger shows as owed on its segments |
| Credits.AdjustmentsCreditOwed | backend/app/api/routes/worklog/service.py:264-268 | what settling a worker credits a worklog of it for adjustments is what that worklog's ledger shows as owed on its adjustments |
| Credits.CreditIsOwedAmount | backend/app/api/routes/worklog/service.py:378-391 | settling a worker credits each of its worklogs' running totals with exactly the owed amount of that worklog's ledger |
| Credits.SettledSegmentsPaid | backend/app/api/routes/worklog/service.py:373-376 | after settling, a worklog's paid segments are those paid before plus, when its owner was settled, those that were owed |
| Credits.SettledAdjustmentsPaid | backend/app/api/routes/worklog/service.py:384-387 | after settling, a worklog's paid adjustments are those paid before plus, when its owner was settled, those that were owed |
| Credits.SettlingKeepsPaidAt | backend/app/api/routes/worklog/service.py:372-391 | one worklog whose running total equals its paid amount still has that after settling |
| Credits.SettlingKeepsPaidExact | backend/app/api/routes/worklog/models.py:113-116 | settling any set of workers keeps every worklog's running total equal to the paid amount of its ledger |

## Left out

- HTTP routing, authentication, request and response schemas, and response formatting are left out: the nested segment and adjustment lists in a listing, timestamps and error messages. The service's three HTTP 400 answers are the three `Error` values.
- The SQL session, queries, eager loading and `worklog_cache` are replaced by the in-memory `Store`. The cache has no observable effect on a store whose rows are read directly.
- Transactions are not modelled. The session never commits when a segment fails to price in the middle of a batch. The model restores the four tables instead, which is what the rollback achieves.
- Concurrent batches are not modelled.
- The clock (`date.today()`, `datetime.now`) and `uuid4` are inputs. Today's date and the processing time are parameters. Row ids are table positions. Dry-run preview ids are the positions the remittances would have taken.
- Money is unbounded integer cents, and a segment's price is rounded once, from the exact value seconds × rate / 3600. The service first divides the seconds by 3600 (backend/app/api/routes/worklog/service.py:66) in a `Decimal` context of 28 significant digits, which cuts the hours short whenever the duration is not a multiple of 9 seconds, and only then multiplies by the rate and rounds half-up to the cent (backend/app/api/routes/worklog/service.py:67). At an exact half cent the service can therefore come out one cent lower than the model: 3634 seconds at 9.00 is exactly 9.085, which the model prices at 9.09 (Pricing.RoundingExamples), while the service's hours 1.009444444444444444444444444 times 9.00 give 9.084999999999999999999999996 and round to 9.08. Sums and products of more than 28 digits would be rounded by the service as well; the model does not round them. Durations are whole seconds, so converting a float of seconds to a decimal string loses nothing. The final quantisation of gross, net and totals to cents is the identity on cents.
- The column bounds are not modelled. Gross, net and the running total are declared with 12 digits (backend/app/api/routes/worklog/models.py:82-83, backend/app/api/routes/worklog/models.py:114-116), the hourly rate and an adjustment's amount with 10 (backend/app/api/routes/worklog/models.py:111, backend/app/api/routes/worklog/models.py:171), so the database refuses larger values when a row is written. The model accepts any value.
- The conversion of the period dates to start-of-day and end-of-day datetimes is not modelled. The model keeps the two dates on the remittance row. The period does not restrict which units are picked up, neither in the service nor in the model.
- Dates have unbounded years. Python's 1..9999 year range and its overflow error are not modelled.
- Python set iteration order is not modelled. Workers are visited in an arbitrary order and every contract holds for all orders. Reported ids follow the visiting order.
- Remittance `created_at` and the task table are not modelled.
- Rerun.SecondRunCreatesNothing: a second run can still select units. A worker whose gross and net are both 0 is passed over (backend/app/api/routes/worklog/service.py:330-331), so its units stay UNREMITTED and the next run selects them again (backend/app/api/routes/worklog/service.py:256-268). The lemma proves that the second run creates no remittance and changes no table.
- Pricing.ProratedCentsRounds: its ties-away-from-zero result is computed from the exact value seconds × rate / 3600, not from the service's hours quotient rounded to 28 significant digits (backend/app/api/routes/worklog/service.py:66), so at an exact half cent with a duration not a multiple of 9 seconds the service may give one cent less.
- Listing.ListAllWorklogs: the filter is matched against the parsed classification rather than the raw string. Listing.ShownByName proves that the two agree on every accepted filter.
