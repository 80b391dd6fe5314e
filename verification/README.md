# HotelSave, modelled and proved

HotelSave watches a refundable hotel booking, looks for the same stay at a lower
price, and warns its owner before free cancellation ends. This project models the
parts where that promise is kept or broken, and proves what they guarantee:

- the **scheduler** (`app/scheduler/worker.py`): expiry, hotel lookup retry,
  price history, drop alerts with a floor, the gate on drops without a link, the
  deadline warning, and self-scheduling with jitter;
- the **steps around it**: ingestion, the POST, PATCH and DELETE endpoints,
  activation, plan changes;
- the **like-for-like pipeline**: the LiteAPI adapter that builds all-in totals
  and cancellation windows, and the matching rules that choose the rate an alert
  speaks of.

## How the model is built

`Models.dfy` holds the records. A `Job` is the value of one database row;
`MonitoringJob`, `User`, `Session` and `Klaviyo` are the live objects whose
attributes the program assigns. Code that assigns attributes is a method on those
objects, and its contract equates the new row with a function of the old one
(`Worker.ProcessJob` with `Processed`, `Jobs.UpdateJob` with `Updated`, and so
on). The laws are proved about those functions.

Instants are integer microseconds since the epoch in UTC, so every comparison the
program makes in hours or days is exact. A naive datetime is kept apart from an
aware one (`Stamp`), because ordering a mixture raises. Money is `real`. What a
commit and reload do to a money column is a parameter: any monotone, idempotent
rounding that moves a price by at most `eps` (`Protocol.ValidEnv`);
`ProtocolLaws.ColumnsExist` shows that two-decimal rounding is one, and `eps == 0`
gives the exact statements.

What the outside decides (lookup results, rates or an exception from the price
source, whether the mail service takes an event, jitter, the clock, whether the
final commit succeeds) enters as an `Oracle` and as step parameters, and every law
holds for all of them. `Worker.RunOnce` shows that a pass treats each due job by
itself whatever order the query lists them in; so `Protocol.dfy` follows one
booking: a `World` is its stored row, the plan, and a chronological log of
committed checks and of mail, kept or lost. A failed commit puts the row back and
leaves the mail sent. Passes are atomic: a pass and an API call do not interleave.

| file | content |
|---|---|
| `Models.dfy` | records, objects, column precision |
| `Matching.dfy`, `MatchingLaws.dfy`, `RoomClasses.dfy` | the matching rules, the best match, the room-class test |
| `LiteApi.dfy`, `LiteApiLaws.dfy` | the adapter, and that it loses and invents nothing |
| `Worker.dfy`, `VisitLaws.dfy` | one visit and one pass; what they do, told in columns and answers alone |
| `PassOrder.dfy`, `Reordering.dfy` | the order of a pass |
| `Lifecycle.dfy`, `Ingestion.dfy`, `Jobs.dfy`, `PatchLaws.dfy` | activation, inbound email, endpoints |
| `Protocol.dfy`, `ProtocolLaws.dfy` | the transition system of one booking, and its step laws |
| `Alerts.dfy`, `History.dfy`, `Payloads.dfy` | how many alerts, what the columns and the events say |
| `Lifetime.dfy`, `Activation.dfy`, `Delivery.dfy` | status and schedule, completing a booking, failed commits |
| `Watch.dfy`, `DeadlineGuard.dfy`, `InTime.dfy`, `MovedDeadline.dfy` | the deadline warning |
| `CheckBudget.dfy`, `Closing.dfy` | how many checks, how soon the wrap-up |

Words used of the deadline warning (`Watch.dfy`): a booking is *watched* if it is
monitored under a running plan, has its hotel and a next check, and its deadline is
not after the day of check-out begins. A *look* is a pass that finds it due before
the deadline, is answered by the price source, and is kept. A run is *attended* if
every pass comes at most `gap` after the last one that served the booking, by a look
or by finding nothing due; passes in between may fail in any way; the plan keeps
running, and nobody cancels or sets status, deadline or hotel. A *stride* is 6 h
(more for windows beyond 66 h) plus the jitter of half an hour plus `gap`; the *room*
is the window less a stride, or the time left at the latest instant of the next look
if that is less. Nothing is assumed of `gap`, of the length of the window, or of the
price, except where a row says so.

## Where code and documentation differ

The model follows the code.

- The written design asks that adults, children and board agree. The code
  compares adults, children and room class only if both sides state them, and does
  not compare currency (`app/services/matching.py:67-97`).
- `app/services/price_source/base.py:42-47` calls an unknown cancellation window
  never equivalent; the code lets such a rate match.
- The written design lets every state expire; only monitored jobs are ever
  looked at, so a pending one stays pending (`app/scheduler/worker.py:303-307`).
- `app/services/lifecycle.py:17-20` asks for a refundable booking with a deadline
  and a hotel before monitoring; a POST monitors at once without them
  (`app/routers/jobs.py:41-63`).
- A status set by PATCH can leave a monitored job without a next check.
  `Lifetime.PatchKeepsSchedule` gives the exact condition and
  `Lifetime.ReopenedJobIsStranded` an instance.
- On a booking priced at zero, composing an alert divides by zero after the
  history row is in place; the job then stays due. `VisitLaws.RaisesExactly`
  and `CheckBudget.OnlyZeroPriceStaysDue` give the exact conditions,
  `CheckBudget.FreeStayIsCheckedWithoutEnd` an instance.
- A PATCH moves the deadline but not the next check
  (`app/routers/jobs.py:123-132`), and leaves the mark of a warning given for the
  old deadline. So a moved deadline can pass without the promised warning.
  `MovedDeadline.MovedDeadlineIsWarnedExactly` gives the exact condition,
  `MovedDeadline.MovedToTenInTheMorning` an instance that is looked at too late and
  `MovedDeadline.WarnedForTheOldDeadline` one that counts as warned.

## Model

| member | source | states |
|---|---|---|
| DeadlineGuard.DeadlineCannotBeScheduledPast | app/scheduler/worker.py:234-291 | in every attended run past the deadline, from any watched booking not yet warned, whatever its price: if no check in the warning window found a reachable drop, a kept, delivered warning is dated before the deadline, or the mail service refused it at every one of the n window checks; n strides use up the room, and the first check left all of it |
| DeadlineGuard.UserIsTold | app/scheduler/worker.py:161-291 | the same without a word on what the checks find, if the booking has a price or no rate is negative: the user was told in time of the deadline or of a drop, or the mail of every one of the n window checks was refused |
| DeadlineGuard.OneDeliveryWarnsInTime | app/scheduler/worker.py:253-286 | if at one look in the window the mail service would take a warning, and no window check finds a reachable drop, a kept, delivered warning dated before the deadline is in the log |
| DeadlineGuard.OneDeliveryTellsInTime | app/scheduler/worker.py:179-286 | whatever the checks find, if at one look in the window it would take any mail, and an alert can be composed, a kept, delivered warning or drop alert is |
| DeadlineGuard.CreatedBookingIsGuarded | app/routers/jobs.py:41-63 | both guards from the POST or email on, for every booking that starts active and resolved, inside the window or before it: the latest first look is `gap` after its creation |
| DeadlineGuard.ActivatedBookingIsGuarded | app/services/lifecycle.py:33-39 | and from the PATCH on that completes and activates a pending one, `gap` after which the first look comes |
| DeadlineGuard.SuppliedHotelOnWatch | app/routers/jobs.py:123-132 | a monitored booking is on watch from the PATCH on that supplies its hotel, with its old schedule |
| DeadlineGuard.LookedAtOnWatch | app/scheduler/worker.py:122-140 | every kept and answered look before the deadline puts a booking on watch, also if that very look has found its hotel; with more than the window left, the room is all of the window but a stride |
| DeadlineGuard.SevenChances | app/scheduler/worker.py:30-62 | 48-hour window, 15-minute loop, next look before the last 41 and a quarter hours: at least seven checks fall in the window, the first with more than 41 hours left |
| DeadlineGuard.WindowIsVisited | app/scheduler/worker.py:48-62 | the invariant behind all of these: each window check uses up at most one stride of the room, and a look before the window leaves the room whole, across both cadence boundaries and through every failed pass |
| DeadlineGuard.WindowIsUsed | app/scheduler/worker.py:238-286 | without a reachable drop every window check warns until a warning is delivered |
| DeadlineGuard.WindowIsUsedToTell | app/scheduler/worker.py:179-286 | as long as alerts can be composed, every window check alerts or warns until the user has been told of something |
| CheckBudget.CompletedChecksAreBudgeted | app/scheduler/worker.py:142-291 | whatever the prices, pass times, plan changes and failed commits: with a fixed deadline, the checks carried through to their schedule, from the first one made `left` before it, number at most the budget of `left`, rounded up |
| CheckBudget.ChecksAreBudgeted | app/scheduler/worker.py:142-151 | so do all checks, if the booking has a price or no rate of the run is negative |
| CheckBudget.CadenceCostsACheck | app/scheduler/worker.py:48-57 | waiting out the cadence lowers the budget by at least one check, also when it crosses 14 days or 72 hours |
| CheckBudget.OnlyZeroPriceStaysDue | app/scheduler/worker.py:179-196 | a kept check leaves the job due at the same instant if and only if it called for an alert on a booking priced at zero |
| CheckBudget.ZeroPriceNeverEnds | app/scheduler/worker.py:179-196 | and then n more passes with the same answer add n checks, for every n |
| CheckBudget.FreeStayIsCheckedWithoutEnd | app/scheduler/worker.py:179-196 | an instance: price 0, one linked rate at -11, shipped settings |
| InTime.SeenInTimeExactly | app/scheduler/worker.py:303-307 | with kept passes at most `gap` apart, a monitored booking is sure to be looked at before its deadline if and only if the last instant without a look, max(next check - 1 µs, last pass), plus `gap` is before it |
| InTime.WarnedInTimeExactly | app/scheduler/worker.py:234-291 | a watched booking is sure to be warned of before its deadline, delivered or refused, in every attended run without a reachable drop, if and only if no warning went out before and max(next check - 1 µs, last pass) + `gap` is before the deadline |
| InTime.NeverWarnedAgain | app/scheduler/worker.py:238-242 | once the mark of a warning is set, no run whatever hands over another |
| MovedDeadline.MovedDeadlineIsSeenExactly | app/routers/jobs.py:123-132 | so, for the look, if a PATCH moves the deadline, to no later than the start of the check-out day: the old schedule decides |
| MovedDeadline.MovedDeadlineIsWarnedExactly | app/routers/jobs.py:123-132 | and for the warning, if the booking has its hotel: the old schedule and the old mark decide |
| MovedDeadline.TooLateServesNobody | app/scheduler/worker.py:90-117 | if the next check is no sooner than the deadline, no check, no alert and no attempt at a warning follows in any run that moves neither status nor deadline by hand |
| MovedDeadline.MovedWithinCadence | app/routers/jobs.py:123-132 | that is the fate of every booking whose deadline is moved, at whatever time before the next look, to within one cadence of its last completed check |
| MovedDeadline.MovedToTenInTheMorning | app/routers/jobs.py:123-132 | an instance: checked at midnight, due again in 24 h, deadline moved to ten hours later |
| MovedDeadline.WarnedForTheOldDeadline | app/routers/jobs.py:123-132 | an instance of the other kind: warned a day ahead, deadline moved by four weeks; sure to be looked at, never warned of again |
| Closing.WrapUpIsPrompt | app/scheduler/worker.py:93-120 | the i-th attempt to deliver the wrap-up comes within 6.5 h + gap + i (1 h + gap) of the deadline, whatever the price source does |
| Closing.ClosedAfterAtMostNRefusals | app/scheduler/worker.py:108-119 | once a pass comes later than 6.5 h + n (1 h + gap) after the deadline, n being the attempts so far, the job is expired |
| Closing.VisitedInTimeIsBounded | app/scheduler/worker.py:134-151 | any visit before the deadline leaves the job in a state those two bounds apply to |
| Alerts.AlertsUseUpThePrice | app/scheduler/worker.py:179-226 | in every run, PATCHes of any kind included, n kept alerts have used up n floors of the original price, up to column precision |
| Alerts.AtMost33Alerts | app/services/matching.py:20-25 | with the shipped floors and no negative price, a booking never brings more than 33 kept alerts |
| Alerts.AlertsOnlyDeepen | app/scheduler/worker.py:180-184 | every later alert undercuts every earlier one, as stored, by more than the floor; the price on record is the last and the least alerted |
| Alerts.AlertInvHolds | app/scheduler/worker.py:220-226 | the alert marks of the row are those of the last kept, delivered alert in the log, and are empty exactly if there is none |
| History.NothingReachableIsPassedOver | app/scheduler/worker.py:161-232 | dual of the bound: for every kept check with a reachable drop whose own alert was not refused, the last alert's price is at most one floor above it |
| History.CachesRefineHistory | app/scheduler/worker.py:142-159 | in every reachable state, under any column precision: check count, last check time, least price seen and current best price, OTA and link are the history's, and each row shows its check's best rate |
| History.LowestSeenIsBelowEveryAlert | app/scheduler/worker.py:157-159 | the least price seen never exceeds the alerted price on record |
| History.MinPriceIsLeast | app/models.py:92-104 | the minimum used above is attained in the history and undercut nowhere |
| Payloads.EveryAlertIsSound | app/scheduler/worker.py:167-219 | every Price Drop Found ever handed over names the first cheapest rate of that very check that agrees with the booking, which undercuts the price by more than both floors, has a link if links are required, and is sent before the deadline and before the day of check-out; its figures add up |
| Payloads.EveryWarningIsSound | app/scheduler/worker.py:234-291 | every Deadline Approaching ever handed over, kept or lost, delivered or refused, goes out inside the window and before the deadline, with no warning marked, and only if the first cheapest agreeing rate of that very check, if any, does not undercut the price by more than both floors, or lacks a link that is required |
| Payloads.EveryWrapUpAndWelcomeIsSound | app/scheduler/worker.py:90-107 | every Monitoring Ended goes out at or after the deadline, or on the day of check-out or later, and without a deadline only then; every Booking Monitored tells name, price and deadline of the row |
| Payloads.PercentageIsPlausible | app/scheduler/worker.py:185-208 | with the shipped floors and prices not negative, the percentage divides by more than 10 and lies in (3, 100] |
| Payloads.GatedFeedMailsNoDrop | app/config.py:35-44 | a pass that reads the LiteAPI feed with the link gate on mails no drop at all |
| Payloads.FeedAlertIsARealRate | app/services/price_source/liteapi.py:228-285 | with the gate off, an alert from that feed is a refundable rate listed under the hotel of the booking, at its all-in price, with the same board if the booking states one and the same number of adults if both do, with no readable cancellation tier before the booking's deadline |
| Payloads.VerdictsAreHonest | app/services/matching.py:111-115 | in every run a kept check counts as no drop exactly if its best rate does not undercut the price by more than the fixed floor and by more than the share, and as held back exactly if it does, links are required, and it has none |
| Payloads.WarningTellsTheHistory | app/scheduler/worker.py:249-277 | a deadline warning counts all checks including this one, gives the least price of them all, and speaks of movement if and only if a recorded check or this one found an actionable drop |
| Payloads.WrapUpTellsTheHistory | app/scheduler/worker.py:97-107 | the wrap-up reports the saving of the least price in the history, and a found drop if and only if a kept alert was delivered |
| Payloads.WrapUpCoversEveryAlert | app/scheduler/worker.py:97-107 | a wrap-up that reports a found drop reports at least every saving ever alerted, as stored, and more than the floor up to column precision |
| Delivery.MailIsBounded | app/scheduler/worker.py:294-321 | with A failed commits: at most 1 + A warnings, 33 + A drop alerts and 34 + A of both are delivered, and every mark on the row has its kept, delivered mail |
| Delivery.WrapUpsAreBounded | app/scheduler/worker.py:294-321 | without a status set by hand, at most 1 + A wrap-ups are delivered |
| Delivery.DeliveryInvHolds | app/scheduler/worker.py:278-286 | at most one kept warning per booking, and the row's mark tells which; mail lost in failed passes never exceeds their number |
| Lifetime.LifeHolds | app/scheduler/worker.py:303-313 | without a status set by hand: a next check is set if and only if the job is monitored; a monitored status is that of the last kept drop or deadline mail; it was announced exactly once; at most one kept wrap-up |
| Lifetime.NothingFollowsTheWrapUp | app/scheduler/worker.py:108-110 | a kept wrap-up is the last entry of the log: no check and no mail follows |
| Lifetime.PendingMeansIncomplete | app/services/lifecycle.py:17-39 | in every reachable state, statuses set by hand included, a pending job is not ready to monitor |
| Lifetime.PatchKeepsSchedule | app/routers/jobs.py:123-132 | a stored PATCH keeps the schedule consistent if and only if it activates the job or moves it neither into nor out of monitoring |
| Lifetime.ReopenedJobIsStranded | app/routers/jobs.py:124-127 | setting a cancelled job to active leaves it monitored with no next check, selected by no pass |
| Lifetime.EmailStartsAsReady | app/services/ingestion.py:57-90 | an emailed booking starts active if and only if it is ready, and otherwise waits for, and asks for, exactly what is missing |
| Lifetime.HotelIsNeverGuessed | app/scheduler/worker.py:65-87 | a pass gives a job a hotel only if it has none and the lookup returned a single match at 0.9 or better |
| Activation.ActivatedByTheFirstCompletion | app/services/lifecycle.py:23-39 | over any series of PATCHes without a status, the first one that completes a pending booking activates it at that moment and announces it once; later ones only edit |
| Activation.NothingUntilComplete | app/services/lifecycle.py:33-39 | until then nothing happens but the edits |
| Activation.FieldOrderIsIrrelevant | app/routers/jobs.py:123-127 | the fields of a PATCH may be assigned in any order |
| Activation.ActivationIsConfluent | app/routers/jobs.py:115-133 | series of PATCHes that supply the same fields in any grouping and order leave the same booking and announce it equally often |
| PassOrder.QueryOrderIsIrrelevant | app/scheduler/worker.py:308-316 | for any two listings of the same due jobs, the quantities in the contract of `Worker.RunOnce` agree: the processed count, and, as multisets, the mail with its success and the committed history rows |
| Worker.RunOnce | app/scheduler/worker.py:294-321 | one pass over live objects: of a table, exactly the due jobs whose user's plan is trialing or paying end as their visit leaves them, at column precision, and only if the commit succeeds; all others stay; processed count, mail and committed rows, each with the key of its booking; a failed commit undoes all but the mail |
| Worker.VisitAll | app/scheduler/worker.py:308-315 | the loop: every due job of a running plan is visited once, exceptions are not counted, mail and rows follow query order |
| VisitLaws.WarnsExactly | app/scheduler/worker.py:234-291 | a visit warns if and only if the job can be priced, no drop stands that the user could be sent to, alerted or not, the deadline is within the window, and no warning is marked; with hotel and link as given |
| VisitLaws.AlertsExactly | app/scheduler/worker.py:161-226 | a visit alerts if and only if such a drop stands, it is the first or undercuts the last alert by more than both floors, and the price is not zero |
| VisitLaws.ClosesExactly | app/scheduler/worker.py:90-120 | a visit wraps up if and only if the deadline or the start of the check-out day has come, then does nothing else, and tries again after an hour if the mail was refused |
| VisitLaws.RecordsExactly | app/scheduler/worker.py:122-159 | a visit inserts a row if and only if the job is open, has a hotel after the lookup and gets an answer; with key, time, and price and source of the first cheapest agreeing rate; the hotel is as looked up |
| VisitLaws.RaisesExactly | app/scheduler/worker.py:122-196 | a visit raises if and only if the source fails, or an alert is due on a booking priced at zero; schedule and status then stay and nothing is mailed |
| VisitLaws.NextCheckByTheTable | app/scheduler/worker.py:48-62 | any other visit puts the next check 24, 12 or 6 hours later by the time left, 24 without a deadline, plus up to half an hour if the job was priced |
| VisitLaws.PassIsItsVisits | app/scheduler/worker.py:308-315 | the visits of a pass are those of the due jobs with a running plan |
| VisitLaws.MailAndRowsBelong | app/scheduler/worker.py:308-316 | its mail and its history rows are those of its visits |
| VisitLaws.FinishedCounts | app/scheduler/worker.py:308-321 | the processed count is the number of due jobs of a running plan whose visit does not raise |
| Worker.ProcessJob | app/scheduler/worker.py:90-291 | one visit of a live job: its row, the inserted history, the mail and the exception, as the function `Processed` says, of which the rows above speak |
| Worker.RetryResolution | app/scheduler/worker.py:65-87 | the hotel is stored only on a single confident match |
| ProtocolLaws.VisitByKind | app/scheduler/worker.py:90-291 | a visit is one of seven kinds, each given in closed form |
| ProtocolLaws.AtMostOneEvent | app/scheduler/worker.py:142-286 | a visit hands over at most one event and inserts at most one row, with the key of its job |
| ProtocolLaws.ColumnsExist | app/models.py:23-24 | two-decimal rounding satisfies the assumptions made on money columns |
| Lifecycle.ActivateIfReady | app/services/lifecycle.py:23-39 | a live pending job is activated and announced if and only if it is ready |
| Ingestion.ProcessInboundEmail | app/services/ingestion.py:34-133 | all six outcomes: result, job created or not, its row, and the one event sent; the hotel is stored if and only if the lookup gave a single match at 0.9 or better, all other matches are kept, and exactly these are asked about |
| Ingestion.IngestedRow | app/services/ingestion.py:93-133 | every column of the created row, in terms of the email and the lookup |
| Jobs.PostedRow | app/routers/jobs.py:29-80 | every column of a posted booking, which is turned down exactly if the dates are out of order |
| PatchLaws.ColumnHoldsLastValue | app/routers/jobs.py:123-127 | after a PATCH, a column holds the last value assigned to it |
| PatchLaws.DetailsStay | app/routers/jobs.py:123-127 | a descriptive column that is not assigned keeps its value |
| PatchLaws.PolicyStays | app/routers/jobs.py:123-127 | so do hotel, deadline, refundability and status |
| PatchLaws.StoredOrRefused | app/routers/jobs.py:123-132 | a null for refundability or status undoes the PATCH; otherwise it activates the booking exactly if the row is then pending, refundable, and has a deadline and a hotel |
| Jobs.CreateJob | app/routers/jobs.py:29-90 | a POST creates a monitored job and announces it, or nothing if the dates are out of order |
| Jobs.UpdateJob | app/routers/jobs.py:115-133 | a PATCH loop over fields, commit and activation; a null where none may be undoes everything |
| Jobs.CancelJob | app/routers/jobs.py:136-147 | soft cancel clears the schedule |
| MatchingLaws.BestIsArgmin | app/services/matching.py:100-108 | there is no best match if and only if no rate agrees; otherwise it is listed, agrees, and no agreeing rate is cheaper |
| MatchingLaws.TiesGoToTheFirst | app/services/matching.py:105-108 | it is the first of the cheapest |
| MatchingLaws.BestOfAppend | app/services/matching.py:100-108 | the best of a joined list is the cheaper of the two bests, the left on a tie |
| MatchingLaws.BestPriceIgnoresOrder | app/services/matching.py:100-108 | the best price does not depend on the order of the rates |
| MatchingLaws.MatchingIsAgreement | app/services/matching.py:67-97 | the early returns amount to: refundable, and agreeing in everything both sides state, board excepted, which must be equal if the booking states one |
| MatchingLaws.DropUndercutsBothFloors | app/services/matching.py:20-25 | a drop is a best rate below the price less the fixed floor and below the price less the share |
| MatchingLaws.ShippedFloors | app/config.py:30-44 | with the shipped settings: below 485 on 500, below 90 on 100, and only with a link |
| MatchingLaws.ReachableMeansOffer | app/services/matching.py:100-115 | a drop can be told of if and only if the first cheapest agreeing rate undercuts both floors and has a link if one is required |
| RoomClasses.RoomClassIgnoresCase | app/services/matching.py:56-64 | letter case never changes the class |
| RoomClasses.RoomClassIgnoresSpacing | app/services/matching.py:56-64 | amount and kind of white space never change the class |
| RoomClasses.JuniorSuiteIsNotSuite | app/services/matching.py:28-64 | a name with the words junior suite, in any case and spacing, is never classed as a suite |
| RoomClasses.ClassIsTheFirstWord | app/services/matching.py:28-64 | the class is the first of the fourteen words, in their order, that stands anywhere in the tidied name, and none if none does |
| RoomClasses.WordNamesItself | app/services/matching.py:32-47 | every vocabulary word is its own class |
| RoomClasses.RoomClassIsIdempotent | app/services/matching.py:56-64 | the class of a class is that class |
| LiteApi.ToCandidates | app/services/price_source/liteapi.py:228-285 | the nested loops raise if and only if a priced rate of `Visits` has tiers that cannot be ordered, and otherwise list the candidates of its priced rates in order |
| LiteApiLaws.VisitsAreTheHotelsRates | app/services/price_source/liteapi.py:230-235 | a visit is one to a rate listed under a hotel entry with the asked id, and every such rate is visited |
| LiteApi.ListedRateIsVisited | app/services/price_source/liteapi.py:230-235 | rate k of room type r of hotel entry h is visited at the turn its predecessors determine |
| LiteApiLaws.TurnsKeepOrder | app/services/price_source/liteapi.py:230-235 | turns are in the order of the answer and no two rates share one |
| LiteApi.AllInTotal | app/services/price_source/liteapi.py:235-261 | the fee loop with its early stop computes `AllIn`, which the next rows determine |
| LiteApiLaws.NoFeesNoChange | app/services/price_source/liteapi.py:235-247 | without fees the price is the quote |
| LiteApiLaws.IncludedFeeIsIgnored | app/services/price_source/liteapi.py:247-249 | a fee that is included, or has no amount, changes nothing wherever it is listed |
| LiteApiLaws.LeftOutFeeIsAdded | app/services/price_source/liteapi.py:247-259 | a fee left out, in the currency of the total or in none, raises the price by its amount |
| LiteApiLaws.ForeignFeeRejects | app/services/price_source/liteapi.py:250-261 | in any other currency it rejects the rate |
| LiteApiLaws.NoAmountNoPrice | app/services/price_source/liteapi.py:236-241 | a rate without total or amount is rejected |
| LiteApiLaws.VatIsAdded | app/services/price_source/liteapi.py:245-259 | an instance: 122.54 with 14.70 left out and 3.00 included costs 137.24 |
| LiteApi.FreeCancellationUntil | app/services/price_source/liteapi.py:75-103 | the tier loop computes `WindowOf`, of which the next row speaks |
| LiteApiLaws.WindowIsTheEarliestTier | app/services/price_source/liteapi.py:75-103 | a rate has no boundary if and only if no tier can be read, raises if and only if readable tiers with and without offset meet, and otherwise has the earliest readable tier |
| LiteApiLaws.FeeOrderIsIrrelevant | app/services/price_source/liteapi.py:247-261 | neither total nor rejection depends on the order of the fees |
| LiteApiLaws.TotalCoversTheQuote | app/services/price_source/liteapi.py:245-259 | the total is never below the quote unless a fee is negative |
| LiteApiLaws.EveryRateIsAccountedFor | app/services/price_source/liteapi.py:230-284 | accepted and rejected rates add up to the rates visited |
| LiteApiLaws.AcceptedRateTurnsUp | app/services/price_source/liteapi.py:268-284 | an accepted rate turns up at the position its predecessors determine, at its all-in price |
| LiteApiLaws.CandidateHasARate | app/services/price_source/liteapi.py:268-284 | every candidate comes from an accepted rate |
| LiteApiLaws.CandidateTellsItsRate | app/services/price_source/liteapi.py:262-284 | column by column, what a candidate says of its rate |
| LiteApiLaws.MinStampIsEarliest | app/services/price_source/liteapi.py:100-103 | the minimum raises exactly on a mixture of stamps with and without offset, and otherwise is the earliest |
| LiteApiLaws.RaisesOnMixedTiers | app/services/price_source/liteapi.py:75-103 | the adapter raises if and only if a priced rate of the hotel mixes the two kinds |
| LiteApiLaws.NoHiddenShorterWindow | app/services/matching.py:70-79 | a matched rate has no readable cancellation tier before the booking's deadline |
| LiteApiLaws.FirstKeyWins | app/services/price_source/liteapi.py:66-87 | a tier's time is read from the first known key with a value |
| LiteApiLaws.TierKeys | app/services/price_source/liteapi.py:66-98 | which five keys these are, in which order; other tiers are unreadable |
| LiteApiLaws.SingleTierIsAList | app/services/price_source/liteapi.py:77-80 | a single tier object counts like a list that holds it |
| LiteApiLaws.FeedDropsAreHeld | app/services/price_source/liteapi.py:278-280 | the feed has no links, so with the gate on no drop it shows is reachable |

## Left out

- Alerts.AtMost33Alerts: assumes that no kept alert named a negative price, which the code does not rule out; `Alerts.AlertsUseUpThePrice` holds without it.
- CheckBudget.ChecksAreBudgeted: asks for a price other than zero or rates that are not negative; `CheckBudget.CompletedChecksAreBudgeted` asks for neither, and `CheckBudget.ZeroPriceNeverEnds` shows what happens otherwise.
- DeadlineGuard.DeadlineCannotBeScheduledPast: speaks of watched bookings; one without a hotel is never priced or warned, and one whose deadline is after the start of the check-out day is closed on that day.
- InTime.WarnedInTimeExactly: for windows of at least one stride; the shipped one is 48 h, a stride 6.5 h + `gap`.
- LiteApi.ToCandidates: amounts are numbers; text that is not a number, which would raise, and occupancies given as text are not modelled, and the board type is taken as already read.
- RoomClasses.RoomClassIgnoresCase: ASCII letters and white space; Unicode case folding is not modelled.
- Payloads.PercentageIsPlausible: the percentage before it is rounded to one decimal for display.
- HTTP, JSON, the Klaviyo and Stripe clients, authentication and ownership checks: a delivery is accepted or not, a source answers or raises, a plan runs or not.
- The booking parser and the inbound-email adapters: a parsed booking is an arbitrary input.
- The other price sources: the mock is test data, Hotellook is shut down, Booking is unfinished.
- The search link built in `app/services/rebook.py`: an opaque optional string.
- Reading of datetime strings: the reader of a stamp is a parameter.
- SQLite, the default database, drops the offset of an aware datetime on commit (`app/config.py:16`, `app/scheduler/worker.py:38-40`): a deadline given in another zone than UTC then moves by its offset. `Models.Stored` keeps the instant.
- Descriptive columns without influence on monitoring: country, coordinates, nights, currency, original OTA, cancellation terms, creation time.
- Two schedulers at once, and API calls in the middle of a pass: the code takes no locks, and passes are atomic here.
- Money columns that overflow: such a commit fails, which a failed pass covers.
