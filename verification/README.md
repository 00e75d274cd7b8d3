# Verified model of the market service's money and release paths

A Dafny model of the parts of the repository that keep money, sponsored gas, published assets and chain
history right, with proofs about every input, every run and every interleaving.

| part | files |
|---|---|
| weighted-average PnL reducer and leaderboard | `PnlModel`, `PnlReport`, `PnlReducer`, `PnlIncome`, `PnlBalances`, `PnlCertainty`, `PnlConservation`, `PnlCompleteness`, `PnlDrift`, `PnlWindows`, `PnlOrder`, `PnlBonds`, `Leaderboard` |
| sponsored operations, gas budget, trading sessions | `Calendar`, `Operations`, `Budget`, `Quota`, `Store`, `Gateway`, `Recovery`, `Protocol`, `ProtocolSafety`, `ProtocolBudget`, `ProtocolCharges`, `ProtocolStale`, `ProtocolCounts`, `ProtocolSessions`, `ProtocolTime` |
| immutable asset publisher | `Manifest`, `Archive`, `Publisher` |
| RPC admission and failover | `RpcAdmission`, `RpcRates`, `RpcNode`, `RpcPool` |
| dense block lineage | `Lineage` |
| deposits and bundle receipts | `Deposits`, `Receipt` |

`Prelude` holds options, results, filters, sums and sorting. `dafny verify dfyconfig.toml` checks everything.

Code that changes state is a class whose methods are proved equal to functions on values; what the source
promises is then proved about those functions, by induction over histories and runs.

## How the protocol is modelled

`Protocol` cuts each gateway call, policy callback and reconciliation at its awaits. A call in progress is a
value in `procs`; `Enabled` says what each piece checks, `After` what it changes, `Run` what a sequence of
pieces leads to. Any number of calls interleave, each may crash between two pieces, and every clock reading
is a parameter of its step, so no order of clock readings is assumed. Admission and each transition are
atomic, as the advisory lock and the row lock make them. `Gateway` and `Recovery` give the same calls as
methods that run undisturbed on the store.

What is assumed of the environment, all of it visible in `Executable`, `Backed` and `Observable`:

- an account nonce executes at most once (ERC-4337, "Semi-abstracted Nonce Support"), and an execution costs at most
  the operation's gas limits at its maximum fee;
- a paymaster pays only for an operation bound to a row for which it was asked or the policy callback
  approved, or which was submitted for that row, and within the row's ceiling;
- a block at or below the finalized block is not reorganized, and a receipt that is reported of it is the true one (that a receipt is
  missing may be reported at any time);
- operations with equal hashes are equal;
- limits are fixed, and records are created at clock readings since 1970.

## Results that needed a condition

- The recorded charges of a week can exceed the lane's limit, because a reconciliation that observed its receipt
  before the block was final may be recorded after the final settlement (`ProtocolStale.StaleRefreshBreaksTheWeek`).
  A write replaces a final settlement exactly if it is a reconciliation that found less than a final receipt with its
  deposit verified (`ProtocolCharges.UnsettlesExactly`); without one the record keeps to the caps, and even with it the
  gas really spent does (`ProtocolBudget.SpendingIsCapped`).
- The window of `weeklyBudgetWindow` misses its own instant for local years 0 to 99, and only for those
  (`Calendar.WindowContainsItsInstant`).
- Visible cost is conserved throughout a history exactly if no fact of it acquires no units for a cost, into an empty
  lot of a market not yet lost (`PnlConservation.VisibleCostConservedExactly`).
- A burn whose parts do not add up is noticed exactly if it is a losing burn, lies inside the window or takes more than
  is free in some lot; any other claim or refund before the window is not
  (`PnlCompleteness.UnbalancedBurnIsNoticedExactly`).
- A cooldown is honoured exactly if no start-up probe of the capability succeeds in it with fewer than two good probes
  before (`RpcNode.CooldownsAreHonouredExactly`).
- Heads returned by the failover pool can go back if start-up ends below a head already served, and only then
  (`RpcPool.HeadsNeverGoBack`, `LoweredMarkGoesBack`).

## Model

| member | source | states |
|---|---|---|
| PnlReducer.ComputePnl | offchain/app-core/src/pnl.ts:38-383 | The in-place reducer, whatever the input and options, returns exactly the report that the specification defines on the sorted, de-duplicated facts before the end of the window. |
| PnlReducer.Turn | offchain/app-core/src/pnl.ts:172-175 | One turn of the main loop keeps the reducer equal to the specification on the facts processed so far: repeated facts and facts past the end are skipped, every other fact is applied once. |
| PnlReducer.Reducer.Dispose | offchain/app-core/src/pnl.ts:109-145 | Moving units out of a lot clamps, allocates floor-rounded cost (all of it with the last unit), clamps the listed part, resets an empty lot and notes a gap, and changes no other lot. |
| PnlReducer.Reducer.AcquireLot | offchain/app-core/src/pnl.ts:146-171 | Acquiring into a lot of a lost outcome realizes the whole lot as a loss at once. |
| PnlReducer.Reducer.SettleHoldings | offchain/app-core/src/pnl.ts:235-257 | A resolution realizes, in lot order, each losing lot that holds units and was not settled, and no other. |
| PnlReducer.Reducer.BurnShares | offchain/app-core/src/pnl.ts:258-300 | A claim, refund or losing burn disposes of each consumed part; a total that differs from the declared units makes the result incomplete; a losing burn books nothing and doubts any cost it removes. |
| PnlReducer.Reducer.FillListing | offchain/app-core/src/pnl.ts:208-230 | A fill is a self-fill, a sale or a purchase, depending on whose it is. |
| PnlReducer.Reducer.ListShares | offchain/app-core/src/pnl.ts:190-196 | Listing more than is held marks the lot incomplete. |
| PnlReducer.Reducer.UnlistShares | offchain/app-core/src/pnl.ts:197-207 | Unlisting more than is listed marks the lot incomplete and empties the listing. |
| PnlReducer.Reducer.MoveShares | offchain/app-core/src/pnl.ts:189-234 | The share-moving branches together change exactly the lot of the fact. |
| PnlReducer.Reducer.Account | offchain/app-core/src/pnl.ts:306-342 | Bonds, fees, payments and gas follow the tally specification. |
| PnlModel.LotStepRewritesOneLot | offchain/app-core/src/pnl.ts:189-234 | A share movement rewrites the one lot it names and nothing else. |
| PnlModel.StepValid | offchain/app-core/src/pnl.ts:172-305 | Every fact keeps the map of lots and their order of appearance in agreement. |
| PnlReport.WindowSelectsBookings | offchain/app-core/src/pnl.ts:60-108 | Recording entries on the way, inside the window, gives exactly the bookings of the unrestricted history that fall in the window. |
| PnlReport.ProcessedNext | offchain/app-core/src/pnl.ts:172-175 | De-duplication and the end of the window, taken one fact at a time, agree with filtering the whole history. |
| PnlIncome.ProceedsAreIncome | offchain/app-core/src/pnl.ts:88-108 | The proceeds of a report are what the facts in its window and markets pay, by the facts alone: the seller's net for fills, the amount for own claims, refunds and bonuses, nothing else. |
| PnlIncome.StepPays | offchain/app-core/src/pnl.ts:172-305 | Each fact books entries of its own market, kind and time, which together pay what it pays. |
| PnlIncome.EntriesHaveOrigin | offchain/app-core/src/pnl.ts:88-108 | Every entry of a report belongs to a fact of its window and markets. |
| PnlBalances.LotsAreBalances | offchain/app-core/src/pnl.ts:109-300 | In every history, clamped or not, the units, the listed part, whether the cost is known and whether the loss is booked are, for each lot, what the facts of its market make of it. |
| PnlBalances.ReportShowsBalances | offchain/app-core/src/pnl.ts:344-371 | A report shows each lot of a selected market once if it holds shares, and no other, with that balance. |
| PnlBalances.LossesAreBooked | offchain/app-core/src/pnl.ts:235-257 | A resolution books the loss of each lot that loses, its whole cost, under the outcome of that lot, and nothing else. |
| PnlBalances.LostLotsHoldNoCost | offchain/app-core/src/pnl.ts:157-170 | Shares of a lost outcome never carry cost: it is charged when the outcome loses or the shares arrive. |
| PnlCertainty.StepIsCertain | offchain/app-core/src/pnl.ts:88-300 | A fact notes a gap exactly if it moves what is not there, and books a doubtful entry exactly if its proceeds or the cost of what it disposes of are not known. |
| PnlCertainty.GapsAreNamed | offchain/app-core/src/pnl.ts:85-305 | The gaps that a fact notes are exactly those that apply: its own event gap, shares or listed shares that were not there, a losing burn of cost not charged before. |
| PnlCertainty.DoubtfulSaleIsNamed | offchain/app-core/src/pnl.ts:208-228 | A doubtful sale names the first of its doubts: no net price, shares not there, cost not known. |
| PnlCertainty.CompleteExactly | offchain/app-core/src/pnl.ts:344-371 | A report is complete exactly if coverage is, every fact of its markets moved what was there, every fact in its window realized what was known, and the cost of everything still held is known. |
| PnlConservation.StepConserves | offchain/app-core/src/pnl.ts:172-305 | One fact conserves cost: lots before plus cost acquired equal lots after plus cost charged, carried out or discarded. |
| PnlConservation.CostConserved | offchain/app-core/src/pnl.ts:109-300 | Over every history, all cost acquired is in a lot, charged to one realization, carried out by a transfer or discarded by a losing burn: nothing is charged twice or lost to rounding. |
| PnlConservation.ReportConservesCost | offchain/app-core/src/pnl.ts:344-371 | The same for a windowed report: realizations outside the window account for the difference. |
| PnlConservation.VisibleCostConserved | offchain/app-core/src/pnl.ts:344-371 | Without window, when acquisitions bring units, the cost that the report shows adds up to everything acquired. |
| PnlConservation.StepKeepsFree | offchain/app-core/src/pnl.ts:146-171 | A fact puts cost into a lot without units exactly if it acquires no units for a cost, into a lot that held none, of a market not yet resolved against the outcome. |
| PnlConservation.VisibleCostConservedExactly | offchain/app-core/src/pnl.ts:344-371 | In general that holds at every point of a history exactly when it contains no such fact. |
| PnlConservation.CostCanHideInAnEmptyLot | offchain/app-core/src/pnl.ts:146-154 | A purchase of no units for 5 is such a case: its cost appears nowhere in the report. |
| PnlCompleteness.StepIsExact | offchain/app-core/src/pnl.ts:172-300 | A fact that notes no balance gap moves each lot by exactly what it says. |
| PnlCompleteness.CompleteBalancesAreExact | offchain/app-core/src/pnl.ts:109-145 | In a complete report every selected lot has, at every point of the history, the units and listed units of an unclamped reducer, and the listed part is covered: no disposal or unlisting was ever clamped. |
| PnlCompleteness.KnownNetIsOfCompleteEntries | offchain/app-core/src/pnl.ts:352-358 | The known net of any report is that of its complete entries, and only a complete report has a net. |
| PnlCompleteness.CompleteReportIsExact | offchain/app-core/src/pnl.ts:344-371 | In a complete report every entry and every visible lot is complete and the net is exactly what the facts pay less the allocated cost. |
| PnlCompleteness.CompleteNetIsExact | offchain/app-core/src/pnl.ts:344-371 | A complete report without window nets exactly what the facts pay less everything paid in, except what is still held or was transferred away; no losing burn removed cost. |
| PnlCompleteness.GapsAreOverdraws | offchain/app-core/src/pnl.ts:258-300 | A burn notes a balance gap exactly when its parts take more out of some outcome than is free in its lot. |
| PnlCompleteness.UnbalancedBurnIsNoticedExactly | offchain/app-core/src/pnl.ts:258-300 | A burn of the account whose parts do not add up makes the report incomplete if it is a losing burn, lies inside the window or overdraws a lot; every other one leaves entries and reasons exactly as they were. |
| PnlCompleteness.UnbalancedBurnIsReported | offchain/app-core/src/pnl.ts:258-300 | So in a complete report every losing burn, and every burn inside the window, adds up. |
| PnlCompleteness.BurnGapBeforeWindowIsSilent | offchain/app-core/src/pnl.ts:88-94 | An instance of the other side: after a refund without parts before the window, the refunded shares still look held. |
| PnlDrift.RoundingDrift | offchain/app-core/src/pnl.ts:115-130 | After k disposals from a lot of U units and cost C, what remains satisfies C*u <= R*U <= C*u + k*U, and what was taken out cost C minus what is left, hence exactly C from a drained lot; for any history of disposals, fills, burns and transfers. |
| PnlDrift.HistoryDrifts | offchain/app-core/src/pnl.ts:172-300 | The induction behind it over histories that only take units out of the lot. |
| PnlDrift.HistoryTakes | offchain/app-core/src/pnl.ts:109-145 | While a lot is only reduced, its cost falls by exactly the sum of the costs of the disposals from it. |
| PnlDrift.TakenIsBooked | offchain/app-core/src/pnl.ts:172-300 | The cost that an own disposal or burn takes out of all lots is exactly what its entry charges, a transfer carries out or a losing burn discards. |
| PnlWindows.EntriesAdjoin | offchain/app-core/src/pnl.ts:60-108 | In time order the entries of [a,c) are those of [a,b) followed by those of [b,c). |
| PnlWindows.KnownNetIsAdditiveInTime | offchain/app-core/src/pnl.ts:352-355 | So the known net results of adjacent windows add up. |
| PnlWindows.KnownNetIsAdditiveInMarkets | offchain/app-core/src/pnl.ts:60-67 | The known net over a set of markets is the sum over its members. |
| PnlWindows.UnselectedIsEverything | offchain/app-core/src/pnl.ts:60-67 | Without selection it is the sum over all markets that realized anything. |
| PnlOrder.OrderIsLexicographic | offchain/app-core/src/pnl.ts:25-35 | Facts are ordered by the first difference among block, transaction, log and place within the log. |
| PnlOrder.SortIsSort | offchain/app-core/src/pnl.ts:25-35 | The order of facts sorts them and keeps every one. |
| PnlOrder.ReportIgnoresOrderAndRepeats | offchain/app-core/src/pnl.ts:172-174 | The whole report depends on which facts are known, not on their order or number, when equal ids are equal facts and different ids have different positions. |
| PnlOrder.ReplayIsIdempotent | offchain/app-core/src/pnl.ts:172-174 | Replaying a history on top of itself changes nothing. |
| PnlBonds.LockedIsOpen | offchain/app-core/src/pnl.ts:306-327 | The amount reported as locked is the sum of the open bonds, apart from open bonds that a second bond of the same market replaced. |
| PnlBonds.LockedIsNatural | offchain/app-core/src/pnl.ts:306-327 | It is never negative. |
| PnlBonds.SettledBondsStay | offchain/app-core/src/pnl.ts:310-327 | A settled bond is not released again by later credits or timeouts. |
| PnlBonds.BondsAreStatuses | offchain/app-core/src/pnl.ts:306-327 | The bond of each market is opened by a lock and settled by the first credit to the account or timeout after it. |
| PnlBonds.TotalsAreSums | offchain/app-core/src/pnl.ts:306-342 | Fees, payments, gas and claimed bonds are sums over the facts that count, credits and slashes over those that settle a bond or come without one. |
| Leaderboard.Rank | offchain/app-core/src/leaderboard.ts:87-92 | A rank is one more than the number of better results; equal results share it. |
| Leaderboard.ScoreMarkets | offchain/app-core/src/leaderboard.ts:59-70 | The loop over markets sums the known results and collects the reasons of incomplete reports. |
| Leaderboard.ScoreLeaderboard | offchain/app-core/src/leaderboard.ts:11-97 | Every participating account is either excluded with its reasons or listed with its total; the list is a sorted permutation of the scores. |
| Leaderboard.ScoredOnExactly | offchain/app-core/src/leaderboard.ts:24-57 | An account is scored exactly on the markets of the period in which it took part and whose creator is known and neither the account nor under its or its controller's control. |
| Leaderboard.ListedOrExcluded | offchain/app-core/src/leaderboard.ts:58-79 | A score is listed exactly for each account that took part and whose reports are all complete, as the sum of their nets; the others that took part are excluded with their reasons. |
| Leaderboard.TotalIsOneReport | offchain/app-core/src/leaderboard.ts:59-70 | When all market windows start together, the per-market sum is the known result of one report over all those markets. |
| Calendar.DateRoundTrip | offchain/app-service/src/budget.ts:20-25 | Taking a local date apart and putting it together with Date.UTC is the identity outside the years 0 to 99. |
| Calendar.WindowIsClosedForm | offchain/app-service/src/budget.ts:13-31 | The calendar computation of the week equals a floor division. |
| Calendar.WindowContainsItsInstant | offchain/app-service/src/budget.ts:13-31 | The window of an instant contains it exactly when its local year is not one of 0 to 99, which Date.UTC reads as 1900 to 1999. |
| Calendar.WeeksPartitionTime | offchain/app-service/src/budget.ts:27-31 | Weeks are half-open 7-day intervals that partition time. |
| Calendar.WeekStartsOnMonday | offchain/app-service/src/budget.ts:26-29 | Each starts on a Monday at 00:00 in UTC+8. |
| Calendar.ModernTimesAreRead | offchain/app-service/src/budget.ts:13-31 | Every instant since 1970 is inside its window. |
| Operations.PatchKeepsRow | offchain/app-service/src/store.ts:132-146 | Every patch that the service applies keeps a row well-formed: hash and state agree, a stored hash is bound and within its ceiling, and a release is certified. |
| Operations.PatchEvolves | offchain/app-service/src/store.ts:132-146 | And respects the order of its life: a hash is set once, cancelled is absorbing, an attempt is never cleared, nothing returns to awaiting a signature. |
| Operations.RestartKeepsRow | offchain/app-service/src/postgres-store.ts:153-159 | The start-up update does too. |
| Operations.TimelyPatchSettlesOnTime | offchain/app-service/src/recovery.ts:165-173 | A settlement is recorded no later than the row while writes do not carry earlier clock readings. |
| Budget.ChargesAreAntitone | offchain/app-service/src/budget.ts:79-100 | Knowing more settled nonces never raises a charge. |
| Budget.GroupIsLoaded | offchain/app-service/src/postgres-store.ts:460-466 | Every row that counts toward a quota of the new operation is among the rows that admission loads. |
| Budget.GroupSurvivesLoading | offchain/app-service/src/postgres-store.ts:460-466 | A quota group has the same members in the loaded rows and in the whole history, and is charged no less there. |
| Budget.LoadedHistorySuffices | offchain/app-service/src/postgres-store.ts:460-466 | What the quota accepts on the loaded rows it accepts on the whole history, given that settlement is not later than the last update of each row. |
| ProtocolTime.TickingRunsAreTimed | offchain/app-service/src/recovery.ts:165-173 | While the clock readings written to existing rows never go back, no row of a run is settled later than it was updated. |
| ProtocolTime.LoadedHistoryAlwaysSuffices | offchain/app-service/src/postgres-store.ts:460-466 | So in every state reached with such a clock, admission on the loaded rows implies admission on the whole history. |
| Quota.QuotaIsExact | offchain/app-service/src/store.ts:234-335 | The quota's answer, error by error, for any rows: an unfinished operation of the nonce, the faucet hour, what the week owes, the wei and counts of the day, the kinds and the deposit source. |
| Quota.WeekIsOwed | offchain/app-service/src/budget.ts:42-57 | A week owes the full reserves of everything unfinished from earlier weeks, of any age, the charges of what was settled or written late, and the charges of what it created. |
| Quota.ForgottenAfterItsWeek | offchain/app-service/src/budget.ts:42-57 | A row created and settled before the week adds nothing to what the week owes. |
| Quota.SpendIsWhatItTakes | offchain/app-core/src/trading-session-contracts.ts:68-78 | Purchases, fills of asks and bids, rounded up, spend from a session; nothing else does. |
| Quota.SessionIsExact | offchain/app-service/src/store.ts:351-380 | A session refuses exactly if it is not an active, unexpired one of the user and the account, or the operation exceeds what is left of it. |
| Quota.NewAdmission | offchain/app-service/src/postgres-store.ts:435-488 | A new key is refused for its quota over the loaded rows, else for its session over all rows, else its record is appended as it is. |
| Quota.RepeatedAdmission | offchain/app-service/src/postgres-store.ts:442-449 | A known key changes nothing and names its first row, or conflicts. |
| Quota.AdmittedFitsTheHistory | offchain/app-service/src/postgres-store.ts:460-466 | Whatever is admitted fits every quota over the whole history, what earlier weeks left over included, while settlement is not later than each row's last update. |
| Store.ApplicationStore.Admit | offchain/app-service/src/postgres-store.ts:435-488 | Admission is an idempotent replay, a conflict, a refusal, or one new row; which of them, Quota.NewAdmission and Quota.RepeatedAdmission say in terms of the rows and the request. |
| Store.ApplicationStore.Transition | offchain/app-service/src/postgres-store.ts:581-609 | A transition changes one row, only from the allowed states. |
| Store.ApplicationStore.SetTradingSessionState | offchain/app-service/src/postgres-store.ts:118-131 | A session of the user is set to the state exactly unless it is disabled and was to be activated; nothing else changes. |
| Store.ApplicationStore.DisableUserTradingSessions | offchain/app-service/src/postgres-store.ts:99-102 | Disabling a user leaves all sessions of that user disabled with their terms kept, every other session as it was, and adds none. |
| Store.ApplicationStore.CreateTradingSession | offchain/app-service/src/postgres-store.ts:103-107 | A session id is used once. |
| Store.ApplicationStore.Ready | offchain/app-service/src/postgres-store.ts:153-159 | Start-up marks every unproven, unreleased attempt as attempted. |
| Store.ApplicationStore.PolicyCandidate | offchain/app-service/src/postgres-store.ts:571-580 | A callback finds the latest matching row in an open state, if there is one. |
| Store.ApplicationStore.PriorOperation | offchain/app-service/src/postgres-store.ts:442-449 | The row of an idempotency key is found exactly when there is one. |
| Gateway.ChecksAreExact | offchain/app-service/src/gateway.ts:124-177 | The ordered binding and ceiling checks pass exactly the operations that are bound to the row and cannot cost more than it reserved. |
| Gateway.SentExactly | offchain/app-service/src/gateway.ts:241-316 | A send is let through exactly for an unexpired row of the day that was never submitted, with the registered call, all gas and paymaster fields as required, and a positive cost within the ceiling. |
| Gateway.RepeatedExactly | offchain/app-service/src/gateway.ts:317-359 | A repeated send is answered with the stored hash exactly if it repeats the operation that was sent. |
| Gateway.SponsoredExactly | offchain/app-service/src/gateway.ts:241-316 | A paymaster is asked exactly for such a row that the project pays for, with the registered call and a cost within the ceiling so far. |
| Gateway.UnrefusedMayStart | offchain/app-service/src/gateway.ts:241-305 | A gateway call that is not refused is exactly one that the protocol lets start. |
| Gateway.AuthenticatedAAGateway.SendUserOperation | offchain/app-service/src/gateway.ts:317-359 | The network is reached at most once, only for a row without hash and after storing it; a repeated send returns the stored hash; any other answer leaves the row unknown. |
| Gateway.AuthenticatedAAGateway.SponsorUserOperation | offchain/app-service/src/gateway.ts:360-391 | The attempt is recorded before the paymaster is asked; a grant outside binding or ceiling is not passed on. |
| Gateway.AuthenticatedAAGateway.Policy | offchain/app-service/src/gateway.ts:393-467 | A callback approves only a sponsored, open, bound row within its ceiling, after recording the attempt; and it approves every such unambiguous row. |
| Gateway.InitialRecordIsRegistered | offchain/app-service/src/operations.ts:264-296 | The record built by registration is the one the protocol admits. |
| Gateway.RecordCarriesRequest | offchain/app-service/src/operations.ts:264-296 | The record of a registration is the one that carries every field of its request, the ceiling, the times and nothing else. |
| Gateway.OperationService.Register | offchain/app-service/src/operations.ts:226-308 | Registering twice with one key returns the first operation or reports a conflict; a new row carries its request, and one with a session was allowed by it. |
| Gateway.OperationService.Cancel | offchain/app-service/src/operations.ts:318-337 | Cancelling succeeds exactly before submission, and is free of charge exactly if sponsorship was not attempted. |
| Recovery.OperationRecovery.Refresh | offchain/app-service/src/recovery.ts:55-177 | Afterwards the row shows the evidence, whatever it was before, and no other row has changed. |
| Recovery.RowShowsEvidence | offchain/app-service/src/recovery.ts:55-195 | The row shows what the evidence says: unknown if the deposit is unverified, confirming if not buried, confirmed or reverted as the event succeeded or failed, with its transaction, block, gas and finality; forgotten when the receipt is missing or moved; closed when it expired. |
| Recovery.EvidenceIsObservable | offchain/app-service/src/recovery.ts:55-177 | Evidence that is honest about finality leads only to facts that the protocol's reconciliation allows. |
| Recovery.FinalExactlyWhenBuried | offchain/app-service/src/recovery.ts:118-173 | A settlement is final exactly when its block is canonical, buried by the confirmations and finalized, and any deposit in it is verified; a receipt in another block reorganizes. |
| ProtocolSafety.RowsStep | offchain/app-service/src/postgres-store.ts:435-609 | In every step of every interleaving each row stays well-formed and evolves, and at most one row is added. |
| ProtocolSafety.InvAlways | offchain/app-service/src/gateway.ts:205-467 | The invariants of rows, calls in progress, grants, sends and executions hold in every reachable state. |
| ProtocolSafety.RunsContinue | offchain/app-service/src/recovery.ts:30-195 | Nothing decided is undone over any run: hashes, cancellations, attempts, grants, sends and final executions stay. |
| ProtocolSafety.SubmittedAtMostOnce | offchain/app-service/src/gateway.ts:317-359 | Under every interleaving, crash and provider failure an operation is handed to the network at most once, under the hash its row stored before, which never changes afterwards. |
| ProtocolSafety.ReleasedRowsWereNeverGranted | offchain/app-service/src/operations.ts:318-337 | If a row is ever released free of charge, then at no time of the run, before or after, was a paymaster asked or a policy callback approved for it, or about to be. |
| ProtocolSafety.CancellationReleasesUnattempted | offchain/app-service/src/store.ts:132-146 | A cancellation releases the reservation exactly if no sponsorship was attempted and nothing was submitted. |
| ProtocolSafety.FinalGasOfPatch | offchain/app-service/src/recovery.ts:148-176 | Final gas appears in a row only through a reconciliation that found it final. |
| ProtocolBudget.PotentialBelowCharge | offchain/app-service/src/budget.ts:79-100 | No row can cost the project more than it is charged, in every reachable state and any part of the history. |
| ProtocolBudget.PotentialFalls | offchain/app-service/src/budget.ts:79-100 | What a row can still cost never rises, under any step, stale reconciliations and reorganizations included. |
| ProtocolBudget.AdmissionFits | offchain/app-service/src/store.ts:273-309 | An admitted operation fits under every wei cap it counts toward. |
| ProtocolBudget.CapStep | offchain/app-service/src/store.ts:273-309 | One step keeps a cap for any valuation that never rises and never exceeds the charges. |
| ProtocolBudget.PotentialIsCapped | offchain/app-service/src/store.ts:273-309 | In every reachable state what a week, a day, an account's day or a user's day can still cost is within its cap. |
| ProtocolBudget.EveryExecutionIsPaidFor | offchain/app-service/src/budget.ts:59-73 | Each sponsored execution on chain is paid for one row with its nonce. |
| ProtocolBudget.PaidIsAtRisk | offchain/app-service/src/budget.ts:79-100 | What a row has cost is covered by what it could still cost; a grant keeps a cancelled row from counting as free. |
| ProtocolBudget.SpendingIsCapped | offchain/app-service/src/store.ts:273-309 | Budget safety: the gas the chain has actually charged for a group is within its cap, in every reachable state of every interleaving, with any clock since 1970. |
| ProtocolBudget.WeeklySpendingIsCapped | offchain/app-service/src/budget.ts:33-40 | The exit lane stays within its reserve and both lanes within the project's weekly budget. |
| ProtocolCharges.OnlyStaleRefreshesUnsettle | offchain/app-service/src/recovery.ts:55-70 | Only a reconciliation whose reading is older than a final settlement can overwrite it. |
| ProtocolCharges.UnsettlesExactly | offchain/app-service/src/recovery.ts:148-195 | A write to a finally settled row unsettles it exactly if it is a reconciliation that found the receipt gone, or not yet final, or without its verified deposit. |
| ProtocolCharges.ChargeRisesExactlyWhenUnsettled | offchain/app-service/src/recovery.ts:148-195 | A step raises its row's recorded charge exactly when it overwrites a final settlement of a sponsored row that cost less than its ceiling. |
| ProtocolCharges.RecordedChargesAreCapped | offchain/app-service/src/store.ts:273-309 | As long as no step does that, the recorded charges of every week, day, account's day and user's day are within their caps. |
| ProtocolCharges.RecordedWeekIsCapped | offchain/app-service/src/budget.ts:33-40 | In particular each lane of each week, and both together. |
| ProtocolCharges.FreshRefreshesAreOrderly | offchain/app-service/src/recovery.ts:55-70 | That is so whenever each reconciliation is applied to the record it read. |
| ProtocolStale.StaleRefreshBreaksTheWeek | offchain/app-service/src/recovery.ts:148-176 | A concrete run of thirteen steps in which a confirmation observed before its block was final is recorded after the settlement and takes the recorded week to 20 wei of 11. |
| ProtocolCounts.DailyCountsAreCapped | offchain/app-service/src/store.ts:289-334 | No day ever has more operations than allowed for the project, an account, a user, a kind or a deposit source. |
| ProtocolSessions.SessionBudgetsHold | offchain/app-service/src/store.ts:351-380 | In every reachable state each operation of a session is within perOperation and their counted spend within total. |
| ProtocolSessions.DisabledIsFinal | offchain/app-service/src/postgres-store.ts:118-131 | A disabled session stays disabled, and no operation is admitted for it any more. |
| ProtocolSessions.SpentFalls | offchain/app-service/src/store.ts:363-373 | The counted spend of a session only falls while no operation is admitted. |
| Deposits.DepositStore.CreateDeposit | offchain/app-service/src/postgres-store.ts:276-308 | A deposit is created exactly when the account has none open and unexpired, no operation that uses one is in progress, and the id is new. |
| Deposits.OpenDepositsNeverOverlap | offchain/app-service/src/postgres-store.ts:289-303 | In every run, of two open deposits of one account one had expired when the other was created. |
| Deposits.DepositStore.CancelDeposit | offchain/app-service/src/postgres-store.ts:404-434 | Exactly an unregistered deposit of the caller can be cancelled; an expired or cancelled one is returned as it is. |
| Deposits.DepositStore.RegisterUse | offchain/app-service/src/store.ts:82-113 | Admission names the deposit, owner, expiry or authorization that does not fit, and otherwise ties the deposit to the operation if that is admitted. |
| Deposits.EachDepositIsUsedOnce | offchain/app-service/src/postgres-store.ts:451-485 | In every run no two operations use one deposit, none uses a cancelled one, and each carries the authorization of its owner's deposit. |
| Deposits.RunsContinue | offchain/app-service/src/postgres-store.ts:404-434 | A cancelled deposit stays unused and a used one stays with its operation. |
| Manifest.ValidateManifest | scripts/stack/cloud-publisher.py:46-69 | Accepts exactly the well-formed manifests and indexes their rows by path. |
| Manifest.StagingIsHidden | scripts/stack/cloud-publisher.py:171-182 | Temporary files are hidden, so they are never assets or compressed copies. |
| Manifest.CompressedIsApart | scripts/stack/cloud-publisher.py:175-182 | A compressed copy is no asset and belongs to one asset. |
| Archive.MembersAre | scripts/stack/cloud-publisher.py:121-134 | Its members are the manifest, a file of at most two megabytes, and visible files and folders below assets. |
| Archive.ScanArchive | scripts/stack/cloud-publisher.py:117-136 | The first pass accepts exactly the archives within the limits, with distinct safe names and one manifest. |
| Publisher.Publisher.Replace | scripts/stack/cloud-publisher.py:171-174 | Staging and renaming add at most the one public file, whole, wherever the process dies. |
| Publisher.Publisher.Unpack | scripts/stack/cloud-publisher.py:142-162 | The second pass accepts exactly archives that match the manifest and collide with no published file. |
| Publisher.Publisher.PublishRow | scripts/stack/cloud-publisher.py:163-182 | Serving a row never changes a public file and keeps every compressed copy expanding to its file. |
| Publisher.Publisher.PublishRows | scripts/stack/cloud-publisher.py:163-182 | All rows are served in the end; with enough effects left it always succeeds. |
| Manifest.AssetPathsAreJoined | scripts/stack/cloud-publisher.py:57-60 | Asset paths are exactly the names below assets, each nonempty, visible and of allowed characters, other than maps and archives. |
| Publisher.Publisher.Upload | scripts/stack/cloud-publisher.py:95-187 | An upload is rejected exactly when the archive is not acceptable; otherwise it fails only if the process dies before the receipt, and nothing published changes. |
| Publisher.Publisher.Activate | scripts/stack/cloud-publisher.py:189-202 | Succeeds exactly when the release is prepared and current is the expected previous release or already this one; then current shows its commit, page digest and file count. |
| Publisher.Publisher.Dispatch | scripts/stack/cloud-publisher.py:204-215 | Every command, finished or dead, is one step of the disk. |
| Publisher.StepKeepsDisk | scripts/stack/cloud-publisher.py:112-202 | Each step keeps every prepared release served with its digests, every copy right and current prepared. |
| Publisher.RunsAreSafe | scripts/stack/cloud-publisher.py:112-202 | So does every run; nothing but assets and their copies is ever visible, and current names the release of the latest successful swap. |
| Publisher.SwapsFormAChain | scripts/stack/cloud-publisher.py:189-202 | Each swap replaced the release of the one before, by one that was prepared by then. |
| Publisher.PublishedIsForever | scripts/stack/cloud-publisher.py:112-187 | From any point of a run on, public files and receipts stay exactly as they are. |
| RpcAdmission.LogCostIsMonotone | offchain/app-service/src/rpc-admission.ts:65-90 | A log query costs 16 units for every hundred blocks begun, up to 256, and never less for a longer range. |
| RpcAdmission.CostTable | offchain/app-service/src/rpc-admission.ts:64-90 | What each method costs, and an unreadable, inverted or single-block log query. |
| RpcAdmission.DecisionIs | offchain/app-service/src/rpc-admission.ts:128-202 | An entry is objected to for slots, for its client's tokens or for all tokens, in this order, by buckets that refill evenly within a minute; it pays and takes slots exactly if let in, and changes no other client's bucket. |
| RpcAdmission.Admission.Enter | offchain/app-service/src/rpc-admission.ts:128-202 | The decision, the reason, the buckets, the LRU and the slots are exactly those. |
| RpcAdmission.ReleasingTwiceIsReleasingOnce | offchain/app-service/src/rpc-admission.ts:169-174 | A release gives back exactly the slots its permit still holds, and releasing again changes nothing. |
| RpcAdmission.ReleasedStays | offchain/app-service/src/rpc-admission.ts:169-174 | A released permit stays released through later admissions and releases, so a late second release is silent. |
| RpcAdmission.TouchedIsOk | offchain/app-service/src/rpc-admission.ts:178-194 | The LRU order lists exactly the clients, each once, and at most 4096. |
| RpcRates.RunsAreOk | offchain/app-service/src/rpc-admission.ts:128-202 | In every run the slots in flight are those of unreleased permits and, when enforced, within the maximum; buckets stay between empty and full. |
| RpcRates.AdmissionIsRateBounded | offchain/app-service/src/rpc-admission.ts:128-202 | When enforced, what is admitted in any stretch of a run, in total or for a client not evicted meanwhile, is at most one bucket plus its refill while the clock moves forward, under any clock. |
| RpcRates.TotalIsRateBounded | offchain/app-service/src/rpc-admission.ts:128-202 | With a monotone clock the total is at most capacity + capacity*d/60000. |
| RpcRates.ForwardIsElapsed | offchain/app-service/src/rpc-admission.ts:196-202 | A monotone clock moves forward by the elapsed time. |
| RpcNode.CooldownGrows | offchain/app-core/src/rpc-pool.ts:447-467 | Cooldowns never shrink as faults repeat and stay within an hour, or a day for credentials. |
| RpcNode.CooldownTable | offchain/app-core/src/rpc-pool.ts:451-464 | Repeated quota faults cool down for 15, 30 and then 60 minutes, capability faults for 5, 10, 20, 40 and then 60. |
| RpcNode.FaultReach | offchain/app-core/src/rpc-pool.ts:431-481 | Where a fault disqualifies, the capability is eligible at no time until a probe restores it and none may begin for a minute or as long as the provider asked; elsewhere eligibility is as before. |
| RpcNode.AlwaysTracks | offchain/app-core/src/rpc-pool.ts:431-776 | A pending cooldown is the recorded one, and good probes in a row are counted, in every life of a node. |
| RpcNode.RestoredOnlyByProbes | offchain/app-core/src/rpc-pool.ts:729-776 | A capability becomes qualified only through a good probe: the third in a row since its last fault or failed probe, begun after the cooldown of its latest disqualifying fault, or one of start-up. |
| RpcNode.CooldownEndsBeforeUse | offchain/app-core/src/rpc-pool.ts:363-372 | Once a fault has disqualified a capability it is not eligible before such a probe. |
| RpcNode.GoodProbeEndsExactly | offchain/app-core/src/rpc-pool.ts:737-760 | A good probe ends a pending cooldown exactly if it is one of start-up or the third in a row. |
| RpcNode.StartUpProbesRestoreAtOnce | offchain/app-core/src/rpc-pool.ts:753-760 | Every good start-up probe makes its capability eligible at once, whatever cooldown was pending. |
| RpcNode.CooldownsAreHonouredExactly | offchain/app-core/src/rpc-pool.ts:729-776 | Every cooldown of a run ends by three good probes in a row, the last begun after it, exactly if no start-up probe succeeds in one before two other probes have. |
| RpcNode.StartUpSkipsTheCooldown | offchain/app-core/src/rpc-pool.ts:753-760 | An instance: a fault during start-up sets a cooldown of a minute that is over after a millisecond. |
| RpcPool.FaultNode | offchain/app-core/src/rpc-pool.ts:431-480 | The fault loop over capabilities implements the specification. |
| RpcPool.CandidatesAreEligible | offchain/app-core/src/rpc-pool.ts:804-811 | The candidates are exactly the nodes that serve the capability, are qualified and past their cooldown, each once; the active one first and the rest in order. |
| RpcPool.FaultStrikes | offchain/app-core/src/rpc-pool.ts:431-481 | A fault bars a node at the second failure in a row, or at once if it speaks for itself, for exactly the wait of its kind, and for all capabilities if it is the provider's. |
| RpcPool.StaleHeadBars | offchain/app-core/src/rpc-pool.ts:857-863 | A head below the mark bars its node from reads for a minute at once. |
| RpcPool.MalformedIsForgivenOnce | offchain/app-core/src/rpc-pool.ts:431-481 | A malformed answer is held against a node only after another failure. |
| RpcPool.ProbeEnds | offchain/app-core/src/rpc-pool.ts:744-769 | What a good and a bad probe leave behind, capability by capability. |
| RpcPool.RpcReadPool.BeginProbe | offchain/app-core/src/rpc-pool.ts:729-744 | A probe begins exactly when none is in progress, the capability is served and not cooling down, and one is due or it is start-up. |
| RpcPool.RpcReadPool.EndProbe | offchain/app-core/src/rpc-pool.ts:744-769 | A finished probe leaves its node so, and the mark alone. |
| RpcPool.RpcReadPool.TryNode | offchain/app-core/src/rpc-pool.ts:823-905 | One attempt serves, refuses or strikes its node, and changes no other. |
| RpcPool.RpcReadPool.Candidates | offchain/app-core/src/rpc-pool.ts:804-811 | A request tries exactly the eligible nodes, the preferred one first. |
| RpcPool.RpcReadPool.RequestHead | offchain/app-core/src/rpc-pool.ts:795-909 | A head request tries the candidates in order until one serves or refuses; those before it failed and are struck, the one that served has no failures, and no other node changes. The answer is never below the mark, which it becomes; a failure leaves the mark alone. |
| RpcPool.RpcReadPool.FinishStart | offchain/app-core/src/rpc-pool.ts:402-413 | The mark becomes the highest head reported, and nodes more than 120 blocks behind are set aside. |
| RpcPool.RpcReadPool.Reselect | offchain/app-core/src/rpc-pool.ts:778-794 | Start-up makes the first eligible node of each capability active; recovery the first one without failures, but instead of an active node only if it comes earlier, and not within five minutes. |
| RpcPool.PoolHonoursCooldowns | offchain/app-core/src/rpc-pool.ts:431-776 | Each node of the pool object has lived a life of the node machine, so once a fault has disqualified a capability of it, it is not eligible before a probe has ended the cooldown. |
| RpcPool.HeadsNeverGoBack | offchain/app-core/src/rpc-pool.ts:857-863 | The heads returned never decrease, whatever the providers answer, as long as the end of start-up does not take back a head already served. |
| RpcPool.PoolHeadsNeverGoBack | offchain/app-core/src/rpc-pool.ts:795-909 | The methods of a pool object are steps of that machine, so the heads it has returned never decrease either. |
| RpcPool.AwaitedStartKeepsTheMark | offchain/app-core/src/rpc-pool.ts:399-405 | Which holds when start-up is awaited before the first head is served. |
| RpcPool.LoweredMarkGoesBack | offchain/app-core/src/rpc-pool.ts:402-405 | Otherwise the next answer may be lower than one already returned. |
| RpcPool.StartUpMayGoBack | offchain/app-core/src/rpc-pool.ts:402-405 | A concrete run returns 100 and then 96. |
| Lineage.ValidateDenseLineage | offchain/indexer/src/densify-canonical.ts:134-152 | Accepts exactly the block maps that form one chain from the predecessor to the endpoint. |
| Lineage.LineagesJoin | offchain/indexer/src/densify-canonical.ts:134-152 | One lineage is exactly two that join at any block of it: the endpoint of the first is the predecessor of the second. |
| Lineage.LineageIsUnique | offchain/indexer/src/densify-canonical.ts:134-152 | If hashes determine parents, two maps accepted for one range and endpoint agree on every hash. |
| Lineage.CanonicalStore.Densify | offchain/indexer/src/densify-canonical.ts:63-123 | A range becomes dense exactly when the endpoint did not move, the gaps could be fetched and both what was gathered and what is stored by then form such a chain; stored rows are kept and failures change nothing. |
| Lineage.PoolAlwaysOk | offchain/indexer/src/densify-canonical.ts:154-170 | In every interleaving of the workers, a claimed index is either delivered or with one worker. |
| Lineage.MapConcurrentIsMap | offchain/indexer/src/densify-canonical.ts:154-170 | When all workers have left, each input was claimed once and its result is at its place. |
| Receipt.EventIsTheOnlyOne | offchain/app-core/src/receipt.ts:13-46 | An operation's event is found exactly when the bundle succeeded with one event of that hash, for that sender and nonce. |
| Receipt.AssertDepositTransfer | offchain/app-core/src/receipt.ts:49-123 | Accepts exactly when the operation succeeded and its own window holds exactly one matching authorization and one matching transfer. |
| Receipt.VerifiedIsPaidOnce | offchain/app-core/src/receipt.ts:94-122 | That is: in its window the authorization is used once and the authorized amount moves once, from the depositor to the account of the operation. |
| Receipt.WindowsAreDisjoint | offchain/app-core/src/receipt.ts:64-90 | The windows of different operations do not overlap. |
| Receipt.NoLogVerifiesTwoDeposits | offchain/app-core/src/receipt.ts:94-122 | So one log never verifies two deposits of a bundle. |

## Left out

- SQL, schemas, migrations, cursors and the table of operations carried over from earlier databases: rows are a sequence, sessions a map, transactions atomic steps.
- Idempotency keys of deposits, deposit pages, account binding, challenges, reports and daily totals (`budgetTotals`): plumbing around the checks modelled here.
- Signatures, ABI encoding, account derivation, hashing: a UserOperation stands for its own hash; digests and hashes are opaque values or unconstrained functions.
- Error texts, sorting of reason strings and metrics: reasons are a set of values.
- The checks of a gateway call that only call other services (account control, session validity on chain, deposit validation): they can only refuse, which the protocol allows at any point. The paymaster address check of session-signed operations is left out for the same reason.
- Feature switches, the read-only gas price and receipt calls of the gateway, HTTP, zod parsing.
- JavaScript number and Date limits: amounts are unbounded integers, times integer milliseconds, token buckets reals.
- The addresses of facts and accounts are compared without regard to letter case by the source; here they are numbers.
- Publisher: the size limit of the compressed archive, file modes, symbolic links, directory creation and a path that is both file and directory; any effect on the file system may fail, which covers their failures. Archive member names are taken in normalized form.
- RpcPool: block anchors, cancellation, request deadlines inside one attempt, response parsing and the classification of provider errors; a node is modelled with fallbacks configured.
- RpcPool.RpcReadPool.RequestHead: models a head request that no other request interrupts; what interleaved answers do to the mark is in PoolHeadsNeverGoBack.
- Store.ApplicationStore.Admit: without the deposit part of admission, which `Deposits` models on its own table; it can only refuse more.
- Lineage.CanonicalStore.Densify: other writers may add or change rows before the transaction, but what they leave is assumed to keep ranges that are already dense; a rejected fetch stops the whole map in the source and is not a worker's turn here.
- Deposits.DepositStore.CreateDeposit: whether an operation that uses a deposit of the account is still in progress is a parameter.
- Receipt.NoLogVerifiesTwoDeposits: speaks of different operation hashes; two rows submitted as the same operation share one window.
- Budget.LoadedHistorySuffices: one direction, for rows settled no later than updated (`ProtocolTime` shows when they are); that admission may refuse on the loaded rows what the whole history would accept is not excluded.
- The Solidity contracts, the SDK, workers, the indexer loop and the user interface.
