# Verified model of the trading system's money core

This project models, in Dafny, the parts of the trading system that decide about money and
positions, and proves what they keep over every run:

- the capital ledger: two buckets of available, reserved and used margin, the reservation
  map, the write-ahead ledger, the mutators, and the restart that rebuilds memory from the
  ledger and the open trades, over any number of sessions (`Ledger`, `Book`, `Figures`, `Runs`,
  `Replay`, `Positions`, `Lifecycle`, `Restart`, `Sessions`, `DayFloor`, `LiveSeed`, `Adopted`,
  and the class `FundManagers.FundManager`);
- the kill switch: the persist-first kill state, the single-flight flatten worker, and the
  three-phase flatten over signed broker positions (`KillSwitches`, `FlattenWorkers`,
  `Brokers`, `Flattens`);
- the order life cycle: the transition table, the order monitor's handlers and poll cycle,
  and their race with the paper fill thread (`OrderStates`, `OrderMonitors`, `PollCycles`);
- ranked admission and its regret record (`Sorting`, `Allocation`);
- the token bucket, tick snapping and slippage, and HTML truncation (`RateLimiters`,
  `Ticks`, `HtmlTruncation`, `BoldTags`).

Code that updates fields is a class whose methods are proved equal to functions on values
(`FundManager`, `KillSwitch`, `OrderStateMachine`, `OrderMonitor`, `TokenBucket`, `Broker`);
the theorems over runs are lemmas about those functions. Sections under a lock are single
steps, and threads are interleavings of such steps. Money and time are reals. The store,
clock, broker and market enter as parameters: whether a ledger write succeeds, the time of a
call, what the broker replies and how much of an order it fills, what other threads do.

`dafny verify dfyconfig.toml` checks everything.

## Main results

1. Book and ledger agree after every run of the mutators, failed writes included
   (`Runs.RunAgrees`), and from a restart on up to an offset that rehydrate sets and the
   mutators keep (`Sessions.RehydrateAgrees`, `Runs.RunAgreesFrom`).
2. Used margin is the committed margin still open, pro rata, over any number of calls and
   restarts, each process under its own leverage map, plus exactly what a restart puts to use
   again for quantity that has left (`Sessions.SessionsKeepPositions`,
   `Sessions.ExitsAfterRestart`). A whole life of a reservation leaves exactly its net profit
   in prices (`Lifecycle.WholeLife`, `Figures.ExitInPrices`); over affordable runs no balance
   goes negative and the closing check stays quiet (`Lifecycle.RunStaysSolvent`), and beyond
   them the check raises exactly when `Lifecycle.CommitRaisesIff`,
   `Lifecycle.ReleaseUsedRaisesIff` and `Lifecycle.SyncRaisesIff` say.
3. A restart at any point of any session rebuilds the lost book up to named differences
   (`Restart.RestartExact`, `Restart.RestartAccount`, `Restart.RestartGap`), and refines the
   live day when those are absent (`Sessions.RestartRefines`). The gap replay leaves is the
   margin of the rows it skips, and it alone decides whether a balanced start is stopped
   (`Replay.ReplayGap`, `Replay.SkippedRowsDecideStart`). Each exit of the day is added exactly
   once to its bucket and the total, and no earlier one (`DayFloor.RehydrateAddsTheDay`,
   `DayFloor.OldExitsStayOut`).
4. The live seed, replay and first sync cancel (`LiveSeed.LiveSeedCancellation`); an adopted
   entry is committed at most once under every interleaving, and its margin moves to used with
   that one row (`Adopted.ExactlyOnce`, `Adopted.MarginMovesOnce`); an adoptable one whose caller
   gets as far as its commit is committed exactly once (`Adopted.GuardGrantsIff`,
   `Adopted.AdoptsExactlyOnce`, `Adopted.GrantedThenCommitted`). When restoring a lost
   reservation agrees with the ledger, and when it is safe: `Adopted.RestoreAgreesIff`,
   `Adopted.RestoreSafeIff`.
5. A hard kill survives crashes, failed writes and restarts unless weakened
   (`KillSwitches.HardKillStays`); a flatten is single-flight exactly as long as no dispatch
   wins during an armed drain (`FlattenWorkers.DispatchSafeIff`), and a drain then answers
   truly (`FlattenWorkers.DrainAnswers`); a flatten with readable positions never crosses zero,
   routes CNC and CO rightly and ends (`Flattens.Flatten`); what was refused is tried again,
   and the report names an item exactly when its last turn was a refused order or cancel
   (`Flattens.LastTurnDecides`); without readable positions an exit is safe exactly as
   `Brokers.BlindExitSafeIff` says.
6. A live order publishes at most one fill event, whatever the replies and interleavings,
   exactly when the state machine does not hold it at PENDING (`OrderMonitors.FillEventOnceIff`);
   on paper the fill thread and the monitor together publish at most one
   (`OrderMonitors.PaperFillEventOnce`). Every poll cycle is a run of the interleaving model,
   order by order, so any number of cycles over any watch list publish each fill at most once
   (`PollCycles.PollIsARun`, `PollCycles.CyclesPublishOnce`), and a fill that the broker reports
   of an order at work is published in that cycle (`PollCycles.FillIsTold`).
7. Ranked greedy admission is optimal when cash does not bind, loses nothing as soon as cash
   covers what ranking takes, and can lose when it does not (`Allocation.GreedyIsOptimal`,
   `Allocation.TopFitsNoRegret`, `Allocation.CashCanMakeRegretNegative`).
8. The token bucket keeps its window bound (`RateLimiters.WindowBound`); truncation commutes
   with escaping and cuts between tokens (`HtmlTruncation.TruncateCommutesWithEscape`,
   `HtmlTruncation.TruncateCutsBetweenTokens`); which messages are sent with a bold tag left
   open (`BoldTags.BoldClosedIff`); snapping never turns a stop around (`Ticks.StopKeepsOrder`).

## Where the code and its own words differ

The model follows the code.

- The rebuild describes its two-hop lookup as signal to first RESERVE row
  (capital/fund_manager.py:1730 and 1995); `get_reservation_id_for_signal` returns the most
  recent one, as it documents (core/state_store.py:1281-1298).
- The comment on the live seed says that seed plus phase 2 equals the broker's net
  (main.py:2055-2063); the positional carry comes on top (`LiveSeed.SeedCancels`).
- `_restore_reserve_from_ledger` consults the RESERVE row only. The restored margin agrees with
  the ledger exactly when it equals the chain's margin (`Adopted.RestoreAgreesIff`): not after a
  top-up, a buffer release or a RELEASE (`Adopted.RestoreAfterRelease`). After a COMMIT the sum
  agrees, but the margin is both used and reserved and can be committed again
  (`Adopted.RestoreSafeIff`, `Adopted.RestoreAfterCommit`).
- `rehydrate_from_store` promises to bring an order forward to its stored status so that its
  first poll does not go from PENDING to COMPLETE (broker/order_monitor.py:443-444). The table
  has no step from PENDING to OPEN or PARTIAL, so only SUBMITTED is reached: the fill of any
  other order that completed meanwhile is told on no poll (`OrderMonitors.RehydratedFillIff`,
  `OrderMonitors.RehydratedFillLost`), and a partial termination is told again on every poll that
  finds the order cancelled (`OrderMonitors.FillEventOnceIff`).
- `drain_flatten` writes COMPLETE after its join whatever was dispatched meanwhile
  (`FlattenWorkers.ArmedDrainLies`, `FlattenWorkers.StaleDrainReachable`).
- The flatten's comment says the sweep catches entries filled meanwhile; a local trade of
  quantity zero hides its symbol from the sweep (`Flattens.IntradayLeftLiveIff`).
- `attempted == succeeded + len(failed)` fails when the open trades cannot be fetched
  (`Flattens.Flatten`).
- With an unknown net, the closing fallback can open or turn a position: it is safe exactly when
  it closes in the right direction and no more than there is (`Brokers.BlindExitSafeIff`,
  `Brokers.BlindFallbackCrossesZero`).
- A message cut to the hard cap can leave a bold tag open, of the title or of any label
  (`BoldTags.BoldClosedIff`, `HtmlTruncation.TitleClosedIff`).
- A sell stop below one tick is snapped to a limit of zero (`Ticks.SellStopVanishesIff`).
- A negative token request overfills the bucket exactly when it returns more than there is room
  for (`RateLimiters.NegativeRequestOverfills`).
- The order state machine is documented with eight states; its table has nine.

## Model

| member | source | states |
|---|---|---|
| CapitalInvariant.Round2IsClose | capital/invariant.py:154-205 | rounding a side of the check to two decimals moves it by at most half a paisa |
| CapitalInvariant.RoundedGap | capital/invariant.py:154-205 | rounding both sides blurs the compared gap by at most 0.01 |
| CapitalInvariant.AssertionIff | capital/invariant.py:154-205 | the assertion passes, up to a paisa, if and only if no side is below the tolerance and the two sides agree within it; a loss lowers the floor, a profit does not raise it |
| Ledger.CarryoverSplits | capital/fund_manager.py:1918-1965 | the day's realized carryover is the sum of what it gives each bucket (Figures.CarryoverIsSum says what that is) |
| Ledger.Unmentioned | capital/fund_manager.py:2520-2568 | a reservation no row mentions has no margin, chain, commit or reserve row in the ledger |
| Figures.ReserveInPrices | capital/fund_manager.py:521-635 | a reserve sets price times quantity with the buffer on top, over the intent's leverage, aside in the intent's bucket, and is refused if and only if that bucket has less |
| Figures.CommitInPrices | capital/fund_manager.py:894-1050 | a commit puts price times quantity over the intent's leverage to use and returns the rest |
| Figures.ExitInPrices | capital/fund_manager.py:1281-1327 | an exit adds sale less purchase less costs, by direction, to the total and to the intent's bucket, and nothing to the other |
| Figures.ProfitFollowsPrice | capital/fund_manager.py:1281-1285 | a higher exit price is worth more to a long and less to a short |
| Figures.UncommittedExit | capital/fund_manager.py:1376-1409 | without a COMMIT row the freed margin is the one at the entry price |
| Figures.ReleasesInFull | capital/fund_manager.py:637-779 | a release gives back the whole margin, a buffer release the buffer |
| Figures.TopUpInFigures | capital/fund_manager.py:781-892 | a top-up moves its amount, and is refused if and only if the bucket has less |
| Figures.SyncInShares | capital/fund_manager.py:1411-1530 | after a sync each bucket sums to its share of the broker's cash and its own carry |
| Figures.SyncTells | capital/fund_manager.py:1411-1530 | which drift events a sync publishes, with which figures, and exactly when |
| Figures.CarryoverIsSum | capital/fund_manager.py:1918-1965 | a bucket's carryover is the profit of its exits since the floor, and of no other row |
| Figures.ResetInRows | capital/fund_manager.py:1687-1718 | the daily reset reports the profit of the rows of its date and writes the negative |
| Figures.RidForSignalIsLatest | core/state_store.py:1281-1298 | the reservation of a signal is that of its latest RESERVE row |
| Figures.ReserveRowIsEarliest | capital/fund_manager.py:2237-2307 | a restored reservation is read from its earliest RESERVE row |
| Runs.StepWritesAhead | capital/fund_manager.py:445-1718 | every public mutator wrote ahead: one row that describes the whole change of its kind, or no change |
| Runs.BootAgrees | capital/fund_manager.py:294-425 | a new process on any ledger starts in agreement |
| Runs.StepAgrees | capital/fund_manager.py:521-1718 | one call keeps: sum equals total exactly, reserved equals the live margins, each live margin equals its ledger rows, total equals INIT plus PnL plus SYNC, the latest row's balance equals available |
| Runs.RunAgrees | capital/fund_manager.py:521-1718 | the same over every run, failed writes and raised checks included |
| Runs.StepAgreesFrom | capital/fund_manager.py:521-1718 | from any offset between book and ledger, one call keeps the agreement up to that offset: initialize clears it, a sync closes its gap, and no other call adds to it |
| Runs.RunAgreesFrom | capital/fund_manager.py:521-1718 | the same over every run, so also over the run that follows a warm restart |
| Runs.BasesSumToTotal | capital/fund_manager.py:2311-2335 | the two bucket bases sum to the total |
| Runs.SyncBalances | capital/fund_manager.py:1411-1530 | a sync closes any gap between balances and total |
| Replay.MarginInPhase | capital/fund_manager.py:2096-2144 | a chain's margin in the ledger is its RESERVE plus the rows replay skips |
| Replay.ChainReplayed | capital/fund_manager.py:1967-2146 | replaying a chain moves exactly what its phase says, never hits a missing reservation and touches no other |
| Replay.TradesReplayed | capital/fund_manager.py:1720-1830 | replaying all open trades, anomalies passed over, rebuilds balances and reservations as sums over their chains, and counts them |
| Replay.MovedSum | capital/fund_manager.py:1967-2146 | replay conserves a bucket's sum but for rows skipped in committed chains |
| Replay.ReplayGap | capital/fund_manager.py:1720-1916 | after rehydrate the gap between balances and total is the old gap plus what commits dealt out beyond their RESERVE rows; where commits were square, the skipped rows' margin_delta |
| Replay.GapDecides | capital/fund_manager.py:2391-2471 | a gap above 1.01 always raises; at most 0.99 with non-negative parts never does |
| Replay.BalancedRaisesOnlyNegative | capital/fund_manager.py:2391-2471 | without a gap the check raises if and only if some balance is negative |
| Replay.SkippedRowsDecideStart | capital/fund_manager.py:1720-1916 | on a balanced boot that sum alone decides whether the start is stopped |
| Replay.SquareIsSkipped | capital/fund_manager.py:1720-1916 | over square chains what commits dealt out unseen is the sum of the skipped rows |
| Replay.TradeRebuilds | capital/fund_manager.py:1967-2146 | a rebuilt reservation has symbol, quantity, price and signal of the trade row, and the intent of its product |
| Replay.IntentOfTrade | capital/fund_manager.py:1967-2146 | the intent by product, or by the bucket of the earliest RESERVE row |
| Replay.AnomaliesReported | capital/fund_manager.py:1967-2146 | the anomalies of a replayed chain are exactly its rows passed over: neither RESERVE nor COMMIT, or a COMMIT with no RESERVE before it |
| Positions.StepKeepsChains | capital/fund_manager.py:521-1050 | every row continues its reservation's chain properly |
| Positions.StepKeepsPositions | capital/fund_manager.py:1264-1327 | each call keeps each bucket's used equal to committed margin times remaining over committed quantity, summed over the session's positions, plus the residue of its restart |
| Positions.RunKeepsPositions | capital/fund_manager.py:1264-1327 | the same over every run of a session, for positions committed in it and positions brought in by its restart |
| Positions.UsedNonNegative | capital/fund_manager.py:1264-1327 | used is never below that residue when no trade exits more than it committed |
| Positions.ExitWithinUsed | capital/fund_manager.py:1376-1409 | an exit of no more than what is left frees no more than what is used |
| Positions.ExitSlice | capital/fund_manager.py:1376-1409 | release_used frees the committed margin pro rata, not a recomputed margin |
| Positions.ExitsFreeSlice | capital/fund_manager.py:1376-1409 | any partial exits free the slice of their total quantity |
| Positions.FullExitFreesAll | capital/fund_manager.py:1376-1409 | partial exits that sum to the committed quantity free exactly the committed margin, in this session or after a restart |
| Lifecycle.ReleaseUndoesReserve | capital/fund_manager.py:521-687 | release undoes reserve: all of memory, and the ledger's margin of the reservation |
| Lifecycle.BufferIsLent | capital/fund_manager.py:689-779 | reserve, buffer release and a fill at the reserved price move exactly the required margin from available to used |
| Lifecycle.BufferReleasedOnce | capital/fund_manager.py:689-779 | a second buffer release is refused and changes nothing |
| Lifecycle.WholeLife | capital/fund_manager.py:521-1374 | reserve, fill and full exit under any prices and leverage maps leave exactly sale less purchase less costs, in available and in total |
| Lifecycle.BootIsSolvent | capital/fund_manager.py:445-495 | a session booted with a non-negative balance starts solvent |
| Lifecycle.BufferPaysForSlippage | capital/fund_manager.py:521-635 | a reservation with its buffer affords every fill of its quantity up to the buffered price |
| Lifecycle.StepStaysSolvent | capital/fund_manager.py:2391-2471 | an affordable call keeps every balance non-negative and its closing check does not raise |
| Lifecycle.RunStaysSolvent | capital/fund_manager.py:2391-2471 | the same over every affordable run, failed writes included |
| Lifecycle.CommitRaisesIff | capital/fund_manager.py:894-1050 | on a solvent book a commit raises if and only if its margin outruns what is held and available by more than the tolerance |
| Lifecycle.ReleaseUsedRaisesIff | capital/fund_manager.py:1204-1374 | an exit within its quantity raises if and only if its loss outruns the freed slice and available by more than the tolerance |
| Lifecycle.SyncRaisesIff | capital/fund_manager.py:1411-1530 | a sync raises if and only if reserved and used outrun a bucket's share of the balance, or both together, by more than the tolerance |
| Restart.StepKeepsAccount | capital/fund_manager.py:521-1374 | every call but a sync keeps each bucket's sum, and the total, less the day's realized profit |
| Restart.DayKept | capital/fund_manager.py:521-1374 | so does every run without a sync, from any start |
| Restart.BeyondIsSkipped | capital/fund_manager.py:2096-2144 | what a live reservation holds beyond its RESERVE row is what replay skips |
| Restart.CommitIsSquare | capital/fund_manager.py:894-1050 | a commit on a book that agrees with its ledger deals out exactly what the chain held |
| Restart.RestartExact | capital/fund_manager.py:1720-1916 | a restart never fails, and each rebuilt bucket differs from the lost one by idle reservations returned, skipped rows, partial exits taken again, and the new opening balance |
| Restart.RestartAccount | capital/fund_manager.py:1720-1916 | the rebuilt total, carry and reservation map against the lost ones |
| Restart.RestartGap | capital/fund_manager.py:1720-1916 | the rebuilt book is out of balance by exactly what its replayed commits dealt out beyond their RESERVE rows |
| Sessions.RestartKeepsSound | capital/fund_manager.py:1720-1916 | rehydrating the open trades of any session gives a book whose used margin is again pro rata, residue of partial exits named |
| Sessions.SessionsKeepPositions | capital/fund_manager.py:1264-1327 | used stays pro rata over any number of calls and restarts, each process under its own leverage map |
| Sessions.ExitsAfterRestart | capital/fund_manager.py:1376-1409 | exits after a restart that sum to the committed quantity free exactly the committed margin |
| Sessions.RehydrateAgrees | capital/fund_manager.py:1720-1916 | rehydrate puts book and ledger in agreement up to a named offset: skipped margins, carry and the day's profit |
| Sessions.WholeDayRefines | capital/fund_manager.py:1720-1916 | with plain chains and whole positions the rebuilt book is the lost one plus the carry |
| Sessions.RestartRefines | main.py:2738-2830 | boot and rehydrate with carried positions, any day without a sync, boot and rehydrate again: the second restart refines the live run |
| Sessions.SecondRestartIsTheSame | main.py:2738-2830 | a second boot and rehydrate right after the first gives the same book |
| DayFloor.OldExitsStayOut | capital/fund_manager.py:1918-1965 | rehydrate, whatever the book and the trades, is the same without the exits before the floor |
| DayFloor.RehydrateAddsTheDay | capital/fund_manager.py:1918-1965 | each exit since the floor adds its profit to its bucket and to the total, beside what the open trades replay |
| DayFloor.FlatMorning | capital/fund_manager.py:1720-1916 | with no open trades the book is its shares of the balance and the day's profit |
| DayFloor.EarlierDaysAreOver | capital/fund_manager.py:1918-1965 | and the opened book when every exit is older |
| LiveSeed.TradesKeepAccount | capital/fund_manager.py:1967-2146 | replaying trades leaves total and carry alone |
| LiveSeed.SeedCancels | main.py:2074-2078 | the seed's subtraction and phase 2's addition cancel; total is net plus the positional carry |
| LiveSeed.SyncRestsOnBase | capital/fund_manager.py:1411-1530 | after a sync every bucket sums to its base and total is net plus carry |
| LiveSeed.SyncTwice | capital/fund_manager.py:1411-1530 | a second sync with the same net changes nothing but the ledger |
| LiveSeed.LiveSeedCancellation | main.py:2738-2830 | boot, rehydrate, sync with one net and one day floor: no drift, no drift event, on base, repeatable |
| Adopted.NextSafe | capital/fund_manager.py:1052-1142 | each atomic section keeps: at most one COMMIT row, one holder per claim, no commit meets a missing reservation |
| Adopted.ExactlyOnce | capital/fund_manager.py:1052-1142 | the same over every interleaving of any number of callers, other mutators and restores that are safe |
| Adopted.GuardGrantsIff | capital/fund_manager.py:1099-1134 | the guard grants an id if and only if the trade names it, no COMMIT row or claim has it, and memory or ledger holds its reservation |
| Adopted.AdoptsExactlyOnce | capital/fund_manager.py:1052-1142 | an adoptable entry, called alone with a write that goes through, gets exactly one COMMIT row, loses its reservation and puts price times quantity over leverage to use |
| Adopted.GrantedThenCommitted | capital/fund_manager.py:1052-1142 | an adoptable entry whose caller reaches its commit has exactly one COMMIT row ever after, whatever ran between and follows |
| Adopted.MarginMovesOnce | capital/fund_manager.py:1052-1142 | over runs of callers, used grows by exactly the margins of the new COMMIT rows, of which a reservation has at most one |
| Adopted.ReleaseAdoptedNetsOut | capital/fund_manager.py:1172-1202 | releasing an adopted reservation not in memory changes no balance and balances its chain |
| Adopted.RestoreAgreesIff | capital/fund_manager.py:2237-2307 | a restored reservation agrees with the ledger if and only if its RESERVE amount is the chain's margin |
| Adopted.RestoreAfterRelease | capital/fund_manager.py:2237-2307 | so after a release it disagrees unless the reserved margin was zero |
| Adopted.RestoreSafeIff | capital/fund_manager.py:1144-1170 | a restore leaves no live reservation with a commit if and only if it restores none that has one |
| Adopted.RestoreAfterCommit | capital/fund_manager.py:1144-1170 | after a commit the margin is reserved beside being used, agrees with the ledger, and is committed a second time |
| FundManagers.FundManager.Reserve | capital/fund_manager.py:521-635 | the class method computes the specified state and outcome, closing check included |
| FundManagers.FundManager.TopUpReservation | capital/fund_manager.py:781-892 | the same for top_up_reservation |
| FundManagers.FundManager.CommitToUsed | capital/fund_manager.py:894-1050 | the same for commit_to_used, with the number of hard-kill calls a raise makes |
| FundManagers.FundManager.ReleaseUsed | capital/fund_manager.py:1204-1374 | the same for release_used, whose profit is also stated in prices |
| FundManagers.FundManager.SyncFromBroker | capital/fund_manager.py:1411-1530 | the same for sync_from_broker, with the drift events it publishes |
| FundManagers.FundManager.CommitAdoptedEntry | capital/fund_manager.py:1052-1142 | alone, it commits an adoptable entry exactly once and no other, never meets a missing reservation and always gives its claim back |
| FundManagers.FundManager.ReleaseAdoptedReservation | capital/fund_manager.py:1172-1202 | the method restores what is missing, then releases it, as specified |
| FundManagers.FundManager.RehydrateFromOpenTrades | capital/fund_manager.py:1720-1916 | the loops over trades, rows and carryover compute the specified rebuild, its count and anomalies |
| KillSwitches.KillSwitch.Apply | capital/kill_switch.py:563-789 | a failed write changes neither state, row nor events; a done request changes all three together |
| KillSwitches.KillSwitch.RecordApiFailure | capital/kill_switch.py:791-880 | exactly when a counted failure trips the soft kill, and what a failed trip leaves |
| KillSwitches.RunAgrees | capital/kill_switch.py:934-1047 | memory and store agree over every run of requests, failing writes, crashes and readable restarts |
| KillSwitches.RestartResumes | capital/kill_switch.py:1004-1047 | a restart puts back the kill that was in force |
| KillSwitches.UnreadableRestartForgets | capital/kill_switch.py:1004-1047 | an unreadable row starts INACTIVE, a change exactly if a kill was in force |
| KillSwitches.HardKillStays | capital/kill_switch.py:315-429 | a hard kill survives every run without a resume or a stale clear |
| KillSwitches.HardKillEnds | capital/kill_switch.py:756-789 | a running hard kill ends at a step if and only if that step weakens it and its write goes through |
| KillSwitches.FailedWriteIsSilent | capital/kill_switch.py:934-976 | a failed write is no step at all, and nothing is published ahead of the store |
| KillSwitches.RequestDecides | capital/kill_switch.py:315-789 | which kill is in force after each request, by the kill before it |
| KillSwitches.RequestSigns | capital/kill_switch.py:315-789 | whose kill it is, why and since when; a request that changes nothing leaves all of it |
| KillSwitches.ChangeIsTold | capital/kill_switch.py:1049-1072 | a change is published once with the state it came from, a clear or a no-op is not |
| KillSwitches.CountedFailures | capital/kill_switch.py:791-880 | only connectivity failures count towards the trip |
| FlattenWorkers.AlwaysSingleFlight | capital/kill_switch.py:1152-1306 | with no dispatch won during an armed drain: at most one flatten unfinished, and in-progress is true exactly meanwhile |
| FlattenWorkers.FlattenCompletes | capital/kill_switch.py:1229-1258 | every unfinished flatten can reach COMPLETE, by worker, crash or inline fallback |
| FlattenWorkers.DrainAnswers | capital/kill_switch.py:1260-1306 | a drain answers true only when nothing is left running, and false only when a flatten is, or when the join gave up on a thread that had just written COMPLETE |
| FlattenWorkers.ArmedDrainLies | capital/kill_switch.py:1260-1306 | a dispatch won during an armed drain is marked complete while it runs |
| FlattenWorkers.DispatchSafeIff | capital/kill_switch.py:1260-1306 | letting a dispatch win is safe if and only if no drain is armed |
| FlattenWorkers.TwoFlattens | capital/kill_switch.py:1165-1227 | after that, the next dispatch starts a second flatten beside the first |
| FlattenWorkers.StaleDrainReachable | capital/kill_switch.py:1260-1306 | such a state is reached by real steps |
| Brokers.BrokerNetQty | broker/position_helpers.py:27-45 | the loop sums a symbol's rows, and is None exactly when positions are unreadable |
| Brokers.DetermineCloseDirection | broker/position_helpers.py:48-68 | with a known net the answer is flat exactly at zero, else the order that would close it whole |
| Brokers.ClosingConverges | broker/position_helpers.py:48-68 | an order for the net, filled in any part, moves it toward zero and never past |
| Brokers.BlindExitSafeIff | broker/position_helpers.py:48-68 | the fallback of an unreadable net is safe, however much of it fills, if and only if it closes in the right direction and no more than there is |
| Brokers.BlindFallbackCrossesZero | broker/position_helpers.py:48-68 | from a flat symbol it opens a position |
| Flattens.CloseOne | capital/kill_switch.py:1845-1909 | one reverse-aware exit places exactly the order that closes what it read, or the fallback, and fails if and only if that order was placed and refused; it converges with readable positions |
| Flattens.LocalPass | capital/kill_switch.py:1716-1909 | one turn at every trade that is exited or collapsed, in order; failed is exactly what was refused; CNC and CO are routed rightly, counted rightly, and no net crosses zero |
| Flattens.FallbackFitsTrade | capital/kill_switch.py:1838-1862 | the order a trade falls back to when positions cannot be read is safe if and only if its quantity is still held in its direction |
| Flattens.Sweep | capital/kill_switch.py:1915-2011 | one turn at each position the snapshot shows and no trade handled, one row a symbol; exactly the refused are added; no net crosses zero |
| Flattens.RetryRound | capital/kill_switch.py:2053-2138 | one turn at each failed item, CO as a cancel only; still failed is exactly what was refused again |
| Flattens.RetryLoop | capital/kill_switch.py:2015-2151 | each round is about exactly what the one before left; at most 162 rounds; what is still failed has been tried for two hours |
| Flattens.Flatten | capital/kill_switch.py:1670-2151 | attempted and failed say exactly what was tried and what the last round was refused; accounting holds if and only if the trades were fetched; routing, convergence and the final positions of an ideal run |
| Flattens.LastTurnDecides | capital/kill_switch.py:2015-2151 | with distinct items, one is left over if and only if its last turn, in whatever round, was a refused order or cancel |
| Flattens.IntradayLeftLiveIff | capital/kill_switch.py:1728-1738 | exactly when a flatten carried out in full leaves an intraday position live |
| OrderStates.OrderStateMachine.Do | broker/order_state_machine.py:159-211 | a refused operation changes no order, an accepted one only its own |
| OrderStates.TableGoesOnward | broker/order_state_machine.py:100-110 | which transitions are allowed, read as a direction with its exceptions |
| OrderStates.AtMostFourChanges | broker/order_state_machine.py:100-110 | from registration on, under any operations, an order changes state at most four times |
| OrderStates.TerminalAbsorbs | broker/order_state_machine.py:177-211 | a terminal state is never left |
| OrderMonitors.FillEventOnceIff | broker/order_monitor.py:883-1072 | for a live order in any state: at most one fill event under every interleaving, if and only if that state is not PENDING |
| OrderMonitors.CompleteIsTold | broker/order_monitor.py:981-1020 | a COMPLETE reply to an order at work ends it at COMPLETE, unwatched, its fill told once |
| OrderMonitors.EndIsReached | broker/order_monitor.py:1022-1072 | a cancelled or rejected order ends as such, what was filled told first |
| OrderMonitors.RehydratedState | broker/order_monitor.py:386-492 | a rehydrated order is at SUBMITTED exactly when it was stored so, and at PENDING otherwise |
| OrderMonitors.RehydratedFillIff | broker/order_monitor.py:386-492 | the fill of an order that completed while the process was down is told on the first poll if and only if it was stored at SUBMITTED |
| OrderMonitors.RehydratedFillLost | broker/order_monitor.py:981-1020 | from another status it is told on no poll until the broker calls the order open |
| OrderMonitors.PaperFillEventOnce | broker/zerodha_adapter.py:1166-1180 | on paper, where every poll is answered from the fill record, fill thread and monitor publish at most one event |
| OrderMonitors.PaperThreadFills | broker/zerodha_adapter.py:1166-1180 | the paper thread completes and tells an order at work, and neither for one that has ended |
| PollCycles.PollIsARun | broker/order_monitor.py:632-792 | one undisturbed poll is a stretch of the interleaving model and ends idle |
| PollCycles.CyclesArePolls | broker/order_monitor.py:602-630 | over any number of cycles of the whole watch list, each order is polled as if it were alone |
| PollCycles.CyclesPublishOnce | broker/order_monitor.py:602-630 | so each order newly watched beyond PENDING has at most one fill event published |
| PollCycles.CompleteReachesDesk | broker/order_monitor.py:981-1020 | over the cycles of a desk, a COMPLETE reply to an order at work publishes its fill in that cycle, and nothing undoes it |
| PollCycles.EndReachesDesk | broker/order_monitor.py:1022-1072 | likewise a cancel or reject, with the partial fill told once |
| PollCycles.FillIsTold | broker/order_monitor.py:602-792 | an order the broker works on for any number of cycles and then completes has its fill told exactly once, in that cycle |
| PollCycles.OpenLeads | broker/order_monitor.py:877-881 | where an open reply leads, by state, leg, timeout and price check |
| PollCycles.PartialLeads | broker/order_monitor.py:883-979 | where a partial reply leads, with what is told |
| PollCycles.OrderMonitor.SafeTransition | broker/order_monitor.py:1211-1301 | which transitions move, which are swallowed and which are raised again |
| PollCycles.OrderMonitor.HandleTerminal | broker/order_monitor.py:1022-1072 | a partial quantity is told before the transition, which may raise and leave the order watched |
| PollCycles.OrderMonitor.HandlePartial | broker/order_monitor.py:883-979 | the first partial of an entry is cancelled at once, exits are exempt, a refused cancel untracks |
| PollCycles.OrderMonitor.HandleOpen | broker/order_monitor.py:877-881 | the open reply with its timeout and price checks reaches the specified state |
| PollCycles.OrderMonitor.PollCycle | broker/order_monitor.py:602-630 | every watched order is polled exactly once to its own outcome, and touches no other order |
| Sorting.SortIgnoresArrival | allocation/ranker.py:14-26 | without ties, sorting gives the same result for every permutation |
| Allocation.RankingIsReplayable | allocation/ranker.py:14-26 | with distinct signal ids both orders are the same for every order of arrival |
| Allocation.RankedOrder | allocation/ranker.py:14-26 | in a ranked window the better score stands first, then HIGH before MEDIUM before LOW, then the earlier trigger, then the smaller id |
| Allocation.AdmitsIff | allocation/portfolio_allocator.py:175-201 | a candidate is admitted if and only if margin, new symbol, deployed share and the larger side's share, in numbers, allow it |
| Allocation.Simulate | allocation/portfolio_allocator.py:203-233 | the loop is the greedy admission |
| Allocation.GreedyIsFeasible | allocation/portfolio_allocator.py:203-233 | admitted symbols are distinct, within the slots, and their margins fit the capital |
| Allocation.RulesHoldThroughout | allocation/portfolio_allocator.py:175-201 | cap and skew hold after every single admission |
| Allocation.GreedyCount | allocation/portfolio_allocator.py:203-233 | when everything fits, min(free slots, distinct symbols) are admitted |
| Allocation.GreedyIsOptimal | allocation/portfolio_allocator.py:203-233 | ranked admission scores at least as much as any equally large selection of distinct symbols |
| Allocation.RegretBalances | allocation/portfolio_allocator.py:235-261 | crowd-out plus ranked admissions equals starvation plus arrival admissions, under any rules |
| Allocation.RegretNonNegative | allocation/portfolio_allocator.py:235-261 | score-weighted regret is non-negative when everything fits |
| Allocation.TopFitsNoRegret | allocation/portfolio_allocator.py:235-261 | it is non-negative as soon as cash covers what ranking would take without a cash limit, scores not being negative |
| Allocation.CashCanMakeRegretNegative | allocation/portfolio_allocator.py:235-261 | with less cash it can be negative, and exactly when in a window of one large and two small candidates |
| RateLimiters.NextIsFair | broker/rate_limiter.py:69-105 | tokens stay between zero and capacity |
| RateLimiters.RunIsFair | broker/rate_limiter.py:69-105 | and do so over every run of calls in clock order |
| RateLimiters.NegativeRequestOverfills | broker/rate_limiter.py:90-99 | a request of any size keeps that if and only if what it leaves still fits the bucket; only a negative one can break it |
| RateLimiters.GrantedWithinPotential | broker/rate_limiter.py:69-105 | grants never exceed what the bucket held plus what flowed in |
| RateLimiters.WindowBound | broker/rate_limiter.py:69-105 | after any history, at most capacity + rate * window is granted in any window |
| RateLimiters.FrozenGrantsNothing | broker/rate_limiter.py:90-105 | nothing is granted before a freeze ends |
| RateLimiters.FreezeEnds | broker/rate_limiter.py:90-105 | from the end of a freeze on tries are granted as if there had been none |
| RateLimiters.GrantIff | broker/rate_limiter.py:69-99 | a try is granted if and only if no freeze is on and what is held plus the inflow, up to the capacity, suffices |
| RateLimiters.RefillTwice | broker/rate_limiter.py:69-74 | an extra refill on the way changes nothing |
| RateLimiters.EstimateIsExact | broker/rate_limiter.py:76-86 | left alone, a try is granted if and only if the estimated seconds have passed |
| RateLimiters.TokenBucket.SecondsUntilReady | broker/rate_limiter.py:76-86 | the method gives that estimate, and its refill is a step of the history |
| RateLimiters.TokenBucket.TryAcquire | broker/rate_limiter.py:90-99 | the method is one step of the bucket's history |
| RateLimiters.Acquire | broker/rate_limiter.py:177-246 | acquire ends against every clock and interference; grants at once when it can and only by a granted try; refuses at once exactly what exceeds capacity; naps between a millisecond and a tenth of a second; gives up only after the wait or on shutdown |
| Ticks.RoundDownIsFloor | broker/slippage_engine.py:161-172 | the largest grid price at most the price |
| Ticks.RoundUpIsCeiling | broker/slippage_engine.py:147-158 | the least grid price at least the price |
| Ticks.RoundNearestIsNearest | broker/slippage_engine.py:175-186 | no grid price is nearer; ties go up for positive prices |
| Ticks.ResolveTick | broker/zerodha_adapter.py:1383-1407 | there is always a positive tick, and it is the listed one when that is positive |
| Ticks.StopKeepsOrder | broker/zerodha_adapter.py:1409-1463 | a stop's limit stays on its side of the trigger, for any tick and prices |
| Ticks.StopStaysStrict | broker/zerodha_adapter.py:1409-1463 | and strictly so when it was more than half a tick past it |
| Ticks.SnapDirection | broker/zerodha_adapter.py:1409-1463 | a stop's limit goes away from its trigger by less than a tick, every other price to the nearest |
| Ticks.SellStopVanishesIff | broker/zerodha_adapter.py:1409-1463 | a sell stop's limit snaps to zero if and only if it is below one tick |
| Ticks.SnapLandsOnGrid | broker/zerodha_adapter.py:1409-1463 | snapped prices are tick multiples less than a tick away |
| Ticks.SnapIsIdempotent | broker/zerodha_adapter.py:1409-1463 | snapping twice is snapping once |
| Ticks.FillIsAdverse | broker/slippage_engine.py:94-138 | a fill costs at least the tier's delta and less than a tick more |
| Ticks.GuardBoundsOvershoot | broker/slippage_engine.py:94-138 | thanks to the sub-tick guard a fill costs less than three deltas |
| Ticks.FillOnGridIff | broker/slippage_engine.py:94-138 | from a grid price the fill is on the grid if and only if the delta is zero or reaches half a tick |
| Ticks.TierInWords | broker/slippage_engine.py:94-138 | the delta is the tier's basis points of the price, and the tier that of the instrument's kind where the table has it |
| HtmlTruncation.EscapeConcat | alerts/telegram_notifier.py:871-878 | the five replacements of html.escape work character by character |
| HtmlTruncation.EscapedChar | alerts/telegram_notifier.py:871-878 | what each of the five characters is escaped to |
| HtmlTruncation.ContextLineIs | alerts/telegram_notifier.py:875-878 | a context line is its key, a colon and its value, escaped as a whole |
| HtmlTruncation.TruncateCutsBetweenTokens | alerts/telegram_notifier.py:55-78 | truncation yields the longest prefix of whole tags and entities that fits |
| HtmlTruncation.TruncateCommutesWithEscape | alerts/telegram_notifier.py:55-78 | truncating the escaped text is escaping the longest prefix whose escape fits |
| HtmlTruncation.FormatMessage | alerts/telegram_notifier.py:858-914 | every message has at most 4096 characters |
| HtmlTruncation.MessageShape | alerts/telegram_notifier.py:858-914 | which of the three forms is sent, exactly when, and how much of the body survives |
| HtmlTruncation.MessageIsWellFormed | alerts/telegram_notifier.py:858-914 | no message breaks inside a tag or an entity |
| HtmlTruncation.TitleClosedIff | alerts/telegram_notifier.py:858-914 | the bold title is closed again if and only if the title line leaves room for the marker |
| BoldTags.CutFlat | alerts/telegram_notifier.py:55-78 | a cut through bold spans leaves at most one tag open, and one exactly when it falls between an opening tag and the end of its closing one |
| BoldTags.BoldClosedIff | alerts/telegram_notifier.py:858-914 | a sent message has at most one bold tag open, and one if and only if everything but the body is beyond the cap and the cap falls inside a label |

## Left out

- Floating point: NaN and infinity guards, and the split's 1e-9 slack (the fractions sum to exactly 1); Decimal division to 28 digits is exact here.
- Book.Reserve: a leverage of zero (a division by zero in the source) is outside the model's leverage map.
- Sessions.RestartRefines: refinement for a day without a sync, plain chains and whole positions; without these Restart.RestartExact names the differences.
- Positions.RunKeepsPositions: for exits that carry their trade and its bucket; without them release_used recomputes the margin and no pro-rata law holds. The same goes for Sessions.SessionsKeepPositions, whose restarts read the open trades of the session.
- Adopted.ExactlyOnce: for successful ledger writes and no other committer or releaser of the same reservation; a failed write gives the claim back and the call may be made again. Restores are those Adopted.RestoreSafeIff allows.
- Lifecycle.RunStaysSolvent: for calls the buckets can stand, in terms of quantities left, prices and what is available; the three RaisesIff lemmas say what happens beyond.
- Lifecycle.BootIsSolvent: for bucket fractions that are not negative.
- FundManagers.FundManager.RehydrateFromOpenTrades: the raised inconsistency is the Violated outcome; the start-up code that reacts to it is not part of this model.
- FundManagers.FundManager: the six balance fields are grouped per bucket in a record; the lock is not a field, as each method is one locked section.
- The `strategy` tag of a reservation is kept by reserve and lost by top-up and buffer release, as in the source; counts per strategy are not claimed.
- The positional carry is set by rehydrate and never reduced on close, as in the source; nothing is claimed about it across closes.
- Daily-loss callback, unrealized mark-to-market, snapshots and counters of the fund manager: no state the proofs depend on.
- KillSwitches: notifier, sentinel file, audit entries and the case-insensitive reading of stored states.
- Flattens.Flatten: one product per symbol for the claims about positions, since the net is summed over products; and the cancelling of resting SL and TGT orders and the EXITING marks in the store.
- Flattens.RetryLoop: the clock advances by at least each delay; a sleep cut short by shutdown is not modelled.
- Broker positions change only by the flatten's own orders and cancels, each filling some part before the next read.
- FlattenWorkers.FlattenCompletes: says that completion is always reachable; that threads are scheduled at all is assumed.
- OrderMonitors: one order per interleaving. Circuit breakers, the force-close of entries and the orphan's second look are folded into the replies.
- OrderMonitors.PaperFillEventOnce: an order placed in this process; after a restart the paper record is gone and every reply is SUBMITTED.
- PollCycles.CyclesPublishOnce: for cycles no other thread steps into; OrderMonitors.FillEventOnceIff has the interleavings.
- PollCycles.OrderMonitor: composite keys, prices, slippage figures and OrderStatusChanged events; the watch map is keyed by the internal id.
- Allocation.RegretNonNegative: needs every margin to fit; TopFitsNoRegret needs less, CashCanMakeRegretNegative shows why not nothing.
- Tier labels are taken as upper-cased, and sides as BUY or SELL; the ValueError for others is not modelled.
- RateLimiters.TokenBucket: a locked section reads the clock once; the thaw notice, which only logs.
- Ticks.FillIsAdverse: for a non-negative tier, as configured; a negative one would slip in the trader's favour.
- HtmlTruncation.MessageIsWellFormed: for a severity and a time stamp made of whole tags and escaped characters, as the source inserts them unescaped; BoldTags.BoldClosedIff for ones without tags.
- Telegram's delivery, its sliding-window limiter and retries; paper position prices and PnL; cost calculator, drift handler, token monitor and product resolver: case tables and counters.
- SQLite, the event bus, configuration, logging and telemetry, command line and start-up wiring.
