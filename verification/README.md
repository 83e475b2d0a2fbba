# Verified model of a single-position trading bot

A Dafny model of the trading bot's order protocol, worker gate, price arithmetic, manifest reader and strategy, with
proofs of what each promises.

- `Trading` is the controller: every operation is a method over one database session (`Repositories.Store`) and an
  adversarial exchange (`ExchangeModel.Exchange`). At every await the process may die; `Crashed` travels to the top
  with `:-`, the session rolls back to what was committed, and only a restart goes on. `Safe()` is the invariant of
  every such moment: it speaks of the whole history of orders sent (`placed`), committed states (`trail`), slot
  releases (`released`) and positions held (`tape`); `Invariants` states it on values. `heard` records what the
  exchange was heard to say, `answers` and `cancels` what the worker was asked and replied; the `…Outcome` predicates
  say what each operation comes to in these terms. `Run` composes arbitrary sequences of operations. `Snapshots` is
  what the exchange may do between two queries; `Shortfalls` holds the promises that fail, with inputs and exact
  conditions.
- `ConcurrentOpens` is the second protocol model: any number of opening handlers interleaved at their awaits, as a
  transition relation over the shared rows, slot and exchange.
- `Worker` and `Mapping` are the worker-side gate, `EndToEnd` joins it to the controller; `Quantization`, `Decimals`
  and `Sizing` the arithmetic over exact reals with power-of-ten ticks; `Ema5Break` the strategy, `Ema5BreakLaws` what
  its signals and averages mean, `StrategyLoops` its candle gate; `YamlLite`, `YamlLocality` and `Text` the manifest
  reader, `YamlWriting` and `YamlPrinter` every way of writing what it reads, `YamlLimits` what it refuses or
  misreads.

## Assumptions

- Queries are truthful or raise. FLAT, LONG and SHORT answers are the position at that moment; an empty list of open
  orders means nothing is live; a missing order is not live (dead orders may be forgotten); fills are complete for
  dead orders; a REJECTED status means neither a live order nor a fill; FILLED and CANCELED mean not live. No reply is
  PENDING_SUBMISSION or SUBMITTING. Other statuses promise nothing.
- A place whose call raised has settled before the next query. Reduce-only orders cannot flip a position. Only the bot
  trades the pair. Ids are fresh, and one number stands for the order id and its cloid.
- `try_acquire` is flushed, not committed; it becomes durable with the PENDING_SUBMISSION insert.
- Candle timestamps are positive and do not decrease.

## Findings

Each promise below fails at the input named and holds exactly under the condition named.

- `clear_estop` reads the position before the open orders, so its latch can fall on a position opened in between
  (`PositionThenOrdersIsNot`, `ClearEstopMisleads`). Exactly when: an opening order can still fill at the call and
  FLAT can be answered first (`UncleanIff`; from a FLAT position just the former, `UncleanFromFlatIff`). Otherwise
  `ClearEstop` promises a clean exchange. A caller can see the condition by asking for open orders first. ACK rows
  pass its guards, and no cancel loop lists them.
- `start` mirrors the position before it asks for open orders and can succeed with a FLAT mirror on a position opened
  in between (`StartMisleads`), under the same exact condition (`UncleanIff`, `Preflights`). `_open` asks in the safe
  order.
- `_terminalize_stale_openings_after_flat` promises "FLAT + no open orders"; its caller at
  `backend/app/controllers/trading_controller.py:554` checks FLAT but never asks for open orders, so it can write
  CANCELED over a live order (`TerminalizingALiveOrder`). The writes are true exactly when no stale row is live
  (`TerminalizedTruthfullyIff`); a close can write a false one exactly when a stale row is live at the call and FLAT
  is reachable (`MisCancelsIff`). `ConfirmClosed` is on one side of the condition, `TerminalizeIfFlat`, called by a
  start once nothing is live, on the other.
- RUNNING with the switch off can be on disk after a crash inside `stop` or `emergency_stop`
  (`RunningWithTheSwitchOff`): exactly when the system was running and, for `stop`, the crash falls right after the
  commit of the cancel loop (`SwitchOffAndCancel`, `CrashAfterCancelLoopIff`, `Perform`). Every other operation keeps
  "RUNNING implies switch on" through crashes, every boot restores it, and "latched implies switch off" (`Latched`)
  holds at every moment.
- A crash of `emergency_stop` can lose the latch and resume trading at the next boot (`EmergencyStopLost`): exactly
  when it falls before the commit that ends the cancel loop (`LatchAndCancel`).
- A row that becomes REJECTED, CANCELED or FILLED by adoption or by the terminalizing of a start keeps the slot. Such
  a slot is freed only by an operation that closes (`Perform`, `Run`); rows terminalized inside a close are freed by
  that close.
- The adapter's `_normalize` applies no default minimum notional, unlike `normalize_order_request`
  (`NormalizationsDisagree`; agreement exactly as in `NormalizationsAgreeIff`).
- `configure` with another pair leaves READY speaking of the old one until the next refresh
  (`StalePairHidesAPosition`, `StalePairIff`).
- A list item whose first key opens a nested block is merged or refused (`NestedFirstKeyIsMerged`,
  `NestedFirstListIsRefused`); map items read back exactly when their first value is no nested block
  (`MapItemReadsBackIff`).
- A close that fails stays in progress unless its order was refused (`ClosePosition`), and every signal but HOLD,
  CLOSE included, is then turned away (`HandleSignal`), over any run without an operator's close (`Run`).

## Model

| member | source | states |
|---|---|---|
| Trading.TradingController.Run | backend/app/controllers/trading_controller.py:57-360 | Any sequence of operations, each crashing at any of its awaits or not, with a restart required after a crash: at every crash point and boundary every order ever sent had a committed row, cloids are distinct, every opening was sent while the exchange was FLAT with nothing live and the system RUNNING, enabled, unlatched and not closing, with exactly the size the settings give for the mid and equity answered last, every reduce-only order was the opposite side and the whole size of the position answered last, the position never flips side, rows evolve legally, the slot names an opening row; a slot held by a final row stays held over any run without a close, and a close in progress stays in progress over any run without an operator's close |
| Trading.TradingController.Perform | backend/app/controllers/trading_controller.py:57-360 | Each operation does its own thing (`OperationOutcome`): signals, closes, start, stop, emergency_stop, clear_estop, enter_recovery and restart end as their own contracts say, refusals with a reason that was heard; at most one order is added, for an id minted during the operation; start (unless latched) and restart ask about every unresolved row and leave none in a pre-send status; only LONG/SHORT signals can add an opening order; start, stop, clear_estop and restart add none; only emergency_stop and clear_estop touch the latch; only start raises the switch; only stop and emergency_stop can break RUNNING-implies-switch, and a crashed stop does so exactly at the settings its cancel loop commits; only closing operations free a slot held by a final row, and only an operator's close ends a close in progress |
| Trading.TradingController.HandleSignal | backend/app/controllers/trading_controller.py:57-113 | HOLD is acknowledged and changes nothing; a CLOSE in RECOVERY, any signal while a close is in progress and an open against the mirrored side are refused and change nothing; every other CLOSE closes as `ClosePosition` says, every other LONG and SHORT opens as `OpenPosition` says: BUY for LONG, SELL for SHORT |
| Trading.TradingController.OpenPosition | backend/app/controllers/trading_controller.py:362-465 | An opening order is sent only after the worker answered reachable, ready and no position elsewhere, from RUNNING, unlatched, with the slot free and nothing unresolved, on the side of the signal and with the settings size; the answer is yes exactly when its row then has a confirmed live status, which is the one its call settled on; without an order the open was refused by the index, refused for a lock that is really closed, or ended in RECOVERY because a query raised, the worker was not ready, an order was open or no size could be computed; latch, switch and close intent are unchanged |
| Trading.TradingController.WorkerForOpen | backend/app/controllers/trading_controller.py:363-373 | Health, then is_ready; nothing more is asked of an unreachable worker |
| Trading.TradingController.GuardAndSubmit | backend/app/controllers/trading_controller.py:400-465 | An order follows only if the guard allows the rows, the side answered first and the answer about other symbols; a refusal by the guard changes nothing |
| Trading.TradingController.SnapshotForOpen | backend/app/controllers/trading_controller.py:374-398 | Position, other positions, open orders, mirror, in that order with fills and cancels in between: if it succeeds nothing is live on the exchange, and a FLAT mirror then means the exchange is FLAT and stays so |
| Trading.TradingController.SizeAndSubmit | backend/app/controllers/trading_controller.py:430-465 | Once the guard has passed at most one opening order follows, on the side of the signal, its row holding exactly the size the settings give for the mid and equity answered just before; none is sent only if no size could be computed, the slot was taken or the index refused |
| Trading.TradingController.ReserveAndSubmit | backend/app/controllers/trading_controller.py:440-465 | Slot compare-and-set, then submission: at most one opening order, for a fresh id, of the given side and quantity, under unchanged settings; a refused insert drops the reservation with the session |
| Trading.TradingController.SizeFromSettings | backend/app/controllers/trading_controller.py:921-932 | The quantity is equity times percentage over mid for the mid and equity just answered, and positive |
| Trading.TradingController.Submit | backend/app/controllers/trading_controller.py:568-650 | One intent, one row, one cloid, at most one call to place_order, made when the row is durable as SUBMITTING and carrying the side, reduce-only flag and quantity of the row; afterwards the row has the replied status (or FILLED for a confirmed acknowledgement), after a raised call the verdict of the reconciliation; the slot is freed only for this order and never for a reduce-only one |
| Trading.TradingController.SendAndSettle | backend/app/controllers/trading_controller.py:606-650 | The call and its settlement together: one placement recorded, the call made with the row, the row settled by the reply |
| Trading.TradingController.PersistIntent | backend/app/controllers/trading_controller.py:596-604 | The row, and for an open the slot taken just before, become durable together before anything is sent: first committed as PENDING_SUBMISSION, then as SUBMITTING; a crash leaves the old disk, or the row with slot in a pre-send status; a refused insert leaves the disk as it was |
| Trading.TradingController.CallPlace | backend/app/controllers/trading_controller.py:606-630 | The call carries the side, reduce-only flag and quantity of the row; it requires a durable SUBMITTING row, a cloid unknown to the exchange and never sent before, for an open a clean exchange, for a close the position answered last; whatever the exchange does with it keeps the whole invariant |
| Trading.TradingController.SettleReply | backend/app/controllers/trading_controller.py:606-650 | After the call the replied status is committed first and kept unless an OPEN is confirmed as FILLED; a raised call is committed as UNKNOWN first and then takes the verdict of the reconciliation; the slot is freed exactly after REJECTED or after the three answers that prove absence |
| Trading.TradingController.ReconcileUnknown | backend/app/controllers/trading_controller.py:741-832 | The row takes the verdict on the three answers: the exchange status when the order is known, REJECTED when absence is proven, UNKNOWN otherwise; the slot is freed exactly for an opening order whose query answered none, whose fills answered without it and for which a new position answer was FLAT; then the exchange holds neither a live order nor a fill for it |
| Trading.TradingController.Conclude | backend/app/controllers/trading_controller.py:764-832 | Every branch of the decision on the three answers, with what follows for row, slot and state |
| Trading.ConcludedIs | backend/app/controllers/trading_controller.py:741-832 | The verdict in words: REJECTED for an order that was not found only with absence proven, UNKNOWN without all three answers, else the status answered |
| Trading.TradingController.AdoptView | backend/app/controllers/trading_controller.py:776-797 | A known order takes exactly the status answered; the slot stays as it is, even for an adopted REJECTED or CANCELED; RECOVERY is left, or entered when the mirror cannot be read |
| Trading.TradingController.ConfirmAbsent | backend/app/controllers/trading_controller.py:820-832 | The row becomes REJECTED and, for an opening order, its own slot is freed, and no other |
| Trading.TradingController.KeepUnknown | backend/app/controllers/trading_controller.py:764-774 | Without three answers the row is UNKNOWN and the system in RECOVERY |
| Trading.TradingController.FinalizeConfirmedMarketOpen | backend/app/controllers/trading_controller.py:652-705 | An OPEN market entry becomes FILLED exactly when the position answered is on its side and either its fills reach 99% of the quantity or, with no fill reported, the position reaches 90%; nothing else changes |
| Trading.TradingController.FinalizeConfirmedMarketClose | backend/app/controllers/trading_controller.py:707-739 | An OPEN market close becomes FILLED exactly when the position answered is FLAT and fills of its own cloid reach 99% of the quantity |
| Trading.TradingController.RefreshAfterReply | backend/app/controllers/trading_controller.py:634-650 | Only this row may change, and exactly from OPEN to FILLED when confirmed; the system goes to RECOVERY exactly when the mirror could not be read; the slot stays as it is |
| Trading.TradingController.SyncExchangeMirror | backend/app/controllers/trading_controller.py:896-913 | The mirror row takes the side the exchange answered; a failed query leaves the session untouched; with nothing live the mirror is the exchange position |
| Trading.TradingController.SyncThenMaybeLeave | backend/app/controllers/trading_controller.py:790-797 | Neither rows nor slot change; control moves only into RECOVERY or out of it along the switch |
| Trading.TradingController.MaybeLeaveRecovery | backend/app/controllers/trading_controller.py:834-841 | RECOVERY ends exactly with no unresolved row and no latch, and then in RUNNING or STOPPED as the persisted switch says; otherwise nothing changes |
| Trading.TradingController.ClosePosition | backend/app/controllers/trading_controller.py:467-566 | The one order a close may send is a SELL against a LONG, a BUY against a SHORT, of exactly the size of a position answered in this close, after every OPEN/PARTIAL opening row was asked to be canceled; success needs FLAT answered, after the order when one was sent, with slot free, close intent cleared, no ACK/OPEN/PARTIAL opening row left and the close order neither UNKNOWN nor REJECTED; every failure has a reason that was heard, ends in RECOVERY with the switch unchanged, and leaves the close in progress unless its order was refused |
| Trading.TradingController.CloseOnExchange | backend/app/controllers/trading_controller.py:512-566 | The one reduce-only order of a close has the opposite side and the whole size of the position answered last; success needs it neither UNKNOWN nor REJECTED and FLAT answered twice after it was sent |
| Trading.TradingController.AbandonClose | backend/app/controllers/trading_controller.py:525-530 | A refused close drops the intent and ends in RECOVERY |
| Trading.TradingController.ConfirmClosed | backend/app/controllers/trading_controller.py:532-566 | After the order, mirror and a second FLAT answer come before exactly the stale rows are canceled, the intent cleared and the slot freed; failure has a raised query or a position as its reason and keeps the rows; when no stale row was live at the call every cancellation is true on the exchange |
| Trading.TradingController.TerminalizeAndFinish | backend/app/controllers/trading_controller.py:554-566 | Once FLAT was answered twice: exactly the stale rows canceled, then the close finished |
| Trading.TradingController.FinishFlat | backend/app/controllers/trading_controller.py:493-503 | FLAT at once: the close finishes with nothing sent |
| Trading.TradingController.FinishClose | backend/app/controllers/trading_controller.py:493-503 | Intent cleared, slot freed, and on request switch off and STOPPED, in one commit or not at all |
| Trading.TradingController.CancelListedOrders | backend/app/controllers/trading_controller.py:934-964 | Exactly the OPEN/PARTIAL rows (reduce-only ones only on request) are asked to be canceled, each once, in order, and each holds what its reply said (UNKNOWN when it raised); false exactly when some call raised |
| Trading.CancelAnswered | backend/app/controllers/trading_controller.py:934-964 | One answered cancel extends exactly the record of the loop |
| Trading.TradingController.CancelOne | backend/app/controllers/trading_controller.py:939-947 | One cancel request; the row is unchanged, or takes the view answered, or is UNKNOWN when the call raised |
| Trading.TradingController.CancelRows | backend/app/controllers/trading_controller.py:228-231 | The in-place loop over the stale rows does what the recursive description says |
| Trading.TradingController.TerminalizeStaleOpenings | backend/app/controllers/trading_controller.py:221-242 | Afterwards every ACK/OPEN/PARTIAL opening row is CANCELED and every other row, the slot and the settings are untouched; the written statuses are true on the exchange exactly when no stale row is live there |
| Trading.TradingController.TerminalizeIfFlat | backend/app/controllers/trading_controller.py:198-199 | In a start nothing is live any more, so every row it cancels is truly dead |
| Trading.TradingController.ReconcileAfterRestart | backend/app/controllers/trading_controller.py:115-141 | Issues no order; exactly the unresolved rows are asked about, each takes the verdict on what was answered, every other row stays; afterwards no row is in PENDING_SUBMISSION or SUBMITTING; only RECOVERY transitions along the switch; a slot held by a final row stays held |
| Trading.ReconciledAll | backend/app/controllers/trading_controller.py:115-141 | The loop over the unresolved rows asks about exactly those rows and leaves each with its verdict |
| Trading.TradingController.ReconcileOne | backend/app/controllers/trading_controller.py:120-134 | A SUBMITTING row is first committed as UNKNOWN; then it takes the verdict on the answers, and only this row changes |
| Trading.TradingController.StartTrading | backend/app/controllers/trading_controller.py:143-219 | All or nothing, also with a crash at any await: the switch rises only together with RUNNING; unless latched every unresolved row is asked about; success means every preflight was answered favourably, no unresolved row, nothing live, mirror known, and no stale opening row when FLAT; a refusal leaves the switch and ends in RECOVERY with a bad answer or an unresolved row as its reason, or changes nothing under the latch |
| Trading.TradingController.Preflights | backend/app/controllers/trading_controller.py:151-205 | Passed with five favourable worker answers, a known mirror, no live order, no unresolved row; refused only for an answer that was bad, a raised query, an unknown side, open orders or an unresolved row; of the settings only the state moves; when no opening order could fill at the call a FLAT mirror means a clean exchange, and when nothing was live the mirror is the position |
| Trading.TradingController.PreflightsOnExchange | backend/app/controllers/trading_controller.py:174-205 | Mirror, other positions, open orders, stale rows, unresolved rows, each with its own way to refuse |
| Trading.TradingController.WorkerPreflight | backend/app/controllers/trading_controller.py:152-173 | True exactly if health was true, connect and configure did not raise, and readiness was true, asked in that order; a false one ends at the answer that was bad |
| Trading.TradingController.ExchangePreflight | backend/app/controllers/trading_controller.py:174-202 | True only with a known mirror, no position on another symbol and nothing live on the exchange; the mirror equals the position when nothing was live at the call, and a FLAT mirror means a clean exchange when no opening order could fill |
| Trading.TradingController.RaiseSwitch | backend/app/controllers/trading_controller.py:206-209 | Switch and RUNNING become durable in one commit: the disk is the old one or the fully started one |
| Trading.TradingController.StopTrading | backend/app/controllers/trading_controller.py:248-259 | The switch is off, every OPEN/PARTIAL opening row was asked to be canceled, and the state is STOPPED exactly if every cancel was answered, else RECOVERY; on disk there is never anything but the old rows, the switch off, or the final state |
| Trading.TradingController.SwitchOffAndCancel | backend/app/controllers/trading_controller.py:250-252 | A crash leaves a RUNNING system with the switch off exactly when it falls after the commit of the cancel loop and the system was running |
| Trading.TradingController.EmergencyStop | backend/app/controllers/trading_controller.py:270-285 | On disk either nothing changed or the latch is there and every OPEN/PARTIAL row, reduce-only ones too, was asked to be canceled; every completed outcome is latched and off; success means FLAT was seen and the slot is free; failure means a cancel raised or the close failed for a reason heard |
| Trading.TradingController.LatchAndCancel | backend/app/controllers/trading_controller.py:270-275 | The crash point that separates latched from lost: the latch is durable exactly when the cancel loop has committed |
| Trading.TradingController.ClearEstop | backend/app/controllers/trading_controller.py:287-360 | The latch falls only with no unresolved row, a reachable worker, no position elsewhere, FLAT answered and nothing live, and on a clean exchange whenever no opening order could fill at the call; the switch never rises; a refusal keeps the latch, changes at most the state to RECOVERY, that only for a failed query, and always has a reason among the rows and the answers |
| Trading.TradingController.AskForClear | backend/app/controllers/trading_controller.py:297-332 | Worker, position, other positions and open orders; what each answer decides |
| Trading.TradingController.LowerLatch | backend/app/controllers/trading_controller.py:333-345 | With the latch down the switch is off and the state STOPPED or RECOVERY, also after a crash between the two commits |
| Trading.TradingController.Restart | backend/app/main.py:97-124 | Reconcile, boot, and resume only through a full start: every unresolved row is asked about, no order is sent, latch and switch are unchanged, no row is left in a pre-send status; it answers yes exactly for a start that succeeded, else the system is STOPPED or in RECOVERY, and RUNNING implies the switch afterwards whatever the crash left |
| Trading.TradingController.Bootstrap | backend/app/main.py:117-122 | Booting inside the controller keeps the protocol invariant and lands in the state given by the rows and the health answer |
| Recovery.RecoveryManager.Bootstrap | backend/app/recovery/manager.py:24-43 | The booted state is the one given by unresolved rows, latch, previous state, switch and the health answer actually received |
| Recovery.RecoveryManager.SetState | backend/app/recovery/manager.py:51-63 | A commit point: everything pending becomes durable together with the new state, or nothing does |
| Recovery.BootIsConservative | backend/app/recovery/manager.py:24-43 | A boot claims RUNNING exactly when no row is unresolved, the latch is off, the switch is on, the state was not RECOVERY and the worker is healthy; RECOVERY exactly for an unresolved row or, unlatched, a state of RECOVERY or an unhealthy worker; STOPPED exactly otherwise |
| Repositories.FinalRowsAreFinal | backend/app/controllers/trading_controller.py:115-134 | Over all committed states of a run rows only move forward, and a FILLED, REJECTED or CANCELED row is the same in every later state |
| Repositories.StatusWriteKeepsIndex | backend/app/models/__init__.py:80-88 | Every legal status write keeps one in-flight opening row per symbol, so the index never has to refuse one |
| Repositories.CancelEachStaleTerminalizes | backend/app/controllers/trading_controller.py:228-241 | Looping over the queried stale rows equals canceling exactly the stale rows |
| Repositories.CancelEachRow | backend/app/controllers/trading_controller.py:228-231 | A row after the loop is CANCELED if it was listed and unchanged otherwise |
| Repositories.TerminalizedRow | backend/app/controllers/trading_controller.py:221-242 | Exactly the ACK, OPEN and PARTIAL opening rows become CANCELED |
| Repositories.Select | backend/app/repositories/__init__.py:71-98 | The ids a status query returns: exactly the matching rows, each once, in creation order |
| Repositories.Store.TryAcquire | backend/app/repositories/__init__.py:298-306 | Compare-and-set: succeeds exactly on a free slot |
| Repositories.Store.ReleaseFor | backend/app/repositories/__init__.py:308-313 | Frees the slot only when this order holds it |
| Repositories.Store.Release | backend/app/repositories/__init__.py:308-313 | Without an order the slot is freed whoever holds it |
| Repositories.Store.AddOrder | backend/app/models/__init__.py:80-88 | The insert is refused exactly when another in-flight opening row exists |
| Repositories.Store.Commit | backend/app/recovery/manager.py:51-60 | A crash around a commit leaves the old or the new committed state, nothing between |
| Invariants.ProvenAbsent | backend/app/controllers/trading_controller.py:741-832 | Order not live, then complete fills without the cloid, with time passing between: the order never traded and never will |
| Invariants.VerdictIs | backend/app/controllers/trading_controller.py:741-832 | The verdict on three answers, branch by branch: UNKNOWN if any raised, the known status, UNKNOWN for a reported fill or a side that is not FLAT, else REJECTED |
| Invariants.LeaveRecoveryIs | backend/app/controllers/trading_controller.py:834-841 | What leaving RECOVERY changes, and when it changes nothing |
| Invariants.PlacementIsAsAsked | backend/app/controllers/trading_controller.py:579-606 | The recorded call is the order asked for: a close takes off what was answered, an open has the settings size on a clean exchange |
| Invariants.AcceptKeepsLinked | backend/app/controllers/trading_controller.py:606-630 | An acceptance disturbs no earlier proof of absence and no row |
| Invariants.StatusWriteKeepsLinked | backend/app/controllers/trading_controller.py:661-681 | Every legal status write keeps rows, index, record and releases linked |
| Invariants.CommitKeepsLinked | backend/app/controllers/trading_controller.py:596-604 | A commit keeps every placement recorded and extends the lineage of rows |
| Invariants.InsertKeepsLinked | backend/app/controllers/trading_controller.py:579-597 | Persisting a fresh intent keeps the index when nothing is in flight |
| Invariants.GuardedOpeningIsSafe | backend/app/controllers/trading_controller.py:410-455 | What the guard established still holds at the moment the order is sent |
| Invariants.PlacementKeepsPlaced | backend/app/controllers/trading_controller.py:606-630 | Sending a durable, never sent cloid extends the record of placements |
| Invariants.FreshIdIsUnused | backend/app/controllers/trading_controller.py:440-455 | A fresh id is unknown to rows, exchange, releases and placements |
| Invariants.TimeKeepsLinked | backend/app/controllers/trading_controller.py:741-770 | Fills and cancels between two queries break nothing |
| ExchangeModel.FillKeepsSinglePosition | execution-worker/app/mock_adapter.py:250-280 | A fill keeps at most one opening order behind the position and never flips its side without passing FLAT |
| ExchangeModel.AcceptKeepsSinglePosition | execution-worker/app/mock_adapter.py:144-224 | Accepting an opening order is safe on a clean exchange; a reduce-only one always |
| ExchangeModel.CancelKeepsSinglePosition | execution-worker/app/mock_adapter.py:241-248 | A cancel keeps the single-position property |
| ExchangeModel.OrdersThenPositionIsASnapshot | backend/app/controllers/trading_controller.py:374-398 | Empty open orders first and FLAT second is a consistent snapshot that stays true |
| ExchangeModel.FlatLasts | execution-worker/app/mock_adapter.py:250-280 | FLAT lasts while no opening order can fill, and with nothing live nothing changes |
| Shortfalls.PositionThenOrdersIsNot | backend/app/controllers/trading_controller.py:319-333 | The opposite order of the two queries is not: rows and exchange satisfying every invariant, latched, which clear_estop accepts, answer FLAT, then no open order, and are LONG |
| Shortfalls.ClearEstopMisleads | backend/app/controllers/trading_controller.py:306-335 | A resting order whose row is ACK, or CANCELED in the row alone, is an input on which the latch can fall on an exchange that is not clean |
| Shortfalls.StartMisleads | backend/app/controllers/trading_controller.py:174-202 | A resting order whose row is ACK, OPEN, PARTIAL or CANCELED is an input on which a start can succeed with a FLAT mirror on an exchange that is not clean |
| Shortfalls.UncleanIff | backend/app/controllers/trading_controller.py:174-202 | On rows that let clear_estop or start go on, this can happen exactly when an opening order can still fill and live reduce-only orders have room for the whole position |
| Shortfalls.UncleanFromFlatIff | backend/app/controllers/trading_controller.py:319-333 | With the position FLAT at the call: exactly when an opening order can still fill |
| Snapshots.MisleadsIff | backend/app/controllers/trading_controller.py:319-333 | Over all runs of fills and cancels: FLAT, then no open order, with a position left behind, exactly under that condition |
| Snapshots.FlatIsReachableIff | execution-worker/app/mock_adapter.py:250-280 | A FLAT answer is possible exactly when live reduce-only orders can take the whole position off |
| Snapshots.RoomReachesFlat | execution-worker/app/mock_adapter.py:250-280 | And then reduce-only fills alone reach it, with every opening order untouched |
| Snapshots.FlatNeedsRoom | execution-worker/app/mock_adapter.py:250-280 | No run to FLAT takes more off the position than there was room |
| Snapshots.RunKeeps | execution-worker/app/mock_adapter.py:250-280 | Every run of fills and cancels keeps the single position and is what the protocol model lets time do |
| Shortfalls.TerminalizedTruthfullyIff | backend/app/controllers/trading_controller.py:221-242 | Every CANCELED written by terminalizing is true on the exchange exactly when no stale row names a live order |
| Shortfalls.MisCancelsIff | backend/app/controllers/trading_controller.py:532-554 | A close that sees only FLAT can cancel the row of a live order exactly when such a row is live at the call and FLAT is reachable |
| Shortfalls.TerminalizingALiveOrder | backend/app/controllers/trading_controller.py:554 | The input: an OPEN row whose order rests, the position FLAT; terminalizing writes CANCELED over the live order |
| Shortfalls.CrashAfterCancelLoopIff | backend/app/controllers/trading_controller.py:248-285 | The settings committed by the cancel loop of stop or emergency_stop break RUNNING-implies-switch exactly when the system was running, and every boot from any rows repairs it |
| Shortfalls.RunningWithTheSwitchOff | backend/app/controllers/trading_controller.py:248-285 | The input: a running system satisfying every invariant |
| Shortfalls.EmergencyStopLost | backend/app/controllers/trading_controller.py:270-285 | The input on which a lost latch matters: the rows an emergency stop leaves when it crashes before its first commit boot to RUNNING with the latch off |
| ExchangeModel.Exchange.Place | execution-worker/app/mock_adapter.py:144-224 | A place may raise before or after acceptance; either way the exchange is one that accepted it or not, aged by fills and cancels |
| ExchangeModel.Exchange.Step | execution-worker/app/mock_adapter.py:250-280 | One environment step keeps single position and never flips |
| Enums.StatusSplit | backend/app/core/enums.py:41-62 | In flight is exactly not final, and exactly unresolved or reconcilable; the listed-open statuses are the reconcilable ones without ACK |
| PositionGuard.GuardAllowsIffEveryLockIsOpen | backend/app/controllers/position_guard.py:32-53 | The guard allows exactly when pair, connection, foreign, unresolved, slot, RUNNING and both FLAT sides agree |
| PositionGuard.AllowedIsNeverAReverse | backend/app/controllers/position_guard.py:55-60 | Whatever the guard allows is no reversal |
| ConcurrentOpens.AtMostOneOpening | backend/app/controllers/trading_controller.py:410-455 | Any number of opening handlers interleaved at their awaits with stale guards, fills, cancels and crashes: at most one opening row is not proven REJECTED, it holds the slot, and no other order of the run can ever have filled |
| ConcurrentOpens.EachCloidSentAtMostOnce | backend/app/controllers/trading_controller.py:596-630 | In such a run every cloid reaches place_order at most once |
| ConcurrentOpens.IndexHolds | backend/app/models/__init__.py:80-88 | In such a run the unique index always holds already |
| ConcurrentOpens.NextKeepsInv | backend/app/controllers/trading_controller.py:568-650 | Every single step of any handler, the exchange or a crash keeps the invariant behind the three results above |
| ConcurrentOpens.RunKeepsInv | backend/app/repositories/__init__.py:298-313 | The invariant holds in every state of every run from a FLAT exchange and a free slot |
| ConcurrentOpens.UnsentMeansClean | backend/app/controllers/trading_controller.py:606-630 | While the slot holder has not been sent, the exchange is clean |
| ConcurrentOpens.ReserveTakesAFreeSlot | backend/app/repositories/__init__.py:298-306 | A handler takes the slot exactly when it is free and no opening row is in flight, and then owns a new row; else nothing changes |
| ConcurrentOpens.SendReachesTheExchange | backend/app/controllers/trading_controller.py:606-630 | A sent order is live on the exchange exactly if accepted, on the side of its row |
| ConcurrentOpens.AnswersAreRecorded | backend/app/controllers/trading_controller.py:606-650 | A row holds what was replied or concluded, and the slot is freed exactly by its own order's rejection or proof of absence |
| ConcurrentOpens.SomeRunOpens | backend/app/controllers/trading_controller.py:410-455 | The results are not vacuous: in some run an order is sent, fills and is the position |
| Quantization.PriceQuantizationMonotone | execution-worker/app/quantization.py:21-46 | A higher price is accepted whenever a lower one is and never becomes the lower one, across decades |
| Quantization.DoubleQuantizationIsIdentity | execution-worker/app/hyperliquid_adapter.py:358-377 | Quantizing an accepted price again changes nothing |
| Quantization.FixedPointsAreTheGrid | execution-worker/app/quantization.py:30-46 | The fixed points are exactly the positive five-figure multiples of the tick |
| Quantization.QuantizedIsOnGrid | execution-worker/app/quantization.py:30-46 | Every accepted price lies on that grid |
| Quantization.PriceQuantizationError | execution-worker/app/quantization.py:21-46 | The result is within half a tick plus half a fifth-figure unit of the input |
| Quantization.AcceptedIff | execution-worker/app/quantization.py:30-46 | A price is accepted exactly when it is positive and its five-figure form reaches half a tick |
| Quantization.NonPositiveIsRejected | execution-worker/app/quantization.py:30-46 | No price at or below zero is accepted, whatever the tick |
| Quantization.FiveFiguresMonotone | execution-worker/app/quantization.py:21-27 | Five-figure rounding is monotone, also where the unit jumps |
| Quantization.FiveFiguresStayInDecade | execution-worker/app/quantization.py:21-27 | Five-figure rounding stays in the closed decade and on its unit |
| Quantization.FiveFiguresFix | execution-worker/app/quantization.py:21-27 | Numbers with five figures are left alone |
| Quantization.SizeIsLargestFittingMultiple | execution-worker/app/quantization.py:49-56 | The size is the largest multiple of the step that does not exceed the quantity |
| Quantization.LimitsBracketTheMid | execution-worker/app/ioc_price.py:8-33 | With the mid on the grid the quantized SELL limit is at most the mid and the BUY limit at least, for every slippage |
| Quantization.LimitIsNearItsAim | execution-worker/app/ioc_price.py:8-33 | A protective limit exists exactly when mid and slippage are usable and the mid plus (BUY) or minus (SELL) its slippage is positive and reaches half a tick in five figures; it lies within half a tick and half a fifth figure of that |
| Quantization.RawIsTheAim | execution-worker/app/ioc_price.py:8-26 | Before quantization it is exactly that |
| Quantization.SizeAcceptedIff | execution-worker/app/quantization.py:49-56 | A size exists exactly for a positive step and quantity, and is positive exactly from one step on |
| Quantization.NormalizedIff | execution-worker/app/quantization.py:59-73 | A request is accepted exactly with one step, the minimum size, an acceptable price and, unless it only reduces, the minimum notional or 10 |
| Quantization.SizeSpendsTheBudget | backend/app/controllers/trading_controller.py:921-932 | A size exists exactly for a positive mid and something to spend, and at the mid it spends exactly that |
| Quantization.AcceptedOpeningIsWithinBudget | execution-worker/app/quantization.py:59-73 | From settings to wire: size a multiple of the step and at least the minimum, spends at most its share of the equity at the mid, at most slippage and rounding more at its limit, and reaches the minimum notional |
| Decimals.RoundToError | execution-worker/app/quantization.py:30-46 | Half-up rounding is within half a quantum and on the grid |
| Decimals.RoundToMonotone | execution-worker/app/quantization.py:30-46 | Half-up rounding is monotone |
| Decimals.RoundToFixes | execution-worker/app/quantization.py:30-46 | Its fixed points are exactly the multiples |
| Decimals.TiesGoAwayFromZero | execution-worker/app/quantization.py:30-46 | A number halfway between two multiples goes to the one farther from zero |
| Decimals.AdjustedBounds | execution-worker/app/quantization.py:21-27 | The decimal exponent places a number in its decade |
| Decimals.AdjustedUnique | execution-worker/app/quantization.py:21-27 | And no other exponent does |
| Worker.WorkerRuntime.Run | execution-worker/app/runtime.py:23-178 | Any sequence of place, heartbeat, ws-down, resync, connect, disconnect and configure calls at any times: whatever reached the connector passed pair, READY, armed and, for an open, a heartbeat no older than the timeout, was the normalized form of its request with its cloid, side and reduce-only flag, came after a snapshot with nothing but the pair of that snapshot, and no cloid reached it twice |
| Worker.WorkerRuntime.Perform | execution-worker/app/runtime.py:23-178 | Only a place reaches the connector, only a heartbeat moves the heartbeat, only a configure the configuration, only connect and disconnect the connection, only ws-down and resync the forced degradation |
| Worker.WorkerRuntime.PlaceOrder | execution-worker/app/runtime.py:120-139 | The connector is called exactly when pair, READY and, for an open, the heartbeat admit the request and the adapter can send it; its reply is passed on unchanged, a raised one raised; REJECTED without such a reply means it was never called; a repeated cloid is answered with its view |
| Worker.WorkerRuntime.Configure | execution-worker/app/runtime.py:92-100 | Runtime and adapter share the new configuration; the gates keep meaning what they meant |
| Worker.HyperliquidExecutionAdapter.ReadyIff | execution-worker/app/hyperliquid_adapter.py:177-192 | READY exactly when connected, streaming, trusted, without unknown account state, and the last snapshot held no two-sided symbol and no nonzero row of another symbol; NOT_READY exactly without a connection; DEGRADED exactly without a stream |
| Worker.WorkerRuntime.MarkWsDown | execution-worker/app/runtime.py:164-169 | Degraded until a resync |
| Worker.WorkerRuntime.RestResync | execution-worker/app/runtime.py:171-178 | A resync lifts the forced degradation and keeps the record |
| Worker.HyperliquidExecutionAdapter.PlaceOrder | execution-worker/app/hyperliquid_adapter.py:379-456 | The connector sees a cloid at most once in an adapter lifetime, exactly when the cloid is new, the request normalizes and execution is enabled and writable, and gets exactly its cloid, side, reduce-only flag, normalized quantity and price; its reply is passed on: raised, the status it placed, or REJECTED for its refusal; a duplicate is answered with its view or UNKNOWN; a refusal before the call leaves no trace |
| Worker.HyperliquidExecutionAdapter.GetPosition | execution-worker/app/hyperliquid_adapter.py:240-250 | LONG for a positive row of the symbol, SHORT for a negative one, of its size; FLAT for the configured pair together with READY means the snapshot held no position on any symbol |
| Worker.HyperliquidExecutionAdapter.Refresh | execution-worker/app/hyperliquid_adapter.py:131-175 | Flags, mid and leverage describe the last snapshot; a two-sided account maps to no positions but clears one-way; a failed account read keeps the adapter from READY |
| Worker.HyperliquidExecutionAdapter.Apply | execution-worker/app/hyperliquid_adapter.py:131-164 | What one snapshot does to flags, recovery reason, mid and leverage |
| Worker.HyperliquidExecutionAdapter.Connect | execution-worker/app/hyperliquid_adapter.py:96-119 | Connected exactly after a snapshot was read; a failed start or account read leaves its reason |
| Worker.HyperliquidExecutionAdapter.Scan | execution-worker/app/hyperliquid_adapter.py:146-150 | The loop finds exactly the symbols other than the pair, and the last leverage reported |
| Worker.NormalizationsAgreeIff | execution-worker/app/hyperliquid_adapter.py:364-377 | The adapter normalization and the quantization module one answer alike exactly when a minimum notional is configured, the adapter refuses, the order is reduce-only, or the notional reaches 10 |
| Worker.NormalizationsDisagree | execution-worker/app/hyperliquid_adapter.py:364-377 | The input: one unit at price 1 without a configured minimum is accepted by the adapter and rejected by the module |
| Worker.StalePairIff | execution-worker/app/runtime.py:92-100 | After a change of pair without a refresh, READY still speaks of the old pair; for USD pairs it holds of the new one exactly when the pair is the same or the account is empty |
| Worker.StalePairHidesAPosition | execution-worker/app/runtime.py:92-100 | The input: a BTC position and a worker reconfigured to ETH |
| EndToEnd.OpeningWireIsWithinBudget | execution-worker/app/hyperliquid_adapter.py:358-456 | From the signal to the connector: the wire behind an opening order is a step multiple of at least the minimum size and notional, spends the settings share of the equity at the mid it was sized with up to less than one step, and at its limit at most the slippage and rounding more; its price is within half a tick and half a fifth figure of the mid plus the slippage for a BUY, minus for a SELL |
| EndToEnd.PriceIsNearItsAim | execution-worker/app/hyperliquid_adapter.py:358-362 | The price of every market wire, opening or closing, lies within half a tick and half a fifth figure of the mid moved against the order by the slippage |
| Worker.MarketPriceIsTheIocLimit | execution-worker/app/hyperliquid_adapter.py:358-377 | A market request goes out at exactly the once-quantized IOC limit |
| Mapping.MapClearinghousePositions | execution-worker/app/mapping.py:99-119 | Raises exactly when some symbol has a LONG and a SHORT row; otherwise the nonzero rows in order |
| Mapping.Group | execution-worker/app/mapping.py:104-113 | The loop keeps the nonzero rows and the sides per symbol |
| Mapping.TwoSidedIsASymbolWithBothSides | execution-worker/app/mapping.py:114-118 | A pair of opposite rows exists exactly when some symbol has both sides in its group |
| Mapping.FlatEverywhere | execution-worker/app/hyperliquid_adapter.py:240-250 | No row of the pair and no foreign symbol leaves no nonzero row at all |
| Mapping.NonFlat | execution-worker/app/mapping.py:104-113 | Every kept row has a side and a positive size; none is kept exactly when all rows are zero |
| Mapping.RowsMapBySign | execution-worker/app/mapping.py:65-113 | A positive row is a LONG of its size, a negative one a SHORT of the opposite size, a zero one nothing; lists map piece by piece |
| Mapping.PairSymbols | execution-worker/app/mapping.py:54-62 | A coin gets the quote of a USD pair unless it already is a pair |
| Mapping.KeptRowComesFrom | execution-worker/app/mapping.py:104-113 | Every kept position comes from a row of its symbol, sign and size |
| Ema5Break.SignalMovesWithTheChart | strategies/ema5break/strategy.py:97-140 | Negating prices (high and low swapped, side and entry mirrored) exactly mirrors the signal; scaling and shifting prices leave it unchanged; proved for every affine change of prices |
| Ema5Break.NeverReverses | strategies/ema5break/strategy.py:97-140 | In a position only CLOSE or HOLD, otherwise only LONG, SHORT or HOLD |
| Ema5BreakLaws.LongIff | strategies/ema5break/strategy.py:81-140 | LONG exactly when, out of a position and with both averages defined and a positive range, a falling bar is followed by a rising one that covers its body and closes above the moving average |
| Ema5BreakLaws.ShortIff | strategies/ema5break/strategy.py:81-140 | SHORT exactly in the mirrored case |
| Ema5BreakLaws.CloseIff | strategies/ema5break/strategy.py:110-131 | CLOSE exactly when, in a position with an entry, the close is at the stop or the target, both written out |
| Ema5BreakLaws.DefinedIff | strategies/ema5break/strategy.py:45-66 | The averages exist exactly for a positive period and enough history |
| Ema5BreakLaws.EmaStarts | strategies/ema5break/strategy.py:45-52 | The moving average starts as the mean |
| Ema5BreakLaws.EmaNext | strategies/ema5break/strategy.py:45-52 | A further close has weight 2/(period+1), the average so far the rest |
| Ema5BreakLaws.WeightIs | strategies/ema5break/strategy.py:48 | That weight is two in period+1 |
| Ema5BreakLaws.EmaOfConstant | strategies/ema5break/strategy.py:45-52 | A constant series averages to itself |
| Ema5BreakLaws.TrueRangeIs | strategies/ema5break/strategy.py:55-56 | The true range is the largest of the three distances |
| Ema5BreakLaws.AtrOfConstant | strategies/ema5break/strategy.py:59-66 | Constant ranges average to themselves |
| Ema5BreakLaws.AtrNext | strategies/ema5break/strategy.py:59-66 | A further bar adds its range and drops the oldest of the window |
| Ema5Break.ComputeEma | strategies/ema5break/strategy.py:45-52 | The two accumulating loops compute the recursive average, and None exactly when the history is short |
| Ema5Break.EmaMoves | strategies/ema5break/strategy.py:45-52 | The average follows every affine change of its prices |
| Ema5Break.AtrMoves | strategies/ema5break/strategy.py:59-66 | The average range scales by the absolute factor and ignores shifts |
| Ema5Break.TrueRangeMoves | strategies/ema5break/strategy.py:55-56 | The true range scales by the absolute factor, high and low swapped when the chart turns |
| Ema5Break.EngulfingMoves | strategies/ema5break/strategy.py:81-94 | Turning the chart over swaps bullish and bearish engulfing |
| StrategyLoops.StrategyLoop.Run | backend/app/strategy/loop.py:41-103 | Over any ticks, stops, starts and process restarts with nondecreasing positive candle times, evaluated times strictly increase and the candle a start finds is never evaluated by it or later |
| StrategyLoops.StrategyLoop.TickOnce | backend/app/strategy/loop.py:103-188 | A candle is evaluated exactly when it is newer than the last one seen, is not the first after a start, and nothing before the evaluation fails; the loop goes on exactly when it was running and no exit, unknown position or failed evaluation came up |
| StrategyLoops.StrategyLoop.StartLoop | backend/app/strategy/loop.py:41-48 | A start of a running loop changes nothing; otherwise the current candle will be skipped |
| YamlPrinter.DocumentRoundTrip | backend/app/strategy/yaml_lite.py:12-144 | For every tree of nested maps, lists of scalars, block scalars and map items, with every way of writing a scalar (words, numerals, either quotes, bare text), repeated keys, and blank lines, comments and trailing white space anywhere: reading the text gives the meaning exactly when the text passes the NUL, tab, tag and alias gate |
| YamlPrinter.NoiseIsDropped | backend/app/strategy/yaml_lite.py:20-21 | Blank lines, comments and trailing white space never change what is read |
| YamlPrinter.FoldRoundTrip | backend/app/strategy/yaml_lite.py:123-128 | The lines of a block scalar read back as its lines |
| YamlPrinter.MapItemRoundTrip | backend/app/strategy/yaml_lite.py:99-110 | A map item reads back as the dictionary of all its entries, the first one on the dash included |
| YamlLimits.EveryValueCanBeWritten | backend/app/strategy/yaml_lite.py:12-144 | For every value without a nested block at the start of a list item there is a text that reads as it |
| YamlLimits.GateRefuses | backend/app/strategy/yaml_lite.py:14-19 | A NUL, a tab, a tag mark, an alias mark at the start or after white space are refused, each with its own error |
| YamlLimits.GatePasses | backend/app/strategy/yaml_lite.py:14-19 | Text without exclamation marks and with every alias mark behind something else passes |
| YamlLimits.MapErrors | backend/app/strategy/yaml_lite.py:34-63 | The grammar errors: a line without colon, an empty key, a deeper line, an item in a map, no line at all |
| YamlLimits.TrailingContentFails | backend/app/strategy/yaml_lite.py:24-26 | A key after a list is trailing content |
| YamlLimits.EmptyDocument | backend/app/strategy/yaml_lite.py:20-23 | A document of blank lines and comments is empty |
| YamlLimits.WordsJoin | backend/app/strategy/yaml_lite.py:123-128 | The lines of a block scalar are joined by single spaces |
| YamlPrinter.BlockRoundTrip | backend/app/strategy/yaml_lite.py:34-43 | The same for a block at any indent inside any document, with the index of the line after it |
| YamlPrinter.EntriesRoundTrip | backend/app/strategy/yaml_lite.py:46-77 | Printed entries read back as their dictionary writes in order, repeated keys included |
| YamlPrinter.ItemsRoundTrip | backend/app/strategy/yaml_lite.py:80-114 | Printed items read back in order |
| YamlPrinter.ItemRoundTrip | backend/app/strategy/yaml_lite.py:88-113 | A scalar, block scalar or map item reads back as its meaning |
| YamlWriting.ScalarRoundTrip | backend/app/strategy/yaml_lite.py:131-144 | Every way of writing a scalar reads as what it is meant to say: the seven words, decimal numerals, text in either quotes, and text that is none of these as itself |
| YamlWriting.NumberLikeIff | backend/app/strategy/yaml_lite.py:140-143 | The numerals are exactly digits, or digits, a point and digits, after an optional minus |
| YamlWriting.DigitsCount | backend/app/strategy/yaml_lite.py:140-141 | Numerals count in tens |
| YamlWriting.PutKnown | backend/app/strategy/yaml_lite.py:46-77 | Writing a known key keeps its place and changes its value |
| YamlWriting.UpdateByPut | backend/app/strategy/yaml_lite.py:117-120 | Merging a dictionary that was itself written to is writing both in turn |
| YamlLimits.NestedFirstKeyIsMerged | backend/app/strategy/yaml_lite.py:99-110 | An item whose first key opens a nested map is read as the item merged with that map, which is never the value meant |
| YamlLimits.MapItemReadsBackIff | backend/app/strategy/yaml_lite.py:88-113 | A printed map item, at any nested indent and with any further entries, reads back if and only if its first value is no nested block |
| YamlLimits.NestedFirstListIsRefused | backend/app/strategy/yaml_lite.py:99-110 | A nested list under the first key is refused as a list item in a mapping |
| YamlLimits.NestedFirstMapIsLost | backend/app/strategy/yaml_lite.py:99-110 | A nested map under the first key never reads as the map that was meant |
| YamlPrinter.EntriesStep | backend/app/strategy/yaml_lite.py:46-77 | Over printed entries the map loop performs exactly their dictionary writes, whatever keys came before |
| YamlWriting.KeptLinesKeepsAll | backend/app/strategy/yaml_lite.py:20-21 | Printed lines survive the line filter |
| YamlWriting.UpdateNew | backend/app/strategy/yaml_lite.py:117-120 | Merging entries with new keys appends them |
| YamlLocality.BlockIsItsLines | backend/app/strategy/yaml_lite.py:20-128 | A successful block consumes exactly the lines its value comes from: those lines alone, cut out of the document, read as the same value and are used up |
| YamlLocality.MapIsLocal | backend/app/strategy/yaml_lite.py:46-77 | The same for the map loop inside any two documents that agree on its lines |
| YamlLocality.ListIsLocal | backend/app/strategy/yaml_lite.py:80-114 | And for the list loop |
| YamlLite.Block | backend/app/strategy/yaml_lite.py:34-43 | A successful block consumes at least one line; on trimmed lines every failure inside the document is one of four grammar errors |
| YamlLite.MapFrom | backend/app/strategy/yaml_lite.py:46-77 | A map stops only at the end of input or at a smaller indent |
| YamlLite.ListFrom | backend/app/strategy/yaml_lite.py:80-114 | A list stops at the end, a smaller indent, or a line of its own indent that is no item; an empty item never runs off the lines |
| YamlLite.Multiline | backend/app/strategy/yaml_lite.py:123-128 | A block scalar ends at the first line of a smaller indent |
| YamlLite.Document | backend/app/strategy/yaml_lite.py:12-27 | The reader fails only with its own errors: no input makes it read past the last line |
| YamlLite.ParseYamlLite | backend/app/strategy/yaml_lite.py:12-27 | The imperative reader computes the recursive description, about which the round trips and refusals are proved |
| YamlLite.ParseBlock | backend/app/strategy/yaml_lite.py:34-43 | As does its block dispatch |
| YamlLite.ParseMap | backend/app/strategy/yaml_lite.py:46-77 | As does the map loop, filling a dictionary in place |
| YamlLite.ParseList | backend/app/strategy/yaml_lite.py:80-114 | As does the list loop |
| YamlLite.ParseMapContinue | backend/app/strategy/yaml_lite.py:117-120 | As does the continuation of a list item |
| YamlLite.ParseMultiline | backend/app/strategy/yaml_lite.py:123-128 | As does the block-scalar loop |
| Text.SplitOfJoin | backend/app/strategy/yaml_lite.py:20 | Break-free nonempty lines survive joining and splitting |
| Text.SplitAtBreak | backend/app/strategy/yaml_lite.py:20 | Every line break ends exactly one line, and a carriage return with its line feed is one of them |

## Left out

- ClearEstop: does not promise a clean exchange when an opening order could still fill at the call, because the code does not give it; Shortfalls has the exact condition.
- ConfirmClosed: does not promise true cancellations when a stale row was live at the call, for the same reason.
- EndToEnd.OpeningWireIsWithinBudget: the HTTP call between controller and worker is the predicate Requests; that it forwards the row's side and quantity unchanged is not proved.
- StalePairIff: stated for pairs ending in -USD; coin names are mapped differently for other quotes.
- Reachability of the inputs in Shortfalls by a run from the empty database: they satisfy every invariant of the protocol, but no run is exhibited.
- SizeFromSettings: the answers of the market data and balance queries are arbitrary numbers, so no freshness of the mid is claimed.
- FinalizeConfirmedMarketOpen: gives the fill evidence as of the queries; the position may have moved on since.
- Restart: leaves out installing the bundled strategies, whose settings writes do not touch the control fields.
- StrategyLoop: candle fetching, the strategy sandbox and signal delivery are one observation per tick.
- Fill, trade, PnL, signal, audit and event rows: not part of the safety protocol; fills without an exchange id are not deduplicated by the code either.
- Leverage, error texts, timestamps and order types beyond MARKET or not: carried only where a branch reads them.
- Several symbols or a pair change while running: one traded pair is fixed in the protocol model.
- Start, reconcile and closes inside the interleaving model: reconcile acts on SUBMITTING rows of running handlers and closes release the slot unconditionally, so the at-most-one result is about opening handlers.
- Stale reads of cached rows inside one session: each operation sees its own session's writes and committed rows.
- Forced liquidation and manual trading of the pair: excluded by the assumption that only the bot trades it.
- IEEE floats and the decimal context's 28 digits: prices, averages and sizes are exact reals; the manifest's floats keep their text.
- Unicode digits accepted by the reader's integer pattern and Python's limit on the length of integer literals: the model's digits are 0 to 9, of any number.
- Texts the printer does not write: nested blocks indented by other than two, a block below the dash of an item, a block scalar after the first key of an item, deeper lines inside a block scalar. The reader model handles them.
- Parameter defaults of the strategy and the coercion of its bars: the model starts from typed parameters and bars.
- The status filter of the worker's open orders, leverage changes and the health payload: read-only plumbing beside the gate.
- Wall-clock time: the heartbeat check takes the current time as an argument.
- HTTP routes, WebSocket hub, authentication, frontend, migrations, backups, Docker, upload validation and the strategy sandbox: plumbing around the modelled logic.
- Test-only reconciliation helpers and the exchange state store: unused in production.
