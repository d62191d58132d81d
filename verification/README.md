# F-FEE TUI core in Dafny

The F-FEE TUI is a terminal interface for PLATO's Fast Front-End Electronics (F-FEE).
Two worker threads sit behind its screens:

- The **telemetry monitor** subscribes to the DPU's data distribution channel. It turns
  register-map and housekeeping frames into state-change events: DEB mode, AEB state,
  DTC IN_MOD and the accumulated OUTBUFF frame errors. It reports silence on the channel
  after 6 s (timeout) and after 10 s (shutdown).
- The **command dispatcher** takes `(target, command, args, kwargs)` tuples off a command
  queue. It runs each one on the DPU proxy or the configuration-manager proxy. When the
  proxies cannot connect, it retries after a cancellable 10 s back-off.

The screens fill the queue from buttons. They show the events on indicator panels, watch a
table of services for staleness, and shut the threads down in a fixed order.

This project models that core as pure functions over immutable data. Each module follows
one part of the program:

| module | file | what it models |
|---|---|---|
| `Wrappers` | wrappers.dfy | `Option` (Python's value-or-`None`) and `Result` (a value or a raised exception) |
| `Bytes` | bytes.dfy | `int.from_bytes` / `int.to_bytes` with big-endian byte order |
| `Messages` | messages.dfy | the event records workers post (`messages.py`) and the exceptions they carry |
| `Commands` | commands.dfy | the command tuples and the AEB unit names |
| `ClearableQueue` | queue.dfy | the command queue with `unfinished_tasks`, and `ClearableQueue.clear` |
| `Monitor` | monitor.dfy | one pass of `Monitor.run` as a step function, and `handle_messages` |
| `Dispatcher` | dispatcher.dfy | `Command.run`'s inner and outer loops, `execute_command`, `sleep_or_break` |
| `DebPanel` | deb_panel.dfy | the DEB mode indicators and the five DEB buttons, shared by both screens |
| `DtcInMod` | dtc_in_mod.dfy | the `T0..T7` tables, `ALL_IDS` and `DtcInMod.set_state` |
| `MasterScreen` | master_screen.dfy | the main screen's button handlers, `set_fpga_defaults`, the commanding toggle, `on_unmount` |
| `Services` | services.dfy | the `services` table and the multi-part and single-part frame handlers |
| `Polling` | polling.dfy | the per-service bookkeeping of `poll_services` |
| `App` | app.dfy | the stand-alone `FastFEEApp`: its DEB buttons, mode handler and `on_unmount` |

Some conventions hold across modules:

- Time is counted in integer ticks of 0.1 s.
- A frame that a socket delivers, a cancel flag and the commands put since the last pass are
  inputs of the step that observes them.
- Everything the code calls but does not define is a function-typed input: the proxies,
  `pickle.loads`, `RegisterMap`, `HousekeepingData`, `f_fee_mode`, `aeb_state`, `get_aeb_nr`
  and `traceback.format_exc`. The `MessageIdentifier` values are integer inputs.
- A handler of the main screen is the list of actions it performs: enqueue, notify, sleep,
  or disable/enable a panel.

Some behaviours of the code are modelled as written although a reader might expect
otherwise from the names involved:

- `poll_services` swallows a `NoMatches` from the info bar outside the loop over services, so
  the exception ends that whole cycle and is not retried: the services after the failing one
  wait for the next cycle. When it comes in the data branch, the service keeps its old
  last-received time and timed-out flag (`Polling.CycleStops`, `Polling.PollOneUnmounted`).
- `set_fpga_defaults` sets the panels' `disabled` attribute directly and never looks at the
  commanding flag. Toggling commanding while the sequence sleeps leaves the flag saying
  "disabled" while the panels end up enabled (`MasterScreen.ToggleDuringDefaults`).
- `clear()` lets the ValueError of a surplus `task_done` escape, and `on_unmount` then never
  stops the command thread (`MasterScreen.UnmountClearRaises`).
- The AEB state key is the lower-cased unit id from the housekeeping tuple followed by the
  status suffix. An OFF status posts `("<id>_onoff", False)` and nothing else; no other
  power or sub-state flag is cleared.
- The main screen's DEB mode handler shows no notification, since its call is commented out,
  while the stand-alone app's handler of the same name does show one.

## Model

| member | source | states |
|---|---|---|
| Bytes.FromBigEndian | src/f_fee_tui/services.py:109 | a big-endian value of k bytes is below 256^k |
| Bytes.ToBigEndian | src/f_fee_tui/services.py:69 | `to_bytes(k, 'big')` succeeds exactly for 0 <= n < 256^k and then gives k bytes; otherwise it is the OverflowError |
| Bytes.DecodeEncode | src/f_fee_tui/workers.py:178 | decoding the k-byte encoding of n gives n back |
| Bytes.EncodeDecode | src/f_fee_tui/workers.py:178 | re-encoding a decoded byte string at its own width gives the same bytes |
| Bytes.ToBigEndianRoundTrip | src/f_fee_tui/services.py:69 | `from_bytes(to_bytes(n))` is n whenever `to_bytes` succeeds |
| Commands.AebNamesAgree | src/f_fee_tui/_master_screen.py:233 | `f"AEB{n}"` spells the same names as the literal tuple `AEB1`..`AEB4` |
| Commands.AebNameRoundTrip | src/f_fee_tui/_master_screen.py:233 | the name of unit n parses back to n, so different units get different names |
| ClearableQueue.EmptyQueue | src/f_fee_tui/app.py:30 | a new queue holds nothing, keeps items and unfinished tasks equal, and can be joined at once |
| ClearableQueue.Put | src/f_fee_tui/_master_screen.py:155 | `put_nowait` appends at the back and adds one unfinished task, so it keeps a balanced queue balanced |
| ClearableQueue.PutAll | src/f_fee_tui/_master_screen.py:159-163 | several `put_nowait` calls append their items in order and add one unfinished task each |
| ClearableQueue.GetNoWait | src/f_fee_tui/workers.py:66 | `get_nowait` raises Empty exactly on an empty queue; otherwise it returns the oldest item and the rest in order, without touching the unfinished count |
| ClearableQueue.TaskDone | src/f_fee_tui/workers.py:67 | `task_done` raises exactly when no task is unfinished; otherwise it lowers the count by one and keeps the items |
| ClearableQueue.Drain | src/f_fee_tui/_queue.py:6-13 | the reference definition of `clear`: never more items left than before; a return leaves the queue empty with one report line per item; a raise leaves no unfinished task |
| ClearableQueue.DrainOutcome | src/f_fee_tui/_queue.py:6-13 | clearing returns exactly when there are no more items than unfinished tasks. It then leaves the queue empty, lowers the count by the number of items and reports each item in FIFO order. Otherwise it raises after taking `unfinished + 1` items |
| ClearableQueue.ClearTwiceIsClearOnce | src/f_fee_tui/_queue.py:12-16 | clearing an already cleared queue changes nothing and reports nothing |
| ClearableQueue.ClearBalanced | src/f_fee_tui/_queue.py:6-13 | on a queue whose every item is an unfinished task, `clear` returns, empties the queue and leaves no unfinished task, so `join` returns |
| ClearableQueue.Clear | src/f_fee_tui/_queue.py:6-16 | the drain loop: Empty never escapes, every drained item gets one `task_done`, the report lists the items in FIFO order, and the loop agrees with the recursive definition |
| ClearableQueue.JoinLinesNewlines | src/f_fee_tui/_queue.py:16 | `"\n".join` of single-line strings puts exactly one newline between each two |
| ClearableQueue.ClearReport | src/f_fee_tui/_queue.py:14-16 | a returning `clear` prints nothing exactly when the queue held no item; otherwise the header, then the items one per line when each `str()` is a single line |
| Dispatcher.Route | src/f_fee_tui/workers.py:106-122 | "DPU" selects the DPU proxy, "CM_CS" the configuration manager, and any other target neither |
| Dispatcher.ExecuteCommand | src/f_fee_tui/workers.py:102-122 | an unknown target gives None. An AttributeError from the proxy is turned into None and nothing else is. A returned value is passed on. Only a non-AttributeError escapes |
| Dispatcher.CommandEvents | src/f_fee_tui/workers.py:66-77 | each command yields "Executing" first, then "executed" if it completes, or ExceptionCaught if it raises |
| Dispatcher.InnerStep | src/f_fee_tui/workers.py:62-77 | a pass takes at most one command, in FIFO order, loses none, and stops exactly when cancelled, without taking a command then |
| Dispatcher.InnerStepBalanced | src/f_fee_tui/workers.py:66-70 | `task_done` right after `get` keeps the queue balanced, and a taken command yields exactly its two events |
| Dispatcher.InnerRun | src/f_fee_tui/workers.py:62-77 | the inner loop is left exactly when some pass sees the cancel flag |
| Dispatcher.InnerRunFifo | src/f_fee_tui/workers.py:62-73 | over many passes the commands are taken in the order they were put, with the rest still queued behind them |
| Dispatcher.InnerRunEvents | src/f_fee_tui/workers.py:62-77 | over many passes the events are exactly the per-command events of the commands taken, in order, and the queue stays balanced |
| Dispatcher.InnerRunQuiet | src/f_fee_tui/workers.py:62-70 | without new commands or a cancel each pass takes the oldest pending command off a balanced queue: after n passes the first min(n, pending) are taken and the rest still wait |
| Dispatcher.SleepOrBreak | src/f_fee_tui/workers.py:83-97 | returns True exactly when the cancel flag is seen at one of the `int(t*10)` checks. It stops at the first such check; otherwise it sleeps all of them |
| Dispatcher.RunRound | src/f_fee_tui/workers.py:59-81 | a round of the outer loop never sleeps more than the 100 back-off checks |
| Dispatcher.ConnectionFailureBackoff | src/f_fee_tui/workers.py:78-81 | a ConnectionError posts one CommandThreadCrashed. The thread finishes exactly when cancellation is seen during the back-off, after only as many sleeps as checks passed, and otherwise retries after all 100 |
| Monitor.Start | src/f_fee_tui/workers.py:136-150 | the loop starts with the timer at the start time, neither silence report made, no reset pending and eight zero accumulator slots |
| Monitor.RequestReset | src/f_fee_tui/workers.py:201-202 | a reset request only raises the request flag |
| Monitor.LookupAll | src/f_fee_tui/workers.py:215-222 | reading several registers succeeds exactly when every key is present and gives their values in order; otherwise it is the KeyError of the first missing key |
| Monitor.HandleRegisterMap | src/f_fee_tui/workers.py:208-226 | a register-map frame leaves the accumulator alone. It posts one DtcInModChanged, and raises nothing, exactly when the frame unpacks, `RegisterMap` decodes it and all eight IN_MOD fields are present |
| Monitor.RegisterMapPosted | src/f_fee_tui/workers.py:208-226 | a decodable register map posts DtcInModChanged with the fields T0..T7 in that order |
| Monitor.RegisterMapRaised | src/f_fee_tui/workers.py:208-222 | a failing register-map frame posts nothing: a wrong shape is the unpacking ValueError, a decoder error passes through, and otherwise the first missing field is the KeyError |
| Monitor.HandleDebHousekeeping | src/f_fee_tui/workers.py:232-245 | DebModeChanged comes first. OutbuffChanged follows, with the new totals, exactly when the accumulator changed. Nothing is raised exactly when the frame decodes with a valid mode and all eight flags |
| Monitor.DebHousekeepingPosted | src/f_fee_tui/workers.py:232-245 | every decodable DEB frame posts DebModeChanged with its mode; when a flag is set, the re-ordered flags are added and the totals posted next, and otherwise the accumulator is kept |
| Monitor.DebHousekeepingRaised | src/f_fee_tui/workers.py:232-238 | a decoder error or a missing or invalid OPER_MOD posts nothing; a missing OUTBUFF flag raises its KeyError after the mode was posted; the accumulator is kept |
| Monitor.DebAccumulatorUpdate | src/f_fee_tui/workers.py:237-245 | the accumulator changes only when some OUTBUFF flag is nonzero, and then slot i grows by flag `mapping[i]` |
| Monitor.DebAccumulatorMonotone | src/f_fee_tui/workers.py:244 | with non-negative flags no slot ever decreases |
| Monitor.AccumulateChanges | src/f_fee_tui/workers.py:240-245 | any nonzero flag changes the accumulator: the re-ordering drops no flag |
| Monitor.MappingSelfInverse | src/f_fee_tui/workers.py:138 | `outbuff_mapping` is a permutation of 0..7 that is its own inverse |
| Monitor.ReorderInvolution | src/f_fee_tui/workers.py:242 | re-ordering twice gives the flags back, and re-ordering only permutes them |
| Monitor.StateKey | src/f_fee_tui/workers.py:256-269 | exactly the seven statuses the handler checks for have a key, and the LED value is False for OFF only |
| Monitor.HandleAebHousekeeping | src/f_fee_tui/workers.py:246-269 | an empty id list is the IndexError. A posted AebStateChanged carries the lower-cased first unit id followed by a status suffix |
| Monitor.AebStatusReported | src/f_fee_tui/workers.py:247-269 | a decodable AEB frame posts exactly one AebStateChanged for a recognised status, with that status's key and value, and none otherwise |
| Monitor.AebKeyInjective | src/f_fee_tui/workers.py:256-269 | for one unit, different statuses give different keys |
| Monitor.HandleMessages | src/f_fee_tui/workers.py:204-269 | only a housekeeping frame can change the accumulator. An unknown sync id does nothing. Decoding posts only the four state-change events |
| Monitor.ReceiveFrame | src/f_fee_tui/workers.py:176-183 | a frame that is not two parts fails to unpack, and a received frame posts only state-change events |
| Monitor.FrameEventCounts | src/f_fee_tui/workers.py:176-183 | a frame posts one ExceptionCaught if its decoding raised and none otherwise, and never a silence report |
| Monitor.ApplyReset | src/f_fee_tui/workers.py:165-168 | a pending reset is consumed, zeroes the accumulator and posts OutbuffChanged of zeros; without one nothing happens; nothing else changes |
| Monitor.ApplyFrame | src/f_fee_tui/workers.py:172-183 | a frame restarts the timer and re-arms both reports, and posts only decode events or ExceptionCaught; no frame changes nothing |
| Monitor.CheckSilence | src/f_fee_tui/workers.py:185-190 | each report flag ends raised exactly when it was raised before or its threshold is passed, and nothing else in the state changes |
| Monitor.Step | src/f_fee_tui/workers.py:162-190 | cancellation ends the loop. A pending reset is consumed first and posts OutbuffChanged of zeros. A frame restarts the timer and re-arms both reports. Without a frame the timer runs on and a report flag stays raised |
| Monitor.Run | src/f_fee_tui/workers.py:162-197 | the loop keeps running exactly when no pass sees the cancel flag, and a cancelled run ends with the finished message |
| Monitor.StepReport | src/f_fee_tui/workers.py:185-190 | a pass posts a silence report at most once, and exactly when it is not cancelled, has no frame, is past the threshold and the report was not yet made |
| Monitor.SilenceCount | src/f_fee_tui/workers.py:185-190 | the silence checks post each report exactly when it is due and not yet made |
| Monitor.ReportsPerEpisode | src/f_fee_tui/workers.py:172-190 | over any run each report is posted at most once per silence episode: once before the first frame and once after each frame |
| Monitor.SilentRunReportsOnce | src/f_fee_tui/workers.py:185-190 | in a silent run each report is posted exactly once if the silence ever exceeds its threshold and it was not yet made, and never otherwise |
| Monitor.FaultyFrameContained | src/f_fee_tui/workers.py:172-183 | a frame whose decoding raises still restarts the timer, yields exactly one ExceptionCaught, and the loop goes on |
| Monitor.ResetTwice | src/f_fee_tui/workers.py:165-168 | two requests before one pass are one request. Two requests in successive passes leave zeros and post two OutbuffChanged |
| Monitor.OutbuffOnlyFromReset | src/f_fee_tui/workers.py:165-168 | a pass without a frame posts OutbuffChanged exactly when a reset was pending |
| DebPanel.OnDebModeChanged | src/f_fee_tui/_master_screen.py:271-292 | after the handler at most one indicator is lit |
| DebPanel.OnDebModeChangedLights | src/f_fee_tui/_master_screen.py:274-292 | an indicator is lit afterwards exactly when it stands for the reported mode, whatever was lit before |
| DebPanel.OnDebModeChangedOneHot | src/f_fee_tui/_master_screen.py:274-292 | exactly one indicator is lit for modes 0, 1, 2, 3, 6 and 7, and none for any other value |
| DebPanel.ModeLedInverse | src/f_fee_tui/_master_screen.py:281-292 | the `if`/`elif` chain and the indicator-to-mode table are inverse, and the chain covers exactly the known modes |
| DebPanel.ButtonCommand | src/f_fee_tui/app.py:63-81 | every DEB button enqueues a DPU command with no arguments |
| DebPanel.ButtonOpInverse | src/f_fee_tui/app.py:63-81 | the operation a button names identifies the button |
| DebPanel.ButtonCommandInjective | src/f_fee_tui/app.py:63-81 | different buttons enqueue different commands |
| DtcInMod.OnPanelIff | src/f_fee_tui/dtc_in_mod.py:21-23 | the labels in `ALL_IDS` are exactly the twelve panel labels |
| DtcInMod.AllIdsChained | src/f_fee_tui/dtc_in_mod.py:12-23 | `ALL_IDS` is the values of T0..T7 chained in order: twelve distinct labels |
| DtcInMod.AllIdNamesFirstHalf | src/f_fee_tui/dtc_in_mod.py:12-15 | the first six labels have the widget ids T0-001..T3-001 |
| DtcInMod.AllIdNamesSecondHalf | src/f_fee_tui/dtc_in_mod.py:16-19 | the last six labels have the widget ids T4-001..T7-001 |
| DtcInMod.NameInjective | src/f_fee_tui/dtc_in_mod.py:88-89 | different labels have different widget ids, so turning one off touches only that one |
| DtcInMod.IfOne | src/f_fee_tui/dtc_in_mod.py:91-92 | a single `if` lights its label exactly for value 1 |
| DtcInMod.IfOneTwo | src/f_fee_tui/dtc_in_mod.py:94-97 | an `if`/`elif` lights the 001 label for 1, the 010 label for 2, and nothing else |
| DtcInMod.Chains | src/f_fee_tui/dtc_in_mod.py:91-121 | the chains light exactly the panel labels whose field holds their code |
| DtcInMod.SetState | src/f_fee_tui/dtc_in_mod.py:86-121 | `set_state` touches no label outside `ALL_IDS` |
| DtcInMod.SetStateLights | src/f_fee_tui/dtc_in_mod.py:88-121 | a panel label is lit afterwards exactly when its field holds its code, so value 2 lights nothing on T0, T3, T4 and T7 |
| DtcInMod.ChainsMatchTables | src/f_fee_tui/dtc_in_mod.py:91-121 | the hand-written chains agree with the T0..T7 tables |
| DtcInMod.SetStateMatchesTables | src/f_fee_tui/dtc_in_mod.py:86-121 | among `ALL_IDS` exactly the labels the tables name for the current values are lit |
| DtcInMod.OnePerChannel | src/f_fee_tui/dtc_in_mod.py:91-121 | two lit labels of the same field are the same label |
| DtcInMod.AtMostEightLit | src/f_fee_tui/dtc_in_mod.py:91-121 | at most eight panel labels are lit |
| DtcInMod.SetStateForgetsPrior | src/f_fee_tui/dtc_in_mod.py:86-121 | the lit panel labels depend only on the current record |
| DtcInMod.SetStateIdempotent | src/f_fee_tui/dtc_in_mod.py:86-121 | applying the same record twice is applying it once |
| MasterScreen.OneHotRoundTrip | src/f_fee_tui/_master_screen.py:219 | the power arguments have exactly one 1, at the unit's position, and decode back to the unit |
| MasterScreen.AebPowerPressed | src/f_fee_tui/_master_screen.py:208-221 | a command is enqueued exactly when the unit resolves. It is power-on exactly when the id ends in "-on", and its one-hot argument names that unit. Otherwise there is an error notification |
| MasterScreen.AebModePressed | src/f_fee_tui/_master_screen.py:223-269 | INIT/CONFIG/IMAGE enqueue their operation with `AEB<n>` exactly when the unit resolves. The pattern button only warns |
| MasterScreen.InitUnits | src/f_fee_tui/_master_screen.py:160-161 | one `aeb_set_init_mode` per unit, in unit order |
| MasterScreen.InitCommands | src/f_fee_tui/_master_screen.py:160-161 | the init loop enqueues exactly one INIT command per unit, in order |
| MasterScreen.ImmediateOn | src/f_fee_tui/_master_screen.py:158-163 | immediate-on only enqueues and waits six seconds; it touches no panel and notifies nothing |
| MasterScreen.ImmediateOnCommands | src/f_fee_tui/_master_screen.py:157-163 | immediate-on enqueues six commands: DEB immediate-on, INIT for AEB1..AEB4, then power-off of all four. The only pause comes just before the last |
| MasterScreen.DebButtonPressed | src/f_fee_tui/_master_screen.py:153-175 | every DEB button except immediate-on enqueues just its own command |
| MasterScreen.PowerOnList | src/f_fee_tui/_master_screen.py:193-195 | after k passes of the loop exactly the first k flags are set |
| MasterScreen.FpgaDefaultsBody | src/f_fee_tui/_master_screen.py:187-202 | between locking and unlocking, the sequence never touches a panel |
| MasterScreen.SetFpgaDefaults | src/f_fee_tui/_master_screen.py:182-206 | locking and unlocking the panels enqueue nothing; the panels are disabled by the first three actions and enabled by the last three, and by nothing in between |
| MasterScreen.FpgaDefaultsCommands | src/f_fee_tui/_master_screen.py:181-206 | the DEB defaults are enqueued first. Four power-on commands follow, the k-th with its first k flags set. Then each unit's defaults, in order: nine commands in all |
| MasterScreen.PowerOnCommands | src/f_fee_tui/_master_screen.py:193-198 | the power-on loop from unit k+1 enqueues the power-on commands k+1..4 in order |
| MasterScreen.DefaultsCommands | src/f_fee_tui/_master_screen.py:200-202 | the defaults loop enqueues one `set_fpga_defaults` per unit, in order |
| MasterScreen.PowerOnListGrows | src/f_fee_tui/_master_screen.py:193-196 | flags are only ever set, so when the k-th power-on command is read later its first k flags are still set |
| MasterScreen.PanelsSet | src/f_fee_tui/_master_screen.py:183-185 | locking or unlocking sets each of the three panels, whatever came before |
| MasterScreen.FpgaDefaultsLocksPanels | src/f_fee_tui/_master_screen.py:182-206 | every command is enqueued while all three panels are disabled, and all three are enabled at the end |
| MasterScreen.EndObservation | src/f_fee_tui/general_command.py:41-44 | end observation enqueues one command, and it is routed to the configuration manager |
| MasterScreen.Created | src/f_fee_tui/_master_screen.py:87-88 | a new screen has commanding enabled and no listed panels |
| MasterScreen.SetAll | src/f_fee_tui/_master_screen.py:349-350 | every listed panel gets the value and every other panel keeps its own |
| MasterScreen.ApplyPanels | src/f_fee_tui/_master_screen.py:183-206 | applying a handler's actions leaves the commanding flag and the panel list alone, and no panel loses its state |
| MasterScreen.Toggle | src/f_fee_tui/_master_screen.py:346-350 | the flag flips, every listed panel agrees with it afterwards, and unlisted panels are untouched |
| MasterScreen.ToggleTwice | src/f_fee_tui/_master_screen.py:346-350 | from a consistent state, toggling twice changes nothing |
| MasterScreen.OnMount | src/f_fee_tui/_master_screen.py:131-134 | mounting lists the three panels and flips the flag once |
| MasterScreen.MountDisablesCommanding | src/f_fee_tui/_master_screen.py:131-134 | a new screen starts with commanding disabled and all three panels disabled |
| MasterScreen.ToggleDuringDefaults | src/f_fee_tui/_master_screen.py:204-206 | a toggle during `set_fpga_defaults` leaves the flag disabled while the panels end enabled |
| MasterScreen.UnmountSteps | src/f_fee_tui/_master_screen.py:138-148 | the monitor is always cancelled first and joined if alive. The queue is always cleared. A raising clear ends the handler; otherwise the queue is joined, the commander cancelled, and joined if alive |
| MasterScreen.UnmountOrder | src/f_fee_tui/_master_screen.py:138-148 | the monitor stops before the clear, the clear comes before the join, and the join comes before the commander stops; each thread is cancelled before it is joined |
| MasterScreen.ShutdownStepsInOrder | src/f_fee_tui/_master_screen.py:138-148 | whichever threads are alive and whether the clear returns, each step of `on_unmount` stands later in the shutdown order (cancel monitor, join monitor, clear, join queue or the raise, cancel commander, join commander) than the step before it |
| MasterScreen.OrderedSteps | src/f_fee_tui/_master_screen.py:138-148 | for steps in that order, each thread is cancelled before it is joined, the monitor stops before the queue is touched, and the clear comes before the join and both before the commander stops |
| MasterScreen.UnmountJoin | src/f_fee_tui/_master_screen.py:143-144 | with no more items than unfinished tasks the clear returns and the commander is cancelled. `join` then waits only for the commands already taken, so on a balanced queue it returns at once |
| MasterScreen.UnmountClearRaises | src/f_fee_tui/_master_screen.py:143 | with more items than unfinished tasks the clear raises and the commander is never cancelled |
| Services.LastFrame | src/f_fee_tui/services.py:110-114 | the collection ends at the first frame with RCVMORE unset, or never if there is none |
| Services.CollectParts | src/f_fee_tui/services.py:108-112 | a collected message has at least one part and no more parts than frames |
| Services.CollectPartsOutcome | src/f_fee_tui/services.py:108-112 | for every frame sequence: the parts exactly when the frames up to the last all decode, each part the decoded frame; otherwise the error of the first undecodable frame; waiting exactly when every frame decodes and says more is coming |
| Services.CollectPartsWaits | src/f_fee_tui/services.py:108-112 | collecting waits for more frames exactly when every frame so far decodes and has RCVMORE set |
| Services.CollectPartsDecoded | src/f_fee_tui/services.py:108-112 | collecting succeeds exactly when a frame ends the message and every frame up to it decodes; part i is frame i decoded |
| Services.CollectPartsRaised | src/f_fee_tui/services.py:108-112 | a failed collection carries the error of the first undecodable frame, every earlier frame having RCVMORE set |
| Services.Collect | src/f_fee_tui/services.py:105-114 | the id is the first frame read big-endian and a message has at least one part; it waits exactly when no frame ends the message and all decode |
| Services.HandleMultiPart | src/f_fee_tui/services.py:107-116 | the loop agrees with Collect: the id is the first frame read big-endian, there is one decoded part per frame up to and including the first frame without RCVMORE, and an undecodable frame ends the loop with its error |
| Services.MultiPartId | src/f_fee_tui/services.py:109 | a message whose id frame is the one-byte encoding of an identifier comes back with that identifier |
| Services.HandleSinglePart | src/f_fee_tui/services.py:119-123 | a single frame gives the id ALL and a one-element list of its decoded content exactly when it decodes, and otherwise the decoder's error |
| Services.Receive | src/f_fee_tui/_master_screen.py:377-383 | a single frame is handled at once with the id ALL; a multi-part message carries the id of its first frame; a received message has at least one part |
| Services.ReceiveParts | src/f_fee_tui/_master_screen.py:377-383 | RCVMORE on the first frame selects the handler. A received message has at least one part. A multi-part message waits exactly when every later frame decodes and says more is coming |
| Services.Registry | src/f_fee_tui/services.py:14-104 | the table builds exactly when both identifiers fit a byte, and then has seven entries |
| Services.RegistryInvariants | src/f_fee_tui/services.py:14-104 | every entry starts not timed out, without a socket, with a positive interval, last heard at start. Each service appears once. Each filter is one byte that decodes to its identifier, and only multi-part services have one |
| Services.KeyInverse | src/f_fee_tui/services.py:14-104 | each table key names its own service, so the keys are distinct |
| Polling.PollOne | src/f_fee_tui/_master_screen.py:374-398 | a service keeps its name and interval, a cycle aborts only when the info bar is missing, and an undecodable message ends `poll_services` with the entry untouched and no callback |
| Polling.PollOneMounted | src/f_fee_tui/_master_screen.py:376-396 | data sets last-received to now and clears the flag. Without data a service is flagged, with one time-out callback, exactly when it was not flagged and is overdue |
| Polling.PollOneUnmounted | src/f_fee_tui/_master_screen.py:374-398 | without the info bar the callback still runs but last-received is kept. The cycle aborts exactly on data or a new time-out |
| Polling.Cycle | src/f_fee_tui/_master_screen.py:374-398 | a cycle keeps one entry per service |
| Polling.CycleMounted | src/f_fee_tui/_master_screen.py:374-398 | with the info bar present each service up to the first undecodable message is updated on its own, and `poll_services` ends exactly when some message does not decode |
| Polling.CycleStops | src/f_fee_tui/_master_screen.py:374-398 | after the first service that aborts the pass or whose message does not decode, every later service is left untouched, and `poll_services` ends exactly in the second case |
| Polling.SilenceReportsOnce | src/f_fee_tui/_master_screen.py:391-396 | a silent service is reported timed out at most once, never if already flagged, and stays flagged |
| Polling.HeardNeverTimesOut | src/f_fee_tui/_master_screen.py:387-390 | a service heard from in every cycle is never reported and ends unflagged |
| Polling.UndecodableEndsRun | src/f_fee_tui/_master_screen.py:374-398 | after an undecodable message no later cycle changes or reports anything |
| App.ButtonPressed | src/f_fee_tui/app.py:63-81 | a DEB button appends one command at the back of the queue and keeps it balanced |
| App.ButtonPressedEnqueues | src/f_fee_tui/app.py:63-81 | the appended command is `("DPU", op, [], {})` and its op identifies the button |
| App.ImmediateOnDiffers | src/f_fee_tui/app.py:67-69 | the app's immediate-on sends one command where the main screen's sends six |
| App.OnDebModeChanged | src/f_fee_tui/app.py:83-107 | the notification is `F-FEE set to <name>` exactly when `f_fee_mode` names the value |
| App.OnDebModeChangedOneHot | src/f_fee_tui/app.py:86-104 | exactly the indicator for the mode is lit for the six known modes and none otherwise, whatever was lit before |
| App.UnmountSteps | src/f_fee_tui/app.py:52-61 | the monitor is cancelled first. The app never clears its queue; it always joins it and cancels the commander, joining each thread only if alive |
| App.UnmountOrder | src/f_fee_tui/app.py:52-61 | the monitor stops before the queue is joined, the join comes before the commander stops, and each thread is cancelled before it is joined |
| App.UnmountJoin | src/f_fee_tui/app.py:57 | while the command thread runs quiet passes, the app's `join` returns exactly when every command pending at unmount has been taken off, in order, one per pass, each with its two events |

## Left out

- Threads, zmq sockets, `select` and the Poller, asyncio and Textual message delivery are left out. Each loop pass is a step, and cancellation, frame arrival and queue contents are its inputs.
- `time.monotonic` and float seconds are replaced by integer ticks of 0.1 s. One pass of the monitor reads the clock once, where the code reads it twice.
- The external decoders are function-typed inputs: `pickle.loads`, `RegisterMap`, `HousekeepingData`, `f_fee_mode`, `aeb_state`, `get_aeb_nr`, `traceback.format_exc`, `load_setup` and `Settings`. `get_aeb_nr` is not part of this model.
- The `MessageIdentifier` members (F_FEE_REGISTER_MAP, SYNC_HK_DATA, STATUS, SYNC_TIMECODE, ALL) are integer inputs, because they are defined outside the repository.
- Logging calls (`screen.log`, `_LOGGER`) and the layout of notifications are left out, because they change no state. One exception is `aeb_state(...).name` in a log line, which can raise; it is modelled.
- Rendering-only handlers are left out because they belong to widgets outside the core: `on_outbuff_changed` (the sparkline), `on_aeb_state_changed`, `on_shutdown_reached` clearing the panels, `on_log_retrieved`, `on_exception_caught` and `action_toggle_dark`.
- AEB sub-state mutual exclusion and the automatic power-on are not modelled: the code sets only the single LED its key names.
- The socket set-up at the top of `poll_services`, the one-second timer that starts it, and the sleeps between cycles are left out. Only the table bookkeeping and the callback's sync id and timed-out flag are modelled; the decoded payload passed to the callback is not, since `log_message` does nothing with it.
- Polling.PollOne: the debug log line builds `MessageIdentifier(sync_id)`, which raises for an id that is no member and would end the worker. The model assumes every received id is a member, which holds for the subscribed one-byte filters and for ALL.
- Polling.PollOne: time-outs are compared in tenths of a second against the interval in seconds times ten. The float comparison of the code is not modelled.
- Services.Registry: every entry gets the same start time `t0`, where the code reads the clock once per entry.
- Services.HandleMultiPart: when the frames run out before one without RCVMORE, the model returns `None`. The code would wait in `recv()` for more.
- Polling.PollOne: a message whose decoding raises ends `poll_services`, since its `try` catches only NoMatches. What happens to the screen after the worker ends is not modelled.
- App.UnmountJoin: both threads look up the screen named "master" when they start (src/f_fee_tui/workers.py:53 and src/f_fee_tui/workers.py:160), and the stand-alone app installs no such screen. Textual would raise there, the command thread would take nothing, and `join` with a command pending would not return. The lemma describes a command thread that did start; the start-up lookup is not modelled.
- MasterScreen.FpgaDefaultsCommands: each power-on command records the flag list as it is when enqueued. The code enqueues the same list object every time, and MasterScreen.PowerOnListGrows states what the dispatcher can see when it later reads it.
- MasterScreen.PowerOnSteps, MasterScreen.UnitDefaults: these building blocks state only the kinds of their actions. Their commands are stated by MasterScreen.PowerOnCommands and MasterScreen.DefaultsCommands.
- Dispatcher.RunRound: its own contract states only the bound on back-off sleeps. The connection-failure branch is stated by Dispatcher.ConnectionFailureBackoff, and the connected branch by the inner-loop lemmas.
- Dispatcher: an exception raised while leaving the proxies' `with` block is not modelled, and neither is a queue entry that is not a 4-tuple.
- Monitor.HandleAebHousekeeping: the unit id is assumed to be a string, since `aeb_id.lower()` on anything else would raise.
- Monitor.HandleAebHousekeeping: `Lower` lowers only the ASCII letters A-Z, where Python's `str.lower()` also lowers other Unicode letters. AEB ids are ASCII (`AEB1`..`AEB4`).
- Files that only render widgets are not part of this model: `aeb_command.py`, `deb_command.py`, `deb_mode.py` (apart from the initial ON indicator), `leds.py`, `infobar.py`, `aeb_state.py`, `_help_screen.py`, `__main__.py` and `_version.py`. From `general_command.py` only the end-observation command is modelled.
