# union-monitor in Dafny

union-monitor watches one validator of the Union chain. Once a minute it does four things:
- fetches the node's status and the validator set;
- scans every block produced since the last poll for the validator's signature;
- keeps the blocks it missed in a window the size of the slashing window (100 blocks);
- sends Telegram alerts when a threshold is crossed.

After five consecutive cycles in which both the status requests and the block scan fail, it sends a critical alert and stops. The refactored entry point `monitor.py` runs the same loop body against stub clients and also appends one `(time, total_missed)` entry per cycle to a bounded on-disk history. telegram_bot/alerts.py also defines a `/pause <hours>` handler, which no shown code registers.

The model covers:
- **MissedBlocks** (`missed_blocks.dfy`): `get_missed_blocks`.
  - The deque is the class `MissedWindow`. `maxlen = 100` is modelled: a full deque drops its front on append.
  - The method `GetMissedBlocks` clears the window or trims aged events, walks the heights in ascending order and handles HTTP 500 and other failures.
  - `GetMissedBlocks` is proved equal to the function `Scan`. The window invariants and the per-poll guarantees are lemmas about `Scan`.
  - The blocks are an input: `blocks[i]` is the outcome of fetching height `last_height + 1 + i`.
- **ValidatorStatus** (`validator_status.dfy`): the pure part of `get_validator_status`.
  - Covered: total voting power, locating the validator, rank in a stable descending sort, delegator count, and the tuple returned in each case.
  - The HTTP answers are an input.
- **PollLoop** (`poll_cycle.dfy`): the `while True` loop of `monitor()` in `union-monitor.py`.
  - Covered: the uptime formula, the seven threshold alerts in their send order, the failure counter with its exit at five, and the `missed_since_last_alert` accumulator.
  - The method `PollCycle` updates `MonitorState` and the window in place. It is proved against `Cycle`, with `Decide` giving the per-cycle decisions.
  - The method `Monitor` runs the loop over a finite sequence of polls and is proved against the function `Run`.
  - `Run` is `Fold` of the one-cycle `Step`. `Fold` runs any step over the polls until a step stops, and its lemmas hold for every step.
  - The window in the loop state has the type `Window`: at most 100 events, as the deque's `maxlen` allows.
- **HistoryStore** (`history.dfy`): `append_history` and the trim in `save_history`, on a `History` object holding the two parallel lists.
- **RefactoredLoop** (`refactored_cycle.dfy`): the loop body of `monitor.py`.
  - It records the history entry before the failure check.
  - It has no sync check.
  - Every other decision agrees with `PollLoop.Decide`.
- **TelegramCommands** (`telegram_commands.dfy`): `pause_command`, which validates the argument and sets `paused_until`, and the `missed_percentage` expression.
- **Util** (`util.dfy`): `Option`, `KeepLast` (a Python `s[-n:]` slice, or what a deque with `maxlen = n` keeps) and the constants of `config/settings.py`.

Percentages and the average block time are computed over `real`, from integer inputs. Heights, counts and timestamps are unbounded integers; timestamps are whole seconds.

The not-in-active-set alert fires on `not active and voting_power is None`. `get_validator_status` returns `active = True` when the validator is missing from the set (union-monitor.py:81-83). So this alert is sent only when the status requests failed, never for a validator that left the set. The model follows the code, and `PollLoop.ActiveSetAlertMeansStatusFailure` states this behaviour.

## Model

| member | source | states |
|---|---|---|
| Util.KeepLast | graphing/storage.py:25-26 | The `[-n:]` slice keeps the whole list when it has at most n elements, and exactly n elements otherwise. |
| Util.KeepLastIsSuffix | graphing/storage.py:25-26 | What the slice keeps is the newest part of the list, in its original order. |
| Util.KeepLastPush | union-monitor.py:157 | Appending to a bounded deque and then bounding it again gives the same result as bounding once after the append. |
| MissedBlocks.Push | union-monitor.py:157 | Appending to the deque created with `maxlen = SLASHING_WINDOW` keeps the newest 100 of the old events and the new one taken together; the new event ends up last. |
| MissedBlocks.TrimAged | union-monitor.py:139-142 | The pop loop never grows the window. Whatever front event remains is less than a window behind the latest height. If anything was popped, the old front event was at least a window behind. |
| MissedBlocks.TrimAgedPoppedAged | union-monitor.py:139-142 | Every event the pop loop removed was at least a window behind the latest height. |
| MissedBlocks.TrimAgedIsSuffix | union-monitor.py:141-142 | The trim removes events from the front only. |
| MissedBlocks.StartWindow | union-monitor.py:135-142 | The window the height loop starts from never grows. It is empty after a jump of more than a window. Whatever front event remains is less than a window behind the latest height. |
| MissedBlocks.StartWindowIsSuffix | union-monitor.py:135-142 | Clearing or trimming only removes events from the front of the deque. |
| MissedBlocks.TrimAgedKeepsRecent | union-monitor.py:139-142 | On an ascending window, an event survives the trim exactly when `latest_height - height < SLASHING_WINDOW`. |
| MissedBlocks.Processed | union-monitor.py:145-164 | Heights are processed in order up to the first failure other than HTTP 500. Every height before that point succeeded or gave 500. |
| MissedBlocks.ProcessedStopsAt | union-monitor.py:159-164 | A non-500 failure at a height that every earlier height got past is where the scan stops. |
| MissedBlocks.NewEvents | union-monitor.py:145-157 | At most one event is appended per height visited. |
| MissedBlocks.BlockTimes | union-monitor.py:145-151 | At most one block time is recorded per height visited. |
| MissedBlocks.BlockTimesExactly | union-monitor.py:145-151 | A time is recorded exactly when some processed height's block was fetched with that time. |
| MissedBlocks.BlockTimesInOrder | union-monitor.py:145-151 | Times are recorded in height order: processing more heights only appends to the list. |
| MissedBlocks.NewEventsRange | union-monitor.py:145-157 | The appended events have strictly ascending heights, all in `last_height+1 .. last_height+k`. |
| MissedBlocks.NewEventsExactly | union-monitor.py:153-157 | An event `(height, time)` is appended exactly when that height was visited and its block was fetched with that time and without the validator's signature. |
| MissedBlocks.AvgBlockTime | union-monitor.py:165 | The average block time is 0 when fewer than two block times were recorded. |
| MissedBlocks.AvgOfEvenSpacing | union-monitor.py:165 | `(last - first) / (n - 1)` over blocks produced every `step` seconds is `step`. |
| MissedBlocks.Scan | union-monitor.py:118-171 | A poll leaves at most 100 events in the window, with `total_missed` equal to its length. `missed` is -1 or more, and when it is -1 the average block time is 0. |
| MissedBlocks.ScanKeepsInvariant | union-monitor.py:145-166 | A poll keeps the window within 100 events, strictly ascending and at or below the returned `current_height`, which never decreases. The next poll starts above it, so no height is appended twice. |
| MissedBlocks.ScanResetForgetsWindow | union-monitor.py:135-138 | After a jump of more than a window, the result does not depend on what the window held, and every remaining event lies above `last_height`. |
| MissedBlocks.ScanTrimKeepsRecent | union-monitor.py:139-157 | When there is no reset, every event is less than a window behind the latest height. If the chain did not go backwards, any two events are less than a window apart. |
| MissedBlocks.ScanProgress | union-monitor.py:145-171 | `current_height` is the last height handled before the first non-500 failure. `missed` is -1 exactly when such a failure cut the scan short, and otherwise equals the number of events appended. |
| MissedBlocks.ScanUnreachable | union-monitor.py:169-171 | When the latest block cannot be fetched, the result is `(-1, last_height, len(window), 0)` and the window is unchanged. |
| MissedBlocks.MissedWindow.constructor | union-monitor.py:226 | The deque starts empty. |
| MissedBlocks.MissedWindow.Clear | union-monitor.py:137 | `clear()` empties the deque. |
| MissedBlocks.MissedWindow.PopLeft | union-monitor.py:142 | `popleft()` returns the front element and removes it. |
| MissedBlocks.MissedWindow.Append | union-monitor.py:157 | `append` on the bounded deque is `Push`. |
| MissedBlocks.ResetOrTrim | union-monitor.py:135-142 | The deque is cleared after a jump of more than a window. Otherwise aged events are popped from its front. |
| MissedBlocks.ScanHeights | union-monitor.py:145-164 | The height loop ends with `missed` equal to the number of events appended and `current_height` equal to the last height handled. The window becomes the old window with the missed blocks appended through the deque. The recorded block times are those of the fetched blocks. |
| MissedBlocks.GetMissedBlocks | union-monitor.py:118-171 | `get_missed_blocks` updates the window in place and returns the report of `Scan`. |
| ValidatorStatus.TotalVotingPower | union-monitor.py:78 | With no negative powers, the total voting power is not negative. |
| ValidatorStatus.TotalVotingPowerAppend | union-monitor.py:78 | The total voting power of a concatenated set is the sum of the parts' totals. |
| ValidatorStatus.TotalBoundsEach | union-monitor.py:78 | With no negative powers, each validator's power is at most the total. |
| ValidatorStatus.FindValidator | union-monitor.py:79 | The result is the first validator with the configured address, or none when no validator has it. |
| ValidatorStatus.Rank | union-monitor.py:86 | A rank lies in `1 .. len(validators)`. |
| ValidatorStatus.RankOrder | union-monitor.py:86 | A validator with more power, or equal power and an earlier place in the set (Python's stable sort), has a smaller rank. |
| ValidatorStatus.RankDistinct | union-monitor.py:86 | Distinct validators have distinct ranks, so the ranks are exactly the positions in the sorted list. |
| ValidatorStatus.RankOneIsTop | union-monitor.py:86 | Rank 1 holds exactly when no other validator sorts before this one. |
| ValidatorStatus.DelegatorCount | union-monitor.py:90-97 | The delegator count is the floor of the shares divided by 10^18. It is None when the REST call failed. |
| ValidatorStatus.Status | union-monitor.py:59-102 | Voting power is known exactly when the rank is. A rank is known only after the requests succeeded, and lies in `1 .. len(validators)`. The total voting power is known exactly when the requests succeeded. A jailed validator, or one with a delegator count, has a known voting power. |
| ValidatorStatus.StatusActiveMeansFetched | union-monitor.py:64-102 | `active` is true exactly when the requests succeeded. Power is unknown while `active` is true exactly when the validator is absent from the set. After a successful fetch the sync flag is the node's `catching_up`. When a request failed the tuple is `(False, None, …, None)`, with no flag set. |
| ValidatorStatus.StatusOfListedValidator | union-monitor.py:85-99 | A validator found in the set is active and gets its own power, its jailed flag, the set's total power, its rank in `1 .. len(validators)`, the node's `catching_up` flag and the delegator count of its shares. |
| PollLoop.Uptime | union-monitor.py:263 | Uptime is 100 when nothing was missed, otherwise `100 - total_missed`. It lies in 0..100 for a count up to the window. It is below the 80% limit exactly when more than 20 blocks were missed, so exactly 20 does not alert. |
| PollLoop.Fires | union-monitor.py:278-291 | Only the seven threshold kinds have a check that can fire. |
| PollLoop.Checked | union-monitor.py:278-291 | An alert kind is emitted exactly when it is among the checked kinds and its condition holds. |
| PollLoop.CheckedInOrder | union-monitor.py:278-291 | The checks emit their alerts in the order they are checked. |
| PollLoop.ThresholdAlerts | union-monitor.py:278-291 | A threshold alert is emitted exactly when its own condition holds. |
| PollLoop.ThresholdAlertsInOrder | union-monitor.py:278-291 | The threshold alerts are sent in the code's order, each at most once. |
| PollLoop.ThresholdAlertConditions | union-monitor.py:278-291 | Each alert has its own iff: not in active set, not synced, jailed, power < 1000, block time > 10 s, delegators < 10, and uptime below `100 - 0.20*100`. |
| PollLoop.MissedBatchLast | union-monitor.py:293-302 | The batched missed-block alert comes after the threshold alerts, so the send order is kept. |
| PollLoop.Decide | union-monitor.py:270-302 | The failure counter increments exactly on `active is False and missed == -1` and resets otherwise. The loop exits exactly when the counter reaches 5, with only the critical alert and the accumulator untouched. Otherwise the counter is below 5 and no critical alert is sent. A sentinel never changes the accumulator, which stays within 0..5. |
| PollLoop.DecideAlerts | union-monitor.py:278-302 | On a cycle that does not exit, the threshold alerts come in send order. The batched alert is sent exactly when the accumulator plus a positive `missed` exceeds 5, and then the accumulator resets to 0; otherwise it is the sum. |
| PollLoop.ActiveSetAlertMeansStatusFailure | union-monitor.py:278-279 | The not-in-active-set alert is sent exactly when the status requests failed and the loop goes on. |
| PollLoop.Initial | union-monitor.py:225-227 | The starting state satisfies the loop invariant, at the initial height and with no failures. |
| PollLoop.StartupAlerts | union-monitor.py:222-224 | The start-height warning is sent exactly when the initial height is 0. |
| PollLoop.Cycle | union-monitor.py:250-304 | A cycle keeps the window within 100 events and carries the decided counters. On exit `last_height` is not updated. |
| PollLoop.CycleKeepsInvariant | union-monitor.py:250-304 | A cycle that does not exit keeps the loop invariant: window ascending, within 100 events and at or below `last_height`; failures below 5; accumulator within 0..5. `last_height` never decreases. |
| PollLoop.Fold | union-monitor.py:250-305 | `Run`, the `while True` loop, is `Fold` of `Step`, which is `Cycle` for the configured address. One alert list per cycle; every poll gets its cycle unless the loop exits, and a loop that exits ran at least one cycle. |
| PollLoop.FoldSnoc | union-monitor.py:250-305 | One more poll after a loop that did not exit adds exactly that poll's cycle. |
| PollLoop.FoldStopsEarly | union-monitor.py:272-274 | After the exit, later polls have no effect. |
| PollLoop.FoldPrefixStep | union-monitor.py:250-305 | The loop over the first i + 1 polls is the loop over the first i followed by the cycle of poll i. |
| PollLoop.FoldPrefixFinished | union-monitor.py:250-305 | Once the polls are used up or the loop has exited, the loop over the prefix is the whole loop. |
| PollLoop.FoldCriticalAlertOnlyAtExit | union-monitor.py:270-276 | When every cycle sends the critical alert alone exactly when it exits, the critical alert is sent only on the last cycle of a loop that exits. |
| PollLoop.StepCriticalOnlyAtStop | union-monitor.py:270-276 | A monitor cycle sends the critical alert, alone, exactly when it exits. |
| PollLoop.RunCriticalAlertOnlyAtExit | union-monitor.py:270-276 | The critical alert is sent only on the last cycle of a run that exits, as that cycle's only alert. |
| PollLoop.RunKeepsInvariant | union-monitor.py:250-305 | Every run that does not exit ends in the loop invariant, and `last_height` never decreases. |
| PollLoop.UnreachableShutsDown | union-monitor.py:270-274 | `5 - failures` consecutive polls where every request fails make the loop exit after exactly that many cycles. |
| PollLoop.ShutDownNeedsFailures | union-monitor.py:270-276 | The loop never exits in fewer than `5 - failures` cycles. |
| PollLoop.ExitedRunEndsInCriticalAlert | union-monitor.py:270-276 | A run from zero failures that exits lasted at least five cycles and sent the critical alert last, and at no other cycle. |
| PollLoop.MonitorState.constructor | union-monitor.py:41-55 | The initial field values of `MonitorState`. |
| PollLoop.Record | union-monitor.py:254-263 | The status and report values are copied into the state and the uptime is computed. `last_height` and the accumulator are untouched. |
| PollLoop.PollCycle | union-monitor.py:251-304 | One loop iteration updates the state fields, the window, `last_height`, the failure counter and the accumulator as `Cycle` does, and emits the decided alerts. Afterwards `total_missed` is the window's length. |
| PollLoop.PollUntilExit | union-monitor.py:250-305 | The loop over the polls emits exactly the alert lists of `Run` and exits exactly when `Run` does. It ends with the window, `last_height` and the accumulator of `Run`'s final state. After at least one cycle, the status fields hold the last poll's snapshot, `total_missed` is the window's length and the uptime is computed from it. |
| PollLoop.Monitor | union-monitor.py:221-305 | Sends the startup alert when the initial height is 0, then runs the loop. If it exits, that happened after at least five cycles, with the critical alert last, and the critical alert was sent on no earlier cycle. |
| HistoryStore.SaveTrim | graphing/storage.py:21-26 | After the trim, at most 5040 timestamps remain: exactly 5040 when there were more, and the missed-block list is cut to 5040 as well. A history at or below the limit is unchanged. The lists never grow, and aligned lists stay aligned. |
| HistoryStore.SaveTrimKeepsNewest | graphing/storage.py:24-26 | After a save, each list is its own newest part, in its original order. |
| HistoryStore.AppendEntry | graphing/storage.py:31-35 | After an append neither list is empty. |
| HistoryStore.AppendNewestLast | graphing/storage.py:33-35 | The new timestamp and count are the last elements of their lists. |
| HistoryStore.AppendBelowLimit | graphing/storage.py:24 | Below the limit an append only adds the entry. |
| HistoryStore.AppendAtLimit | graphing/storage.py:24-26 | At the limit an append drops exactly the oldest entry of each aligned list. |
| HistoryStore.AppendKeepsPairs | graphing/storage.py:24-34 | Aligned lists stay aligned, and each index pairs a timestamp with the count appended with it. |
| HistoryStore.AppendBounded | graphing/storage.py:24-35 | An aligned history never exceeds 5040 entries; once at the limit it stays there. |
| HistoryStore.History.constructor | graphing/storage.py:9-19 | `load_history` yields the stored lists, or two empty lists when no file exists. |
| HistoryStore.History.Save | graphing/storage.py:21-26 | `save_history` replaces the lists by `SaveTrim` of them. |
| HistoryStore.History.Append | graphing/storage.py:31-35 | `append_history` replaces the lists by `AppendEntry` of them. |
| RefactoredLoop.NeverNotSynced | monitor.py:100-111 | `monitor.py` never sends the not-synced alert. |
| RefactoredLoop.MonitorState.constructor | monitor.py:11-25 | The initial field values, including `slashing_window = 100`. The object starts without a pause. |
| RefactoredLoop.Record | monitor.py:73-81 | The stub values are copied into the state and the uptime is computed. |
| RefactoredLoop.RefactoredCycle | monitor.py:69-124 | An iteration appends exactly one history entry `(now, total_missed)`, also on the exiting cycle. Its failure counter, alerts, exit and accumulator are those of `Decide`. `last_height` takes the returned height on every cycle that does not exit. `paused_until` is untouched. |
| TelegramCommands.IsDigits | telegram_bot/alerts.py:54 | A string that passes `isdigit()` holds no sign, decimal point or space. |
| TelegramCommands.DecimalValue | telegram_bot/alerts.py:57 | `int()` of a digit string is 0 exactly when every digit is 0. |
| TelegramCommands.DecimalString | telegram_bot/alerts.py:54 | The decimal writing of a number passes `isdigit()`. |
| TelegramCommands.DecimalRoundTrip | telegram_bot/alerts.py:57 | `int()` of the decimal writing of n is n. |
| TelegramCommands.PauseReply | telegram_bot/alerts.py:53-63 | The usage reply comes exactly for a missing or non-digit argument. The range reply comes exactly for digits outside 1..24. Otherwise the pause is for the argument's value, in 1..24. |
| TelegramCommands.PauseAcceptsEveryHour | telegram_bot/alerts.py:57-63 | Every h in 1..24, written in decimal, pauses for h hours. |
| TelegramCommands.PauseRejectsNonDigits | telegram_bot/alerts.py:54-56 | An argument with a sign or a decimal point gets the usage reply. |
| TelegramCommands.PauseBoundaries | telegram_bot/alerts.py:54-60 | "0" and "25" are out of range, "24" and "007" are accepted, and a missing or empty argument gets the usage reply. |
| TelegramCommands.Pause | telegram_bot/alerts.py:53-63 | The reply is `PauseReply`. An accepted pause sets `paused_until` to `now + hours*3600`, replacing any earlier value. Otherwise `paused_until` is unchanged. |
| TelegramCommands.MissedPercentage | telegram_bot/alerts.py:17 | The percentage is 0 when nothing was missed; otherwise it and the uptime add up to 100. It lies in 0..100 for a count up to the window. It exceeds 20% exactly when the high-miss-rate alert fires. |

## Left out

- HTTP, RPC and REST requests (`requests` sessions with retries, the aiohttp clients in validator_api/): their answers are inputs (`StatusFetch`, `LatestBlock`, a sequence of `BlockOutcome`, the `StubStatus` and `ScanReport` of the stubs).
- Heights past the end of the given block outcomes count as a fetch failure; the network would decide this.
- Only the first page of the validator set (`per_page=100`) is fetched by the source; the model takes that page as the given sequence.
- `get_latest_height` is a network call: its result is the `initialHeight` input of `Monitor`, where 0 stands for its failure value.
- Telegram delivery, command menus, handler registration and polling: an alert is an `AlertKind` in the emitted list, and a command's reply is a `Reply` value.
- Message texts and formatting, including `status_command` in telegram_bot/alerts.py reading `state.syncing`, which `MonitorState` never defines.
- asyncio scheduling, `asyncio.sleep(60)` between cycles, the one-second pause after each message, and the command handlers running beside the loop.
- The endless loop is modelled over a finite sequence of polls.
- Block time parsing (`strptime`/`mktime`): block times are whole seconds.
- `time()` is the `now` parameter, an integer.
- Floating point: uptime, percentages and the average block time are exact reals; for a 100-block window the 80% comparison agrees with the float one.
- Reading and writing history.json is left out: `History` holds the lists, and its constructor takes the loaded lists (or None for a missing file).
- dotenv and environment variables are left out; the constants of config/settings.py are fixed.
- Suppression of alerts while paused is not modelled: no code shown reads `paused_until`.
- The plotting in graphing/plot.py is left out.
- The `history` deques at the top of union-monitor.py are never appended to, so they are left out.
- `total_blocks` in `get_missed_blocks` is computed and never used, so it is left out; `MonitorState.total_blocks` stays 0.
- The last value of the 8-tuple of `get_validator_status` (always None) and the uptime of the stub (discarded by the loop) are dropped.
- The `state.uptime is not None` guard always holds after the state update, so the model compares the computed uptime directly.
- TelegramCommands.PauseReply: `isdigit()` is modelled for ASCII digits only; other Unicode digit characters are left out.
- TelegramCommands.MissedPercentage: divides by the constant window of 100 rather than by `state.slashing_window`, which is initialised to that constant and never changed.
- RefactoredLoop.RefactoredCycle: models one iteration of monitor.py's loop; the loop around it has the same exit logic as `PollLoop.Run` and is not modelled again.
