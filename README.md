# Scroll automation scheduler — a Dafny model

This project models the per-account scheduler of a Scroll-chain automation
tool, together with three small supporting pieces.

The scheduler is the `Automatic` class in `modules/automatic.py`. For each
requested module it draws a quantity and builds a work queue of invocations.
Two-phase modules (Aave, LayerBank, wrap/unwrap ETH) get a doubled quantity.
The scheduler then drains the queue in random order:
- each pick runs the module's handler;
- the handler updates the module's shared counters (`performed_quantity`, the
  phase flag `withdrawn`/`unwraped`, `current_max_quantity`);
- `_remove_module_entries` then drops as many entries as the handler reports
  done.

Around the queue, `run` performs the funding and withdrawal stages in a fixed
order:
- before the queue: the OKX withdrawal, then the bridge in;
- after the queue: the consolidation of tokens into ETH, the bridge out, then
  the OKX deposit.

Calls go through the bounded retry loop `execute_func_with_retries` and the
"skip if failed" policy. The swap module chooses its source token, destination
token, venue and amount with pure rules over a balance snapshot and the static
venue graph `SWAP_MODULES`.

The supporting pieces are:
- **Batch runner** (`main.py`): it cuts the wallet list into contiguous groups,
  one per thread, and numbers the accounts.
- **Retry decorator** (`utils/helpers.py`).
- **Module registry** (`modules/__init__.py`).

Files:

| file | module | contents |
|---|---|---|
| `wrappers.dfy` | `Wrappers` | `Option`, `Result` |
| `choice.dfy` | `Choice` | `random.randint` / `random.choice` as explicit draws |
| `venues.dfy` | `Venues` | `MODULES_NAMES`, the `SWAP_MODULES` token graph |
| `retry.dfy` | `Retry` | the `retry` decorator and `execute_func_with_retries`, as loops proved against recursive functions |
| `work_queue.dfy` | `WorkQueue` | queue entries, `Count`, `Remove` (`_remove_module_entries`) |
| `handlers.dfy` | `Handlers` | what each handler does to its counters; the queue invariant `ValidState` |
| `swap_selection.dfy` | `SwapSelection` | `choose_src_token`, `choose_dst_token`, `choose_swap_module`, `get_swappable_tokens`, `get_amount`, the consolidation choice |
| `batch.dfy` | `Batch` | `_generate_groups`, `run_group`, the `start_id` accumulation of `main` |
| `automatic.dfy` | `Automatic` | the `Automatic` class: `_configure`, the handlers, `run_modules`, `run` |

The model replaces the outside world with inputs:
- **Randomness.** Each `randint`/`choice`/`uniform` result is an input draw
  (`nat` or `real`). The `...Onto` lemmas show that the draws reach every value
  the library call can return.
- **External calls.** Each retried external call is a *script*: the sequence
  of what its successive attempts do (return a truthy or falsy value, or raise
  with a message). The two balance reads of the epilogue (the consolidation
  and the bridge out) are plain snapshot inputs (see "Left out"):
  `get_balances` at modules/automatic.py:222 runs under the `retry` decorator
  (modules/account.py:66 and :79), and `w3.eth.get_balance` at
  modules/automatic.py:1062 is outside any retry.
- **A run's world.** A `World` holds the scripts, snapshots and draws that one
  `run` consumes.

A script that ends while a retry loop would still go on stands for a call that
never settles. The loops then stop with an open outcome (`Looping`, `Hung`,
`Stuck`, `Unfinished`) rather than a result.

The methods of the `Automatic` class are proved against functions of the old
state: `HandlerRun` is what the handler that `modules_mapping` holds for the
name does, `Pass` is one pass of `run_modules`, `Loop` is the whole loop, and
`RunStages` is `run` going through stages that end it when they raise. The properties of the
scheduler are proved about these functions (`HandlerRunFacts`, `PassFacts`,
`Loop`'s own contract, `StuckOnlyOnHang`, `RunStagesFacts`).

Three behaviours of the code worth noting:
- **Swap counter can pass the total.** `performed_quantity` is not bounded by
  `total_quantity` for `swaps`. The burst is sized from `max_quantity`
  (modules/automatic.py:733), so one call can overshoot. The invariant allows
  this, and `Handlers.SwapsOvershootTotal` exhibits it.
- **"Last swap returns to ETH" uses the cumulative counter.** The rule compares
  the module's cumulative `performed_quantity` with the current burst size
  (modules/automatic.py:769). `SwapSelection.LastSwapReturnsToEth` states it
  that way.
- **The phase flag.** A two-phase flag is `False` exactly when an odd number of
  invocations has been counted. In particular, under skip-if-failed a failed
  withdraw still sets the flag to `True`.

## Model

| member | source | states |
|---|---|---|
| Choice.RandInt | modules/automatic.py:1132-1135 | a `randint(lo, hi)` draw lies in `[lo, hi]` |
| Choice.RandIntOnto | modules/automatic.py:1132-1135 | every value in `[lo, hi]` is produced by some draw |
| Choice.Pick | modules/automatic.py:116 | `random.choice(s)` returns an element of `s` |
| Choice.PickOnto | modules/automatic.py:116 | every element of `s` is chosen by some draw |
| Venues.VenueName | modules/__init__.py:62-95 | every venue is registered under one of the four `swap_*` names of `MODULES_NAMES` |
| Venues.EthIsSource | modules/__init__.py:62-95 | every venue has an `ETH` source key, leading to two tokens other than ETH |
| Venues.NonEthReachesOnlyEth | modules/__init__.py:67-68 | a non-ETH source maps to `["ETH"]` and nothing else |
| Venues.Symmetric | modules/__init__.py:62-95 | each venue's graph has the edge a→b exactly when it has b→a |
| Venues.DestinationsAreSources | modules/__init__.py:62-95 | every destination is itself a source key of the same venue |
| Venues.SharedGraphs | modules/__init__.py:62-95 | Skydrome, Zebra and SyncSwap share one graph over ETH/USDC/USDT; XYSwap has WETH where they have USDT |
| Retry.RetryWrapper | utils/helpers.py:14-39 | the decorator's loop yields the outcome, the number of calls and the number of sleeps that `Wrapper` defines for the script |
| Retry.WrapperReturnsResult | utils/helpers.py:18-20 | a call that does not raise ends the wrapper after one call with its own result, however falsy |
| Retry.WrapperIgnoresHiccups | utils/helpers.py:23-28 | errors starting with "520, " never touch the budget: striking them from the script leaves the outcome unchanged |
| Retry.WrapperReraisesFirst | utils/helpers.py:27-30 | in automatic mode the first counted error is re-raised at once, after any number of 520 errors |
| Retry.WrapperGivesUp | utils/helpers.py:16-39 | outside automatic mode, a call that always fails is made exactly RETRIES+1 times with RETRIES sleeps, and the wrapper returns None |
| Retry.WrapperSucceedsAfterFailures | utils/helpers.py:16-37 | K ≤ RETRIES counted failures and then a result: K+1 calls, K sleeps, and the result is returned |
| Retry.WrapperSleepsBetweenCalls | utils/helpers.py:35-37 | a sleep happens only when another call follows: one fewer sleep than calls for every finished run |
| Retry.ExecuteWithRetries | modules/automatic.py:129-166 | the loop yields the outcome, calls and sleeps that `Execute` defines for the script |
| Retry.ExecuteStopsAtFirstTruthy | modules/automatic.py:134-136 | `True` comes back at the first truthy result and at no earlier call |
| Retry.ExecuteIgnoresUncounted | modules/automatic.py:146-151 | neither a 520 error nor a falsy result changes `retries`: striking them leaves the outcome unchanged |
| Retry.ExecuteGivesUpAfterBudget | modules/automatic.py:134-166 | `False` comes back only after exactly max_retries+1 counted errors, the last call being one of them |
| Retry.ExecuteExhaustsBudget | modules/automatic.py:134-166 | errors that all count make exactly max_retries+1 calls and return `False` without raising |
| Retry.ExecuteSpinsOnFalsy | modules/automatic.py:134-164 | falsy results never consume the budget, so a call that keeps returning them keeps the loop going, one sleep per call |
| WorkQueue.Repeat | modules/automatic.py:1150-1151 | appending `quantity` copies of one entry adds exactly `quantity` entries of that name and none of any other |
| WorkQueue.RemoveCounts | modules/automatic.py:1088-1096 | exactly min(q, count) entries named `n` go, all of them with `all`; no other name loses an entry |
| WorkQueue.RemoveTakesEarliest | modules/automatic.py:1088-1096 | the dropped entries are the earliest ones: before a cut every entry named `n` is gone, and after it nothing is touched |
| WorkQueue.RemoveKeepsOthers | modules/automatic.py:1088-1096 | the entries of every other module keep their relative order |
| WorkQueue.RemoveNothing | modules/automatic.py:1088-1096 | with quantity 0 and no `all`, the queue is unchanged |
| WorkQueue.RemoveLength | modules/automatic.py:1088-1096 | the queue shrinks by exactly the number of entries dropped |
| Handlers.CallResult | modules/automatic.py:203-215 | `run_module` raises exactly when the retries gave up under `fail_after_retries`, and otherwise returns `done or skip_if_failed` |
| Handlers.SingleShotCounts | modules/automatic.py:261-278 | a single-shot handler raises the counter by exactly the 0 or 1 it returns; the result is 1 exactly when the call succeeded or skip-if-failed is set |
| Handlers.SingleShotIsStep | modules/automatic.py:261-278 | a returning single-shot call is a legal counter step, and it counts under skip-if-failed |
| Handlers.TwoPhaseOrdering | modules/automatic.py:308-359 | the deposit runs exactly when the flag is absent or `True`; the withdraw runs only after a deposit that did not raise in the same call, or straight away when the flag is `False` |
| Handlers.TwoPhaseEffect | modules/automatic.py:308-359 | the counter rises by exactly the returned 0, 1 or 2; the flag becomes the withdraw's result, or is untouched; a raising deposit returns 2 under skip-if-failed and 0 otherwise |
| Handlers.TwoPhaseIsStep | modules/automatic.py:566-642 | a returning two-phase call is a legal counter step that flips the flag's parity as the count demands |
| Handlers.NumberOfSwapsRange | modules/automatic.py:732-740 | the burst size lies in [2, maximum] and never leaves a remainder of exactly one; `randint` raises exactly when maximum < 2 |
| Handlers.NumberOfSwapsOnto | modules/automatic.py:732-740 | every admissible burst size is chosen by a single draw |
| Handlers.BurstFrom | modules/automatic.py:650-666 | a burst counts at most one swap per iteration, and every iteration under skip-if-failed |
| Handlers.SwapsCounts | modules/automatic.py:644-666 | `swaps` raises exactly when fewer than two swaps remain below `max_quantity`; the counter rises by the returned count, at most the recorded burst size; under skip-if-failed the whole burst counts |
| Handlers.SwapsOvershootTotal | modules/automatic.py:733 | with total 2 and maximum 5, one call performs 5 swaps, overshooting the total |
| Handlers.StepKeepsValid | modules/automatic.py:118-124 | a returning handler step followed by `_remove_module_entries(n, k)` keeps the queue invariant |
| Handlers.UnsupportedKeepsValid | modules/automatic.py:125-127 | dropping every entry of an unsupported name keeps the queue invariant |
| Handlers.BurstKeepsRemainder | modules/automatic.py:644-666 | under skip-if-failed, a finished burst leaves at least two swaps below `max_quantity`, or no swap entries |
| Handlers.SwapsNoEscape | modules/automatic.py:732-740 | under skip-if-failed with swap entries left, `choose_number_of_swaps` cannot raise |
| Handlers.PerformedKeepsValid | modules/automatic.py:114-124 | a pass keeps the invariant; under skip-if-failed it also keeps the swap remainder and shortens the queue |
| Handlers.DrainedMeansDone | modules/automatic.py:114-127 | an empty queue means every supported module reached its total: exactly for all but `swaps`, and every two-phase module back at its first phase |
| Handlers.BurstHangs | modules/automatic.py:650-666 | a burst never returns exactly when one of its swaps from the current one on never returns |
| Handlers.HandlerRunFacts | modules/automatic.py:118-121 | the handler `modules_mapping` runs hangs exactly when one of the calls it makes hangs (a single shot's call; a two-phase module's deposit when it runs, or its withdraw when the flag is `False` or the deposit returned; a swap of the burst, or a redraw that never settles); only `swaps` raises, exactly when fewer than two swaps remain below the maximum, and then changes nothing; a returning handler makes a legal counter step, of at least one under skip-if-failed |
| SwapSelection.Lookup | modules/automatic.py:745 | a found key is in the snapshot; a missing key is absent from every entry |
| SwapSelection.OtherTokens | modules/automatic.py:743-749 | the values left once "ETH" is popped are exactly those under other keys |
| SwapSelection.RankIsSortedPermutation | modules/automatic.py:749 | ranking by `balance_wei` is sorted largest first and is a permutation of its input |
| SwapSelection.RankMembers | modules/automatic.py:749 | ranking keeps exactly the tokens it is given, sorted largest first |
| SwapSelection.FirstAtFloorIsLargest | modules/automatic.py:750-760 | the first ranked token at or above its floor is the largest such token; if there is none, no token reaches its floor |
| SwapSelection.ChooseSrcTokenRule | modules/automatic.py:742-764 | ETH on the first swap when so configured; otherwise the non-ETH token with the most wei among those at or above their floor (`>=`), and ETH when there is none |
| SwapSelection.Destinations | modules/automatic.py:773-778 | `dst_tokens` holds exactly the tokens some enabled venue reaches from the source |
| SwapSelection.LastSwapReturnsToEth | modules/automatic.py:769-771 | when the counter is one below `current_max_quantity` and the source is not ETH, the destination is the ETH entry |
| SwapSelection.DestinationIsReachable | modules/automatic.py:773-785 | otherwise the destination is a snapshot token that an enabled venue reaches from the source |
| SwapSelection.DestinationsOnto | modules/automatic.py:780 | every such reachable token in the snapshot is chosen by some draw |
| SwapSelection.NonEthSourceSwapsToEth | modules/automatic.py:766-785 | a non-ETH source can only be swapped into the snapshot's ETH entry |
| SwapSelection.Eligible | modules/automatic.py:719-728 | the candidate venues are exactly the enabled ones with the src→dst edge |
| SwapSelection.ChooseSwapModule | modules/automatic.py:718-730 | the venue chosen is enabled and has the src→dst edge on upper-cased symbols; `random.choice` raises exactly when none has it |
| SwapSelection.SwapModuleOnto | modules/automatic.py:730 | every enabled venue with the edge is chosen by some draw |
| SwapSelection.SwappableTokens | modules/automatic.py:1080-1086 | the swappable tokens are exactly the source keys of the enabled venues |
| SwapSelection.SwappableCoversDestinations | modules/automatic.py:1080-1086 | ETH is swappable, and every destination a venue offers is swappable too |
| SwapSelection.GetAmount | modules/automatic.py:698-716 | a non-ETH token is swapped whole; ETH raises exactly when its balance does not exceed `min_balance_eth`, and otherwise the amount is the spare balance or the drawn amount, whichever is smaller |
| SwapSelection.ConsolidationTakesFirstEligible | modules/automatic.py:217-237 | the pass plans only the first non-ETH token strictly above its floor, in snapshot order, into ETH, over an enabled venue with the edge, for the whole balance |
| SwapSelection.FloorBoundaryDiffers | modules/automatic.py:224-230 | a token exactly at its floor is a swap source for `choose_src_token` (`>=`) but is skipped by the consolidation (`>`) |
| SwapSelection.ConsolidationScenario | modules/automatic.py:217-237 | with ETH, USDT at 0 and USDC at 50, the pass swaps all the USDC into ETH on the first eligible venue |
| Batch.ClampThreads | main.py:117-120 | the thread count is clamped to 1 when non-positive and to the number of wallets when larger |
| Batch.GenerateGroups | main.py:110-133 | with no wallets and THREADS > 0 the division fails; otherwise there are as many groups as clamped threads, the first `remainder` one larger, none empty, and their concatenation is the wallet list |
| Batch.LaunchGroups | main.py:136-156 | each group is launched with the number of wallets in the groups before it as its `start_id` |
| Batch.AccountIdIsPosition | main.py:93-95 | account `i` of a group gets id `start_id + i + 1`, its 1-based position in the full list |
| Batch.AccountIdsDistinct | main.py:139-154 | no two accounts of the batch share an id |
| Batch.AccountOfPosition | main.py:139-154 | every position `p` of the wallet list belongs to some account `j` of some group `i`, whose id is then `p + 1` |
| Batch.AccountIdsCover | main.py:139-154 | every id from 1 to the number of wallets goes to an account, namely the wallet at that position; with `AccountIdsDistinct` the ids are exactly 1..N |
| Batch.OnlyFirstGroupStartsAtZero | main.py:139-154 | when no group is empty, as `GenerateGroups` guarantees for a non-empty list, `start_id` is 0 exactly for the first group, so only its accounts skip the sleep before they start |
| Batch.RunGroup | main.py:83-107 | every account of the group is attempted in order under its id; it sleeps first exactly when `start_id != 0`; an error is logged and the next account still runs |
| Batch.TenWalletsThreeThreads | main.py:110-154 | ten wallets over three threads make groups of 4, 3 and 3 starting at 0, 4 and 7 |
| Automatic.ParseBridgeService | modules/automatic.py:1099-1129 | a service name is accepted exactly when it is native, orbiter, layerswap or nitro |
| Automatic.DrawnTotal | modules/automatic.py:1132-1142 | the drawn total lies in `[min, max]`, or is an even number whose half does for the two-phase modules |
| Automatic.ExecStage | modules/automatic.py:811-822 | a stage succeeds exactly when the retry loop returned `True` and raises exactly when it returned `False` |
| Automatic.AmountToBridgeOut | modules/automatic.py:1061-1078 | it raises exactly when the balance does not exceed the amount to leave; otherwise it is the positive difference |
| Automatic.ChooseNumberOfSwaps | modules/automatic.py:732-740 | the redraw loop computes `NumberOfSwaps`: a size in [2, maximum] other than maximum−1, or the `randint` error when maximum < 2 |
| Automatic.PassFacts | modules/automatic.py:115-127 | one pass of `run_modules` stops only by hanging or by the `swaps` error; it hangs exactly when the picked module is supported and its handler hangs, raises exactly when `swaps` is picked with fewer than two swaps left, leaves the queue alone when it stops, keeps the invariant unless it hangs, and under skip-if-failed with two swaps in hand never raises and a completed pass shortens the queue |
| Automatic.Loop | modules/automatic.py:114-127 | the loop drains exactly when it ends on an empty queue; it keeps the invariant unless a call hangs; under skip-if-failed with two swaps in hand it never raises, each pass shortens the queue, and with as many ticks as entries it drains unless a call hangs |
| Automatic.StuckOnlyOnHang | modules/automatic.py:114-127 | a loop that ends stuck ended on its last pass: the passes before it completed on a valid, non-empty queue, and the module picked next is supported and its handler hangs on one of its calls |
| Automatic.Automatic.constructor | modules/automatic.py:47-94 | an empty queue, no counters, no transaction made yet, and the given settings |
| Automatic.Automatic.Configure | modules/automatic.py:1098-1151 | unknown bridge services raise, checked in order; success exactly when every module has settings with a non-empty range; with distinct names each module then has exactly `total_quantity` entries, a total drawn by `DrawnTotal`, `performed_quantity` 0, and the queue invariant holds |
| Automatic.Automatic.RemoveModuleEntries | modules/automatic.py:1088-1096 | the comprehension with the walrus counter leaves exactly `Remove(old queue, n, quantity, all)` |
| Automatic.Automatic.RunModule | modules/automatic.py:168-215 | the result is `CallResult` of the retry loop; it sleeps exactly when a transaction was already made or `sleep_at_start` is set; `made_first_transaction` becomes `True` |
| Automatic.Automatic.SingleShotHandler | modules/automatic.py:261-306 | the handler's result and new counter are `SingleShotRun`; no other module's counters change |
| Automatic.Automatic.TwoPhaseHandler | modules/automatic.py:308-359 | the result, the new counter, flag and phases run are `TwoPhaseRun`; no other module's counters change |
| Automatic.Automatic.SwapsHandler | modules/automatic.py:644-666 | the result and the new counters are `SwapsRun`: burst size recorded as `current_max_quantity`, counter raised by the swaps counted |
| Automatic.Automatic.RunBurst | modules/automatic.py:650-666 | the loop counts the swaps `BurstFrom` defines, each at once into `performed_quantity` |
| Automatic.Automatic.Dispatch | modules/automatic.py:118-121 | the handler's result and the module's new counters are `HandlerRun` of the old counters, no other module's counters change; it hangs exactly when `HandlerHangs` says one of its calls does; a returning handler makes a legal counter step and counts under skip-if-failed; only `swaps` can raise |
| Automatic.Automatic.RunOnce | modules/automatic.py:115-127 | the pass leaves exactly the queue, counters and stop that `Pass` defines for the old state; it is stuck exactly when the picked module is supported and its handler hangs; it keeps the invariant unless a call never returns; under skip-if-failed with two swaps in hand it never raises and shortens the queue |
| Automatic.Automatic.DropUnsupported | modules/automatic.py:125-127 | an unsupported pick drops every entry of its name, keeping the invariant |
| Automatic.Automatic.PerformPick | modules/automatic.py:118-124 | the module's new counters are those `HandlerRun` gives; the pass is stuck, aborted or complete exactly when the handler hung, raised or returned, and a returning handler's count of entries is removed with `Remove(old queue, n, count, false)`; the invariant is kept unless a call never returns |
| Automatic.Automatic.RunModules | modules/automatic.py:114-127 | the outcome, the passes used, the final queue and counters are those `Loop` defines for the old state; the invariant holds unless a call hangs; the loop drains exactly when it ends on an empty queue, and then every supported module reached its total (exactly, except `swaps`); under skip-if-failed with two swaps in hand it never raises and drains within as many passes as there were entries unless a call hangs |
| Automatic.Automatic.RunPasses | modules/automatic.py:114-127 | the `while` loop, one tick per pass, ends with the outcome, passes used, queue and counters that `Loop` defines for the old state |
| Automatic.Automatic.Prelude | modules/automatic.py:96-101 | the stages before `run_modules` are all before it in the plan |
| Automatic.Automatic.Epilogue | modules/automatic.py:105-112 | the stages after `run_modules` are the consolidation, the bridge out and the OKX deposit |
| Automatic.Automatic.PlannedStages | modules/automatic.py:96-112 | the planned stages put `run_modules` right after the enabled prelude stages |
| Automatic.Automatic.ExecuteStage | modules/automatic.py:826-849 | an OKX or bridge-in stage raises exactly when the retry loop returns `False` |
| Automatic.Automatic.BridgeOutStage | modules/automatic.py:1033-1059 | the stage ends as `BridgeOutResult`: a balance not above the amount to leave skips the bridge and reports success; otherwise the bridge stage raises exactly when its retry loop returns `False` and hangs exactly when the loop never ends |
| Automatic.Automatic.SwapAllTokensToEth | modules/automatic.py:217-259 | the stage ends as `ConsolidationResult`: it raises exactly when the selection fails; no eligible token is success; with a token planned it hangs exactly when the swap never returns, and is success whatever the swap returns (its result is not checked) |
| Automatic.Automatic.RunStagesFacts | modules/automatic.py:96-112 | going through stages that raise on failure, the run passes them all exactly when every stage ends well; otherwise it stops at the first stage that does not, with `StageFailed` of that stage when it raised and `Unfinished` when it hung, every stage before it having ended well |
| Automatic.Automatic.RunStagesAfter | modules/automatic.py:96-112 | stages that all end well in front of the rest change only the count of stages started, not how the run stops |
| Automatic.Automatic.RunPrelude | modules/automatic.py:96-101 | the stop and the number of stages started are those `RunStages` gives for the prelude in the world, so the prelude passes exactly when every stage ends well and stops at the first that raises or hangs; the stages started are a prefix of the prelude and a failure names the last of them |
| Automatic.Automatic.RunEpilogue | modules/automatic.py:105-112 | the stop and the number of stages started are those `RunStages` gives for the epilogue in the world, so it passes exactly when every stage ends well and stops at the first that raises or hangs; the stages started are a prefix of the epilogue and a failure names the last of them |
| Automatic.Automatic.RunModulesStage | modules/automatic.py:103 | the queue and counters end as `Loop` defines; the stage passes exactly when the loop drained, fails on `run_modules` exactly when `choose_number_of_swaps` raised, and is unfinished exactly when a call hung or the ticks ran out; under skip-if-failed with two swaps in hand it never raises |
| Automatic.Automatic.Run | modules/automatic.py:96-112 | the outcome is decided by the prelude's `RunStages`, then the `Loop` of `run_modules`, then the epilogue's `RunStages`: the first of them that stops gives the outcome and the number of stages started, and the run completes exactly when the prelude passes, the queue drains and the epilogue passes; the stages started are a prefix of the enabled stages in order; nothing after `run_modules` starts before the queue is empty; under skip-if-failed with two swaps in hand the scheduling stage never fails |
| Automatic.ConfigureTwoPhase | modules/automatic.py:1131-1151 | a two-phase module configured with quantity range [1, 1] queues exactly two entries of that module, with fresh counters |
| Automatic.TwoPhaseScenario | modules/automatic.py:308-359 | on that queue, a pick whose deposit and withdraw both succeed counts 2 and empties the queue |

## Left out

- Logging, tracebacks and every sleep (`utils/sleeping.py`, `asyncio.sleep`). They have no observable state. The model records only *whether* `run_module`, the retry decorator and `run_group` sleep.
- Concurrency. `main` launches the groups with `asyncio.create_task`/`gather`; the model computes each group's `start_id` and treats the groups as independent sequential runs.
- The gas gate (`utils/gas_checker.py`) is not part of this model. It is a wall-clock cache behind a lock.
- The interactive menu `main.py:get_module` and the loading of the configuration files. Settings are constructor parameters; `AUTOMATIC_MODE` is the `automatic` parameter of `Retry.Wrapper`.
- The RPC, signing and exchange plumbing of `modules/account.py`, `okx.py` and every protocol module. Each retried call they make (`execute_func_with_retries` and the `retry` decorator) is a script of attempt outcomes, and `swap` is a script as well. The selection rules are proved on their own and are not tied to what a swap script returns.
- `Automatic.Automatic.SwapAllTokensToEth` and `Automatic.Automatic.BridgeOutStage`: the two balance reads are plain inputs that cannot fail. The first, `get_balances` in `swap_all_tokens_to_eth` (modules/automatic.py:222), goes through `Account.get_balances` and `Account.get_balance`, both wrapped by the `retry` decorator (modules/account.py:66, modules/account.py:79). It can therefore retry without bound on errors starting with `520, `, re-raise at once in automatic mode, and return `None` once the retries run out outside automatic mode. The second, `w3.eth.get_balance` in `get_amount_to_bridge_out` (modules/automatic.py:1062), is outside any retry, and an RPC error there propagates out of `run` because the bridge-out stage catches only `ValueError`. The model's `World.balances` and `World.balance` never raise and never hang, so neither stage fails or hangs on a read.
- The shuffle of the wallet list (`RANDOM_WALLET`). `GenerateGroups` takes the already shuffled list.
- `module_transaction_id` and its rounding. They are used only in log lines.
- `Automatic.Automatic.Configure`: the per-module counts, drawn totals and the queue invariant are stated only when the requested names are distinct. With a repeated name the source re-assigns one shared config dict while the queue keeps both draws' entries.
- `Automatic.Automatic.Configure`: the settings dicts are assumed to start without `withdrawn`, `unwraped` or `current_max_quantity`, which `_configure` does not reset.
- `Automatic.Automatic.constructor`: the source constructor calls `_configure` itself. The model separates the two, so the object is configured by a second call.
- `SwapSelection.GetAmount`: amounts are exact reals. The `round` of `random.uniform` to the token's decimals and float conversion are not modelled. The drawn amount is an input between `min_amount` and `max_amount`.
- `Automatic.AmountToBridgeOut`: the balance and the amount to leave are exact reals. The wei-to-ether conversion and the rounding to 5 places are not modelled.
- `SwapSelection.Upper`: `str.upper()`/`str.lower()` are modelled on ASCII letters only.
- `SwapSelection.ChooseDstToken`: `random.choice(list(dst_tokens))` draws from a set whose order Python does not fix. The model uses the venues' lists in order, duplicates included. The lemmas state only which tokens can be chosen, never with what weight.
- `SwapSelection.RankByWei`: `sorted` is an insertion sort in which ties keep their snapshot order, as in Python's stable sort. The lemmas prove that the ranking is sorted and is a permutation; tie order is not stated.
- `Automatic.Automatic.Run`: the open outcomes (`Unfinished`, `Stuck`, `Hung`, `Looping`) stand for calls whose script ends before the call settles. The source has no such result.
- `Automatic.Automatic.RunModules`: a loop that stops because a call never settles (`Stuck`) promises nothing about the invariant; `StuckOnlyOnHang` says which handler hung. The loop is also bounded by the ticks supplied (`OutOfTicks`), where the source runs until the queue is empty.
- `Batch.RunGroup`: the module run for an account is abstracted to whether it raised. What it does to the chain is not modelled.
