# The NEST Trail game-state backend, in Dafny

This project models the in-memory game state behind The NEST Trail, a
chat-driven travel game, and proves properties of that model. It has six parts:

- **Item ledger** (`Inventory`, inventory.dfy): named items with counts and a money balance.
  - Bad arguments throw.
  - Game refusals ("Not enough …", "Insufficient funds …") come back as messages.
- **Stats tracker** (`Stats`, stats.dfy): elapsed minutes and current location.
  - `updateStatus` burns "Gas" from the ledger when the player travels.
- **Route engine**: pathCost, enumeration and leaderboard (route_cost.dfy, route_enumeration.dfy, route_leaderboard.dfy).
  - Exhaustive depth-first tour enumeration.
  - Heap's-algorithm brute-force TSP (heap.dfy, route_tsp.dfy).
  - The ranked leaderboard.
  - The leaderboard endpoint's query parsing and 5-center reference data (route_controller.dfy).
- **Tool-call tracker** (`ToolCallTracker`, tool_tracker.dfy): a buffer of at most 50 calls.
  - Ids increase, calls can be polled by id, and old calls are pruned by age.
- **Tool schemas and handlers**:
  - the current `llmTool` record and its OpenAI function schema (tool_schema.dfy);
  - the older `llmTool` variant (legacy_tool_schema.dfy);
  - the six inventory tools built on them (tool_definitions.dfy).
- **Agent loop** (`llmClass`, agent_loop.dfy).
  - The history, and the bounded `getResponse` loop that alternates model calls and tool calls.
  - Tools run in the order the model asks.
  - At most ten model calls per message.

Shared vocabulary:
- js.dfy models JavaScript values, exceptions (`Outcome`), `Number(...)`, `String(...)` and property access.
- seqs.dfy holds generic facts about filters, subsequences, ranges and duplicates.

State is never mutated. Every method of the source is a pure function from the old state to the new state and its result. An exception is the `Threw(message)` outcome.

The nondeterministic inputs are parameters:
- `Math.random()` is a real in [0, 1);
- `Date.now()` is an integer;
- the OpenAI client is an oracle `Ask` that maps (model, tool schemas, history, call number) to a response or an exception;
- `JSON.parse` and `JSON.stringify` are parameters `parse` and `stringify`.

## Model

| member | source | states |
|---|---|---|
| Inventory.Find | backend/models/inventoryClass.js:26 | `items.find` by name yields the first record with that name, and None exactly when no record has it |
| Inventory.AddItem | backend/models/inventoryClass.js:16-33 | throws "Invalid item name." / "Invalid item description." / "Invalid item count." in that order of checking, exactly when an argument is not a non-empty string or positive integer; on an existing name only that record's count grows (description kept); otherwise the item is appended at the end; money untouched; the ledger invariant is kept |
| Inventory.RemoveItem | backend/models/inventoryClass.js:35-56 | throws "Invalid remove count." exactly for a count that is not a positive integer; a missing name or too small a stock leaves the ledger unchanged, the latter with the "Not enough <name> to remove. Available count: <n>" message; otherwise the record is decremented, and deleted when it reaches 0; other records and money untouched |
| Inventory.JsReturn | backend/models/inventoryClass.js:42-56 | `removeItem` returns `undefined` both after a removal and for a missing name, and a string only for "not enough" |
| Inventory.ClearInventory | backend/models/inventoryClass.js:58-61 | no items left, money unchanged, invariant kept |
| Inventory.SetMoney | backend/models/inventoryClass.js:70-75 | accepts exactly a non-negative integer (else throws "Invalid money value"), sets the balance to it and leaves the items alone |
| Inventory.AddMoney | backend/models/inventoryClass.js:81-87 | accepts exactly a positive integer, raises the balance by it and returns the new balance; money never goes negative |
| Inventory.RemoveMoney | backend/models/inventoryClass.js:89-100 | accepts exactly a positive integer; "Insufficient funds. Current balance: <m>" with the balance unchanged exactly when the amount exceeds it, otherwise the lowered balance is returned; money never goes negative |
| Inventory.AddItemCounts | backend/models/inventoryClass.js:26-32 | after `addItem` the stock of the named item rose by the count and every other name's stock is unchanged |
| Inventory.CountOfUnique | backend/models/inventoryClass.js:26 | with unique names the stock of a name is the count of the record `find` returns, or 0 when it returns nothing |
| Inventory.RemoveItemKeepsValid | backend/models/inventoryClass.js:45-55 | `removeItem` keeps names unique, counts positive and money non-negative |
| Inventory.RemoveItemCounts | backend/models/inventoryClass.js:51-55 | a successful removal lowers the named stock by the count and no other stock |
| Inventory.WithoutNameRemovesIndex | backend/models/inventoryClass.js:54 | with unique names, filtering by name removes exactly that one record and keeps the order of the rest |
| Inventory.AddThenRemoveItem | backend/models/inventoryClass.js:16-56 | adding a valid item and then removing the same count gives back the original ledger |
| Inventory.AddThenRemoveMoney | backend/models/inventoryClass.js:81-100 | `addMoney(a)` then `removeMoney(a)` restores the balance and reports it |
| Stats.SpawnPick | backend/models/statsClass.js:4-9 | every draw of `Math.random()` picks one of Modesto, Stockton, Salinas, Gilroy |
| Stats.NewStats | backend/models/statsClass.js:12-15 | a new tracker has 0 minutes and a spawn location |
| Stats.ResetStats | backend/models/statsClass.js:44-47 | reset forgets the old state: 0 minutes, a spawn location, the same as a new tracker for the same draw |
| Stats.EverySpawnLocationReachable | backend/models/statsClass.js:14 | each of the four spawn locations is chosen by some random draw |
| Stats.GasUnits | backend/models/statsClass.js:25-29 | the integer form of `Math.round(abs(d) / 30 * 5)` lies within one half of abs(d)/6, so it is the rounding of that value |
| Stats.InventorySummary | backend/models/statsClass.js:40 | the success message's inventory part: the item lines of ItemLines joined by ", ", then " and $<money> in cash" (no contract of its own) |
| Stats.ItemLines | backend/models/statsClass.js:40 | one "name: count" line per item, in ledger order |
| Stats.UpdateStatus | backend/models/statsClass.js:24-42 | as written: the trip succeeds exactly when the distance is 0, with time added, the new location and the ledger summary; a short "Gas" stock refuses with the ledger and stats unchanged; a distance that rounds to 0 units throws "Invalid remove count."; with no "Gas" record the TypeError from `startsWith` on `undefined` is thrown and the ledger is untouched; with enough gas the units are deducted (the record deleted when it reaches 0) and then the same TypeError is thrown; stats only change on success |
| Stats.UpdateStatusIntended | backend/models/statsClass.js:24-42 | the evidently intended behaviour: a trip that burns gas succeeds exactly when the "Gas" stock covers it; a refusal or error leaves both the stats and the ledger unchanged |
| Stats.UpdateStatusIgnoresDirection | backend/models/statsClass.js:25 | a distance and its negation give the same result, for both versions |
| Stats.UpdateStatusTouchesOnlyGas | backend/models/statsClass.js:30-37 | `updateStatus` changes neither money nor any stock other than "Gas", and keeps the ledger invariant |
| Stats.TravelWithEnoughGasFails | backend/models/statsClass.js:30-34 | with enough gas, the code as written deducts the gas and then throws without moving the player; the intended version moves the player |
| Stats.TravelExample | backend/models/statsClass.js:24-42 | 30 miles burns 5 units and 9999 miles burns 1667 units; with 50 Gas a 30-mile trip throws after the deduction as written, moves as intended, and a 1667-unit trip on 45 Gas is refused |
| RouteCost.PathCost | backend/src/services/routeFinderAlgorithm.js:3-8 | the accumulating loop computes the sum of consecutive legs plus the closing leg exactly when `includeReturn` holds |
| RouteEnumeration.EnumerateAllRoutes | backend/src/services/routeFinderAlgorithm.js:11-34 | the search from `[startIdx]` over the other indices; its properties are stated by EnumerationSound, EnumerationCount, EnumerationCountAndDistinct and EnumerationComplete (no contract of its own) |
| RouteEnumeration.Dfs | backend/src/services/routeFinderAlgorithm.js:15-20 | a full path is pushed with its cost, otherwise the candidates are tried in order (no contract of its own; see DfsSound) |
| RouteEnumeration.DfsLoop | backend/src/services/routeFinderAlgorithm.js:22-28 | the k-th candidate is tried with the unvisited set rotated as the Set delete and re-add leaves it (no contract of its own; see RotationMultiset) |
| RouteEnumeration.EnumerationSound | backend/src/services/routeFinderAlgorithm.js:11-34 | every enumerated route visits each of the N locations once, starting at `startIdx`, and its total is its path's cost |
| RouteEnumeration.EnumerationCount | backend/src/services/routeFinderAlgorithm.js:15-33 | the enumeration yields (N-1)! routes |
| RouteEnumeration.EnumerationCountAndDistinct | backend/src/services/routeFinderAlgorithm.js:15-33 | the (N-1)! routes have pairwise distinct paths |
| RouteEnumeration.EnumerationComplete | backend/src/services/routeFinderAlgorithm.js:15-33 | every tour from `startIdx` is among the enumerated paths |
| RouteEnumeration.DfsSound | backend/src/services/routeFinderAlgorithm.js:15-29 | below a partial path the search only completes it with a reordering of the unvisited locations |
| RouteEnumeration.RotationMultiset | backend/src/services/routeFinderAlgorithm.js:22-27 | the unvisited set as the k-th child sees it (deleted, re-added at the end) is the rest of the set |
| HeapPermutations.Heap | backend/src/services/routeFinderAlgorithm.js:42-50 | `heap(a, k)` keeps the array's length; what it pushes is stated by HeapCount, HeapArranges and HeapExact |
| HeapPermutations.HeapLoop | backend/src/services/routeFinderAlgorithm.js:45-49 | the swap-then-recurse loop keeps the array's length; see HeapArranges and LastsReversed |
| HeapPermutations.HeapCount | backend/src/services/routeFinderAlgorithm.js:42-50 | `heap(a, k)` pushes k! copies |
| HeapPermutations.HeapArranges | backend/src/services/routeFinderAlgorithm.js:42-50 | every pushed copy, and the array left behind, reorders only the first k entries |
| HeapPermutations.HeapExact | backend/src/services/routeFinderAlgorithm.js:42-50 | for k of at most 4 distinct entries every reordering of the first k is pushed, and none twice |
| HeapPermutations.LastsReversed | backend/src/services/routeFinderAlgorithm.js:45-48 | for k of at most 4 the i-th inner call starts with the entry at position k-1-i last, which is why no copy repeats |
| RouteTsp.CandidatesArrange | backend/src/services/routeFinderAlgorithm.js:39-51 | `heap(rest)` yields (N-1)! orders of the non-start locations |
| RouteTsp.ScanBestFirstLeast | backend/src/services/routeFinderAlgorithm.js:53-58 | the strict `<` scan ends on the first candidate of least cost |
| RouteTsp.TspBrute | backend/src/services/routeFinderAlgorithm.js:37-60 | the returned route is the first candidate of least cost |
| RouteTsp.TspIsTour | backend/src/services/routeFinderAlgorithm.js:37-60 | the TSP route visits every location once from the start and its total is its cost |
| RouteTsp.TspIsOptimal | backend/src/services/routeFinderAlgorithm.js:37-60 | with at most five locations no tour from the start is cheaper than the TSP route |
| RouteLeaderboard.SortByTotal | backend/src/services/routeFinderAlgorithm.js:65 | the sort is a permutation of its input with non-decreasing totals |
| RouteLeaderboard.SortByTotalStable | backend/src/services/routeFinderAlgorithm.js:65 | routes of equal total keep their enumeration order (the sort is stable) |
| RouteLeaderboard.Labels | backend/src/services/routeFinderAlgorithm.js:67 | the i-th label is the name of the i-th stop's center, `undefined` past the end of `centers` |
| RouteLeaderboard.Rank | backend/src/services/routeFinderAlgorithm.js:68-72 | ranks are positions plus one |
| RouteLeaderboard.Optimal | backend/src/services/routeFinderAlgorithm.js:74-78 | a TSP optimum is computed exactly when asked for |
| RouteLeaderboard.BuildLeaderboard | backend/src/services/routeFinderAlgorithm.js:63-88 | it throws exactly when the TSP is asked for on one location; otherwise it gives the start label, (N-1)! ranked entries, route count, `best` is entry 0, and `tspOptimal` is present exactly when asked for |
| RouteLeaderboard.LeaderboardIsSortedEnumeration | backend/src/services/routeFinderAlgorithm.js:64-72 | entry i shows rank i+1, the total and the center labels of the i-th route of a stable non-decreasing reordering of the enumeration |
| RouteLeaderboard.BestIsCheapestTour | backend/src/services/routeFinderAlgorithm.js:64-83 | no tour from the start costs less than `best` |
| RouteLeaderboard.BestTotalIsAttained | backend/src/services/routeFinderAlgorithm.js:64-83 | `best` is rank 1 of an actual tour from the start |
| RouteLeaderboard.TspAgreesWithBest | backend/src/services/routeFinderAlgorithm.js:74-83 | `tspOptimal.total` is never below `best.total`, and equals it with at most five locations |
| RouteController.ParseBool | backend/src/controllers/routeFinder.js:13-18 | `undefined` gives the default and a boolean is returned as is |
| RouteController.ParseBoolString | backend/src/controllers/routeFinder.js:16-17 | a string is true exactly when it spells "true" in any case, or is "1" |
| RouteController.ParseBoolExamples | backend/src/controllers/routeFinder.js:13-18 | "TRUE" and "True" and "1" are true; "yes", "0" and "" are false; numbers 1 and 0 read as true and false |
| RouteController.IndexOf | backend/src/controllers/routeFinder.js:26 | `indexOf` gives the first index holding the value, or -1 exactly when no entry does |
| RouteController.ResolveStart | backend/src/controllers/routeFinder.js:26-29 | a falsy start resolves to 0; a truthy one resolves to the index of the center with that name, and fails with "start must be one of: G, SL, W, ST, M" exactly when there is none |
| RouteController.GetLeaderboard | backend/src/controllers/routeFinder.js:20-36 | a 400 exactly for an unknown start; otherwise 24 routes from the resolved center, `includeReturn` defaulting to false and `computeTsp` to true; never passed on as an error |
| RouteController.ReferenceMatrix | backend/src/controllers/routeFinder.js:4-11 | the matrix is 5×5, zero on the diagonal and symmetric |
| RouteController.DefaultQuery | backend/src/controllers/routeFinder.js:22-31 | an empty query starts at "G" with no return leg and includes the TSP optimum |
| RouteController.EveryStartRanksAllTours | backend/src/controllers/routeFinder.js:31-32 | every successful answer ranks 24 tours and its TSP total equals the best total |
| ToolCallTracker.NewTracker | backend/models/sharedToolCalls.js:4-7 | an empty, valid tracker with `lastId` 0 |
| ToolCallTracker.AddToolCall | backend/models/sharedToolCalls.js:9-27 | the returned id is `lastId + 1` and becomes `lastId`; the new call is last; the buffer holds the newest min(n + 1, 50) calls in order |
| ToolCallTracker.GetNewToolCalls | backend/models/sharedToolCalls.js:29-31 | exactly the buffered calls with a larger id (default 0), in buffer order |
| ToolCallTracker.ClearOldToolCalls | backend/models/sharedToolCalls.js:33-36 | exactly the calls stamped after `now - olderThan` (default 60000) stay, in order; `lastId` unchanged |
| ToolCallTracker.AddKeepsValid | backend/models/sharedToolCalls.js:11-23 | after an add: at most 50 calls, ids strictly ascending, every id between 1 and `lastId` |
| ToolCallTracker.AddIssuesFreshId | backend/models/sharedToolCalls.js:11 | the new id is held by no buffered call |
| ToolCallTracker.PollFromZero | backend/models/sharedToolCalls.js:29-31 | polling with the default id returns the whole buffer |
| ToolCallTracker.PollFromLastId | backend/models/sharedToolCalls.js:29-31 | polling from `lastId` or later returns nothing |
| ToolCallTracker.PollAfterAdd | backend/models/sharedToolCalls.js:9-31 | polling from the id current before an add returns exactly the call just added |
| ToolCallTracker.PollIsSuffix | backend/models/sharedToolCalls.js:29-31 | a poll returns a suffix of the buffer |
| ToolCallTracker.ClearKeepsValid | backend/models/sharedToolCalls.js:33-36 | pruning keeps the tracker valid and never lowers `lastId`, so ids are never reused |
| ToolSchema.NewProperty | backend/src/llm_tools/toolClass.js:3-8 | an omitted `required` counts as required |
| ToolSchema.RequiredKeys | backend/src/llm_tools/toolClass.js:15 | a key is listed exactly when its property's `required` is truthy |
| ToolSchema.RequiredExactly | backend/src/llm_tools/toolClass.js:15 | with distinct keys, a key is listed if and only if its property is required |
| ToolSchema.RequiredKeysFilter | backend/src/llm_tools/toolClass.js:15 | the required keys are exactly the keys of the entries kept by `filter(key => properties[key].required)`, one per entry, in key order |
| ToolSchema.RequiredKeysInKeyOrder | backend/src/llm_tools/toolClass.js:15 | required keys come in key order |
| ToolSchema.Format | backend/src/llm_tools/toolClass.js:17-22 | the formatted properties have the same keys, each keeping only type and description |
| ToolSchema.NewTool | backend/src/llm_tools/toolClass.js:12-30 | null properties throw the `Object.keys` TypeError; otherwise `requiredProperties` is RequiredKeys of the properties, `parameters` is type "object" with properties equal to Format of them, `required` equal to `requiredProperties` and no additional properties, and the handler is kept |
| ToolSchema.Call | backend/src/llm_tools/toolClass.js:33-35 | `call(args)` runs the tool's handler (no contract of its own; see CallRunsHandler) |
| ToolSchema.FormatOpenAIReadable | backend/src/llm_tools/toolClass.js:37-45 | a strict "function" schema with the tool's name, description and parameters |
| ToolSchema.RequiredAreDeclared | backend/src/llm_tools/toolClass.js:15-28 | every required name is a declared property key |
| ToolSchema.DefaultIsRequired | backend/src/llm_tools/toolClass.js:3-15 | a property built without `required` is listed as required |
| LegacyToolSchema.RequiredNames | backend/src/llm_handler/toolClass.js:16 | the `.name` of every required property is listed, and nothing else |
| LegacyToolSchema.RequiredNamesFilter | backend/src/llm_handler/toolClass.js:15-16 | the required names are the `.name`s of the required entries, one per entry, in key order, so position by position they match the required keys of RequiredKeysFilter |
| LegacyToolSchema.NamesMatchKeysInNumber | backend/src/llm_handler/toolClass.js:15-16 | one name per required key |
| LegacyToolSchema.NewTool | backend/src/llm_handler/toolClass.js:12-23 | null properties throw; otherwise `requiredProperties` is RequiredKeys of the properties, `requiredPropertyNameArray` is RequiredNames of them, `parameters` holds the property records unchanged and `required` the name array, and the handler is kept |
| LegacyToolSchema.Call | backend/src/llm_handler/toolClass.js:26-28 | `call(...args)` runs the tool's handler (no contract of its own) |
| LegacyToolSchema.AgreesWhenNamedByKey | backend/src/llm_handler/toolClass.js:15-16 | when every property is named after its key, the required names are the required keys |
| LegacyToolSchema.VariantsAgree | backend/src/llm_handler/toolClass.js:12-23 | under that naming both constructors declare the same required list, and the newer tool's properties are the older records cut down to type and description |
| LegacyToolSchema.NameOtherThanKey | backend/src/llm_handler/toolClass.js:16 | a property named differently from its key puts its name, not its key, into `required` |
| ToolDefinitions.AddItemHandler | backend/src/llm_tools/toolDefinitions.js:12-16 | the addItem tool has the ledger effect of `addItem`, passes on its exception, and replies `Item "<name>" added successfully.` |
| ToolDefinitions.RemoveItemHandler | backend/src/llm_tools/toolDefinitions.js:26-30 | the removeItem tool has the ledger effect of `removeItem`, passes on its exception, and replies `Item "<name>" removed successfully.` whatever the ledger answered |
| ToolDefinitions.AddMoneyHandler | backend/src/llm_tools/toolDefinitions.js:41-47 | throws "Amount must be a positive integer." exactly when `Number(amount)` is not a positive integer; otherwise raises the balance and reports the amount and new balance |
| ToolDefinitions.RemoveMoneyHandler | backend/src/llm_tools/toolDefinitions.js:57-63 | the same validation; the balance falls only when it covers the amount, and the reply always says "Money decreased by" with the balance afterwards |
| ToolDefinitions.GetMoneyHandler | backend/src/llm_tools/toolDefinitions.js:71 | replies `{ money }` with the ledger unchanged |
| ToolDefinitions.ListInventoryHandler | backend/src/llm_tools/toolDefinitions.js:78 | replies the listing of items and money under `items`, with the ledger unchanged |
| ToolDefinitions.MakeTool | backend/src/llm_tools/toolDefinitions.js:4-79 | each tool's required list is computed from its property records, and calling it runs its handler |
| ToolDefinitions.DeclaredRequired | backend/src/llm_tools/toolDefinitions.js:4-79 | addItem requires name, description, count; removeItem requires name, count; the money tools require amount; the read tools require nothing |
| ToolDefinitions.RemoveAlwaysReportsSuccess | backend/src/llm_tools/toolDefinitions.js:26-30 | removeItem reports success whatever happened, and a missing name or short stock leaves the ledger as it was |
| ToolDefinitions.RefusedWithdrawalReportsDecrease | backend/src/llm_tools/toolDefinitions.js:57-63 | an uncovered withdrawal leaves the balance and still replies "Money decreased by <n>. Balance: <unchanged>" |
| ToolDefinitions.MoneyToolsRoundTrip | backend/src/llm_tools/toolDefinitions.js:41-63 | addMoney then removeMoney of the same valid amount restores the ledger |
| ToolDefinitions.ReadToolsLeaveLedger | backend/src/llm_tools/toolDefinitions.js:67-79 | getMoney and listInventory never change the ledger |
| ToolDefinitions.AddNewByTool | backend/src/llm_tools/toolDefinitions.js:12-16 | adding an unknown item by tool appends it to the items |
| ToolDefinitions.RemoveSomeByTool | backend/src/llm_tools/toolDefinitions.js:26-30 | removing less than the stock by tool decrements only that record |
| ToolDefinitions.TestSequence | backend/src/tests/toolDefinitions.test.js:11-43 | Sword 1 and Potion 3 added, one Potion removed: Sword 1 and Potion 2; cleared: no items; Shield added: only Shield |
| Js.ToNumberOfToString | backend/src/llm_tools/toolDefinitions.js:43-46 | `Number(String(n))` gives back the integer n, so an amount printed by a tool reads back unchanged |
| AgentLoop.NewAgent | backend/src/llm_handler/llmClass.js:14-24 | a new agent's history is exactly the system instructions |
| AgentLoop.ResetGame | backend/src/llm_handler/llmClass.js:89-96 | after a reset the history is exactly the system instructions, and nothing else changes |
| AgentLoop.Schemas | backend/src/llm_handler/llmClass.js:32 | one schema per registered tool, in order, each being that tool's `formatOpenAIReadable()`: its name, description and parameters, strict |
| AgentLoop.FindTool | backend/src/llm_handler/llmClass.js:51-52 | the first registered tool with the called name, or none when no tool has it |
| AgentLoop.Process | backend/src/llm_handler/llmClass.js:46-66 | the history is only extended, by user entries, one per function call that names a registered tool; a call was seen exactly when a function call was output; with no function call nothing changes; what each entry says and their order is stated by ProcessIsReplay |
| AgentLoop.ProcessConcat | backend/src/llm_handler/llmClass.js:46-66 | the outputs of a response are processed front to back: a second part starts from the history and game state the first part leaves, and does not run when the first part threw |
| AgentLoop.ProcessSingle | backend/src/llm_handler/llmClass.js:47-65 | one output alone: not a function call does nothing; an unknown name only marks a tool round; a known name parses, runs the first tool of that name and appends "Tool <name> was called with arguments <args> and returned: <JSON>", unless the parse or the tool throws |
| AgentLoop.ProcessIsReplay | backend/src/llm_handler/llmClass.js:46-66 | the whole loop equals replaying the outputs one at a time in response order, so the reports are appended in that order and each tool sees the state the previous one left |
| AgentLoop.AnswerEndsTurn | backend/src/llm_handler/llmClass.js:36-75 | at any of the ten rounds, a response with no function call appends its `output_text` as the assistant's entry and returns it |
| AgentLoop.Loop | backend/src/llm_handler/llmClass.js:36-86 | at most 10 model calls; the history only grows; a normal reply is the last history entry and is either the `output_text` of the last response, which had no function call, or the error message after all ten calls |
| AgentLoop.GetResponse | backend/src/llm_handler/llmClass.js:26-87 | the user message is appended first; between 1 and 10 model calls; the reply is the last, assistant history entry, and is either the text of the last response, which called no function, or the error message after ten calls |
| AgentLoop.ImmediateAnswer | backend/src/llm_handler/llmClass.js:69-75 | a first response without a function call appends the assistant text and returns it after one call |
| AgentLoop.LoopExhausts | backend/src/llm_handler/llmClass.js:36-86 | if every response asks for tools that succeed, the loop ends with the fixed error message after the remaining rounds |
| AgentLoop.MaxIterationsReached | backend/src/llm_handler/llmClass.js:80-86 | ten tool rounds in a row end in "Error: Maximum iterations reached without a normal response.", appended and returned |
| AgentLoop.OneToolCall | backend/src/llm_handler/llmClass.js:51-62 | one call of a registered tool appends exactly "Tool <name> was called with arguments <args> and returned: <result>" |
| AgentLoop.UnknownToolsAppendNothing | backend/src/llm_handler/llmClass.js:47-52 | calls naming no registered tool append nothing yet count as a tool round |

## Left out

- Floating point: distances are integers, and the gas rounding is its integer form. For integer distances this form equals JavaScript's `Math.round`, and GasUnits states that.
- `Number(...)` on strings covers only the empty string and an optional "-" followed by decimal digits. Any other string (decimal points, exponents, whitespace, hex) reads as NaN (`Fraction("NaN")`), so `Number("1e3")` and `Number(" 5")` are not modelled.
- JavaScript numbers are doubles; the model's `Num` is an unbounded integer. Integers above 2^53 are not exact in JavaScript, `String(n)` prints an exponent form from 10^21 on, and `+=` with a string joins text. The members below hold over the model's integers only.
- Inventory.AddThenRemoveMoney: holds over unbounded integers. In JavaScript, a balance at 2^53 absorbs `addMoney(1)`, so the round trip does not restore it.
- ToolDefinitions.MoneyToolsRoundTrip: holds over unbounded integers, for the same 2^53 reason.
- Js.ToNumberOfToString: `String(n)` is modelled as plain decimal digits. JavaScript prints 10^21 and above with an exponent, and integers above 2^53 are not exact.
- Stats.UpdateStatus: `timeElapsed` is an integer. A string argument would make `elapsedMinutes += timeElapsed` join text in JavaScript.
- Inventory.AddItem: counts are unbounded integers. Stocks above 2^53 lose precision in JavaScript.
- Object and array values as tool arguments or query parameters are left out. A repeated query parameter, which Express turns into an array, is one of them.
- Object key order for integer-like keys is left out. Properties are a sequence of key/record pairs in insertion order.
- The OpenAI client, `JSON.parse`, `JSON.stringify`, `console` output, `Date.now()` and `Math.random()` are parameters or dropped (see above).
- AgentLoop.ProcessSucceeds: a tool handler that throws is assumed to leave the game state as it was before the call. In JavaScript a handler could mutate the shared inventory and then throw.
- HeapPermutations.HeapExact: holds for up to four entries, which covers every matrix of at most five locations, including the five-center reference data. Heap's algorithm is correct for any size, but that proof is not part of this model.
- RouteTsp.TspIsOptimal: stated only for at most five locations, because it rests on HeapExact.
- RouteLeaderboard.TspAgreesWithBest: the equality is stated only for at most five locations, for the same reason.
- RouteLeaderboard.BuildLeaderboard: requires `startIdx` to be below the number of locations. The controller only ever passes 0 or an index found by `indexOf`.
- For one location with `computeTsp`, `heap([], 0)` recurses without end. The model returns a thrown `RangeError` (a stack overflow) instead of running.
- `buildLeaderboard`'s own default of `computeTsp = false` is not modelled. The only caller always passes the flag.
- The Express request/response objects are left out. `getLeaderboard` returns the `Response` value it would send. The `next(err)` path cannot be reached, and GetLeaderboard states that.
- The shared inventory singleton and the shared tracker singleton are values passed in and returned.
- `incrementMoves` (from `backend/models/incrementMoves.js`) and `getShopInfoTool` are imported by `backend/src/routes/llmApi.js`, outside the modelled files, so they are not part of this model. `getShopInfoTool` is not among the exports of `backend/src/llm_tools/toolDefinitions.js`. `backend/models/incrementMoves.js` is not part of this model.
- Frontend pages, the HTTP routes and the LLM API controllers are out of scope. So are the network part of the tool test and `backend/models/sharedInventory.js`, which is not part of this model.
- Stats.GetStats, Inventory.ListItems and Inventory.GetMoney carry no contract of their own. They read fields unchanged, and ListInventoryHandler and the money handlers state their results.

## Findings

| source | as written | input that shows it | evidently intended | confidence | as-written member | corrected member |
|---|---|---|---|---|---|---|
| backend/models/statsClass.js:30-34 | `removeItem` returns `undefined` after removing the gas, so `result.startsWith(...)` throws a TypeError after the gas is gone. The "Item not found" test can never match, because a missing item also returns `undefined`. | A ledger of 50 Gas and a 30-mile trip: 5 Gas is deducted, then a TypeError escapes, and time and location stay unchanged. | A trip whose gas was removed advances time and location; a missing or short "Gas" stock refuses the trip with nothing changed. | not executed | Stats.TravelWithEnoughGasFails | Stats.UpdateStatusIntended |
