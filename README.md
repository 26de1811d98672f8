# AI agent exercises, modelled in Dafny

This project models the working parts of a collection of small Python agent examples:

- **The ReAct demo script.** It runs a Think → Act → Observe conversation with a completion service. The service's replies are read by two marker-based parsers (`Action:` / `Action Input:` and `Final Answer:`). Tools are looked up by name, ignoring case. After `max_iterations` turns the script forces a final answer.
- **The function caller.** This is a registry of functions and schemas. A call checks the parameters against the schema, sanitises them, runs the function and turns its outcome into a status dictionary. A three-attempt retry decorator wraps the call.
- **The ReAct agent class.** `act` appends to the action history, and that history and the memory are cut back to a window. `observe` reports on an action. `analyze_action_pattern` counts action types, the success rate and the steps per task.
- **The knowledge base.** It is a dictionary of entries with add, update, get, delete and backup. Search is a case-insensitive substring match cut to `top_k`. Content is cut into overlapping windows by `process_chunk`.
- **The plan executor.** Inventory quantities are classified against three thresholds. A plan holds one action per status that needs one, and every plan goes into `plan_history`. Execution, monitoring and evaluation report on the plan.
- **The open-agent helpers.** These build tool descriptions, split tasks and check results. They also keep the agent's memory list, which `update_memory` appends to in place.

Python values are modelled by `PyValues.Value`. A Python `dict` is an insertion-ordered `seq<Pair<K, V>>`: `Put` keeps an existing key's place and adds a new key last. Strings are `seq<char>`; the Python string operations used (`strip`, `split`, `in`, slicing, and `lower` on ASCII letters) are in `Text` and `PyValues`.

Files:

- `wrappers.dfy`, `text.dfy`, `py_values.dfy`: shared definitions.
- `react_demo.dfy`: the ReAct demo script.
- `function_caller_utils.dfy`, `function_caller_core.dfy`: the function caller.
- `react_agent_utils.dfy`, `react_agent_core.dfy`: the ReAct agent class.
- `knowledge_base_utils.dfy`, `knowledge_base_core.dfy`: the knowledge base.
- `plan_executor_utils.dfy`, `plan_executor_core.dfy`: the plan executor.
- `open_agents_utils.dfy`: the open-agent helpers.

Classes model the objects whose fields the source updates in place:

- `FunctionCaller`
- `ReactAgent`
- `KnowledgeBase`
- `PlanExecutor`
- the caller's memory list `Memory`

Loops that build their result step by step are methods proved against a recursive specification function, for example `ReactAgent`, `RetryOnFailure`, `AnalyzeInventory`, `GeneratePlan` and `RetrieveKnowledge`. The properties the source promises are lemmas about those functions.

## Model

| member | source | states |
|---|---|---|
| ReActDemo.PromptRoundTrip | book/64217-ai-agents-20240606/02-demo-agent/ReAct.py:57-75 | The question is substituted verbatim into the template, so it can always be read back out of the prompt. |
| ReActDemo.FieldAfterSpec | book/64217-ai-agents-20240606/02-demo-agent/ReAct.py:144-145 | A field is the stripped text running from the end of the first marker to the first line break, the next marker or the end, whichever comes first. It contains no line break. |
| ReActDemo.ExtractActionAndInputSpec | book/64217-ai-agents-20240606/02-demo-agent/ReAct.py:139-147 | The result is `(None, None)` exactly when either marker is missing. Otherwise both fields are single stripped lines that do not contain their own marker. |
| ReActDemo.ExtractFinalAnswerSpec | book/64217-ai-agents-20240606/02-demo-agent/ReAct.py:158-163 | Without the marker the response is returned unchanged. With it, the answer is the stripped text between the first marker and the next one (or the end). The answer never contains the marker, and extracting twice is the same as extracting once. |
| ReActDemo.FindTool | book/64217-ai-agents-20240606/02-demo-agent/ReAct.py:152-153 | Returns the first tool whose lower-cased name equals the lower-cased action, and no tool when none matches. |
| ReActDemo.ExecuteToolSpec | book/64217-ai-agents-20240606/02-demo-agent/ReAct.py:150-154 | The first tool that matches, ignoring case, runs on the action input. |
| ReActDemo.ExecuteToolUnknown | book/64217-ai-agents-20240606/02-demo-agent/ReAct.py:155 | With no matching tool the answer is the error text, which names the action. |
| ReActDemo.ReactAgent | book/64217-ai-agents-20240606/02-demo-agent/ReAct.py:79-117 | The loop returns exactly the outcome of the recursive run `ReActRun`: the answer, the conversation, the number of calls and why it stopped. |
| ReActDemo.ExchangesExtend | book/64217-ai-agents-20240606/02-demo-agent/ReAct.py:105-112 | A reply that asks for a tool is stored, followed by `Observation: ` and that tool's result. Every stored pair is then still the reply to its own call, which was sent the messages before it, followed by the observation of the tool it named. |
| ReActDemo.RunFromCalls | book/64217-ai-agents-20240606/02-demo-agent/ReAct.py:86-117 | For any reader of replies: a run makes between 1 and n+1 calls, and n+1 exactly when the budget ran out. The last reply is what the service answered to the last messages sent. A final answer, a reply without an action and the forced reply each produce the answer the source returns. |
| ReActDemo.RunFromConversation | book/64217-ai-agents-20240606/02-demo-agent/ReAct.py:94-116 | The conversation only grows, by one exchange per tool call. Exchange j holds the reply to call j−1, which asked for a tool, and the observation of running it. A final reply is stored. A reply without an action is not stored. The forced call sends the stored conversation plus the forcing instruction, which is not stored. |
| ReActDemo.ForcePromptNotStored | book/64217-ai-agents-20240606/02-demo-agent/ReAct.py:115-116 | The forcing instruction is never among the stored messages. |
| ReActDemo.ReActRunSpec | book/64217-ai-agents-20240606/02-demo-agent/ReAct.py:79-117 | A whole run: 1 to max_iterations+1 calls, and the extra call exactly when no iteration returned. The conversation starts with the system message and the filled-in prompt. The length of the conversation is fixed by the number of calls and why the run stopped. |
| ReActDemo.ReActRunAnswer | book/64217-ai-agents-20240606/02-demo-agent/ReAct.py:92-117 | Every reply before the last held no `Final Answer:` and named an action. Each is stored with `Observation: ` plus the result of `execute_tool` on its action and input. So the first reply holding the marker, or lacking a usable action, ends the run. A final reply returns the extracted answer, a reply without the marker and without a usable action is returned as it is, and otherwise the answer is extracted from the forced reply. |
| ReActDemo.FinalAnswerFirst | book/64217-ai-agents-20240606/02-demo-agent/ReAct.py:92-95 | A first reply holding the marker ends the run after one call, even when it also holds Action lines. |
| ReActDemo.NeverFinal | book/64217-ai-agents-20240606/02-demo-agent/ReAct.py:86-117 | If the service always names a tool and never gives a final answer, the run makes exactly max_iterations+1 calls and stops on the budget. |
| FunctionCallerUtils.RetryOnFailure | agents/function_caller/utils.py:8-24 | The retry loop returns the result, and the number of attempts, of the recursive specification `Retry`. |
| FunctionCallerUtils.RetryFromSpec | agents/function_caller/utils.py:13-22 | From attempt k on: the first success is returned after as many calls as it took. If every remaining attempt fails, the last error is raised after `max_retries` calls. |
| FunctionCallerUtils.RetrySpec | agents/function_caller/utils.py:13-22 | With no allowed attempt the function never runs and the result is `None`. Otherwise the first success wins, or the last exception is re-raised. |
| FunctionCallerUtils.RetryAlwaysFails | agents/function_caller/utils.py:13-19 | A function that always raises the same exception runs exactly `max_retries` times, and that exception is raised. |
| FunctionCallerUtils.ValidateFunctionInput | agents/function_caller/utils.py:26-39 | True exactly when every schema field is present with a value of the named type: a built-in type (instances of user subclasses of `str`, `int`, `float`, `dict` and `list` included), a user class (its objects and its subclasses' objects), or a tuple of these (any member). A schema value that is not a type makes `isinstance` raise, and the answer is false. |
| FunctionCallerUtils.TupleAndClassFields | agents/function_caller/utils.py:33 | A field typed `(int, float)` takes integers and floats and refuses text. A field typed by a user class takes objects of its subclasses, and a field typed `int` takes an instance of a user subclass of `int`. |
| FunctionCallerUtils.ValidateIgnoresExtraKeys | agents/function_caller/utils.py:29-35 | Adding or overwriting a key outside the schema never changes the verdict. |
| FunctionCallerUtils.BoolPassesIntField | agents/function_caller/utils.py:33 | A `bool` passes an `int` field, and an `int` fails a `float` field. |
| FunctionCallerUtils.SanitizeInput | agents/function_caller/utils.py:41-56 | The sanitised dictionary has the same keys in the same order. |
| FunctionCallerUtils.SanitizeInputGet | agents/function_caller/utils.py:44-55 | Each key maps to its own value, sanitised. A key that is absent stays absent. |
| FunctionCallerUtils.SanitizeList | agents/function_caller/utils.py:52-53 | A sanitised list keeps its length. |
| FunctionCallerUtils.SanitizeItem | agents/function_caller/utils.py:53 | Wrapping a list element as `{"item": v}`, sanitising and unwrapping gives the element sanitised on its own. |
| FunctionCallerUtils.SanitizeListAt | agents/function_caller/utils.py:52-53 | Element i of a sanitised list is element i sanitised. |
| FunctionCallerUtils.SanitizeValueClean | agents/function_caller/utils.py:45-55 | A sanitised value is clean: stripped strings, and no objects other than numbers, booleans, strings, dicts and lists. A value that is already clean is left as it is. |
| FunctionCallerUtils.SanitizeInputClean | agents/function_caller/utils.py:41-56 | Sanitised dictionaries are clean, and clean ones are left as they are. |
| FunctionCallerUtils.SanitizeIdempotent | agents/function_caller/utils.py:41-56 | Sanitising twice is the same as sanitising once. |
| FunctionCallerCore.FunctionCaller.constructor | agents/function_caller/core.py:11-14 | A new caller has no functions and no schemas. |
| FunctionCallerCore.FunctionCaller.GetRegisteredFunctions | agents/function_caller/core.py:47-49 | One name per registered function. |
| FunctionCallerCore.FunctionCaller.GetFunctionSchema | agents/function_caller/core.py:51-53 | A schema is found exactly for the registered names. |
| FunctionCallerCore.FunctionCaller.RegisterFunction | agents/function_caller/core.py:16-21 | Both dictionaries stay in step and without duplicate keys. The last registration of a name wins. A new name is listed last and an existing one keeps its place. Every other name is untouched. |
| FunctionCallerCore.FunctionCaller.CallFunction | agents/function_caller/core.py:23-45 | The decorated call returns what one undecorated call returns. That takes one attempt when it returns and three when it raises, since the outcome never changes between attempts. |
| FunctionCallerCore.FunctionCaller.CallUnregistered | agents/function_caller/core.py:26-27 | An unregistered name raises `Function <name> not registered`. |
| FunctionCallerCore.FunctionCaller.CallRegistered | agents/function_caller/core.py:29-45 | A registered name has a schema. Parameters that fail it raise `Invalid parameters for function <name>`. Otherwise the function runs on the sanitised parameters, and what it returns or raises becomes a success or error status. |
| FunctionCallerCore.ValidateSchemaSpec | agents/function_caller/core.py:55-66 | `validate_schema` accepts exactly the schemas holding both `parameters` and `returns`. Adding a key never makes a valid schema invalid, and no other key decides the answer. The empty schema and any single-key schema are refused. |
| FunctionCallerCore.DocumentedSchemaRejectsAll | agents/function_caller/core.py:55-63 | A schema that passes `validate_schema` but has a description, not a type, under `parameters` makes every call fail validation. |
| ReactAgentUtils.ValidateActionPut | agents/react_agent/utils.py:39-50 | Setting a key never makes a valid action invalid. |
| ReactAgentUtils.ValidateActionIgnoresExtraKeys | agents/react_agent/utils.py:41-47 | Only `type`, `parameters` and `task_id` decide validity. |
| ReactAgentUtils.SuccessCount | agents/react_agent/utils.py:31 | No more successes than actions. |
| ReactAgentUtils.CountActionTypes | agents/react_agent/utils.py:26-28 | The counting loop either raises `unhashable type: '<class>'` for the first type that cannot be a key, or returns the per-type counts. A dict, a list or an unhashable object such as a set cannot be a key. |
| ReactAgentUtils.CountSuccesses | agents/react_agent/utils.py:31 | The loop counts the actions whose `success` is truthy. |
| ReactAgentUtils.CollectTaskIds | agents/react_agent/utils.py:35 | Collecting task ids raises `KeyError('task_id')` or `unhashable type` for the first bad action. Otherwise it returns the set of ids. |
| ReactAgentUtils.AnalyzeActionPattern | agents/react_agent/utils.py:14-37 | The function returns the report `ActionPattern(h)` or raises its error. |
| ReactAgentUtils.FirstUnhashableSpec | agents/react_agent/utils.py:27-28 | Counting raises exactly when some type is unhashable, and names the first such type. |
| ReactAgentUtils.FirstTaskIdErrorSpec | agents/react_agent/utils.py:35 | Collecting ids raises exactly when some action lacks a task id or has an unhashable one. |
| ReactAgentUtils.TallyCounts | agents/react_agent/utils.py:26-28 | `common_actions[t]` is the number of occurrences of t, and t is a key only if it occurs. |
| ReactAgentUtils.TallyKeysAppend | agents/react_agent/utils.py:28 | Keys appear in first-appearance order. |
| ReactAgentUtils.TallyDistinct | agents/react_agent/utils.py:28 | No type is counted under two keys. |
| ReactAgentUtils.TallyTotal | agents/react_agent/utils.py:26-28 | The counts add up to the number of actions. |
| ReactAgentUtils.TaskIdsBound | agents/react_agent/utils.py:35 | There are never more distinct task ids than actions, and a non-empty history has at least one. |
| ReactAgentUtils.ActionPatternSpec | agents/react_agent/utils.py:14-37 | An empty history gives the empty report. Otherwise: the counts are per type and sum to the history's length, the success rate is in [0, 1], and the average steps are at least 1. |
| ReactAgentUtils.ActionPatternFails | agents/react_agent/utils.py:26-35 | The report raises exactly when some type is unhashable, or some task id is missing or unhashable. |
| ReactAgentCore.AppendEvictSpec | agents/react_agent/core.py:56-59 | Append followed by `pop(0)` keeps the newest entries. The list never grows past the window. At most the single oldest entry is dropped. |
| ReactAgentCore.Think | agents/react_agent/core.py:17-39 | The thought has the fixed content and confidence 0.8. |
| ReactAgentCore.Observe | agents/react_agent/core.py:67-87 | The keys are exactly `content` and `metrics`. A missing `type` or `status` gives the error text. `success_rate` is 1.0 exactly for a completed action. |
| ReactAgentCore.ReactAgent.constructor | agents/react_agent/core.py:12-15 | The history and the memory start empty. |
| ReactAgentCore.ReactAgent.Act | agents/react_agent/core.py:41-65 | The action is of type `analyze` with task id `len(history)+1` and status `completed`. It is appended to the history, which is cut back to the window. The memory is unchanged. |
| ReactAgentCore.ReactAgent.UpdateMemory | agents/react_agent/core.py:89-103 | With memory switched off nothing changes. Otherwise the entry is appended and the memory is cut back to the window. |
| ReactAgentCore.ReactAgent.AnalyzePerformance | agents/react_agent/core.py:105-114 | An empty history gives the empty report. Otherwise the report on the history, or its error. |
| ReactAgentCore.ReactAgent.ExecuteCycle | agents/react_agent/core.py:116-131 | Runs think, act, observe and update_memory in that order, with the state after each step. |
| ReactAgentCore.FullHistoryActs | agents/react_agent/core.py:47-59 | On a full history, each `act` drops the oldest action and appends one with task id `str(window + 1)`. After j calls, the oldest j actions have given way to copies of that action. |
| ReactAgentCore.FullHistoryRepeats | agents/react_agent/core.py:47-59 | A full history stays full, so every later `act` hands out the task id `str(window + 1)` again. After a window's worth of calls, the history holds nothing but that action. |
| ReactAgentCore.FullHistoryReport | agents/react_agent/utils.py:26-35 | After that, the report counts `window` actions of type `analyze` under one task id. `average_steps` is therefore the window, and the success rate is 0.0. |
| ReactAgentCore.NewActionValid | agents/react_agent/core.py:43-51 | The action `act` builds always passes `validate_action`, so `act` never raises. |
| ReactAgentCore.MadeActionShape | agents/react_agent/core.py:43-55 | A recorded action has type `analyze`, a text task id, status `completed` and no `success` key. |
| ReactAgentCore.ObserveMadeAction | agents/react_agent/core.py:77-81 | Observing a recorded action reports `Action analyze completed` with success rate 1.0. |
| ReactAgentCore.ObserveSuccessRate | agents/react_agent/core.py:79 | The success rate is 1.0 exactly when the status is `completed`. |
| ReactAgentCore.NoSuccesses | agents/react_agent/utils.py:31 | No action `act` records counts as a success. |
| ReactAgentCore.AgentReport | agents/react_agent/utils.py:26-35 | For a history `act` built, the report counts every action under `analyze` and gives success rate 0.0. The reason is that `act` writes `status` but the report reads `success`. |
| KnowledgeBaseUtils.ValidateKnowledgeIgnoresExtraKeys | agents/knowledge_base/utils.py:7-18 | Only `content`, `metadata` and `source` decide validity. |
| KnowledgeBaseUtils.ValidateKnowledgeExamples | agents/knowledge_base/utils.py:9-15 | The three fields alone pass, and input without `content` fails. |
| KnowledgeBaseUtils.ProcessChunk | agents/knowledge_base/utils.py:20-34 | On the inputs where the loop ends, it returns the windows of `Chunks`. |
| KnowledgeBaseUtils.ChunkLoopNeverEnds | agents/knowledge_base/utils.py:26-33 | On every other input longer than one chunk, every pass starts inside the text, so the loop never ends. |
| KnowledgeBaseUtils.ChunkLoopStuck | agents/knowledge_base/utils.py:27-33 | Once a window reaches the end, the next pass starts at `len(text) - overlap` again and appends the same last window. |
| KnowledgeBaseUtils.DefaultChunkingHangs | agents/knowledge_base/utils.py:20 | With the default sizes 1000 and 200, any text longer than 1000 characters keeps the loop running. |
| KnowledgeBaseUtils.ChunksFromNoOverlap | agents/knowledge_base/utils.py:26-33 | Where the loop ends and there is no overlap, the windows put the text back together. |
| KnowledgeBaseUtils.ChunksFromBound | agents/knowledge_base/utils.py:28-31 | No window is longer than `chunk_size`. |
| KnowledgeBaseUtils.ProcessChunkFixed | agents/knowledge_base/utils.py:20-34 | The corrected loop, which stops at the window that reaches the end, returns `FixedChunks`. |
| KnowledgeBaseUtils.FixedChunksFromSpec | agents/knowledge_base/utils.py:26-33 | Windows are at most `chunk_size` long. The first starts at `start`. The parts after each overlap, laid end to end, give the text from `start + overlap` on. |
| KnowledgeBaseUtils.FixedChunksRoundTrip | agents/knowledge_base/utils.py:20-34 | The corrected chunks reassemble into the text. Every chunk fits the size and the first is a prefix of the text. |
| KnowledgeBaseUtils.FixedChunksOverlap | agents/knowledge_base/utils.py:27-33 | In longer text the first window is full, and consecutive windows share exactly `overlap` characters. |
| KnowledgeBaseUtils.StoredChunksShort | agents/knowledge_base/utils.py:23-24 | Text that fits in one chunk is stored as that one chunk under any sizes, overlap at or above `chunk_size` included. |
| KnowledgeBaseUtils.FixedChunksAgree | agents/knowledge_base/utils.py:20-34 | Wherever the loop as written returns and the sizes suit the corrected chunker, both give the same chunks, so the correction changes only inputs on which the source never returns. |
| KnowledgeBaseCore.SearchSpec | agents/knowledge_base/core.py:52-60 | A hit is exactly an entry whose content contains the query, ignoring case, with relevance 1.0. There are at most as many hits as entries. |
| KnowledgeBaseCore.SearchAppend | agents/knowledge_base/core.py:52-60 | Hits come in store order. |
| KnowledgeBaseCore.RetrieveSpec | agents/knowledge_base/core.py:62 | With `top_k >= 0`, the result is the first `top_k` hits in store order. |
| KnowledgeBaseCore.KnowledgeBase.constructor | agents/knowledge_base/core.py:12-15 | Any sizes are accepted. The store and the embeddings start empty, and the sizes, `top_k` and backup switch are the given ones. |
| KnowledgeBaseCore.KnowledgeBase.AddKnowledge | agents/knowledge_base/core.py:17-42 | Invalid input raises and changes nothing. Otherwise the entry, with its chunks and time, is stored under the id, and the chunk count is returned. The chunks are `StoredChunks`: the corrected chunker where the sizes suit it, the one as written elsewhere. The embeddings are untouched. |
| KnowledgeBaseCore.KnowledgeBase.RetrieveKnowledge | agents/knowledge_base/core.py:44-62 | The search loop returns `Slice(Search(store, query), 0, top_k)`. A missing `top_k` uses the configured one. |
| KnowledgeBaseCore.KnowledgeBase.UpdateKnowledge | agents/knowledge_base/core.py:64-91 | An unknown id raises before the input is checked, and invalid input raises; neither changes anything. Otherwise the entry keeps its place and its original timestamp, gets the new fields and chunks, and records the update time. |
| KnowledgeBaseCore.KnowledgeBase.GetKnowledge | agents/knowledge_base/core.py:93-95 | Returns the stored entry, or nothing exactly for an unknown id. |
| KnowledgeBaseCore.KnowledgeBase.DeleteKnowledge | agents/knowledge_base/core.py:97-104 | Returns true exactly for a known id, which is then removed from the store and the embeddings. Otherwise nothing changes. |
| KnowledgeBaseCore.KnowledgeBase.BackupKnowledge | agents/knowledge_base/core.py:106-120 | `backup_disabled` exactly when backups are off. Otherwise the current store and embeddings. |
| PlanExecutorUtils.ValidateInventoryIgnoresExtraKeys | agents/plan_executor/utils.py:7-18 | Keys other than `product_id`, `quantity` and `location` never change the verdict. |
| PlanExecutorUtils.ValidateInventoryMinimal | agents/plan_executor/utils.py:9-15 | The three fields alone pass. |
| PlanExecutorUtils.CalculateMetrics | agents/plan_executor/utils.py:20-28 | The keys are exactly the three metric names, and every value is 0.0, whatever the data. |
| PlanExecutorCore.ClassifyMonotone | agents/plan_executor/core.py:30-37 | Whatever the thresholds, a larger integer quantity never gets a lower status on the scale low, reorder, optimal, overstocked. |
| PlanExecutorCore.ClassifyDefaults | agents/plan_executor/core.py:30-37 | With thresholds 20/80/30: up to 20 is low, 21–30 needs a reorder, 31–79 is optimal, 80 and above is overstocked. |
| PlanExecutorCore.StatusesKeys | agents/plan_executor/core.py:28-37 | Only keys of the data get a status, each at most once. |
| PlanExecutorCore.StatusesGet | agents/plan_executor/core.py:28-37 | An entry whose value is an `int`, `bool` or `float` gets exactly its classification. Any other entry gets no status. |
| PlanExecutorCore.ActionsSpec | agents/plan_executor/core.py:49-68 | The actions are exactly those the statuses call for: restock/high, clearance/medium, reorder/medium. There is at most one per status. |
| PlanExecutorCore.ActionsAppend | agents/plan_executor/core.py:49-68 | Actions come in status order. |
| PlanExecutorCore.PrioritySpec | agents/plan_executor/core.py:46-56 | The plan priority is `high` exactly when some status is `low_stock`, and `normal` otherwise. |
| PlanExecutorCore.AlertsSpec | agents/plan_executor/core.py:104-110 | There is an alert exactly when some action did not succeed, and never more alerts than actions. |
| PlanExecutorCore.EvaluatePerformance | agents/plan_executor/core.py:114-129 | The metrics are constant. There is exactly one suggestion, the process improvement, when there are alerts, and none otherwise. |
| PlanExecutorCore.PlanExecutor.constructor | agents/plan_executor/core.py:12-14 | The given thresholds and an empty history. |
| PlanExecutorCore.PlanExecutor.AnalyzeInventory | agents/plan_executor/core.py:16-39 | Data missing a required field raises. Otherwise the result is the metrics and `Statuses(data)`. |
| PlanExecutorCore.PlanExecutor.GeneratePlan | agents/plan_executor/core.py:41-71 | The plan holds `Actions(status)` and `Priority(status)`, and the history grows by exactly this plan. |
| PlanExecutorCore.PlanExecutor.ExecutePlan | agents/plan_executor/core.py:73-93 | The status is `completed`, with one `success` entry per plan action, in the same order. |
| PlanExecutorCore.PlanExecutor.MonitorExecution | agents/plan_executor/core.py:95-112 | Empty metrics and the alerts `Alerts(executed)`. |
| PlanExecutorCore.ExecutedPlanIsQuiet | agents/plan_executor/core.py:104-127 | Monitoring an executed plan raises no alert, so evaluating it suggests nothing. |
| OpenAgentsUtils.CreateTool | agents/open_agents/utils.py:4-10 | The keys are exactly `name`, `description` and `function`, each holding what was given. |
| OpenAgentsUtils.ParseTaskRoundTrip | agents/open_agents/utils.py:16-19 | There is at least one subtask, and joining the subtasks gives back the task. |
| OpenAgentsUtils.ValidateToolResultSpec | agents/open_agents/utils.py:21-23 | `validate_tool_result` is `bool(result)`: true exactly for a non-empty result, false for the empty one. Extending a passing result keeps it passing. |
| OpenAgentsUtils.CreateMemoryStore | agents/open_agents/utils.py:25-27 | The store is empty, whatever is asked for. |
| OpenAgentsUtils.UpdateMemory | agents/open_agents/utils.py:29-32 | The item is appended to the caller's list, which is never shortened. The result is its first 1000 items. |
| OpenAgentsUtils.KeptAsWrittenSpec | agents/open_agents/utils.py:32 | The result is a prefix of the memory. Once the memory holds 1000 items, the result no longer changes. |
| OpenAgentsUtils.KeptAsWrittenLosesNewest | agents/open_agents/utils.py:32 | With 1000 zeros stored, remembering a 1 returns a list without it. |
| OpenAgentsUtils.UpdateMemoryLast | agents/open_agents/utils.py:29-32 | Corrected: the item is appended in place, and the last 1000 items are returned. |
| OpenAgentsUtils.KeptLastSpec | agents/open_agents/utils.py:29-32 | The corrected result is a suffix that always ends with the new item. Once full, it drops exactly the oldest kept item. |

## Left out

- Clocks: every `timestamp` and `updated_at` comes from `datetime.now()` in the source and is a parameter here or dropped. This includes the knowledge id `k_<timestamp>` and `format_timestamp`.
- Logging, `print`, `time.sleep(delay)` between retries, and `async`/`await`: none of them changes a result.
- Network calls: `search_with_serpapi` and `openai_chat_completion` are not modelled. The completion service is a function of the call number and the messages sent. Each tool is a total `string -> string` function, so the service's own error strings are whatever it returns.
- `calculate_similarity` uses floating-point square roots and division, and nothing in the core calls it. `format_result` (`str(result)`) is also not modelled.
- Python `float` has no arithmetic here. Only comparisons, truthiness and the constants the source writes are modelled. `success_rate` and `average_steps` are real-number quotients, not rounded doubles.
- ReActDemo.FindTool: case folding covers ASCII letters only. Python's `str.lower()` also maps other letters (`Ä` to `ä`), so a tool whose name differs from the action only in non-ASCII case is found by the source and not by the model.
- ReActDemo.ExecuteToolSpec: the case-insensitive match is ASCII-only, as for FindTool.
- ReActDemo.ExecuteToolUnknown: "no match" is judged under ASCII-only case folding, so it also covers names that differ only in non-ASCII case, which Python would match.
- KnowledgeBaseCore.SearchSpec: "ignoring case" means ignoring ASCII case. Content and queries that differ only in non-ASCII case do not match here, although they do in Python.
- KnowledgeBaseCore.KnowledgeBase.RetrieveKnowledge: matches with the same ASCII-only case folding as SearchSpec.
- FunctionCallerUtils.ValidateFunctionInput: a tuple in a schema holds types only. Python answers a tuple that also holds a non-type depending on the order of the check, and that is not modelled.
- FunctionCallerUtils.SanitizeInput: nested dictionaries have text keys only, so a nested dict with other keys, which the source also sanitises, is not expressible.
- FunctionCallerUtils.SanitizeInput: an instance of a user subclass of `str`, `int`, `float`, `dict` or `list` is an `Other` that does not keep its contents, so it becomes `None`. Python strips such a string, keeps such a number, and sanitises inside such a dict or list.
- PlanExecutorCore.PlanExecutor.AnalyzeInventory: a quantity that is an instance of a user subclass of `int` or `float` is an `Other` without a numeric value, so it gets no status. Python's `isinstance(q, (int, float))` accepts it and classifies it. `StatusesGet` carries the same gap.
- ReactAgentUtils.CountActionTypes: whether an object other than a dict or a list can be hashed is a property the value carries, not derived from its class.
- Dictionary keys and set members are compared structurally. Python's hash equality across types (`1 == True == 1.0` as one key) is not modelled. So `ReactAgentUtils.TaskIds` counts the task ids `1`, `True` and `1.0` as three distinct ids, where Python's `len(set(...))` counts one.
- `PyValues.Display` renders only text, integers, booleans and `None` as Python's `str` does, and gives a placeholder for other values.
- Aliasing: the model returns values, so a caller mutating a returned object later is not captured. This covers:
  - `backup_knowledge` and `get_knowledge`, which return the live dictionaries;
  - `act`, which returns the dictionary it stored;
  - `generate_plan`, which returns the plan it appended to `plan_history`;
  - `update_memory` in the agent, which stores the thought, action and observation it was given, not copies of them.
- KnowledgeBaseCore.KnowledgeBase.constructor: the corrected chunker is defined for `0 <= overlap < chunk_size`, which the default 1000/200 meets. The constructor accepts any sizes. Under other sizes the knowledge base keeps the chunker as written, which stores short text as one chunk and never returns on longer text unless the windows do not overlap.
- KnowledgeBaseCore.KnowledgeBase.AddKnowledge: stores chunks from the corrected chunker where the sizes suit it. The chunker as written never returns on content longer than one chunk with the default sizes (see Findings).
- KnowledgeBaseCore.KnowledgeBase.AddKnowledge: requires text content when the input is valid. For other content the source's `len` or `.lower()` raises, and that exception is not modelled. It also requires content on which the chunking returns (`ChunkingReturns`). On other content the source never returns (`ChunkLoopNeverEnds`), for example with `overlap >= chunk_size` and text longer than one chunk.
- KnowledgeBaseCore.KnowledgeBase.UpdateKnowledge: stores chunks the same way as AddKnowledge. It has the same requirements on content, text on which the chunking returns, but only when the id is known and the input is valid. An unknown id is refused whatever the content.
- KnowledgeBaseCore.KnowledgeBase.RetrieveKnowledge: the sort by the constant score 1.0 is stable, so the model leaves the order unchanged. Python's `sorted` is not modelled separately.
- The embeddings dictionary is never filled by the source, which leaves that as a TODO. Only `delete_knowledge` and the backup touch it.
- Plans, executions and monitoring reports are typed records, not arbitrary dictionaries. The `KeyError`s that malformed dictionaries would raise in `generate_plan`, `execute_plan` and `monitor_execution` are not modelled. `execute_plan`'s `failed` branch cannot be reached for a record.
- `think`'s and `act`'s exception handlers cannot be reached with the default configuration: nothing in their `try` blocks can raise. A configuration without `log_thoughts` or `memory_window` raises `KeyError` there and takes the `except` path; such configurations are not modelled. In `observe`, only the `KeyError` for a missing `type` or `status` is modelled.
- ReactAgentCore.ReactAgent.AnalyzePerformance: the empty report's `average_steps` is the integer `0` in the source and `0.0` here.
- ReactAgentUtils.ActionPattern: the same holds for the empty report of `analyze_action_pattern`: the integer `0` in the source, `0.0` here.
- Configuration objects are replaced by the values they supply:
  - `KnowledgeBase` takes the chunk size, overlap, `top_k` and backup switch as constructor parameters.
  - `ReactAgent` takes the memory window and memory switch.
  - `PlanExecutor` takes the three thresholds; `ClassifyDefaults` covers the defaults 20/80/30.
  - The function caller's decorator always allows three retries.
  - The `log_thoughts` switch only controls logging.
- The stubs with no logic are not part of this model: `agents/open_agents/core.py` and `main.py`, `agents/ppt_creator/*`, and the agent classes in `agents/*/__init__.py`, which raise `NotImplementedError`.
- The ReAct demo's `main` block, and its environment and API-key checks, are not modelled.

## Findings

| source | as written | input that shows it | evidently intended | confidence | as-written member | corrected member |
|---|---|---|---|---|---|---|
| agents/knowledge_base/utils.py:27-33 | After the window that reaches the end, `start = end - overlap` moves back inside the text, so `while start < len(text)` never fails. | Any text of 1001 characters with the defaults `chunk_size=1000`, `overlap=200`: `start` returns to 801 on every pass. | Stop after the window that reaches the end of the text. | not executed | KnowledgeBaseUtils.ChunkLoopNeverEnds | KnowledgeBaseUtils.FixedChunksRoundTrip |
| agents/open_agents/utils.py:32 | `return memory[:1000]` returns the oldest 1000 items, although the comment says "Keep last 1000 items". | A memory of 1000 zeros, then `update_memory(memory, 1)`: the returned list does not contain the 1. | Return `memory[-1000:]`, the newest 1000 items. | not executed | OpenAgentsUtils.KeptAsWrittenLosesNewest | OpenAgentsUtils.KeptLastSpec |
