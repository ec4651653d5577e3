# Bug-triage workflow: a Dafny model

This project models the triage workflow of a small code-debugging assistant,
and proves properties of that model. A user describes a piece of buggy code.
A graph of seven nodes then handles it:

- `agent` asks a language model for a verdict: an explanation, whether there
  is a bug, a suggested fix and a severity.
- `verify_patch` runs the fix through a patch oracle.
- `bug_fixer` is meant to restart the conversation from the fix when the
  oracle still finds the bug. In the workflow as coded it receives the
  status message instead, and passes the state through (see below).
- `simulate_paths`, `rank_severity` and `generate_tests` add three analyses
  of the original code.
- `summarize` joins every assistant message into one answer.

The helpers of `utils/tools.py` that the workflow and its tools rely on are
modelled too: the patch oracle `simulate_bug_trigger`, `explain_code`,
`generate_tests` and `patch_code`.

The model is purely functional, as the source is.

- **Nodes** (`nodes.dfy`). Each node is a function from a conversation state
  to the next state, or to the exception it raises.
- **Environment.** Everything outside the program is a parameter of type
  `Env`:
  - the two model calls of the agent, indexed by the agent call number so
    that a retry may get a different answer;
  - the path simulator, the severity ranker and the unit-test generator;
  - the `exec` of the patch oracle;
  - the text of a `JSONDecodeError`.
- **Runner** (`graph.dfy`). The `app.invoke` runner is a recursive function
  bounded by a step limit, which stands for LangGraph's recursion limit.
- **JSON** (`json*.dfy`). The agent writes its verdict with `json.dumps` and
  the later nodes read it with `json.loads`. Both are modelled concretely:
  - the default `json.dumps` format, with `ensure_ascii`;
  - a `json.loads` that follows CPython's scanner, including `NaN` and
    `Infinity`, surrogate-pair escapes and last-wins duplicate keys, within
    CPython's int-string and nesting limits.

  `JsonRoundTrip.RoundTrip` proves that decoding an encoding gives the value
  back. The workflow proofs rest on that.
- **Text helpers** (`text.dfy`). These are Python's `strip`, `in`, `find`,
  `split`, `join` and `str(int)`.

Two edge tables are modelled:

- **The table as written.** It has no edge out of `agent`, so every run ends
  after the first node (see Findings).
- **The intended table.** It adds `agent -> verify_patch`. The workflow
  properties are proved on this table.

The code differs from the natural reading of the design on one point:

- `verify_patch` appends a plain status string, such as
  `❌ Patch failed!`, which is not JSON.
- So when the retry edge leads to `bug_fixer`, that node never finds a fix
  to apply. It always passes the state through unchanged, and the agent is
  then asked about the status string.
- The fix is never handed back to the agent, and the conversation's first message stays
  the user's description throughout (`Graph.FixerPassesThrough`,
  `Graph.StepKeepsInv`).
- When every fix fails the oracle, the loop never ends. Every step limit is
  used up (`Graph.FailingFixesNeverAnswer`).

## Model

| member | source | states |
|---|---|---|
| Tools.BugTriggerSpec | utils/tools.py:61-71 | The oracle says "fixed" (false) exactly when all three hold: `exec` succeeds, some binding is callable, and the first callable binding, called with the test input, returns a value equal to `expected`. Every `Exception` that `exec` or the call raises gives true, and so does the case with no callable binding. A returned value is compared as Python's `!=` compares it with an int: bools as 0 or 1, floats by exact value. |
| Tools.FirstCallable | utils/tools.py:65 | The index found is the first callable binding in insertion order. `None` means no binding is callable. |
| Tools.CallablesHead | utils/tools.py:65-66 | The filtered list is empty exactly when no binding is callable. Otherwise its head is called just as the first callable binding is. |
| Tools.ExplainCode | utils/tools.py:136-139 | The result is the "Likely a function" message if and only if the code contains both `def` and `return`, and the "Can't determine purpose" message otherwise. |
| Tools.GenerateTestsSpec | utils/tools.py:211-220 | Without `return` the printed suggestion is the notice. With `return`, there is an occurrence after which no other starts, and the printed test asserts on the stripped text after it. |
| Tools.LastReturn | utils/tools.py:214-216 | Gives the position of the last `return`, and the printed suggestion is the test line built on the stripped text after it. |
| Tools.PatchCodeSpec | utils/tools.py:194-199 | A JSON object gives the header, `str` of its `suggested_fix` (`None` when the key is missing) and then the code, in that order. Any other output, including text that is not JSON, gives the notice. |
| Tools.PatchEndsWithCode | utils/tools.py:196-197 | For an object, the patch text is longer than the code, ends with the code and starts with the patch header. |
| Text.StripSpec | utils/tools.py:215 | `strip()` gives the slice left between a whitespace prefix and a whitespace suffix. It is empty exactly when the text is all whitespace, and otherwise neither starts nor ends with whitespace. |
| Text.FindSpec | utils/tools.py:137 | `find` gives the first occurrence, and gives none exactly when the substring does not occur. This is what `in` tests. |
| Text.SplitLast | utils/tools.py:215 | `split(sep)[-1]` is a suffix that holds no separator. It is the whole text when the separator does not occur, and otherwise it directly follows an occurrence. |
| Text.JoinSplit | utils/tools.py:215 | Joining the pieces of `split(sep)` with `sep` gives back the text. |
| Text.DecimalRoundTrip | utils/tools.py:197 | Reading the decimal text of a natural number gives back the number. |
| Text.NatToDecimal | utils/tools.py:197 | `str(n)` is a non-empty run of digits with no leading zero, and `0` for zero. |
| JsonRoundTrip.RoundTrip | agents/langgraph_agent.py:100-105 | `json.loads(json.dumps(v)) == v` for every value with distinct keys and valid float texts, within CPython's int-string and nesting limits. |
| JsonDecoded.DecodedWellFormed | agents/langgraph_agent.py:90 | Whatever `json.loads` returns has distinct keys and valid float texts, so the round trip applies to it. |
| JsonDecoded.DecodeEmpty | agents/langgraph_agent.py:168-170 | `json.loads("")` raises. |
| JsonDecoded.DecodeRejects | agents/langgraph_agent.py:134 | A text whose first character cannot start JSON and is not whitespace is rejected. |
| Nodes.IndexOf | agents/langgraph_agent.py:88 | The index found holds the character. |
| Nodes.IndexOfFirst | agents/langgraph_agent.py:88 | No earlier index holds the character, and `None` means no index holds it. |
| Nodes.LastIndexOfLast | agents/langgraph_agent.py:88 | No later index holds the character, and `None` means no index holds it. |
| Nodes.BraceMatchSpec | agents/langgraph_agent.py:88 | `\{.*\}` with DOTALL matches if and only if some `{` comes before some `}`. The match runs from the first `{` to the last `}`, both included. |
| Nodes.Excerpt | agents/langgraph_agent.py:96 | `[:200]` keeps a prefix of exactly 200 characters of a longer text, and the whole text when it is that short. |
| Nodes.BraceMatchDecodesToDict | agents/langgraph_agent.py:88-90 | What `json.loads` makes of a brace match is a dict, or it raises. So the `.get` on a non-dict never fails on the fallback path. |
| Nodes.FallbackSpec | agents/langgraph_agent.py:83-98 | A decodable object between the braces gives its four fields. Without braces, the explanation is the notice prefix, then the first min(200, length) characters of the stripped reply, then `...`. A raising model call, or a match that is not a decodable object, gives the double-failure prefix. In those last cases the other three fields keep their defaults. |
| Nodes.TierOrder | agents/langgraph_agent.py:76-94 | When the structured parser returns a dict, its fields (with the defaults `""`, `False`, `""`, `"low"`) are the verdict, whatever the plain call would say. Otherwise the fallback on the plain call decides. |
| Nodes.AgentNode | agents/langgraph_agent.py:66-69 | The agent raises exactly when the conversation is empty (`messages[-1]`). |
| Nodes.AgentAppendsVerdict | agents/langgraph_agent.py:66-111 | The agent keeps the earlier messages, appends one AI message and clears `retry`. That message decodes to an object holding exactly the keys explanation, bug_found, suggested_fix and severity, with the verdict on the last message. |
| Nodes.ReplyReadsBack | agents/langgraph_agent.py:100-105 | The agent's reply decodes back to the object it encodes, and its `suggested_fix` is the verdict's fix. |
| Nodes.BugFixerSpec | agents/langgraph_agent.py:113-129 | The fixer replaces the conversation with one human message holding the stripped fix, and clears `retry`, exactly when the last message is a JSON object whose `suggested_fix` is a string that is not blank after stripping. In every other case it returns the state unchanged: an empty conversation, a message that is not a JSON object, a missing, non-string or blank fix. |
| Nodes.VerifyPatchNode | agents/langgraph_agent.py:131-149 | When it does not raise, the patch check keeps the conversation and appends exactly one message. |
| Nodes.VerifyPatchSpec | agents/langgraph_agent.py:134-148 | On a JSON object, `retry` is set if and only if the fix is truthy and the oracle (input `[1, 3, 2]`, expected `3`) still finds the bug. The appended status is the one of the three that matches. |
| Nodes.VerifyAgentReply | agents/langgraph_agent.py:134-141 | The fix that `verify_patch` tests is the one the agent wrote. |
| Nodes.StatusNotJson | agents/langgraph_agent.py:140-143 | None of the three status strings decodes as JSON. |
| Nodes.SimulatePathsNode | agents/langgraph_agent.py:151-155 | Appends the path simulation of the first message. Raises only on an empty conversation. |
| Nodes.RankSeverityNode | agents/langgraph_agent.py:157-161 | Appends `🔺 Severity: ` and the ranking obtained for the first message. Raises only on an empty conversation. The ranking is a parameter, and `rank_bug_severity`'s prompt (utils/tools.py:180-187) does not include the code, so nothing ties the ranking to it. |
| Nodes.TestCodeFenced | agents/langgraph_agent.py:168-176 | A reply that contains `json\n` is kept unchanged, because the lazy group captures `""` and that fails to parse. |
| Nodes.TestCodeObject | agents/langgraph_agent.py:170-173 | A reply without the fence that is a JSON object gives its string `test_code`, or `# ❌ No 'test_code' key.` when the key is missing. It gives nothing exactly when `test_code` is present but not a string. |
| Nodes.TestCodeOther | agents/langgraph_agent.py:172-176 | A reply without the fence that is not a JSON object is kept unchanged. |
| Nodes.GenerateTestsNode | agents/langgraph_agent.py:163-180 | Appends the kept test text for the first message. Raises exactly on an empty conversation or a `test_code` that is not a string (`Nodes.TestCodeObject`). |
| Nodes.SectionsSpec | agents/langgraph_agent.py:185 | There is one section per AI message, in order, and each is that message stripped. Human messages give none. |
| Nodes.SectionsAppend | agents/langgraph_agent.py:185 | The sections of a concatenation are the concatenated sections. |
| Nodes.SectionsOfRun | agents/langgraph_agent.py:183-187 | For a human message followed by five AI messages, the sections are the five stripped texts, in order. |
| Nodes.SummarizeNode | agents/langgraph_agent.py:182-187 | The summary replaces the conversation with a single AI message and leaves `retry` as it was. |
| Graph.Routing | agents/langgraph_agent.py:206-219 | `bug_fixer` is reached only from `verify_patch` with `retry` set, and `agent` only from `bug_fixer`. Without `retry`, `verify_patch` goes to `simulate_paths`. From there the run stays downstream and never returns. Only `summarize` has no next node. |
| Graph.AsWrittenStopsAfterAgent | agents/langgraph_agent.py:204-219 | With the edges as written, every run ends after `agent`, and its answer is the agent's JSON reply. |
| Graph.StepKeepsInv | agents/langgraph_agent.py:113-180 | Before the summary, each node keeps the invariant. The first message stays the user's description and the conversation only grows. The patch check sees an agent reply and the fixer sees the failure status. Only `generate_tests` can raise, and only on a non-string `test_code`. |
| Graph.FixerPassesThrough | agents/langgraph_agent.py:117-129 | Entered from the patch check, the fixer returns the state unchanged. |
| Graph.RunOutcomes | agents/langgraph_agent.py:229 | For any node implementation that keeps an invariant, a run ends in the summary of a state in the invariant, fails only with a non-string `test_code`, or uses up its steps. |
| Graph.AnswerOutcomes | agents/langgraph_agent.py:223-233 | `debug_tool_issue_v2` on the intended table gives the summary of a conversation that still starts with the description, or the `test_code` error, or the step-limit error. |
| Graph.NoRetryRun | agents/langgraph_agent.py:204-233 | Consider a run whose first fix is missing or passes the oracle, and whose test generator's reply yields a string `test_code` (or has no `test_code` key, contains the fence or is not an object). Such a run takes six steps. Its answer joins five stripped texts with `\n\n---\n\n`: the agent's reply, the status, the paths, the severity and the test. With fewer than six steps, such a run gives up. |
| Graph.FailingFixesLoop | agents/langgraph_agent.py:206-215 | When every turn goes agent, patch check, fixer and back to the agent, no step limit lets the run finish. |
| Graph.FailingFixesNeverAnswer | agents/langgraph_agent.py:206-215 | When every fix fails the oracle, `debug_tool_issue_v2` ends in the step-limit error, whatever the limit. |

## Left out

- Language-model calls, the HTTP tools, the `ast`-based analysers and `exec`: these are network calls or dynamic evaluation. Their outcomes are the parameters in `Env` and `Executor`.
- `tool_outputs`: every node sets it to `[]` or copies it unchanged, and nothing reads it.
- `add_messages` id bookkeeping: it is modelled as a plain append.
- `timed_node`, and all printing, including the header line that `generate_tests` prints before its suggestion: these are output only.
- LangGraph's compile-time validation: it is library behaviour outside the source. The step limit is a parameter.
- Termination of the retry loop: nothing bounds it. The runner is bounded by its step limit.
- Tools.SimulateBugTrigger: a `BaseException` that is not an `Exception` (`SystemExit` from `exit()` in the fix, `KeyboardInterrupt`) is not modelled. The oracle does not catch it, and it would escape `verify_patch` and `app.invoke`. `ExecRaised` and `CallRaised` stand only for the `Exception`s the oracle catches.
- A fix whose top-level code or call never returns: it would hang the run. The model's executor always gives an outcome.
- `repr` of floats, lists and dicts inside `str(fix)`: this is a parameter of `Tools.PyStr`. Floats keep their JSON text, so neither float re-rendering nor underflow is modelled.
- Json.Decode, Json.Encode, Text.IntToDecimal: CPython's limit of 4300 digits on int-string conversion is not modelled. Past it, `json.loads`, `json.dumps` and `str()` raise `ValueError`. Nor is the interpreter's recursion limit on nesting depth, past which they raise `RecursionError`. The model converts integers of any size and values of any depth.
- Lone surrogate escapes in JSON text: Dafny's `char` has no surrogates, so they make the model's `json.loads` fail.
- The text of a `JSONDecodeError`: this is the parameter `decodeError`.
- The `# ❌ Failed to parse unit test.` branch (agents/langgraph_agent.py:176): it cannot be reached while the generator returns a string.
- Non-string `test_code`: a `test_code` that is not a string is modelled as raising at `generate_tests`. Python would fail a little later, when a message is built from it or at `summarize`'s `strip()`.
- `get_llm_with_fallback`, `debugger_agent.py`, the UI, the schema loader and the tests: these are LLM setup, a REPL, a UI, file I/O and assertions that depend on the LLM.

## Findings

| source | as written | input that shows it | evidently intended | confidence | as-written member | corrected member |
|---|---|---|---|---|---|---|
| agents/langgraph_agent.py:204-219 | No edge leaves `agent`, so the run ends after the first node. The patch check, the analyses and the summary never run. | Any description, with any step limit of at least 1: the answer is the agent's raw JSON reply. | An edge `agent -> verify_patch`, so that the verdict is checked, analysed and summarised. | not executed | Graph.AsWrittenStopsAfterAgent | Graph.NoRetryRun |
