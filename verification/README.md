# rlm-scaffold: the reasoning loop, its REPL, its parser and its model gateway

This project models the core of the RLM scaffold in Dafny. The scaffold is a
loop that asks a root language model for a response and runs the response's
```` ```repl ```` code blocks in a persistent Python REPL, whose builtins table
leaves out `eval`, `exec`, `compile` and `input`. The loop
stops when the code calls `FINAL`/`FINAL_VAR` or when the text carries a
termination marker. Otherwise it feeds the (truncated) output back as the next
user message, for at most 15 rounds. Code in the REPL can ask further
questions of a model through `llm_query`, which retries transient failures
with a doubling backoff, and through `llm_query_batched`.

The project has six modules, one per concern:

- `Text` (`text.dfy`): Python string behaviour the core relies on. It covers
  `str.isspace`, `in`, `strip()`, `lower()`, `str(n)`, `f"{n:,}"` and
  `sep.join`.
- `Values` (`values.dfy`): the values a REPL namespace holds. Each value
  carries its `str`, its `repr` and its type name.
- `Parsing` (`parsing.dfy`): `find_code_blocks`, `find_final_answer` and
  `truncate_output`. Each regular expression is written out as the scan the
  regex engine performs, next to a declarative statement of what a match
  is. The two are proved to agree.
- `Gateway` (`gateway.dfy`): `llm_query` and `llm_query_batched`. The API is
  an oracle that answers each attempt.
- `Sandbox` (`sandbox.dfy`): the `RLMRepl` object as a class with the two
  fields the source updates, `namespace` and `_final_answer`. The
  `final_answer` property is the `finalAnswer` field, read directly. A code
  block is given as the script of effects it has on the REPL.
- `Controller` (`controller.dfy`): `build_context_message` and `run_rlm`.
  `run_rlm` is an imperative method proved equal to a functional
  specification of the rounds. The root model is an oracle from the
  message list to a reply or a failure.

Three behaviours of the code are worth knowing before reading the contracts:

- A truncated text is longer than `max_length`. For `max_length` of 2 or
  more, `truncate_output` (rlm/rlm_parsing.py:51-64) keeps
  `2 * (max_length // 2)` characters and adds the marker to them
  (`Parsing.TruncationLayout`). For 0 and 1 it keeps the whole text after
  the marker (see "## Findings").
- The marker reports `len - max_length`, while the docstring at
  rlm/rlm_parsing.py:52-54 says it shows how much was cut. The two differ
  by one when `max_length` is odd, because one character more is dropped
  than reported (`Parsing.TruncationLayout`).
- A response without code blocks is nudged once even when it carries a
  `FINAL(...)` marker whose answer is empty. The test at
  rlm/rlm_cli.py:80-81 checks the answer for truthiness, not for presence
  (`Controller.NoCodeNudges`).

## Model

| member | source | states |
|---|---|---|
| Text.FindFrom | rlm/rlm_helper.py:66-67 | The first occurrence of a pattern at or after a position: the pattern occurs there, nowhere between the start and it, and nowhere at all when none is found (`in` is `FindFrom(...).Some?`) |
| Text.Strip | rlm/rlm_parsing.py:17 | `strip()` is the slice left after the leading whitespace run, followed only by whitespace, and it neither starts nor ends with whitespace |
| Text.StripSkipsLeadingSpace | rlm/rlm_parsing.py:15-17 | Whitespace in front of a text does not change what `strip()` returns |
| Text.NoOccurrenceInSlice | rlm/rlm_parsing.py:15-17 | A slice of a text contains no occurrence of a pattern that the text has at none of the slice's positions |
| Text.Lower | rlm/rlm_helper.py:66-67 | `lower()` keeps the length and maps each character on its own |
| Text.LowerKeepsDigitPattern | rlm/rlm_helper.py:66-67 | Lower-casing finds a digits-only pattern such as "429" exactly where the original text has it |
| Text.NatToString | rlm/rlm_parsing.py:62 | `str(n)` for a count is a non-empty string of decimal digits |
| Text.ParseNatToString | rlm/rlm_parsing.py:62 | The count written by `str` reads back as the same count |
| Text.ThousandsDropsToDigits | rlm/rlm_cli.py:37-38 | `f"{n:,}"` differs from `str(n)` only by the inserted commas |
| Text.JoinLayout | rlm/rlm_cli.py:121 | `"\n".join(parts)` holds every part at its offset, in order, with one separator after each part but the last, and is exactly as long as the parts plus those separators |
| Values.ToStr | rlm/rlm_repl.py:83 | `str` of a string is the string itself, and only a string or another object can render as empty: `None`, the builtins table and functions never do |
| Values.ToRepr | rlm/rlm_repl.py:103 | `repr` of a string starts and ends with the same quote character, which is `"` exactly when the text holds a single quote and no double quote, and is never shorter than the text plus its quotes; `None`, the builtins table and functions have the same `repr` as `str` |
| Values.PlainRepr | rlm/rlm_repl.py:103 | A string with no quote, backslash or control character has its text, unchanged, between single quotes as its `repr` |
| Values.SingleQuotedTextRepr | rlm/rlm_repl.py:103 | A string holding a single quote and no double quote is written between double quotes, with its escaped text between them and its single quotes left as they are |
| Parsing.BlockAt | rlm/rlm_parsing.py:15-16 | The code-block pattern tried at one position: what it finds is a match there, meaning the opener, whitespace ending in a newline, and a group up to the first closing fence |
| Parsing.BlockAtComplete | rlm/rlm_parsing.py:15-16 | Whenever a match of the pattern starts at a position, the scan there finds one |
| Parsing.BlockSpans | rlm/rlm_parsing.py:15-16 | `re.findall`'s successive matches: each is a match of the pattern, each starts after the previous one's closing fence, and no match is skipped: none starts before the first, in a gap between two, or after the last |
| Parsing.FindCodeBlocks | rlm/rlm_parsing.py:10-17 | One code block per match, in order, each the stripped group of its match |
| Parsing.CodeBlocksBetweenFences | rlm/rlm_parsing.py:15-17 | Each block is the stripped text between a ```` ```repl ```` opener and the next fence, and no block contains a fence |
| Parsing.BlockBetweenFences | rlm/rlm_parsing.py:15-17 | For one match, the whitespace the pattern consumes before the newline does not reach the stripped block, and the block is fence-free |
| Parsing.StripKeepsAbsence | rlm/rlm_parsing.py:17 | Stripping cannot create an occurrence of a pattern |
| Parsing.BlockSpansEmpty | rlm/rlm_parsing.py:15-16 | No match is reported from a position on exactly when no match of the pattern starts there or later |
| Parsing.NoBlocksIffNoMatch | rlm/rlm_parsing.py:10-17 | `find_code_blocks` is empty exactly when the pattern matches nowhere, and in particular when the text has no ```` ```repl ```` |
| Parsing.FinalVarAtMatches | rlm/rlm_parsing.py:31 | The `FINAL_VAR` scan at a position finds a name exactly when the regular expression can match there capturing that name (both directions) |
| Parsing.FinalVarAtSound | rlm/rlm_parsing.py:31 | A name the scan finds is a match of the pattern |
| Parsing.FinalVarAtComplete | rlm/rlm_parsing.py:31 | Every match of the pattern is found by the scan, with its captured name |
| Parsing.Leftmost | rlm/rlm_parsing.py:31 | `re.search`'s leftmost rule: the result is a position where the pattern matches, with nothing matching before it, or none when it matches nowhere |
| Parsing.LeftmostOf | rlm/rlm_parsing.py:31 | A matching position with no match before it is what the search returns |
| Parsing.FinalVarSearchHit | rlm/rlm_parsing.py:31 | What the `FINAL_VAR` search returns is a name the scan finds at the returned position |
| Parsing.LeftmostFinalVar | rlm/rlm_parsing.py:31-33 | The search lands on the leftmost match of the by-reference pattern, with its name |
| Parsing.FirstCloser | rlm/rlm_parsing.py:39 | The lazy group ends at the first `)` from which only whitespace separates a line break or the end of the text, and at no earlier position |
| Parsing.FinalCallAt | rlm/rlm_parsing.py:39 | The literal pattern tried at one position: when it matches, there is an opener there and the result is the first closer after the opener. It fails exactly when there is no opener there or no closer after it |
| Parsing.FinalCallSearchHit | rlm/rlm_parsing.py:39 | What the literal search returns is an opener and the closer that ends its group |
| Parsing.FinalCallAtFirstOpener | rlm/rlm_parsing.py:39 | The literal search settles on the first `FINAL(` of the text: it matches there when a closer follows it, and nowhere otherwise |
| Parsing.FirstOpenerCloses | rlm/rlm_parsing.py:39 | When the first opener has a closer after it, the match is that opener with its first closer |
| Parsing.FirstOpenerUnclosed | rlm/rlm_parsing.py:39 | When the first opener has no closer after it, no later opener has one either, and the pattern does not match |
| Parsing.Unquote | rlm/rlm_parsing.py:43-44 | One layer of matching quotes is removed exactly when the answer has at least two characters and starts and ends with the same quote character, and the quotes are all that is removed |
| Parsing.LiteralAnswerAtFirstOpener | rlm/rlm_parsing.py:38-47 | The literal answer is the stripped, unquoted text between the first `FINAL(` and its closer, or none |
| Parsing.LiteralAnswer | rlm/rlm_parsing.py:38-45 | The literal marker's answer exists only when the text contains `FINAL(`, and it is shorter than the text by at least the opener and the closing parenthesis |
| Parsing.FindFinalAnswer | rlm/rlm_parsing.py:20-47 | Without a REPL only the literal marker can answer. An answer other than the literal one comes from a `FINAL_VAR(` in the text, looked up in the REPL's namespace |
| Parsing.ByReferenceTakesPrecedence | rlm/rlm_parsing.py:30-36 | When the leftmost `FINAL_VAR` names a variable bound to a value other than None, the answer is that value's `str`, whatever literal marker the text holds |
| Parsing.FallsThroughToLiteral | rlm/rlm_parsing.py:30-45 | With no REPL, no by-reference match, or a leftmost match naming an unbound variable or one bound to None, the answer is the literal marker's |
| Parsing.NoMarkerNoAnswer | rlm/rlm_parsing.py:20-47 | With neither marker in the text there is no answer |
| Parsing.TruncateOutput | rlm/rlm_parsing.py:55-56 | A text within the limit is returned unchanged |
| Parsing.TruncationLayout | rlm/rlm_parsing.py:58-63 | A truncated text is the first `max_length // 2` characters, the marker reporting `len - max_length`, and the last `max_length // 2` characters. The characters dropped are the reported count plus `max_length % 2`, and the count reads back from the marker |
| Parsing.TruncationKeepsEnds | rlm/rlm_parsing.py:58-63 | The kept head, the marker and the kept tail, each at its place in the result |
| Parsing.TruncationReadsBack | rlm/rlm_parsing.py:59-62 | The number between the marker's brackets, read at the positions `max_length` determines, is `len - max_length` |
| Parsing.MarkerReadsBack | rlm/rlm_parsing.py:62 | The digits between the marker's fixed parts read back as the count it reports |
| Parsing.LayoutReadsBack | rlm/rlm_parsing.py:60-63 | Between any two ends of `max_length // 2` characters, the marker reads back as its count |
| Parsing.TruncateKeepZeroKeepsEverything | rlm/rlm_parsing.py:58-63 | As written, with `max_length` 0 or 1 the result is the marker followed by the whole text: it reports at least one truncated character and drops none |
| Parsing.TruncateOutputFixed | rlm/rlm_parsing.py:55-63 | The corrected truncation returns a text within the limit unchanged |
| Parsing.FixedNeverOverreports | rlm/rlm_parsing.py:58-63 | The corrected truncation keeps `max_length // 2` characters from each end around the marker for every limit, and never keeps a character the marker counts as truncated |
| Parsing.FixedAgreesFromTwo | rlm/rlm_parsing.py:58-63 | For every limit of 2 or more, including the 20000 the loop uses, the corrected truncation is the source's |
| Gateway.BuildRequest | rlm/rlm_helper.py:51-57 | A missing or empty model becomes the default model and a missing or zero token limit becomes 4096; otherwise both are kept. `system` is sent exactly when it is a non-empty string, and unchanged |
| Gateway.TransientIgnoresCase | rlm/rlm_helper.py:66-67 | A failure message and its lower-cased form are classified alike |
| Gateway.IsTransient | rlm/rlm_helper.py:66-67 | A failure message that holds "rate", "overloaded", "429" or "529" is transient, and one that holds none of them, neither as written nor lower-cased, is fatal |
| Gateway.Backoff | rlm/rlm_helper.py:59-70 | Every backoff lies in (0, 60] |
| Gateway.SleepSchedule | rlm/rlm_helper.py:59-70 | Within the five attempts the sleeps are 1, 2, 4 and 8 seconds, in that order |
| Gateway.Retry | rlm/rlm_helper.py:60-72 | The retry loop makes between one and five attempts and sleeps once between each two |
| Gateway.FirstStop | rlm/rlm_helper.py:60-72 | The first attempt that ends the call (a reply, a fatal failure, or the fifth attempt) exists, and no earlier attempt ends it |
| Gateway.RetryClosedForm | rlm/rlm_helper.py:60-72 | The call returns what its first stopping attempt yields, after sleeping the backoff of each earlier attempt, and makes no further attempt |
| Gateway.FirstSuccessReturned | rlm/rlm_helper.py:61-63 | After transient failures, the first reply is returned at once, with the sleeps before it, and the failures are never surfaced |
| Gateway.FatalFailurePropagates | rlm/rlm_helper.py:64-72 | A fatal failure propagates on the attempt where it occurs, with no sleep after it |
| Gateway.LastTransientPropagates | rlm/rlm_helper.py:68-72 | A transient failure on the fifth attempt propagates after four sleeps of 1, 2, 4 and 8 seconds |
| Gateway.RetryBounds | rlm/rlm_helper.py:59-72 | Every call makes one to five attempts, and its sleeps are a prefix of 1, 2, 4, 8 |
| Gateway.LlmQuery | rlm/rlm_helper.py:38-72 | The loop with its mutable backoff returns, sleeps and attempts exactly what the retry specification prescribes for the request it builds |
| Gateway.CollectedStep | rlm/rlm_helper.py:94-96 | Storing the next completed reply at its prompt's index keeps every stored reply equal to that prompt's call result |
| Gateway.CollectedFull | rlm/rlm_helper.py:87-98 | Once every call has completed successfully, every slot is filled with its own prompt's reply |
| Gateway.CallFor | rlm/rlm_helper.py:89-90 | The call for prompt `i` returns that prompt's single-call result |
| Gateway.LlmQueryBatched | rlm/rlm_helper.py:75-98 | With no prompts, the pool's zero-worker error. Otherwise the list succeeds exactly when every call succeeds, and then its `i`-th entry is prompt `i`'s reply, whatever the completion order. On failure it holds the error of the first call to fail in completion order, and every call completed before that one succeeded |
| Sandbox.SafeBuiltins | rlm/rlm_repl.py:19-38 | The REPL's builtins table holds the interpreter's builtins minus `eval`, `exec`, `compile`, `input` and `__import__`, with `__import__` bound again |
| Sandbox.SandboxBlocksEvaluation | rlm/rlm_repl.py:19-38 | Whatever the interpreter provides, the REPL's builtins table binds `__import__` and does not bind `eval`, `exec`, `compile` or `input` |
| Sandbox.BootstrapNamespace | rlm/rlm_repl.py:40-48 | A new namespace binds exactly the six injected names, `__builtins__` to the safe table |
| Sandbox.StrLessTotal | rlm/rlm_repl.py:100 | Python's string order is total, so `sorted` has one answer |
| Sandbox.StrLessTransitive | rlm/rlm_repl.py:100 | Python's string order is transitive |
| Sandbox.SortedKeys | rlm/rlm_repl.py:100 | `sorted` lists every key of the namespace once, and nothing else, each key below the next |
| Sandbox.IncreasingAll | rlm/rlm_repl.py:100 | In a sorted list every key is below every later key, so no key occurs twice |
| Sandbox.LeastKey | rlm/rlm_repl.py:100 | The loop picks a key of the set that no other key is below |
| Sandbox.Preview | rlm/rlm_repl.py:103-105 | A `repr` of at most 200 characters is kept whole. A longer one is cut to 200 characters followed by "...", so a preview never exceeds 203 characters |
| Sandbox.ShowVarsOnlyHidden | rlm/rlm_repl.py:94-106 | A namespace with only injected or underscore names prints nothing, so a new REPL shows nothing |
| Sandbox.ShowVarsOneVisible | rlm/rlm_repl.py:94-106 | With exactly one visible variable, `SHOW_VARS` prints that variable's line alone, whatever hidden names surround it |
| Sandbox.LoadedContextIsTheOnlyVariable | rlm/rlm_repl.py:50-60 | After `load_context` on a new REPL, `SHOW_VARS` lists the context variable and nothing else |
| Sandbox.ShowVarsStep | rlm/rlm_repl.py:100-106 | One turn of the loop prints the least remaining key's line, if it is visible, and leaves the lines of the other keys to print |
| Sandbox.ShowLinesFromLeast | rlm/rlm_repl.py:100-106 | Listing a set of keys in order starts with its least key |
| Sandbox.ScriptWithoutFinalKeepsSlot | rlm/rlm_repl.py:81-92 | Only `FINAL` and `FINAL_VAR` write the answer slot; a block that calls neither leaves it as it was |
| Sandbox.CaptureIsAppendOnly | rlm/rlm_repl.py:68-79 | Captured stdout and stderr are only ever appended to |
| Sandbox.RaiseEndsScript | rlm/rlm_repl.py:73-77 | An exception ends the block: nothing after the raising statement has any effect |
| Sandbox.RunScript | rlm/rlm_repl.py:68-79 | `execute` of a block given by its effects: a block that calls neither `FINAL` nor `FINAL_VAR` leaves the answer slot as it was |
| Sandbox.Repl.constructor | rlm/rlm_repl.py:25-48 | A new REPL holds the bootstrap namespace, exactly the injected names, and an empty answer slot |
| Sandbox.Repl.LoadContext | rlm/rlm_repl.py:50-60 | Binds the text under the variable name, keeps every other binding and the slot, and returns the text's length |
| Sandbox.Repl.Final | rlm/rlm_repl.py:81-84 | Always overwrites the slot with `str(answer)`, prints the `FINAL(...)` line, and leaves the namespace alone |
| Sandbox.Repl.FinalVar | rlm/rlm_repl.py:86-92 | For a bound name, sets the slot to `str` of its value, even when that value is None. For an unbound name, prints the error line and leaves the slot as it was |
| Sandbox.Repl.ShowVars | rlm/rlm_repl.py:94-106 | The loop over the keys prints the specification's text: one line per visible variable, in sorted key order |
| Sandbox.Repl.Execute | rlm/rlm_repl.py:62-79 | Running a block changes the REPL and returns captured stdout, stderr and exception exactly as the script semantics prescribes |
| Sandbox.Repl.Cleanup | rlm/rlm_repl.py:112-115 | `cleanup` keeps the namespace and the slot and counts one more cleanup of the REPL |
| Controller.LineCount | rlm/rlm_cli.py:38 | `len(splitlines())` is zero exactly for the empty text, one for a non-empty text without line breaks, and never more than the length |
| Controller.PreviewLength | rlm/rlm_cli.py:32 | The preview length is the smaller of 2000 and the context's length: at most both, and equal to one of them |
| Controller.ContextPreview | rlm/rlm_cli.py:30-41 | The opening message ends with the first `min(2000, len)` characters of the context in a fence, and shows the whole context exactly when it has at most 2000 characters |
| Controller.BuildContextMessage | rlm/rlm_cli.py:31-42 | The opening message starts with the task header and the query, whatever the context |
| Controller.ReportedLengthReadsBack | rlm/rlm_cli.py:37 | The reported length, with its separators removed, reads back as the context's length |
| Controller.BlockOutput | rlm/rlm_cli.py:100-106 | A block's output starts with its stdout, and is empty exactly when stdout, stderr and the exception are all empty |
| Controller.CombineOutputs | rlm/rlm_cli.py:121 | "(no output)" when no block printed anything; a single output is passed through unchanged |
| Controller.ReplOutputMessage | rlm/rlm_cli.py:130-134 | The fed-back message holds `truncate_output(combined, 20000)`, and the whole output when it is within the limit |
| Controller.RunBlocks | rlm/rlm_cli.py:95-109 | Collecting the blocks' outputs keeps the earlier outputs as a prefix, adds at most one per block, and never adds an empty one |
| Controller.Round | rlm/rlm_cli.py:72-134 | A round appends the model's response. When it finds no answer, it also appends exactly one user message |
| Controller.RoundsStep | rlm/rlm_cli.py:60-134 | Once the root model replies, the loop is the round followed either by its answer or by the rest of the rounds |
| Controller.RoundsFail | rlm/rlm_cli.py:65-72 | A failure of the root call ends the run with that failure and no new message |
| Controller.Rounds | rlm/rlm_cli.py:60-134 | The rounds from one iteration on: a raised result is the root model's failure on the message list the rounds end with |
| Controller.Run | rlm/rlm_cli.py:49-144 | `run_rlm` as a function of the root model and the blocks' effects: with `str` of a namespace value never raising, the only exception it lets through is the root model's, raised on the final message list |
| Controller.RoundOfKeepsShape | rlm/rlm_cli.py:72-134 | Every round of `run_rlm` keeps the shape of the message list |
| Controller.RoundsShape | rlm/rlm_cli.py:60-139 | From an alternating list of odd length, the rounds leave a list that extends it, alternates and holds at most 31 messages. A failure leaves it of odd length; an answer after an odd number of messages is the sentinel, after the full budget |
| Controller.RunTranscript | rlm/rlm_cli.py:44-144 | A run's messages start with the context message, alternate user and assistant, and number at most 31. A failure of the root call ends the run after a user message. A run that answers after an odd number of messages made all 15 root calls and answers with the sentinel |
| Controller.SlotTakesPrecedence | rlm/rlm_cli.py:115-119 | The structured slot is checked before the output text, and wins even when it holds the empty string |
| Controller.OutputFedBack | rlm/rlm_cli.py:121-134 | When code ran and the slot is empty, the round stops exactly when the combined output holds a non-empty textual answer, and then returns it. Otherwise the truncated combined output is appended as one user message after the response |
| Controller.NoCodeNudges | rlm/rlm_cli.py:77-92 | A response without code blocks leaves the REPL alone. It stops the loop exactly when its textual answer is non-empty; otherwise exactly one nudge is appended |
| Controller.RunRound | rlm/rlm_cli.py:72-134 | The imperative round changes the REPL, builds the message list and finds the answer exactly as the round specification prescribes |
| Controller.RunStep | rlm/rlm_cli.py:60-134 | One pass of the loop moves the rounds still to come one iteration on, or ends them with the round's answer |
| Controller.Iteration | rlm/rlm_cli.py:60-134 | One pass of the `for` loop: a failure of the root call, an answer, or the rounds still to come, each as the specification prescribes |
| Controller.Converse | rlm/rlm_cli.py:59-139 | The `for` loop with its `break`s returns what the rounds specification returns, with the sentinel once the 15 rounds are spent |
| Controller.RunRlm | rlm/rlm_cli.py:44-144 | `run_rlm` returns the result and builds the message list of the functional specification, and the REPL it creates has been cleaned up exactly once, whichever way it ends |

## Left out

- Executing Python is not modelled. `exec`, the `redirect_stdout`/`redirect_stderr` capture and the execution lock are replaced by a script of effects (print, assign, delete, call `FINAL`/`FINAL_VAR`/`SHOW_VARS`, raise). The controller takes the script of each block from an oracle indexed by round, block index and code.
- Only `Exception` is caught by `execute`. A `BaseException` such as `SystemExit` raised by user code would escape the REPL; the model has no such step.
- The temporary directory and the context file that `load_context` writes are left out, because they are never read back. With them goes their failure path: `load_context` runs before the `try` of `run_rlm` (rlm/rlm_cli.py:50, :59), so a failed write of the file (rlm/rlm_repl.py:55-57) would leave `run_rlm` without calling `cleanup`; in the model the write cannot fail. `cleanup` is modelled as a count of cleanups kept on the REPL object; `__del__` is left out with the garbage collector.
- The API clients, the `ANTHROPIC_API_KEY` lookup and `_call_root_llm` are oracles. A missing key surfaces as the oracle's failure.
- `time.sleep` is not performed. The sequence of backoff values slept is returned instead.
- The thread pool is not modelled. The order in which the batch's calls complete is a parameter.
- Gateway.LlmQueryBatched: after the first failure, the model makes no further calls. The source's pool still waits for the calls already submitted, whose results are discarded.
- `main`, argument parsing, reading stdin or files, `log` and the verbose previews are left out as I/O. `rlm_prompts.py` is not part of this model.
- `repr` is approximated. Strings get Python's quoting and escaping of ASCII control characters, but non-printable non-ASCII characters are kept as they are. Other objects carry the `repr` and `str` given to them. Builtins tables and functions render as placeholders, because CPython's renderings include memory addresses.
- `\w` and `lower()` are ASCII only. Python's Unicode letters and digits in variable names, and non-ASCII case mappings, are not modelled.
- Parsing.TruncateOutput: takes a non-negative `max_length`; the negative limits Python would also accept are not modelled, because no caller passes one.
- Variable names passed to `FINAL_VAR` are strings. A non-string argument raising inside the REPL is a `Raise` step of the script.
- The loop of `run_rlm` is a `while` loop with answer and failure flags in place of `for` with `break`. The `try`/`finally` is one call of `Repl.Cleanup` after the loop, which also ends when the root call fails.
- Sandbox.SandboxBlocksEvaluation: the table is a deny-list, not a boundary, and two routes get past it. A block can `import builtins` and call `builtins.eval`, because `__import__` is bound again (rlm/rlm_repl.py:37-38). And `exec(code, self.namespace)` (rlm/rlm_repl.py:75) inserts the interpreter's full builtins under `__builtins__` when the key is missing, so after a block deletes `__builtins__` the next block gets the unrestricted builtins. The model's `Delete` leaves the key absent, and the reinsertion can only be given as an `Assign` step of the block's script.
- Controller.Run: `str` of a namespace value is assumed not to raise. `find_final_answer` calls `str(value)` outside `execute`'s `try` (rlm/rlm_parsing.py:36, reached from rlm/rlm_cli.py:80 and :124), so a user object whose `__str__` raises would escape `run_rlm` there; the model's values carry their `str` and never raise.

## Findings

| source | as written | input that shows it | evidently intended | confidence | as-written member | corrected member |
|---|---|---|---|---|---|---|
| rlm/rlm_parsing.py:58-63 | the tail is `text[-keep:]` with `keep = max_length // 2` | `truncate_output("abc", 1)`: `keep` is 0 and `text[-0:]` is the whole text, so the result is the marker reporting 2 truncated characters followed by all of "abc" | the tail is the last `keep` characters, none when `keep` is 0, so nothing counted as truncated is kept | not executed | Parsing.TruncateKeepZeroKeepsEverything | Parsing.FixedNeverOverreports |
