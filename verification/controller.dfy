/** The iteration controller: the opening message that describes the
    context, and the loop that asks the root model for a response, runs the
    response's code blocks in the REPL, and either stops on an answer or
    feeds the (truncated) output back. The root model is an oracle from the
    message history to a reply or a failure; the effects of running a code
    block are an oracle from (iteration, block index, code) to a script. */
module Controller {
  import opened Text
  import opened Values
  import opened Parsing
  import opened Gateway
  import opened Sandbox

  const MaxIterations: nat := 15
  const MaxOutputChars: nat := 20000
  const PreviewChars: nat := 2000
  const ContextVar: String := "context"
  const Sentinel: String := "(RLM reached max iterations without producing a final answer)"
  const Nudge: String :=
    "Please write code in a ```repl``` block to make progress on the task. Remember to call FINAL() when you have the answer."

  datatype Role = User | Assistant
  datatype Message = Message(role: Role, content: String)

  /** How `run_rlm` ends: with an answer, or with the exception the root
      call raised. */
  datatype RunResult = Answered(answer: String) | Raised(error: String)

  // ---------------------------------------------------------------------
  // build_context_message

  /** A character that ends a line for `str.splitlines`. */
  predicate IsLineBreak(c: char) {
    c == '\n' || c == '\r' || c == '\U{0B}' || c == '\U{0C}' || ('\U{1C}' <= c <= '\U{1E}')
    || c == '\U{85}' || c == '\U{2028}' || c == '\U{2029}'
  }

  /** `len(s.splitlines())`: every line counts, an empty one between two
      breaks too, `\r\n` is one break, and a break at the very end does not
      start another line. */
  function LineCount(s: String): (n: nat)
    decreases |s|
    ensures n <= |s|
    ensures n == 0 <==> s == []
    ensures (s != [] && forall i :: 0 <= i < |s| ==> !IsLineBreak(s[i])) ==> n == 1
  {
    if s == [] then 0
    else
      var e := RunEnd(s, 0, c => !IsLineBreak(c));
      if e == |s| then 1
      else
        var next := if s[e] == '\r' && e + 1 < |s| && s[e + 1] == '\n' then e + 2 else e + 1;
        1 + LineCount(s[next..])
  }

  function PreviewLength(context: String): (n: nat)
    ensures n <= |context| && n <= PreviewChars
    ensures n == |context| || n == PreviewChars
  {
    if |context| < PreviewChars then |context| else PreviewChars
  }

  /** `build_context_message(context, query)`: it opens with the task
      header and the query, whatever the context holds. */
  function BuildContextMessage(context: String, query: String): (m: String)
    ensures |"## Task\n" + query| <= |m| && m[..|"## Task\n" + query|] == "## Task\n" + query
  {
    var n := PreviewLength(context);
    var task := "## Task\n" + query;
    var rest := "\n\n"
      + "## Context\n"
      + "The input has been loaded into the `context` variable.\n"
      + "- Length: " + Thousands(|context|) + " characters\n"
      + "- Lines: " + Thousands(LineCount(context)) + "\n"
      + "- Preview (first " + NatToString(n) + " chars):\n"
      + "```\n" + context[..n] + "\n```";
    assert (task + rest)[..|task|] == task;
    task + rest
  }

  /** The opening message ends with the first `min(2000, len)` characters of
      the context in a fence; the whole context is shown exactly when it has
      at most 2000 characters. */
  lemma ContextPreview(context: String, query: String)
    ensures var n, msg := PreviewLength(context), BuildContextMessage(context, query);
      && |msg| >= n + 4
      && msg[|msg| - n - 4..] == context[..n] + "\n```"
      && (context[..n] == context <==> |context| <= PreviewChars)
  {
    var n := PreviewLength(context);
    var msg := BuildContextMessage(context, query);
    var head := msg[..|msg| - n - 4];
    assert msg == head + (context[..n] + "\n```");
  }

  /** The reported length, with its thousands separators removed, reads
      back as the length of the context. */
  lemma ReportedLengthReadsBack(context: String)
    ensures ParseNat(RemoveCommas(Thousands(|context|))) == |context|
  {
    ThousandsDropsToDigits(|context|);
    ParseNatToString(|context|);
  }

  // ---------------------------------------------------------------------
  // Output of the code blocks of one response

  /** The text one block contributes: its stdout, then its stderr and its
      exception, each under a header, each only when non-empty. */
  function BlockOutput(res: ExecResult): (out: String)
    ensures out == [] <==> res.stdout == [] && res.stderr == [] && (res.exception.None? || res.exception.value == [])
    ensures |res.stdout| <= |out| && out[..|res.stdout|] == res.stdout
  {
    res.stdout
    + (if res.stderr != [] then "\n[stderr]\n" + res.stderr else [])
    + (if res.exception.Some? && res.exception.value != [] then "\n[exception]\n" + res.exception.value else [])
  }

  /** The outputs of a response's blocks joined by newlines, or
      "(no output)" when no block printed anything. */
  function CombineOutputs(outputs: seq<String>): (combined: String)
    ensures outputs == [] ==> combined == "(no output)"
    ensures |outputs| == 1 ==> combined == outputs[0]
  {
    if outputs == [] then "(no output)" else Join(outputs, "\n")
  }

  /** The user message that feeds output back, truncated to 20000
      characters around a marker. Output within the limit is fed back
      whole; longer output is fed back as `truncate_output(combined, 20000)`
      computes it. */
  function ReplOutputMessage(combined: String): (m: String)
    ensures |combined| <= MaxOutputChars ==> m == "REPL output:\n```\n" + combined + "\n```"
    ensures m == "REPL output:\n```\n" + TruncateOutput(combined, MaxOutputChars) + "\n```"
  {
    FixedAgreesFromTwo(combined, MaxOutputChars);
    "REPL output:\n```\n" + TruncateOutputFixed(combined, MaxOutputChars) + "\n```"
  }

  /** How a block's script runs: the new state and what `execute` returns. */
  type Runner = (ReplState, Script) -> (ReplState, ExecResult)

  /** `repl.execute`, as the REPL runs a script. */
  ghost function Execution(): Runner {
    (st: ReplState, script: Script) => RunScript(st, script)
  }

  /** Runs `blocks[i..]` in turn from REPL state `st` with `run`, collecting
      the non-empty outputs after `outputs`. */
  ghost function RunBlocks(run: Runner, st: ReplState, exec: (nat, nat, String) -> Script, iteration: nat,
                           blocks: seq<String>, i: nat, outputs: seq<String>): (r: (ReplState, seq<String>))
    requires i <= |blocks|
    decreases |blocks| - i
    ensures |outputs| <= |r.1| <= |outputs| + |blocks| - i
    ensures r.1[..|outputs|] == outputs
    ensures forall k :: |outputs| <= k < |r.1| ==> r.1[k] != []
  {
    if i == |blocks| then (st, outputs)
    else
      var (st', res) := run(st, exec(iteration, i, blocks[i]));
      var out := BlockOutput(res);
      RunBlocks(run, st', exec, iteration, blocks, i + 1, if out != [] then outputs + [out] else outputs)
  }

  // ---------------------------------------------------------------------
  // The loop

  function TextAnswer(text: String, st: ReplState): Option<String> {
    FindFinalAnswer(text, Some(st.namespace))
  }

  /** A textual answer stops the loop only when it is truthy, that is,
      non-empty. */
  predicate Stops(answer: Option<String>) {
    answer.Some? && answer.value != []
  }

  /** What a round does to the message list: the model's response is
      appended, and when the round found no answer, one user message after
      it. */
  predicate RoundShape(messages: seq<Message>, response: String, r: (ReplState, seq<Message>, Option<String>)) {
    && (r.2.Some? ==> r.1 == messages + [Message(Assistant, response)])
    && (r.2.None? ==> |r.1| == |messages| + 2
                      && r.1[..|messages| + 1] == messages + [Message(Assistant, response)]
                      && r.1[|messages| + 1].role == User)
  }

  /** One round, once the root model has answered `response`: the new REPL
      state, the new message list, and the answer if the round found one. */
  ghost function Round(st: ReplState, messages: seq<Message>, exec: (nat, nat, String) -> Script,
                       iteration: nat, response: String): (r: (ReplState, seq<Message>, Option<String>))
    ensures r.2.Some? ==> r.1 == messages + [Message(Assistant, response)]
    ensures r.2.None? ==> (
      && |r.1| == |messages| + 2
      && r.1 == messages + [Message(Assistant, response), r.1[|messages| + 1]]
      && r.1[|messages| + 1].role == User)
    ensures RoundShape(messages, response, r)
  {
    var messages' := messages + [Message(Assistant, response)];
    var blocks := FindCodeBlocks(response);
    if blocks == [] then
      var fa := TextAnswer(response, st);
      if Stops(fa) then (st, messages', fa)
      else (st, messages' + [Message(User, Nudge)], None)
    else
      var (st', outputs) := RunBlocks(Execution(), st, exec, iteration, blocks, 0, []);
      if st'.finalAnswer.Some? then (st', messages', st'.finalAnswer)
      else
        var combined := CombineOutputs(outputs);
        var fa := TextAnswer(combined, st');
        if Stops(fa) then (st', messages', fa)
        else (st', messages' + [Message(User, ReplOutputMessage(combined))], None)
  }

  /** A round as a function of the REPL state, the messages so far, the
      iteration and the response of the root model. */
  type RoundFn = (ReplState, seq<Message>, nat, String) -> (ReplState, seq<Message>, Option<String>)

  /** The rounds of `run_rlm`, with `exec` standing for the code the REPL runs. */
  ghost function RoundOf(exec: (nat, nat, String) -> Script): RoundFn {
    (st: ReplState, messages: seq<Message>, iteration: nat, response: String) =>
      Round(st, messages, exec, iteration, response)
  }

  /** Every round keeps the shape of the message list. */
  ghost predicate KeepsShape(round: RoundFn) {
    forall st, messages, iteration, response ::
      RoundShape(messages, response, round(st, messages, iteration, response))
  }

  /** The rounds from `iteration` on, until an answer, a failure of the
      root call, or the end of the budget. What is raised is the root
      model's failure on the message list the rounds end with. */
  ghost function Rounds(st: ReplState, messages: seq<Message>, root: seq<Message> -> Outcome,
                        round: RoundFn, iteration: nat): (r: (RunResult, seq<Message>))
    requires 1 <= iteration <= MaxIterations + 1
    decreases MaxIterations + 1 - iteration
    ensures RaisesRootFailure(r, root)
  {
    if iteration > MaxIterations then (Answered(Sentinel), messages)
    else
      match root(messages)
      case Failure(error) => (Raised(error), messages)
      case Reply(response) =>
        var (st', messages', answer) := round(st, messages, iteration, response);
        if answer.Some? then (Answered(answer.value), messages')
        else Rounds(st', messages', root, round, iteration + 1)
  }

  /** A raised result is the root model's failure on the final message list. */
  ghost predicate RaisesRootFailure(r: (RunResult, seq<Message>), root: seq<Message> -> Outcome) {
    r.0.Raised? ==> root(r.1) == Failure(r.0.error)
  }

  /** The REPL as `run_rlm` prepares it: a new REPL with the context loaded. */
  function InitialState(context: String, available: set<String>): ReplState {
    ReplState(BootstrapNamespace(available)[ContextVar := PyStr(context)], None)
  }

  /** `run_rlm(query, context)`: its result and the final message list.
      The only exception it lets through is the root model's, raised on
      that final message list. */
  ghost function Run(query: String, context: String, available: set<String>,
                     root: seq<Message> -> Outcome, exec: (nat, nat, String) -> Script): (r: (RunResult, seq<Message>))
    ensures RaisesRootFailure(r, root)
  {
    Rounds(InitialState(context, available), [Message(User, BuildContextMessage(context, query))], root, RoundOf(exec), 1)
  }

  /** Messages alternate, starting with the user. */
  predicate Alternates(messages: seq<Message>) {
    forall i :: 0 <= i < |messages| ==> messages[i].role == (if i % 2 == 0 then User else Assistant)
  }

  /** How one more round unfolds the loop, once the root model replied. */
  lemma RoundsStep(st: ReplState, messages: seq<Message>, root: seq<Message> -> Outcome,
                   round: RoundFn, iteration: nat, response: String)
    requires 1 <= iteration <= MaxIterations && root(messages) == Reply(response)
    ensures var r := round(st, messages, iteration, response);
      Rounds(st, messages, root, round, iteration)
        == if r.2.Some? then (Answered(r.2.value), r.1) else Rounds(r.0, r.1, root, round, iteration + 1)
  {
  }

  /** A failure of the root call ends the rounds with that failure. */
  lemma RoundsFail(st: ReplState, messages: seq<Message>, root: seq<Message> -> Outcome,
                   round: RoundFn, iteration: nat)
    requires 1 <= iteration <= MaxIterations && root(messages).Failure?
    ensures Rounds(st, messages, root, round, iteration) == (Raised(root(messages).message), messages)
  {
  }

  /** The rounds of `run_rlm` keep the shape of the message list. */
  lemma RoundOfKeepsShape(exec: (nat, nat, String) -> Script)
    ensures KeepsShape(RoundOf(exec))
  {
  }

  /** An assistant message after an odd-length alternating list, and a user
      message after that, keep it alternating. */
  lemma AlternatesExtend(messages: seq<Message>, a: Message, u: Message)
    requires Alternates(messages) && |messages| % 2 == 1
    requires a.role == Assistant && u.role == User
    ensures Alternates(messages + [a])
    ensures Alternates(messages + [a, u])
  {
  }

  /** What the rounds from a list of `messages` leave behind: the list
      grown at its end, alternating, within the budget of 31 messages, and
      of a length that tells how the run ended. */
  predicate Transcript(messages: seq<Message>, run: (RunResult, seq<Message>)) {
    var (r, t) := run;
    && |messages| <= |t| <= 2 * MaxIterations + 1
    && t[..|messages|] == messages
    && Alternates(t)
    && (r.Raised? ==> |t| % 2 == 1)
    && (r.Answered? && |t| % 2 == 1 ==> r.answer == Sentinel && |t| == 2 * MaxIterations + 1)
  }

  /** A transcript of a longer list is one of each of its prefixes. */
  lemma TranscriptOfPrefix(messages: seq<Message>, longer: seq<Message>, run: (RunResult, seq<Message>))
    requires Transcript(longer, run)
    requires |messages| <= |longer| && longer[..|messages|] == messages
    ensures Transcript(messages, run)
  {
    assert run.1[..|messages|] == run.1[..|longer|][..|messages|];
  }

  lemma {:induction false} RoundsShape(st: ReplState, messages: seq<Message>, root: seq<Message> -> Outcome,
                                       round: RoundFn, iteration: nat)
    requires KeepsShape(round)
    requires 1 <= iteration <= MaxIterations + 1
    requires |messages| == 2 * iteration - 1 && Alternates(messages)
    decreases MaxIterations + 1 - iteration
    ensures Transcript(messages, Rounds(st, messages, root, round, iteration))
  {
    if iteration <= MaxIterations && root(messages).Reply? {
      var response := root(messages).text;
      var r := round(st, messages, iteration, response);
      assert RoundShape(messages, response, r);
      RoundsStep(st, messages, root, round, iteration, response);
      if r.2.Some? {
        StopShape(messages, response, r, iteration);
      } else {
        ContinueShape(messages, response, r);
        RoundsShape(r.0, r.1, root, round, iteration + 1);
        TranscriptOfPrefix(messages, r.1, Rounds(r.0, r.1, root, round, iteration + 1));
      }
    }
  }

  /** A round that answers leaves a transcript of the list it started from. */
  lemma StopShape(messages: seq<Message>, response: String, r: (ReplState, seq<Message>, Option<String>),
                  iteration: nat)
    requires RoundShape(messages, response, r) && r.2.Some?
    requires 1 <= iteration <= MaxIterations
    requires |messages| == 2 * iteration - 1 && Alternates(messages)
    ensures Transcript(messages, (Answered(r.2.value), r.1))
  {
    var a := Message(Assistant, response);
    AlternatesExtend(messages, a, a.(role := User));
    assert r.1[..|messages|] == messages;
  }

  /** A round that does not answer grows the list by an assistant and a
      user message, keeping it alternating. */
  lemma ContinueShape(messages: seq<Message>, response: String, r: (ReplState, seq<Message>, Option<String>))
    requires RoundShape(messages, response, r) && r.2.None?
    requires |messages| % 2 == 1 && Alternates(messages)
    ensures |r.1| == |messages| + 2 && r.1[..|messages|] == messages && Alternates(r.1)
  {
    var a := Message(Assistant, response);
    assert r.1 == messages + [a, r.1[|messages| + 1]];
    AlternatesExtend(messages, a, r.1[|messages| + 1]);
  }

  /** The message list of a run starts with the context message, alternates
      user and assistant messages, and holds at most 31 messages: one per
      round from the model and at most one fed back per round. A run that
      answers after an odd number of messages ran out of rounds: its answer
      is the sentinel and it made all 15 root calls. A failure of the root
      call ends the run right after the user message it was called on. */
  lemma RunTranscript(query: String, context: String, available: set<String>,
                      root: seq<Message> -> Outcome, exec: (nat, nat, String) -> Script)
    ensures var (r, t) := Run(query, context, available, root, exec);
      && |t| >= 1 && t[0] == Message(User, BuildContextMessage(context, query))
      && Alternates(t)
      && |t| <= 2 * MaxIterations + 1
      && (r.Raised? ==> |t| % 2 == 1)
      && (r.Answered? && |t| % 2 == 1 ==> r.answer == Sentinel && |t| == 2 * MaxIterations + 1)
  {
    var start := Message(User, BuildContextMessage(context, query));
    RoundsFromStart(InitialState(context, available), start, root, exec);
  }

  /** The rounds of `run_rlm` started from the opening message. */
  lemma RoundsFromStart(st: ReplState, start: Message, root: seq<Message> -> Outcome,
                        exec: (nat, nat, String) -> Script)
    requires start.role == User
    ensures var (r, t) := Rounds(st, [start], root, RoundOf(exec), 1);
      && |t| >= 1 && t[0] == start
      && Alternates(t)
      && |t| <= 2 * MaxIterations + 1
      && (r.Raised? ==> |t| % 2 == 1)
      && (r.Answered? && |t| % 2 == 1 ==> r.answer == Sentinel && |t| == 2 * MaxIterations + 1)
  {
    RoundOfKeepsShape(exec);
    RoundsShape(st, [start], root, RoundOf(exec), 1);
    TranscriptOfStart(start, Rounds(st, [start], root, RoundOf(exec), 1));
  }

  /** A transcript of the opening message starts with it. */
  lemma TranscriptOfStart(start: Message, run: (RunResult, seq<Message>))
    requires Transcript([start], run)
    ensures var (r, t) := run;
      && |t| >= 1 && t[0] == start
      && Alternates(t)
      && |t| <= 2 * MaxIterations + 1
      && (r.Raised? ==> |t| % 2 == 1)
      && (r.Answered? && |t| % 2 == 1 ==> r.answer == Sentinel && |t| == 2 * MaxIterations + 1)
  {
    assert run.1[0] == run.1[..1][0];
  }

  /** The structured slot is checked before the text of the output and
      wins over it, even when it holds the empty string. */
  lemma SlotTakesPrecedence(st: ReplState, messages: seq<Message>, exec: (nat, nat, String) -> Script,
                            iteration: nat, response: String, slot: String)
    requires FindCodeBlocks(response) != []
    requires RunBlocks(Execution(), st, exec, iteration, FindCodeBlocks(response), 0, []).0.finalAnswer == Some(slot)
    ensures Round(st, messages, exec, iteration, response).2 == Some(slot)
  {
  }

  /** With code blocks and an empty slot, the round stops exactly when the
      combined output holds a non-empty textual answer, and then answers
      it; otherwise the combined output goes back, truncated, as the one
      user message appended after the response. */
  lemma OutputFedBack(st: ReplState, messages: seq<Message>, exec: (nat, nat, String) -> Script,
                      iteration: nat, response: String)
    requires FindCodeBlocks(response) != []
    requires RunBlocks(Execution(), st, exec, iteration, FindCodeBlocks(response), 0, []).0.finalAnswer.None?
    ensures var (st', outputs) := RunBlocks(Execution(), st, exec, iteration, FindCodeBlocks(response), 0, []);
      var combined := CombineOutputs(outputs);
      var r := Round(st, messages, exec, iteration, response);
      && (r.2.Some? <==> Stops(TextAnswer(combined, st')))
      && (r.2.Some? ==> r.2 == TextAnswer(combined, st'))
      && (r.2.None? ==> r.1 == messages + [Message(Assistant, response), Message(User, ReplOutputMessage(combined))])
  {
  }

  /** A response without code blocks either stops on a non-empty textual
      answer or gets exactly one nudge back; an empty textual answer does
      not stop the loop. */
  lemma NoCodeNudges(st: ReplState, messages: seq<Message>, exec: (nat, nat, String) -> Script,
                     iteration: nat, response: String)
    requires FindCodeBlocks(response) == []
    ensures var (st', messages', answer) := Round(st, messages, exec, iteration, response);
      && st' == st
      && (answer.Some? <==> Stops(TextAnswer(response, st)))
      && (answer.None? ==> messages' == messages + [Message(Assistant, response), Message(User, Nudge)])
  {
  }

  // ---------------------------------------------------------------------
  // run_rlm

  /** The body of one iteration of `run_rlm` once the root model has
      answered: record the response, run its blocks, and look for an answer
      in the slot and then in the text. */
  method RunRound(repl: Repl, messages: seq<Message>, exec: (nat, nat, String) -> Script,
                  iteration: nat, response: String)
    returns (messages': seq<Message>, answer: Option<String>)
    modifies repl
    ensures (repl.State(), messages', answer) == Round(old(repl.State()), messages, exec, iteration, response)
    ensures repl.cleanups == old(repl.cleanups)
  {
    messages' := messages + [Message(Assistant, response)];
    var blocks := FindCodeBlocks(response);
    if blocks == [] {
      var fa := FindFinalAnswer(response, Some(repl.namespace));
      if fa.Some? && fa.value != [] {
        return messages', fa;
      }
      return messages' + [Message(User, Nudge)], None;
    }
    ghost var start := repl.State();
    var outputs: seq<String> := [];
    for i := 0 to |blocks|
      invariant RunBlocks(Execution(), start, exec, iteration, blocks, 0, [])
             == RunBlocks(Execution(), repl.State(), exec, iteration, blocks, i, outputs)
      invariant repl.cleanups == old(repl.cleanups)
    {
      var res := repl.Execute(exec(iteration, i, blocks[i]));
      var out := BlockOutput(res);
      if out != [] {
        outputs := outputs + [out];
      }
    }
    if repl.finalAnswer.Some? {
      return messages', repl.finalAnswer;
    }
    var combined := CombineOutputs(outputs);
    var fa := FindFinalAnswer(combined, Some(repl.namespace));
    if fa.Some? && fa.value != [] {
      return messages', fa;
    }
    return messages' + [Message(User, ReplOutputMessage(combined))], None;
  }

  /** `round` computes what `Round` computes with `exec` running the code. */
  ghost predicate Realises(round: RoundFn, exec: (nat, nat, String) -> Script) {
    forall st, messages, iteration, response {:trigger Round(st, messages, exec, iteration, response)} ::
      round(st, messages, iteration, response) == Round(st, messages, exec, iteration, response)
  }

  lemma RoundOfRealises(exec: (nat, nat, String) -> Script)
    ensures Realises(RoundOf(exec), exec)
  {
  }

  /** One pass of the loop of `run_rlm` moves the rounds still to come one
      iteration on, or ends them with the round's answer. */
  lemma RunStep(run: (RunResult, seq<Message>), st: ReplState, messages: seq<Message>,
                root: seq<Message> -> Outcome, round: RoundFn, iteration: nat,
                response: String, st': ReplState, messages': seq<Message>, answer: Option<String>)
    requires 1 <= iteration <= MaxIterations && root(messages) == Reply(response)
    requires run == Rounds(st, messages, root, round, iteration)
    requires (st', messages', answer) == round(st, messages, iteration, response)
    ensures answer.Some? ==> run == (Answered(answer.value), messages')
    ensures answer.None? ==> run == Rounds(st', messages', root, round, iteration + 1)
  {
    RoundsStep(st, messages, root, round, iteration, response);
  }

  /** One pass of the `for` loop of `run_rlm`: call the root model, and on
      a reply run the round. The rounds still to come move one iteration
      on, or end with the round's answer or the failure of the call. */
  method Iteration(repl: Repl, messages: seq<Message>, root: seq<Message> -> Outcome,
                   exec: (nat, nat, String) -> Script, iteration: nat,
                   ghost round: RoundFn, ghost run: (RunResult, seq<Message>))
    returns (messages': seq<Message>, answer: Option<String>, failure: Option<String>)
    requires 1 <= iteration <= MaxIterations && Realises(round, exec)
    requires run == Rounds(repl.State(), messages, root, round, iteration)
    modifies repl
    ensures answer.None? || failure.None?
    ensures answer.None? && failure.None? ==> run == Rounds(repl.State(), messages', root, round, iteration + 1)
    ensures answer.Some? ==> run == (Answered(answer.value), messages')
    ensures failure.Some? ==> run == (Raised(failure.value), messages')
    ensures repl.cleanups == old(repl.cleanups)
  {
    match root(messages) {
      case Failure(error) =>
        RoundsFail(repl.State(), messages, root, round, iteration);
        return messages, None, Some(error);
      case Reply(response) =>
        ghost var st := repl.State();
        messages', answer := RunRound(repl, messages, exec, iteration, response);
        RunStep(run, st, messages, root, round, iteration, response, repl.State(), messages', answer);
        failure := None;
    }
  }

  /** The `for` loop of `run_rlm`, inside its `try`: rounds from the first
      iteration on, until an answer, a failure of the root call, or the end
      of the budget, when the result is the sentinel. */
  method Converse(repl: Repl, messages: seq<Message>, root: seq<Message> -> Outcome,
                  exec: (nat, nat, String) -> Script, ghost round: RoundFn, ghost run: (RunResult, seq<Message>))
    returns (result: RunResult, messages': seq<Message>)
    requires Realises(round, exec)
    requires run == Rounds(repl.State(), messages, root, round, 1)
    modifies repl
    ensures (result, messages') == run
    ensures repl.cleanups == old(repl.cleanups)
  {
    messages' := messages;
    var answer: Option<String> := None;
    var failure: Option<String> := None;
    var iteration := 1;
    while iteration <= MaxIterations && answer.None? && failure.None?
      invariant 1 <= iteration <= MaxIterations + 1
      invariant answer.None? || failure.None?
      invariant answer.None? && failure.None? ==> run == Rounds(repl.State(), messages', root, round, iteration)
      invariant answer.Some? ==> run == (Answered(answer.value), messages')
      invariant failure.Some? ==> run == (Raised(failure.value), messages')
      invariant repl.cleanups == old(repl.cleanups)
      decreases MaxIterations + 1 - iteration
    {
      messages', answer, failure := Iteration(repl, messages', root, exec, iteration, round, run);
      iteration := iteration + 1;
    }
    if failure.Some? {
      result := Raised(failure.value);
    } else if answer.Some? {
      result := Answered(answer.value);
    } else {
      result := Answered(Sentinel);
    }
  }

  /** `run_rlm`: returns how the run ended and the message list it built,
      and calls the REPL's cleanup exactly once, whichever way it ends. */
  method RunRlm(query: String, context: String, available: set<String>,
                root: seq<Message> -> Outcome, exec: (nat, nat, String) -> Script)
    returns (result: RunResult, messages: seq<Message>, cleanups: nat)
    ensures (result, messages) == Run(query, context, available, root, exec)
    ensures cleanups == 1
  {
    var repl := new Repl(available);
    var _ := repl.LoadContext(context, ContextVar);
    var start := [Message(User, BuildContextMessage(context, query))];
    assert repl.State() == InitialState(context, available);
    RoundOfRealises(exec);
    result, messages := Converse(repl, start, root, exec, RoundOf(exec), Run(query, context, available, root, exec));
    // the `finally` clause
    repl.Cleanup();
    cleanups := repl.cleanups;
  }
}
