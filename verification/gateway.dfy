/** The bridge to the model API used for sub-queries: the request a call
    sends, the retry policy with its doubling backoff, the classification of
    failures as transient or fatal, and the batched form that collects
    replies by prompt index. The API itself is an oracle `backend` that
    answers each attempt with a reply or a failure message; sleeping is
    modelled by the sequence of backoff values slept. */
module Gateway {
  import opened Text

  const DefaultModel: String := "claude-sonnet-4-5-20250929"
  const MaxRetries: nat := 5
  const InitialBackoff: real := 1.0
  const BackoffCap: real := 60.0
  const MaxTokens: int := 4096
  const BatchWorkers: nat := 8
  /** The message of the error a thread pool raises when asked for no workers. */
  const NoWorkers: String := "max_workers must be greater than 0"

  /** The keyword arguments of one `messages.create` call; `system` is
      present only when one was given. */
  datatype Request = Request(model: String, maxTokens: int, system: Option<String>, prompt: String)

  /** What one attempt yields: the text of the first content block, or the
      `str` of the exception raised. */
  datatype Outcome = Reply(text: String) | Failure(message: String)

  /** One `llm_query` call: its result (a reply, or the exception that
      propagates), the backoff values slept, and the number of attempts. */
  datatype Trace = Trace(result: Result<String, String>, sleeps: seq<real>, attempts: nat)

  /** The request `llm_query` sends. Python's `or` replaces a missing or
      falsy model (`""`) and token limit (`0`); `system` is passed only when
      it is a non-empty string. */
  function BuildRequest(prompt: String, model: Option<String>, maxTokens: Option<int>, system: Option<String>): (r: Request)
    ensures r.prompt == prompt && r.model != "" && r.maxTokens != 0
    ensures r.model == DefaultModel || model == Some(r.model)
    ensures (model.Some? && model.value != "") ==> r.model == model.value
    ensures r.maxTokens == MaxTokens || maxTokens == Some(r.maxTokens)
    ensures (maxTokens.Some? && maxTokens.value != 0) ==> r.maxTokens == maxTokens.value
    ensures r.system.Some? <==> (system.Some? && system.value != "")
    ensures r.system.Some? ==> r.system == system
  {
    Request(
      if model.Some? && model.value != "" then model.value else DefaultModel,
      if maxTokens.Some? && maxTokens.value != 0 then maxTokens.value else MaxTokens,
      if system.Some? && system.value != "" then system else None,
      prompt)
  }

  /** The message holds one of the four transient markers as written. */
  predicate HasTransientMarker(message: String) {
    || Contains(message, "rate") || Contains(message, "overloaded")
    || Contains(message, "429") || Contains(message, "529")
  }

  /** A failure worth retrying: a rate limit ("rate" in any case, or 429) or
      an overloaded server ("overloaded" in any case, or 529). A message that
      holds any of the four as written is transient. */
  predicate IsTransient(message: String): (transient: bool)
    ensures HasTransientMarker(message) ==> transient
    ensures !HasTransientMarker(message) && !HasTransientMarker(Lower(message)) ==> !transient
  {
    LowerKeepsFixedPattern(message, "rate");
    LowerKeepsFixedPattern(message, "overloaded");
    || Contains(Lower(message), "rate")
    || Contains(message, "429")
    || Contains(Lower(message), "overloaded")
    || Contains(message, "529")
  }

  lemma LowerIdempotent(s: String)
    ensures Lower(Lower(s)) == Lower(s)
  {
  }

  /** Classification ignores case: a message and its lower-cased form are
      both transient or both fatal. */
  lemma TransientIgnoresCase(message: String)
    ensures IsTransient(Lower(message)) <==> IsTransient(message)
  {
    var l := Lower(message);
    LowerIdempotent(message);
    assert Lower(l) == l;
    DigitPatterns();
    LowerKeepsDigitPattern(message, "429");
    LowerKeepsDigitPattern(message, "529");
  }

  lemma DigitPatterns()
    ensures forall i :: 0 <= i < |"429"| ==> IsDigit("429"[i])
    ensures forall i :: 0 <= i < |"529"| ==> IsDigit("529"[i])
  {
  }

  /** The backoff slept before retry `attempt + 1`: 1.0, doubled after every
      retry and capped at 60. */
  function Backoff(attempt: nat): (b: real)
    ensures 0.0 < b <= BackoffCap
  {
    if attempt == 0 then InitialBackoff
    else if 2.0 * Backoff(attempt - 1) < BackoffCap then 2.0 * Backoff(attempt - 1)
    else BackoffCap
  }

  /** The sleeps taken from attempt `from` up to, not including, `stop`. */
  function Sleeps(from: nat, stop: nat): (s: seq<real>)
    requires from <= stop
  {
    seq(stop - from, i requires 0 <= i < stop - from => Backoff(from + i))
  }

  lemma SleepsCons(from: nat, stop: nat)
    requires from < stop
    ensures Sleeps(from, stop) == [Backoff(from)] + Sleeps(from + 1, stop)
  {
  }

  lemma SleepsSnoc(stop: nat)
    ensures Sleeps(0, stop + 1) == Sleeps(0, stop) + [Backoff(stop)]
  {
  }

  /** Within the five attempts the sleeps are 1, 2, 4 and 8 seconds. */
  lemma SleepSchedule(stop: nat)
    requires stop < MaxRetries
    ensures Sleeps(0, stop) == [1.0, 2.0, 4.0, 8.0][..stop]
  {
    assert Backoff(1) == 2.0 && Backoff(2) == 4.0 && Backoff(3) == 8.0;
  }

  /** Whether the attempt numbered `attempt` ends the call: a reply, a fatal
      failure, or any failure on the last attempt. */
  predicate StopsAt(o: Outcome, attempt: nat) {
    o.Reply? || !IsTransient(o.message) || attempt == MaxRetries - 1
  }

  /** What the call returns when it ends on outcome `o`. */
  function Settle(o: Outcome): Result<String, String> {
    match o
    case Reply(text) => Ok(text)
    case Failure(message) => Err(message)
  }

  /** The retry loop of `llm_query` from attempt `attempt` on. */
  function Retry(backend: (Request, nat) -> Outcome, req: Request, attempt: nat): (t: Trace)
    requires attempt < MaxRetries
    decreases MaxRetries - attempt
    ensures attempt < t.attempts <= MaxRetries
    ensures |t.sleeps| == t.attempts - 1 - attempt
  {
    var o := backend(req, attempt);
    if StopsAt(o, attempt) then Trace(Settle(o), [], attempt + 1)
    else
      var rest := Retry(backend, req, attempt + 1);
      Trace(rest.result, [Backoff(attempt)] + rest.sleeps, rest.attempts)
  }

  /** The first attempt at or after `from` that ends the call; one always
      exists, since the last attempt ends it. */
  function FirstStop(backend: (Request, nat) -> Outcome, req: Request, from: nat): (s: nat)
    requires from < MaxRetries
    decreases MaxRetries - from
    ensures from <= s < MaxRetries && StopsAt(backend(req, s), s)
    ensures forall a :: from <= a < s ==> !StopsAt(backend(req, a), a)
  {
    if StopsAt(backend(req, from), from) then from else FirstStop(backend, req, from + 1)
  }

  /** The call is decided by its first stopping attempt: it returns what
      that attempt yields, after sleeping the backoffs of every earlier
      attempt, and makes no further attempt. */
  lemma {:induction false} RetryClosedForm(backend: (Request, nat) -> Outcome, req: Request, attempt: nat)
    requires attempt < MaxRetries
    decreases MaxRetries - attempt
    ensures var s := FirstStop(backend, req, attempt);
      Retry(backend, req, attempt) == Trace(Settle(backend(req, s)), Sleeps(attempt, s), s + 1)
  {
    if !StopsAt(backend(req, attempt), attempt) {
      RetryClosedForm(backend, req, attempt + 1);
      var s := FirstStop(backend, req, attempt);
      assert s == FirstStop(backend, req, attempt + 1);
      SleepsCons(attempt, s);
    }
  }

  /** Attempts before `k` all failed transiently. */
  predicate TransientBefore(backend: (Request, nat) -> Outcome, req: Request, k: nat) {
    forall a :: 0 <= a < k ==> backend(req, a).Failure? && IsTransient(backend(req, a).message)
  }

  lemma FirstStopAt(backend: (Request, nat) -> Outcome, req: Request, k: nat)
    requires k < MaxRetries && TransientBefore(backend, req, k) && StopsAt(backend(req, k), k)
    ensures FirstStop(backend, req, 0) == k
  {
    var s := FirstStop(backend, req, 0);
    if s < k {
      assert false;
    }
  }

  /** The first successful attempt's text is returned at once; the
      transient failures before it are never surfaced. */
  lemma FirstSuccessReturned(backend: (Request, nat) -> Outcome, req: Request, k: nat, text: String)
    requires k < MaxRetries && TransientBefore(backend, req, k) && backend(req, k) == Reply(text)
    ensures Retry(backend, req, 0) == Trace(Ok(text), [1.0, 2.0, 4.0, 8.0][..k], k + 1)
  {
    FirstStopAt(backend, req, k);
    RetryClosedForm(backend, req, 0);
    SleepSchedule(k);
  }

  /** A fatal failure propagates on the attempt where it occurs, with no
      sleep after it and no further attempt. */
  lemma FatalFailurePropagates(backend: (Request, nat) -> Outcome, req: Request, k: nat, message: String)
    requires k < MaxRetries && TransientBefore(backend, req, k)
    requires backend(req, k) == Failure(message) && !IsTransient(message)
    ensures Retry(backend, req, 0) == Trace(Err(message), [1.0, 2.0, 4.0, 8.0][..k], k + 1)
  {
    FirstStopAt(backend, req, k);
    RetryClosedForm(backend, req, 0);
    SleepSchedule(k);
  }

  /** A transient failure on the fifth attempt propagates instead of being
      retried, after four sleeps of 1, 2, 4 and 8. */
  lemma LastTransientPropagates(backend: (Request, nat) -> Outcome, req: Request, message: String)
    requires TransientBefore(backend, req, MaxRetries - 1)
    requires backend(req, MaxRetries - 1) == Failure(message)
    ensures Retry(backend, req, 0) == Trace(Err(message), [1.0, 2.0, 4.0, 8.0], MaxRetries)
  {
    FirstStopAt(backend, req, MaxRetries - 1);
    RetryClosedForm(backend, req, 0);
    SleepSchedule(MaxRetries - 1);
  }

  /** Every call makes one to five attempts and sleeps once between each
      two of them, each sleep a prefix value of 1, 2, 4, 8. */
  lemma RetryBounds(backend: (Request, nat) -> Outcome, req: Request)
    ensures var t := Retry(backend, req, 0);
      && 1 <= t.attempts <= MaxRetries
      && t.sleeps == [1.0, 2.0, 4.0, 8.0][..t.attempts - 1]
  {
    RetryClosedForm(backend, req, 0);
    SleepSchedule(FirstStop(backend, req, 0));
  }

  /** `llm_query`: builds the request, then tries it up to five times,
      sleeping the current backoff and doubling it (capped at 60) after each
      transient failure. */
  method LlmQuery(backend: (Request, nat) -> Outcome, prompt: String, model: Option<String>,
                  maxTokens: Option<int>, system: Option<String>)
    returns (result: Result<String, String>, sleeps: seq<real>, attempts: nat)
    ensures Trace(result, sleeps, attempts) == Retry(backend, BuildRequest(prompt, model, maxTokens, system), 0)
  {
    var req := BuildRequest(prompt, model, maxTokens, system);
    var backoff := InitialBackoff;
    sleeps := [];
    for attempt := 0 to MaxRetries
      invariant attempt < MaxRetries
      invariant backoff == Backoff(attempt) && sleeps == Sleeps(0, attempt)
      invariant TransientBefore(backend, req, attempt)
    {
      var outcome := backend(req, attempt);
      match outcome {
        case Reply(text) =>
          FirstStopAt(backend, req, attempt);
          RetryClosedForm(backend, req, 0);
          return Ok(text), sleeps, attempt + 1;
        case Failure(message) =>
          if IsTransient(message) && attempt < MaxRetries - 1 {
            SleepsSnoc(attempt);
            sleeps := sleeps + [backoff];
            backoff := if 2.0 * backoff < BackoffCap then 2.0 * backoff else BackoffCap;
            continue;
          }
          FirstStopAt(backend, req, attempt);
          RetryClosedForm(backend, req, 0);
          return Err(message), sleeps, attempt + 1;
      }
    }
    assert false;
  }

  /** The backend as it answers the calls for prompt `i`. */
  function ForPrompt(backend: (nat, Request, nat) -> Outcome, i: nat): (Request, nat) -> Outcome {
    (r: Request, a: nat) => backend(i, r, a)
  }

  /** What the single call for each prompt of a batch returns: a reply, or
      the failure that propagates out of it. */
  function Replies(backend: (nat, Request, nat) -> Outcome, prompts: seq<String>, model: Option<String>,
                   maxTokens: Option<int>, system: Option<String>): seq<Result<String, String>>
  {
    seq(|prompts|, i requires 0 <= i < |prompts| =>
      Retry(ForPrompt(backend, i), BuildRequest(prompts[i], model, maxTokens, system), 0).result)
  }

  /** `order` lists the prompt indices in the order their calls complete. */
  predicate CompletionOrder(order: seq<nat>, n: nat) {
    && |order| == n
    && (forall j :: 0 <= j < n ==> order[j] < n)
    && (forall i :: 0 <= i < n ==> i in order)
  }

  /** The `j`-th call to complete fails with `error`, and every call that
      completed before it succeeded. */
  predicate FailsFirst(replies: seq<Result<String, String>>, order: seq<nat>, j: nat, error: String)
    requires CompletionOrder(order, |replies|)
  {
    && j < |order|
    && replies[order[j]] == Err(error)
    && forall j' :: 0 <= j' < j ==> replies[order[j']].Ok?
  }

  /** The state of a batch after the first `j` calls to complete, in
      completion order, all succeeded: `slots` holds, at each prompt index,
      the reply stored there so far. */
  predicate Collected(replies: seq<Result<String, String>>, order: seq<nat>, j: nat, slots: seq<Option<String>>)
    requires CompletionOrder(order, |replies|) && j <= |order|
  {
    && |slots| == |replies|
    && (forall j' :: 0 <= j' < j ==> replies[order[j']].Ok? && slots[order[j']].Some?)
    && (forall i :: 0 <= i < |slots| && slots[i].Some? ==> replies[i] == Ok(slots[i].value))
  }

  /** Storing the next successful reply at its prompt index keeps the batch
      collected. */
  lemma CollectedStep(replies: seq<Result<String, String>>, order: seq<nat>, j: nat,
                      slots: seq<Option<String>>, text: String)
    requires CompletionOrder(order, |replies|) && j < |order|
    requires Collected(replies, order, j, slots) && replies[order[j]] == Ok(text)
    ensures Collected(replies, order, j + 1, slots[order[j] := Some(text)])
  {
    var slots' := slots[order[j] := Some(text)];
    forall j' | 0 <= j' < j + 1 ensures replies[order[j']].Ok? && slots'[order[j']].Some? {
      if order[j'] != order[j] { assert slots'[order[j']] == slots[order[j']]; }
    }
  }

  /** Once every call completed successfully, every slot is filled. */
  lemma CollectedFull(replies: seq<Result<String, String>>, order: seq<nat>, slots: seq<Option<String>>)
    requires CompletionOrder(order, |replies|)
    requires Collected(replies, order, |order|, slots)
    ensures forall i :: 0 <= i < |slots| ==> slots[i].Some? && replies[i] == Ok(slots[i].value)
  {
    forall i | 0 <= i < |slots| ensures slots[i].Some? {
      assert i in order;
      var j :| 0 <= j < |order| && order[j] == i;
    }
  }

  /** The call a batch makes for prompt `i`. */
  method CallFor(backend: (nat, Request, nat) -> Outcome, prompts: seq<String>, model: Option<String>,
                 maxTokens: Option<int>, system: Option<String>, i: nat)
    returns (r: Result<String, String>)
    requires i < |prompts|
    ensures r == Replies(backend, prompts, model, maxTokens, system)[i]
  {
    var sleeps, attempts;
    r, sleeps, attempts := LlmQuery(ForPrompt(backend, i), prompts[i], model, maxTokens, system);
  }

  /** `llm_query_batched`: one call per prompt; replies are stored at their
      prompt's index as they complete, and the first call to fail, in
      completion order, propagates its failure. The list returned is in
      prompt order whatever the completion order. With no prompts the pool
      is asked for zero workers, which it refuses. */
  method LlmQueryBatched(backend: (nat, Request, nat) -> Outcome, prompts: seq<String>, model: Option<String>,
                         maxTokens: Option<int>, system: Option<String>, order: seq<nat>)
    returns (result: Result<seq<String>, String>)
    requires CompletionOrder(order, |prompts|)
    ensures |prompts| == 0 ==> result == Err(NoWorkers)
    ensures |prompts| > 0 ==> var replies := Replies(backend, prompts, model, maxTokens, system);
      && (result.Ok? <==> forall i :: 0 <= i < |replies| ==> replies[i].Ok?)
      && (result.Ok? ==> |result.value| == |prompts| && forall i :: 0 <= i < |prompts| ==> replies[i] == Ok(result.value[i]))
      && (result.Err? ==> exists j :: FailsFirst(replies, order, j, result.error))
  {
    if |prompts| == 0 {
      return Err(NoWorkers);
    }
    var n := |prompts|;
    ghost var replies := Replies(backend, prompts, model, maxTokens, system);
    var results := new Option<String>[n](_ => None);
    for j := 0 to n
      invariant Collected(replies, order, j, results[..])
    {
      var idx := order[j];
      var r := CallFor(backend, prompts, model, maxTokens, system, idx);
      if r.Err? {
        assert FailsFirst(replies, order, j, r.error);
        return Err(r.error);
      }
      CollectedStep(replies, order, j, results[..], r.value);
      results[idx] := Some(r.value);
    }
    CollectedFull(replies, order, results[..]);
    result := Ok(seq(n, i requires 0 <= i < n && results[i].Some? reads results => results[i].value));
  }
}
