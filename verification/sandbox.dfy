/** The persistent REPL the model's code runs in: a namespace that survives
    from block to block, the helper bindings injected into it, and the slot
    in which `FINAL` and `FINAL_VAR` record the answer. Executing Python is
    not modelled: a block's code is given as the `Script` of effects it has
    on the REPL. */
module Sandbox {
  import opened Text
  import opened Values

  // ---------------------------------------------------------------------
  // Bootstrap

  /** Builtins the REPL's table leaves out; `__import__` is among them only to be
      bound again below. */
  const BlockedBuiltins: set<String> := {"eval", "exec", "compile", "input", "__import__"}

  /** The six names bound when the REPL is created. */
  const InjectedNames: set<String> :=
    {"__builtins__", "llm_query", "llm_query_batched", "FINAL", "FINAL_VAR", "SHOW_VARS"}

  /** The REPL's builtins table, given the names of the interpreter's
      builtins: every one except the blocked ones, and `__import__` bound
      again. */
  function SafeBuiltins(available: set<String>): (safe: set<String>)
    ensures forall k :: k in safe <==> (k in available && k !in BlockedBuiltins) || k == "__import__"
  {
    (available - BlockedBuiltins) + {"__import__"}
  }

  /** Whatever the interpreter provides, the REPL's builtins table binds
      `__import__` and does not bind `eval`, `exec`, `compile` or `input`.
      This is a deny-list on one table, not a boundary: imported modules
      and a deleted `__builtins__` reach the interpreter's own builtins. */
  lemma SandboxBlocksEvaluation(available: set<String>)
    ensures "__import__" in SafeBuiltins(available)
    ensures forall k :: k in {"eval", "exec", "compile", "input"} ==> k !in SafeBuiltins(available)
  {
  }

  /** The namespace a new REPL starts with. */
  function BootstrapNamespace(available: set<String>): (ns: map<String, PyValue>)
    ensures ns.Keys == InjectedNames
    ensures ns["__builtins__"] == PyBuiltins(SafeBuiltins(available))
  {
    map[
      "__builtins__" := PyBuiltins(SafeBuiltins(available)),
      "llm_query" := PyFunction("llm_query", "function"),
      "llm_query_batched" := PyFunction("llm_query_batched", "function"),
      "FINAL" := PyFunction("RLMRepl._final", "method"),
      "FINAL_VAR" := PyFunction("RLMRepl._final_var", "method"),
      "SHOW_VARS" := PyFunction("RLMRepl._show_vars", "method")
    ]
  }

  // ---------------------------------------------------------------------
  // Key order: Python compares strings code point by code point.

  predicate StrLess(a: String, b: String)
    decreases |a|
  {
    if a == [] then b != []
    else if b == [] then false
    else a[0] < b[0] || (a[0] == b[0] && StrLess(a[1..], b[1..]))
  }

  lemma {:induction false} StrLessIrreflexive(a: String)
    ensures !StrLess(a, a)
    decreases |a|
  {
    if a != [] { StrLessIrreflexive(a[1..]); }
  }

  lemma {:induction false} StrLessTransitive(a: String, b: String, c: String)
    requires StrLess(a, b) && StrLess(b, c)
    ensures StrLess(a, c)
    decreases |a|
  {
    if a != [] && a[0] == b[0] && b[0] == c[0] {
      StrLessTransitive(a[1..], b[1..], c[1..]);
    }
  }

  lemma {:induction false} StrLessTotal(a: String, b: String)
    ensures a == b || StrLess(a, b) || StrLess(b, a)
    decreases |a|
  {
    if a != [] && b != [] && a[0] == b[0] {
      StrLessTotal(a[1..], b[1..]);
      if a[1..] == b[1..] {
        assert a == [a[0]] + a[1..] && b == [b[0]] + b[1..];
      }
    }
  }

  /** `k` is the smallest key of `s`. */
  predicate IsLeast(k: String, s: set<String>) {
    k in s && forall x :: x in s ==> !StrLess(x, k)
  }

  lemma LeastExists(s: set<String>)
    requires s != {}
    ensures exists k :: IsLeast(k, s)
    decreases |s|
  {
    var x :| x in s;
    StrLessIrreflexive(x);
    var rest := s - {x};
    if rest != {} {
      LeastExists(rest);
      var k :| IsLeast(k, rest);
      if StrLess(x, k) {
        forall y | y in s ensures !StrLess(y, x) {
          if StrLess(y, x) { StrLessTransitive(y, x, k); }
        }
        assert IsLeast(x, s);
      } else {
        assert IsLeast(k, s);
      }
    } else {
      assert s == {x};
      assert IsLeast(x, s);
    }
  }

  /** The smallest key is below every other key. */
  lemma LeastBelowOthers(k: String, s: set<String>)
    requires IsLeast(k, s)
    ensures forall x :: x in s && x != k ==> StrLess(k, x)
  {
    forall x | x in s && x != k ensures StrLess(k, x) {
      StrLessTotal(k, x);
    }
  }

  ghost function Least(s: set<String>): (k: String)
    requires s != {}
    ensures IsLeast(k, s)
  {
    LeastExists(s);
    var k :| IsLeast(k, s);
    k
  }

  /** Each key is below the next one. */
  predicate Increasing(keys: seq<String>)
    decreases |keys|
  {
    |keys| <= 1 || (StrLess(keys[0], keys[1]) && Increasing(keys[1..]))
  }

  /** In an increasing sequence every key is below every later key; in
      particular no key occurs twice. */
  lemma {:induction false} IncreasingAll(keys: seq<String>)
    requires Increasing(keys)
    ensures forall i, j :: 0 <= i < j < |keys| ==> StrLess(keys[i], keys[j])
    decreases |keys|
  {
    if |keys| > 1 {
      var rest := keys[1..];
      IncreasingAll(rest);
      forall i, j | 0 <= i < j < |keys| ensures StrLess(keys[i], keys[j]) {
        if i > 0 {
          assert keys[i] == rest[i - 1] && keys[j] == rest[j - 1];
        } else if j > 1 {
          assert keys[1] == rest[0] && keys[j] == rest[j - 1];
          StrLessTransitive(keys[0], keys[1], keys[j]);
        }
      }
    }
  }

  /** `sorted(keys)`: the keys of `s`, each once, in increasing order. */
  ghost function SortedKeys(s: set<String>): (keys: seq<String>)
    decreases |s|
    ensures |keys| == |s|
    ensures forall i :: 0 <= i < |keys| ==> keys[i] in s
    ensures forall k :: k in keys <==> k in s
    ensures Increasing(keys)
  {
    if s == {} then []
    else
      var m := Least(s);
      var rest := SortedKeys(s - {m});
      LeastBelowOthers(m, s);
      assert rest != [] ==> rest[0] in s - {m};
      assert ([m] + rest)[1..] == rest;
      [m] + rest
  }

  /** Picks the smallest key of a non-empty set. */
  method LeastKey(s: set<String>) returns (k: String)
    requires s != {}
    ensures IsLeast(k, s)
  {
    k :| k in s;
    StrLessIrreflexive(k);
    var rest := s - {k};
    while rest != {}
      invariant rest <= s && k in s
      invariant forall x :: x in s && x !in rest ==> !StrLess(x, k)
      decreases |rest|
    {
      var x :| x in rest;
      if StrLess(x, k) {
        forall y | y in s && y !in rest ensures !StrLess(y, x) {
          if StrLess(y, x) { StrLessTransitive(y, x, k); }
        }
        StrLessIrreflexive(x);
        k := x;
      }
      rest := rest - {x};
    }
  }

  // ---------------------------------------------------------------------
  // SHOW_VARS

  /** Names SHOW_VARS does not list: the injected ones and any name
      starting with an underscore. */
  predicate Hidden(name: String) {
    name in InjectedNames || (|name| > 0 && name[0] == '_')
  }

  const PreviewLimit: nat := 200

  /** A `repr` cut to 200 characters, with "..." after it when cut. */
  function Preview(repr: String): (r: String)
    ensures |repr| <= PreviewLimit ==> r == repr
    ensures |repr| > PreviewLimit ==> r == repr[..PreviewLimit] + "..."
    ensures |r| <= PreviewLimit + 3
  {
    if |repr| > PreviewLimit then repr[..PreviewLimit] + "..." else repr
  }

  /** The line SHOW_VARS prints for one variable. */
  function ShowLine(name: String, v: PyValue): String {
    "  " + name + ": " + TypeName(v) + " = " + Preview(ToRepr(v)) + "\n"
  }

  /** The lines printed for `keys`, in order, skipping hidden names. */
  function ShowLines(ns: map<String, PyValue>, keys: seq<String>): String
    requires forall i :: 0 <= i < |keys| ==> keys[i] in ns
  {
    if keys == [] then []
    else (if Hidden(keys[0]) then [] else ShowLine(keys[0], ns[keys[0]])) + ShowLines(ns, keys[1..])
  }

  /** What SHOW_VARS prints for namespace `ns`. */
  ghost function ShowVarsText(ns: map<String, PyValue>): String {
    ShowLines(ns, SortedKeys(ns.Keys))
  }

  lemma {:induction false} ShowLinesAllHidden(ns: map<String, PyValue>, keys: seq<String>)
    requires forall i :: 0 <= i < |keys| ==> keys[i] in ns && Hidden(keys[i])
    ensures ShowLines(ns, keys) == []
  {
    if keys != [] { ShowLinesAllHidden(ns, keys[1..]); }
  }

  lemma {:induction false} ShowLinesOneVisible(ns: map<String, PyValue>, keys: seq<String>, v: String)
    requires forall i :: 0 <= i < |keys| ==> keys[i] in ns && (keys[i] == v || Hidden(keys[i]))
    requires v in ns && !Hidden(v)
    requires v in keys && forall i, j :: 0 <= i < j < |keys| ==> keys[i] != keys[j]
    ensures ShowLines(ns, keys) == ShowLine(v, ns[v])
  {
    if keys[0] == v {
      ShowLinesAllHidden(ns, keys[1..]);
    } else {
      ShowLinesOneVisible(ns, keys[1..], v);
    }
  }

  /** A namespace with nothing but hidden names shows nothing; in
      particular, a new REPL shows nothing. */
  lemma ShowVarsOnlyHidden(ns: map<String, PyValue>)
    requires forall k :: k in ns ==> Hidden(k)
    ensures ShowVarsText(ns) == []
  {
    ShowLinesAllHidden(ns, SortedKeys(ns.Keys));
  }

  /** With exactly one visible variable, SHOW_VARS prints its line alone,
      whatever hidden names surround it. */
  lemma ShowVarsOneVisible(ns: map<String, PyValue>, v: String)
    requires v in ns && !Hidden(v)
    requires forall k :: k in ns && k != v ==> Hidden(k)
    ensures ShowVarsText(ns) == ShowLine(v, ns[v])
  {
    var keys := SortedKeys(ns.Keys);
    IncreasingAll(keys);
    forall i, j | 0 <= i < j < |keys| ensures keys[i] != keys[j] {
      StrLessIrreflexive(keys[i]);
    }
    ShowLinesOneVisible(ns, keys, v);
  }

  /** After the context is loaded into a new REPL, SHOW_VARS lists the
      context variable and nothing else. */
  lemma LoadedContextIsTheOnlyVariable(available: set<String>, text: String, varName: String)
    requires !Hidden(varName)
    ensures ShowVarsText(BootstrapNamespace(available)[varName := PyStr(text)])
      == ShowLine(varName, PyStr(text))
  {
    ShowVarsOneVisible(BootstrapNamespace(available)[varName := PyStr(text)], varName);
  }

  /** One turn of the SHOW_VARS loop: printing the least remaining key's
      line leaves the lines of the other keys to print. */
  lemma ShowVarsStep(ns: map<String, PyValue>, remaining: set<String>, k: String, printed: String)
    requires remaining <= ns.Keys && IsLeast(k, remaining)
    requires printed + ShowLines(ns, SortedKeys(remaining)) == ShowVarsText(ns)
    ensures (printed + if Hidden(k) then [] else ShowLine(k, ns[k])) + ShowLines(ns, SortedKeys(remaining - {k}))
      == ShowVarsText(ns)
  {
    var line := if Hidden(k) then [] else ShowLine(k, ns[k]);
    var rest := ShowLines(ns, SortedKeys(remaining - {k}));
    ShowLinesFromLeast(ns, remaining, k);
    AppendAssoc(printed, line, rest);
  }

  lemma AppendAssoc(a: String, b: String, c: String)
    ensures (a + b) + c == a + (b + c)
  {
  }

  /** Listing a set of keys in order starts with its least key. */
  lemma ShowLinesFromLeast(ns: map<String, PyValue>, s: set<String>, k: String)
    requires s <= ns.Keys && IsLeast(k, s)
    ensures ShowLines(ns, SortedKeys(s))
      == (if Hidden(k) then [] else ShowLine(k, ns[k])) + ShowLines(ns, SortedKeys(s - {k}))
  {
    LeastBelowOthers(k, s);
    assert k == Least(s);
    assert SortedKeys(s) == [k] + SortedKeys(s - {k});
  }

  // ---------------------------------------------------------------------
  // REPL state and the effects of a script

  /** The REPL's two fields as a value. */
  datatype ReplState = ReplState(namespace: map<String, PyValue>, finalAnswer: Option<String>)

  /** What `execute` returns: captured stdout and stderr, and the
      exception as `"<type>: <message>"` when one was raised. */
  datatype ExecResult = ExecResult(stdout: String, stderr: String, exception: Option<String>)

  /** One effect of a code block on the REPL. */
  datatype Step =
    | Write(text: String)
    | WriteErr(text: String)
    | Assign(name: String, value: PyValue)
    | Delete(name: String)
    | CallFinal(answer: PyValue)
    | CallFinalVar(varName: String)
    | CallShowVars
    | Raise(kind: String, message: String)

  type Script = seq<Step>

  /** `_final(answer)`: the new state and the line printed. */
  function FinalEffect(st: ReplState, answer: PyValue): (ReplState, String) {
    (st.(finalAnswer := Some(ToStr(answer))), "FINAL(" + ToStr(answer) + ")\n")
  }

  /** `_final_var(name)`: the new state and the line printed. */
  function FinalVarEffect(st: ReplState, name: String): (ReplState, String) {
    if name in st.namespace then
      (st.(finalAnswer := Some(ToStr(st.namespace[name]))), "FINAL_VAR('" + name + "')\n")
    else
      (st, "Error: variable '" + name + "' not found in namespace\n")
  }

  /** Runs the rest of a script from state `st`, with `out` and `err`
      captured so far. An exception ends the script. */
  ghost function RunSteps(st: ReplState, steps: Script, out: String, err: String): (ReplState, ExecResult)
    decreases |steps|
  {
    if steps == [] then (st, ExecResult(out, err, None))
    else
      match steps[0]
      case Write(text) => RunSteps(st, steps[1..], out + text, err)
      case WriteErr(text) => RunSteps(st, steps[1..], out, err + text)
      case Assign(name, value) => RunSteps(st.(namespace := st.namespace[name := value]), steps[1..], out, err)
      case Delete(name) =>
        if name in st.namespace then RunSteps(st.(namespace := st.namespace - {name}), steps[1..], out, err)
        else (st, ExecResult(out, err, Some("NameError: name '" + name + "' is not defined")))
      case CallFinal(answer) =>
        var (st', line) := FinalEffect(st, answer);
        RunSteps(st', steps[1..], out + line, err)
      case CallFinalVar(name) =>
        var (st', line) := FinalVarEffect(st, name);
        RunSteps(st', steps[1..], out + line, err)
      case CallShowVars => RunSteps(st, steps[1..], out + ShowVarsText(st.namespace), err)
      case Raise(kind, message) => (st, ExecResult(out, err, Some(kind + ": " + message)))
  }

  /** `execute(code)` for a block whose effects are `script`: only a call
      of FINAL or FINAL_VAR can change the answer slot. */
  ghost function RunScript(st: ReplState, script: Script): (r: (ReplState, ExecResult))
    ensures (forall i :: 0 <= i < |script| ==> SetsNoAnswer(script[i])) ==> r.0.finalAnswer == st.finalAnswer
  {
    if forall i :: 0 <= i < |script| ==> SetsNoAnswer(script[i]) then
      ScriptWithoutFinalKeepsSlot(st, script, [], []);
      RunSteps(st, script, [], [])
    else
      RunSteps(st, script, [], [])
  }

  predicate SetsNoAnswer(step: Step) {
    !step.CallFinal? && !step.CallFinalVar?
  }

  /** Only FINAL and FINAL_VAR write the slot: a script that calls neither
      leaves it as it was. */
  lemma {:induction false} ScriptWithoutFinalKeepsSlot(st: ReplState, steps: Script, out: String, err: String)
    requires forall i :: 0 <= i < |steps| ==> SetsNoAnswer(steps[i])
    ensures RunSteps(st, steps, out, err).0.finalAnswer == st.finalAnswer
    decreases |steps|
  {
    if steps != [] {
      match steps[0]
      case Write(_) => ScriptWithoutFinalKeepsSlot(st, steps[1..], out + steps[0].text, err);
      case WriteErr(_) => ScriptWithoutFinalKeepsSlot(st, steps[1..], out, err + steps[0].text);
      case Assign(name, value) =>
        ScriptWithoutFinalKeepsSlot(st.(namespace := st.namespace[name := value]), steps[1..], out, err);
      case Delete(name) =>
        if name in st.namespace {
          ScriptWithoutFinalKeepsSlot(st.(namespace := st.namespace - {name}), steps[1..], out, err);
        }
      case CallShowVars =>
        ScriptWithoutFinalKeepsSlot(st, steps[1..], out + ShowVarsText(st.namespace), err);
      case Raise(_, _) =>
    }
  }

  /** Output is only ever appended: what was captured before a step stays
      at the front of stdout and stderr. */
  lemma {:induction false} CaptureIsAppendOnly(st: ReplState, steps: Script, out: String, err: String)
    ensures var res := RunSteps(st, steps, out, err).1;
      |out| <= |res.stdout| && res.stdout[..|out|] == out
      && |err| <= |res.stderr| && res.stderr[..|err|] == err
    decreases |steps|
  {
    if steps != [] {
      var rest := steps[1..];
      match steps[0]
      case Write(text) =>
        CaptureIsAppendOnly(st, rest, out + text, err);
        assert (out + text)[..|out|] == out;
      case WriteErr(text) =>
        CaptureIsAppendOnly(st, rest, out, err + text);
        assert (err + text)[..|err|] == err;
      case Assign(name, value) =>
        CaptureIsAppendOnly(st.(namespace := st.namespace[name := value]), rest, out, err);
      case Delete(name) =>
        if name in st.namespace {
          CaptureIsAppendOnly(st.(namespace := st.namespace - {name}), rest, out, err);
        }
      case CallFinal(answer) =>
        var (st', line) := FinalEffect(st, answer);
        CaptureIsAppendOnly(st', rest, out + line, err);
        assert (out + line)[..|out|] == out;
      case CallFinalVar(name) =>
        var (st', line) := FinalVarEffect(st, name);
        CaptureIsAppendOnly(st', rest, out + line, err);
        assert (out + line)[..|out|] == out;
      case CallShowVars =>
        var shown := ShowVarsText(st.namespace);
        CaptureIsAppendOnly(st, rest, out + shown, err);
        assert (out + shown)[..|out|] == out;
      case Raise(_, _) =>
    }
  }

  /** An exception ends the block: nothing after the raising step has any
      effect. */
  lemma {:induction false} RaiseEndsScript(st: ReplState, before: Script, kind: String, message: String,
                                           after: Script, out: String, err: String)
    ensures RunSteps(st, before + [Raise(kind, message)] + after, out, err)
         == RunSteps(st, before + [Raise(kind, message)], out, err)
    decreases |before|
  {
    var r := Raise(kind, message);
    if before == [] {
      assert before + [r] + after == [r] + after;
      assert before + [r] == [r];
    } else {
      var s, s' := before + [r] + after, before + [r];
      assert s[1..] == before[1..] + [r] + after;
      assert s'[1..] == before[1..] + [r];
      assert s[0] == s'[0] == before[0];
      var rest := before[1..];
      match before[0]
      case Write(text) => RaiseEndsScript(st, rest, kind, message, after, out + text, err);
      case WriteErr(text) => RaiseEndsScript(st, rest, kind, message, after, out, err + text);
      case Assign(name, value) =>
        RaiseEndsScript(st.(namespace := st.namespace[name := value]), rest, kind, message, after, out, err);
      case Delete(name) =>
        if name in st.namespace {
          RaiseEndsScript(st.(namespace := st.namespace - {name}), rest, kind, message, after, out, err);
        }
      case CallFinal(answer) =>
        var (st', line) := FinalEffect(st, answer);
        RaiseEndsScript(st', rest, kind, message, after, out + line, err);
      case CallFinalVar(name) =>
        var (st', line) := FinalVarEffect(st, name);
        RaiseEndsScript(st', rest, kind, message, after, out + line, err);
      case CallShowVars =>
        RaiseEndsScript(st, rest, kind, message, after, out + ShowVarsText(st.namespace), err);
      case Raise(_, _) =>
    }
  }

  // ---------------------------------------------------------------------
  // The REPL object

  class Repl {
    var namespace: map<String, PyValue>
    var finalAnswer: Option<String>
    /** How many times `cleanup` has run; the temporary directory it
        removes is not modelled. */
    var cleanups: nat

    function State(): ReplState
      reads this
    {
      ReplState(namespace, finalAnswer)
    }

    /** A new REPL: the bootstrap namespace and an empty answer slot. */
    constructor(available: set<String>)
      ensures namespace == BootstrapNamespace(available)
      ensures namespace.Keys == InjectedNames
      ensures finalAnswer == None && cleanups == 0
    {
      namespace := BootstrapNamespace(available);
      finalAnswer := None;
      cleanups := 0;
    }

    /** `load_context`: binds the text under `varName` and returns its
        length; every other binding and the slot are kept. */
    method LoadContext(text: String, varName: String) returns (n: nat)
      modifies this
      ensures namespace == old(namespace)[varName := PyStr(text)]
      ensures forall k :: k in old(namespace) && k != varName ==> k in namespace && namespace[k] == old(namespace)[k]
      ensures finalAnswer == old(finalAnswer) && cleanups == old(cleanups)
      ensures n == |text|
    {
      namespace := namespace[varName := PyStr(text)];
      n := |text|;
    }

    /** `_final`: always overwrites the slot with `str(answer)`. */
    method Final(answer: PyValue) returns (printed: String)
      modifies this
      ensures (State(), printed) == FinalEffect(old(State()), answer)
      ensures finalAnswer == Some(ToStr(answer)) && namespace == old(namespace)
      ensures cleanups == old(cleanups)
    {
      finalAnswer := Some(ToStr(answer));
      printed := "FINAL(" + ToStr(answer) + ")\n";
    }

    /** `_final_var`: sets the slot to `str` of the bound value, even when
        that value is None; with an unbound name it prints an error and
        leaves the slot as it was. */
    method FinalVar(name: String) returns (printed: String)
      modifies this
      ensures (State(), printed) == FinalVarEffect(old(State()), name)
      ensures namespace == old(namespace)
      ensures name in namespace ==> finalAnswer == Some(ToStr(namespace[name]))
      ensures name !in namespace ==> finalAnswer == old(finalAnswer)
      ensures cleanups == old(cleanups)
    {
      if name in namespace {
        finalAnswer := Some(ToStr(namespace[name]));
        printed := "FINAL_VAR('" + name + "')\n";
      } else {
        printed := "Error: variable '" + name + "' not found in namespace\n";
      }
    }

    /** `_show_vars`: one line per visible variable, in sorted key order. */
    method ShowVars() returns (printed: String)
      ensures printed == ShowVarsText(namespace)
    {
      var ns := namespace;
      var remaining := ns.Keys;
      printed := [];
      while remaining != {}
        invariant remaining <= ns.Keys
        invariant printed + ShowLines(ns, SortedKeys(remaining)) == ShowVarsText(ns)
        decreases |remaining|
      {
        var k := LeastKey(remaining);
        ShowVarsStep(ns, remaining, k, printed);
        printed := printed + if Hidden(k) then [] else ShowLine(k, ns[k]);
        remaining := remaining - {k};
      }
    }

    /** `execute`: runs a block's effects against the REPL, capturing what
        it prints and the exception that ends it. */
    method Execute(script: Script) returns (res: ExecResult)
      modifies this
      ensures (State(), res) == RunScript(old(State()), script)
      ensures cleanups == old(cleanups)
    {
      var out, err := [], [];
      var i := 0;
      while i < |script|
        invariant i <= |script|
        invariant RunScript(old(State()), script) == RunSteps(State(), script[i..], out, err)
        invariant cleanups == old(cleanups)
      {
        assert script[i..][0] == script[i] && script[i..][1..] == script[i + 1..];
        match script[i] {
        case Write(text) => out := out + text;
        case WriteErr(text) => err := err + text;
        case Assign(name, value) => namespace := namespace[name := value];
        case Delete(name) =>
          if name !in namespace {
            return ExecResult(out, err, Some("NameError: name '" + name + "' is not defined"));
          }
          namespace := namespace - {name};
        case CallFinal(answer) =>
          var line := Final(answer);
          out := out + line;
        case CallFinalVar(name) =>
          var line := FinalVar(name);
          out := out + line;
        case CallShowVars =>
          var shown := ShowVars();
          out := out + shown;
        case Raise(kind, message) =>
          return ExecResult(out, err, Some(kind + ": " + message));
        }
        i := i + 1;
      }
      res := ExecResult(out, err, None);
    }

    /** `cleanup`: removes the temporary directory; the namespace and the
        slot are kept. */
    method Cleanup()
      modifies this
      ensures State() == old(State())
      ensures cleanups == old(cleanups) + 1
    {
      cleanups := cleanups + 1;
    }
  }
}
