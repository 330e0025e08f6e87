/** The output protocol of the reasoning loop: ```` ```repl ```` code blocks,
    the `FINAL_VAR('name')` and `FINAL(answer)` termination markers, and
    head/tail truncation of long output. Each regular expression of the
    source is written out as the scan the regex engine performs on it. */
module Parsing {
  import opened Text
  import opened Values

  const ReplOpener: String := "```repl"
  const Fence: String := "```"
  const FinalVarOpener: String := "FINAL_VAR("
  const FinalOpener: String := "FINAL("

  // ---------------------------------------------------------------------
  // Code blocks: re.findall(r"```repl\s*\n(.*?)```", text, re.DOTALL)

  /** One match of the code-block pattern: the opener at `open`, the
      captured group from `body` to `close`, the closing fence at `close`. */
  datatype Span = Span(open: nat, body: nat, close: nat)

  /** What a match of the pattern is: the opener, whitespace that ends in a
      newline, then a group that runs up to the first fence after it. */
  ghost predicate IsBlockMatch(text: String, sp: Span) {
    && OccursAt(text, ReplOpener, sp.open)
    && sp.open + |ReplOpener| < sp.body <= sp.close <= |text|
    && AllSpace(text, sp.open + |ReplOpener|, sp.body)
    && text[sp.body - 1] == '\n'
    && OccursAt(text, Fence, sp.close)
    && (forall k :: sp.body <= k < sp.close ==> !OccursAt(text, Fence, k))
  }

  /** The last newline in `s[i..j]`. */
  function LastNewline(s: String, i: nat, j: nat): (r: Option<nat>)
    requires i <= j <= |s|
    decreases j - i
    ensures r.Some? ==> i <= r.value < j && s[r.value] == '\n'
    ensures r.None? ==> forall k :: i <= k < j ==> s[k] != '\n'
  {
    if i == j then None
    else if s[j - 1] == '\n' then Some(j - 1)
    else LastNewline(s, i, j - 1)
  }

  /** The pattern tried at position `p`. The greedy `\s*` takes the whole
      whitespace run and gives back up to its last newline, which `\n`
      consumes; the lazy group then stops at the first fence. */
  function BlockAt(text: String, p: nat): (r: Option<Span>)
    ensures r.Some? ==> r.value.open == p && IsBlockMatch(text, r.value)
  {
    if !OccursAt(text, ReplOpener, p) then None
    else
      var start := p + |ReplOpener|;
      var runEnd := SpaceRunEnd(text, start);
      match LastNewline(text, start, runEnd)
      case None => None
      case Some(nl) =>
        match FindFrom(text, Fence, nl + 1)
        case None => None
        case Some(close) => Some(Span(p, nl + 1, close))
  }

  /** When the pattern fails at `p`, no match starts there. */
  lemma BlockAtComplete(text: String, p: nat, sp: Span)
    requires sp.open == p && IsBlockMatch(text, sp)
    ensures BlockAt(text, p).Some?
  {
    var start := p + |ReplOpener|;
    var runEnd := SpaceRunEnd(text, start);
    assert sp.body - 1 < runEnd;
    var nl := LastNewline(text, start, runEnd);
    assert nl.Some?;
    assert text[sp.close] == '`' by {
      assert text[sp.close..sp.close + |Fence|] == Fence;
    }
    assert runEnd <= sp.close;
    assert OccursAt(text, Fence, sp.close);
  }

  /** Span `a` ends, fence included, at or before span `b` opens. */
  predicate Precedes(a: Span, b: Span) {
    a.close + |Fence| <= b.open
  }

  /** No match of the pattern starts in `[a, b)`. */
  ghost predicate NoMatchBetween(text: String, a: nat, b: nat) {
    forall sp: Span {:trigger IsBlockMatch(text, sp)} :: a <= sp.open < b ==> !IsBlockMatch(text, sp)
  }

  /** No match of the pattern starts at or after `a`. */
  ghost predicate NoMatchFrom(text: String, a: nat) {
    forall sp: Span {:trigger IsBlockMatch(text, sp)} :: a <= sp.open ==> !IsBlockMatch(text, sp)
  }

  /** No match starts in the gap after `spans[i]` and before `spans[i + 1]`. */
  ghost predicate GapClear(text: String, spans: seq<Span>, i: nat)
    requires i + 1 < |spans|
  {
    NoMatchBetween(text, spans[i].close + |Fence|, spans[i + 1].open)
  }

  /** `spans`, reported from `from`, skip no match: none starts before the
      first span, in a gap between two spans, or after the last span. */
  ghost predicate SkipsNoMatch(text: String, from: nat, spans: seq<Span>) {
    && (spans == [] ==> NoMatchFrom(text, from))
    && (spans != [] ==> NoMatchBetween(text, from, spans[0].open))
    && (forall i: nat :: i + 1 < |spans| ==> GapClear(text, spans, i))
    && (spans != [] ==> NoMatchFrom(text, spans[|spans| - 1].close + |Fence|))
  }

  lemma NoMatchPastEnd(text: String, from: nat)
    requires from >= |text|
    ensures SkipsNoMatch(text, from, [])
  {
    forall sp: Span {:trigger IsBlockMatch(text, sp)} | from <= sp.open ensures !IsBlockMatch(text, sp) {}
  }

  /** Where the pattern fails, no match starts. */
  lemma NoMatchAt(text: String, p: nat)
    requires BlockAt(text, p).None?
    ensures forall sp: Span {:trigger IsBlockMatch(text, sp)} :: sp.open == p ==> !IsBlockMatch(text, sp)
  {
    forall sp: Span {:trigger IsBlockMatch(text, sp)} | sp.open == p ensures !IsBlockMatch(text, sp) {
      if IsBlockMatch(text, sp) { BlockAtComplete(text, p, sp); }
    }
  }

  /** A match found at `from`, followed by the spans reported after its
      closing fence, gives the spans reported from `from`. */
  lemma SpansCons(text: String, from: nat, sp: Span, rest: seq<Span>)
    requires sp.open == from && IsBlockMatch(text, sp)
    requires forall i :: 0 <= i < |rest| ==> sp.close + |Fence| <= rest[i].open && IsBlockMatch(text, rest[i])
    requires forall i :: 0 <= i < |rest| - 1 ==> Precedes(rest[i], rest[i + 1])
    requires SkipsNoMatch(text, sp.close + |Fence|, rest)
    ensures var spans := [sp] + rest;
      && (forall i :: 0 <= i < |spans| ==> from <= spans[i].open && IsBlockMatch(text, spans[i]))
      && (forall i :: 0 <= i < |spans| - 1 ==> Precedes(spans[i], spans[i + 1]))
      && SkipsNoMatch(text, from, spans)
  {
    var spans := [sp] + rest;
    forall i | 0 <= i < |spans| - 1 ensures Precedes(spans[i], spans[i + 1]) {
      if i > 0 { assert spans[i] == rest[i - 1] && spans[i + 1] == rest[i]; }
    }
    forall i: nat | i + 1 < |spans| ensures GapClear(text, spans, i) {
      if i > 0 {
        assert GapClear(text, rest, i - 1);
        assert spans[i] == rest[i - 1] && spans[i + 1] == rest[i];
      }
    }
  }

  /** No match at `from`, so the spans reported from `from + 1` are the
      spans reported from `from`. */
  lemma SpansSkip(text: String, from: nat, spans: seq<Span>)
    requires forall sp: Span {:trigger IsBlockMatch(text, sp)} :: sp.open == from ==> !IsBlockMatch(text, sp)
    requires forall i :: 0 <= i < |spans| ==> from + 1 <= spans[i].open && IsBlockMatch(text, spans[i])
    requires SkipsNoMatch(text, from + 1, spans)
    ensures forall i :: 0 <= i < |spans| ==> from <= spans[i].open && IsBlockMatch(text, spans[i])
    ensures SkipsNoMatch(text, from, spans)
  {
  }

  /** The successive matches `findall` reports, scanning from `from`: each
      is a match, they are disjoint and in order, and no match is skipped. */
  function BlockSpans(text: String, from: nat): (spans: seq<Span>)
    decreases |text| - from
    ensures forall i :: 0 <= i < |spans| ==> from <= spans[i].open && IsBlockMatch(text, spans[i])
    ensures forall i :: 0 <= i < |spans| - 1 ==> Precedes(spans[i], spans[i + 1])
    ensures SkipsNoMatch(text, from, spans)
  {
    if from >= |text| then NoMatchPastEnd(text, from); []
    else
      match BlockAt(text, from)
      case Some(sp) =>
        var rest := BlockSpans(text, sp.close + |Fence|);
        SpansCons(text, from, sp, rest);
        [sp] + rest
      case None =>
        var rest := BlockSpans(text, from + 1);
        NoMatchAt(text, from);
        SpansSkip(text, from, rest);
        rest
  }

  /** `find_code_blocks`: each captured group, stripped. */
  function FindCodeBlocks(text: String): (blocks: seq<String>)
    ensures var spans := BlockSpans(text, 0);
      |blocks| == |spans| &&
      forall i {:trigger blocks[i]} :: 0 <= i < |blocks| ==> blocks[i] == Strip(text[spans[i].body..spans[i].close])
  {
    var spans := BlockSpans(text, 0);
    seq(|spans|, i requires 0 <= i < |spans| => Strip(text[spans[i].body..spans[i].close]))
  }

  /** `block` is the stripped text between the opener of `sp` and its
      closing fence, and holds no fence. */
  ghost predicate BlockBetween(text: String, sp: Span, block: String) {
    && sp.open + |ReplOpener| <= sp.close <= |text|
    && block == Strip(text[sp.open + |ReplOpener|..sp.close])
    && !Contains(block, Fence)
  }

  /** Every block is the stripped text between a ```` ```repl ```` opener and
      the next fence, and no block contains a fence. */
  lemma {:induction false} CodeBlocksBetweenFences(text: String)
    ensures forall i :: 0 <= i < |FindCodeBlocks(text)| ==>
      BlockBetween(text, BlockSpans(text, 0)[i], FindCodeBlocks(text)[i])
  {
    var spans, blocks := BlockSpans(text, 0), FindCodeBlocks(text);
    forall i | 0 <= i < |blocks| ensures BlockBetween(text, spans[i], blocks[i]) {
      BlockBetweenFences(text, spans[i], blocks[i]);
    }
  }

  /** One block: the opening whitespace does not reach the stripped text,
      and the fence-free group stays fence-free once stripped. */
  lemma BlockBetweenFences(text: String, sp: Span, block: String)
    requires IsBlockMatch(text, sp) && block == Strip(text[sp.body..sp.close])
    ensures block == Strip(text[sp.open + |ReplOpener|..sp.close])
    ensures !Contains(block, Fence)
  {
    OpeningSpaceStripped(text, sp.open + |ReplOpener|, sp.body, sp.close);
    NoOccurrenceInSlice(text, Fence, sp.body, sp.close);
    StripKeepsAbsence(text[sp.body..sp.close], Fence);
  }

  /** Whitespace between `start` and `body` does not reach the stripped text. */
  lemma OpeningSpaceStripped(text: String, start: nat, body: nat, close: nat)
    requires start <= body <= close <= |text| && AllSpace(text, start, body)
    ensures Strip(text[body..close]) == Strip(text[start..close])
  {
    var w, x := text[start..body], text[body..close];
    assert text[start..close] == w + x;
    assert AllSpace(w, 0, |w|) by {
      forall k | 0 <= k < |w| ensures IsSpace(w[k]) {
        assert w[k] == text[start + k];
      }
    }
    StripSkipsLeadingSpace(w, x);
  }

  /** Stripping cuts a slice, so it cannot create an occurrence. */
  lemma StripKeepsAbsence(x: String, pat: String)
    requires |pat| > 0 && !Contains(x, pat)
    ensures !Contains(Strip(x), pat)
  {
    var a, b := LeadingSpace(x), Strip(x);
    assert FindFrom(x, pat, 0).None?;
    NoOccurrenceInSlice(x, pat, a, a + |b|);
  }

  lemma {:induction false} BlockSpansEmpty(text: String, from: nat)
    decreases |text| - from
    ensures BlockSpans(text, from) == [] <==> forall sp: Span {:trigger IsBlockMatch(text, sp)} :: from <= sp.open ==> !IsBlockMatch(text, sp)
  {
    if from < |text| {
      match BlockAt(text, from)
      case Some(sp) =>
      case None =>
        BlockSpansEmpty(text, from + 1);
        forall sp: Span {:trigger IsBlockMatch(text, sp)} | sp.open == from ensures !IsBlockMatch(text, sp) {
          if IsBlockMatch(text, sp) { BlockAtComplete(text, from, sp); }
        }
    }
  }

  /** There are no blocks exactly when the pattern matches nowhere; in
      particular there are none when the text has no ```` ```repl ````. */
  lemma NoBlocksIffNoMatch(text: String)
    ensures FindCodeBlocks(text) == [] <==> forall sp: Span {:trigger IsBlockMatch(text, sp)} :: !IsBlockMatch(text, sp)
    ensures !Contains(text, ReplOpener) ==> FindCodeBlocks(text) == []
  {
    BlockSpansEmpty(text, 0);
  }

  // ---------------------------------------------------------------------
  // FINAL_VAR: re.search(r"FINAL_VAR\(\s*['\"](\w+)['\"]\s*\)", text)

  predicate IsQuote(c: char) {
    c == '\'' || c == '"'
  }

  /** One way the by-reference pattern can match at `p`: the opener,
      whitespace, a quote at `q`, word characters, a quote at `e`,
      whitespace, and the closing parenthesis at `c`. */
  ghost predicate FinalVarParse(text: String, p: nat, q: nat, e: nat, c: nat) {
    && OccursAt(text, FinalVarOpener, p)
    && p + |FinalVarOpener| <= q && q + 1 < e && e < c < |text|
    && AllSpace(text, p + |FinalVarOpener|, q) && IsQuote(text[q])
    && (forall k :: q + 1 <= k < e ==> IsWordChar(text[k]))
    && IsQuote(text[e]) && AllSpace(text, e + 1, c) && text[c] == ')'
  }

  ghost predicate IsFinalVarMatch(text: String, p: nat, name: String) {
    exists q: nat, e: nat, c: nat :: FinalVarParse(text, p, q, e, c) && name == text[q + 1..e]
  }

  /** The by-reference pattern tried at `p`. No backtracking is needed: a
      quote is neither whitespace nor a word character, so each greedy run
      must be taken whole. */
  function FinalVarAt(text: String, p: nat): (r: Option<String>) {
    if !OccursAt(text, FinalVarOpener, p) then None
    else
      var q := SpaceRunEnd(text, p + |FinalVarOpener|);
      if q < |text| && IsQuote(text[q]) then
        var e := RunEnd(text, q + 1, IsWordChar);
        if q + 1 < e < |text| && IsQuote(text[e]) then
          var c := SpaceRunEnd(text, e + 1);
          if c < |text| && text[c] == ')' then Some(text[q + 1..e]) else None
        else None
      else None
  }

  /** The scan finds a name at `p` exactly when the pattern can match there
      capturing that name. */
  lemma FinalVarAtMatches(text: String, p: nat, name: String)
    ensures FinalVarAt(text, p) == Some(name) <==> IsFinalVarMatch(text, p, name)
  {
    if FinalVarAt(text, p) == Some(name) {
      FinalVarAtSound(text, p, name);
    }
    if IsFinalVarMatch(text, p, name) {
      var q: nat, e: nat, c: nat :| FinalVarParse(text, p, q, e, c) && name == text[q + 1..e];
      FinalVarAtComplete(text, p, q, e, c);
    }
  }

  lemma FinalVarAtSound(text: String, p: nat, name: String)
    requires FinalVarAt(text, p) == Some(name)
    ensures IsFinalVarMatch(text, p, name)
  {
    var q := SpaceRunEnd(text, p + |FinalVarOpener|);
    var e := RunEnd(text, q + 1, IsWordChar);
    var c := SpaceRunEnd(text, e + 1);
    assert FinalVarParse(text, p, q, e, c);
  }

  lemma FinalVarAtComplete(text: String, p: nat, q: nat, e: nat, c: nat)
    requires FinalVarParse(text, p, q, e, c)
    ensures FinalVarAt(text, p) == Some(text[q + 1..e])
  {
    assert SpaceRunEnd(text, p + |FinalVarOpener|) == q;
    assert RunEnd(text, q + 1, IsWordChar) == e;
    assert SpaceRunEnd(text, e + 1) == c;
  }

  /** The leftmost position in `from..n` where `at` finds something, with
      what it found there. */
  function Leftmost<T>(n: nat, from: nat, at: nat -> Option<T>): (r: Option<(nat, T)>)
    decreases n - from
    ensures r.Some? ==> from <= r.value.0 < n && at(r.value.0) == Some(r.value.1)
    ensures r.Some? ==> forall p :: from <= p < r.value.0 ==> at(p).None?
    ensures r.None? ==> forall p :: from <= p < n ==> at(p).None?
  {
    if from >= n then None
    else
      match at(from)
      case Some(x) => Some((from, x))
      case None => Leftmost(n, from + 1, at)
  }

  /** A position where `at` finds something, with nothing found before it,
      is the leftmost one. */
  lemma LeftmostOf<T>(n: nat, at: nat -> Option<T>, p: nat, x: T)
    requires p < n && at(p) == Some(x)
    requires forall p': nat :: p' < p ==> at(p').None?
    ensures Leftmost(n, 0, at) == Some((p, x))
  {
    var r := Leftmost(n, 0, at);
    if r.None? || r.value.0 > p {
      assert false;
    }
  }

  /** `re.search`: the leftmost position where the pattern matches, with
      the captured name. */
  function FinalVarSearch(text: String, from: nat): Option<(nat, String)> {
    Leftmost(|text|, from, (p: nat) => FinalVarAt(text, p))
  }

  /** What the search finds is a name the scan finds there. */
  lemma FinalVarSearchHit(text: String)
    ensures var r := FinalVarSearch(text, 0);
      r.Some? ==> FinalVarAt(text, r.value.0) == Some(r.value.1)
  {
    var at := (p: nat) => FinalVarAt(text, p);
    var r := Leftmost(|text|, 0, at);
    if r.Some? {
      assert at(r.value.0) == FinalVarAt(text, r.value.0);
    }
  }

  // ---------------------------------------------------------------------
  // FINAL: re.search(r"FINAL\((.*?)\)\s*$", text, re.DOTALL | re.MULTILINE)

  /** `\s*$` in multi-line mode at `i`: some whitespace prefix ends at a
      newline or at the end of the text. */
  predicate LineEndsAt(text: String, i: nat)
    requires i <= |text|
  {
    exists j | i <= j <= |text| :: AllSpace(text, i, j) && (j == |text| || text[j] == '\n')
  }

  /** A `)` that can end the literal pattern. */
  predicate IsCloser(text: String, k: nat)
    requires k < |text|
  {
    text[k] == ')' && LineEndsAt(text, k + 1)
  }

  /** The lazy `(.*?)`: the nearest closer at or after `from`. */
  function FirstCloser(text: String, from: nat): (r: Option<nat>)
    requires from <= |text|
    decreases |text| - from
    ensures r.Some? ==> from <= r.value < |text| && IsCloser(text, r.value)
    ensures r.Some? ==> forall k :: from <= k < r.value ==> !IsCloser(text, k)
    ensures r.None? ==> forall k :: from <= k < |text| ==> !IsCloser(text, k)
  {
    if from == |text| then None
    else if IsCloser(text, from) then Some(from)
    else FirstCloser(text, from + 1)
  }

  /** The literal pattern tried at `p`: an opener there, and the closer
      that ends its group. */
  function FinalCallAt(text: String, p: nat): (r: Option<nat>)
    ensures r.Some? ==> OccursAt(text, FinalOpener, p) && p + |FinalOpener| <= r.value < |text|
    ensures r.Some? ==> IsCloser(text, r.value)
    ensures r.Some? ==> forall k :: p + |FinalOpener| <= k < r.value ==> !IsCloser(text, k)
    ensures r.None? <==>
      || !OccursAt(text, FinalOpener, p)
      || forall k :: p + |FinalOpener| <= k < |text| ==> !IsCloser(text, k)
  {
    if OccursAt(text, FinalOpener, p) then FirstCloser(text, p + |FinalOpener|) else None
  }

  /** `re.search` for the literal pattern: the leftmost opener that has a
      closer after it, with that closer. */
  function FinalCallSearch(text: String): Option<(nat, nat)> {
    Leftmost(|text|, 0, (p: nat) => FinalCallAt(text, p))
  }

  /** What the search finds is an opener and the closer that ends its group. */
  lemma FinalCallSearchHit(text: String)
    ensures var r := FinalCallSearch(text);
      r.Some? ==> FinalCallAt(text, r.value.0) == Some(r.value.1)
  {
    var at := (p: nat) => FinalCallAt(text, p);
    var r := Leftmost(|text|, 0, at);
    if r.Some? {
      assert at(r.value.0) == FinalCallAt(text, r.value.0);
    }
  }

  /** Removes one layer of matching quotes from an answer of length two or more. */
  function Unquote(a: String): (r: String)
    ensures r != a <==> |a| >= 2 && a[0] == a[|a| - 1] && IsQuote(a[0])
    ensures r != a ==> a == [a[0]] + r + [a[0]]
  {
    if |a| >= 2 && a[0] == a[|a| - 1] && IsQuote(a[0]) then a[1..|a| - 1] else a
  }

  /** The answer the literal marker gives, if it matches: there is one only
      when the text has a `FINAL(`, and it is shorter than the text by at
      least the opener and the closing parenthesis. */
  function LiteralAnswer(text: String): (r: Option<String>)
    ensures r.Some? ==> Contains(text, FinalOpener)
    ensures r.Some? ==> |r.value| + |FinalOpener| + 1 <= |text|
  {
    var r := FinalCallSearch(text);
    FinalCallSearchHit(text);
    match r
    case Some((o, c)) =>
      assert OccursAt(text, FinalOpener, o);
      Some(Unquote(Strip(text[o + |FinalOpener|..c])))
    case None => None
  }

  /** `find_final_answer(text, repl)`, with `namespace` standing for
      `repl.namespace` (None when no REPL is given). */
  function FindFinalAnswer(text: String, namespace: Option<map<String, PyValue>>): (r: Option<String>)
    ensures namespace.None? ==> r == LiteralAnswer(text)
    ensures r != LiteralAnswer(text) ==> r.Some? && namespace.Some? && Contains(text, FinalVarOpener)
  {
    var byName := FinalVarSearch(text, 0);
    FinalVarSearchHit(text);
    if byName.Some? && namespace.Some? && byName.value.1 in namespace.value
       && namespace.value[byName.value.1] != PyNone
    then Some(ToStr(namespace.value[byName.value.1]))
    else LiteralAnswer(text)
  }

  /** The literal marker is matched at the first `FINAL(` of the text, and its
      group runs to the first `)` after it that only whitespace separates from
      a line break or the end of the text. */
  lemma LiteralAnswerAtFirstOpener(text: String)
    ensures LiteralAnswer(text) ==
      match FindFrom(text, FinalOpener, 0)
      case None => None
      case Some(o) =>
        match FirstCloser(text, o + |FinalOpener|)
        case None => None
        case Some(c) => Some(Unquote(Strip(text[o + |FinalOpener|..c])))
  {
    FinalCallAtFirstOpener(text);
    match FindFrom(text, FinalOpener, 0)
    case None =>
    case Some(o) =>
      match FirstCloser(text, o + |FinalOpener|)
      case None =>
      case Some(c) =>
        assert FinalCallSearch(text) == Some((o, c));
  }

  /** The search for the literal pattern settles on the first opener. */
  lemma FinalCallAtFirstOpener(text: String)
    ensures FinalCallSearch(text) ==
      match FindFrom(text, FinalOpener, 0)
      case None => None
      case Some(o) =>
        match FirstCloser(text, o + |FinalOpener|)
        case None => None
        case Some(c) => Some((o, c))
  {
    match FindFrom(text, FinalOpener, 0)
    case None =>
      FinalCallSearchHit(text);
    case Some(o) =>
      match FirstCloser(text, o + |FinalOpener|)
      case Some(c) => FirstOpenerCloses(text, o, c);
      case None => FirstOpenerUnclosed(text, o);
  }

  lemma FirstOpenerCloses(text: String, o: nat, c: nat)
    requires FindFrom(text, FinalOpener, 0) == Some(o)
    requires FirstCloser(text, o + |FinalOpener|) == Some(c)
    ensures FinalCallSearch(text) == Some((o, c))
  {
    var at := (p: nat) => FinalCallAt(text, p);
    assert at(o) == Some(c);
    forall p': nat | p' < o ensures at(p').None? {
      assert !OccursAt(text, FinalOpener, p');
    }
    LeftmostOf(|text|, at, o, c);
  }

  lemma FirstOpenerUnclosed(text: String, o: nat)
    requires FindFrom(text, FinalOpener, 0) == Some(o)
    requires FirstCloser(text, o + |FinalOpener|).None?
    ensures FinalCallSearch(text).None?
  {
    FinalCallSearchHit(text);
  }

  /** By reference wins: when the leftmost `FINAL_VAR` match names a
      variable bound to a value other than None, that value's `str` is the
      answer, whatever literal marker the text also holds. */
  lemma ByReferenceTakesPrecedence(text: String, namespace: map<String, PyValue>, p: nat, name: String)
    requires IsFinalVarMatch(text, p, name)
    requires forall p': nat, n :: p' < p ==> !IsFinalVarMatch(text, p', n)
    requires name in namespace && namespace[name] != PyNone
    ensures FindFinalAnswer(text, Some(namespace)) == Some(ToStr(namespace[name]))
  {
    LeftmostFinalVar(text, p, name);
  }

  /** The search lands on the leftmost match of the by-reference pattern. */
  lemma LeftmostFinalVar(text: String, p: nat, name: String)
    requires IsFinalVarMatch(text, p, name)
    requires forall p': nat, n :: p' < p ==> !IsFinalVarMatch(text, p', n)
    ensures FinalVarSearch(text, 0) == Some((p, name))
  {
    var at := (p: nat) => FinalVarAt(text, p);
    FinalVarAtMatches(text, p, name);
    assert at(p) == Some(name);
    forall p': nat | p' < p ensures at(p').None? {
      NoEarlierScan(text, p', p);
    }
    LeftmostOf(|text|, at, p, name);
  }

  lemma NoEarlierScan(text: String, p': nat, p: nat)
    requires p' < p
    requires forall p'': nat, n :: p'' < p ==> !IsFinalVarMatch(text, p'', n)
    ensures FinalVarAt(text, p').None?
  {
    if FinalVarAt(text, p').Some? {
      FinalVarAtMatches(text, p', FinalVarAt(text, p').value);
    }
  }

  /** The three ways a `FINAL_VAR` match falls through to the literal
      marker: no REPL, an unbound name, or a name bound to None; and the
      case where the by-reference pattern matches nowhere. */
  lemma FallsThroughToLiteral(text: String, namespace: Option<map<String, PyValue>>)
    requires
      || namespace.None?
      || (forall p, n :: !IsFinalVarMatch(text, p, n))
      || (exists p, name ::
            && IsFinalVarMatch(text, p, name)
            && (forall p': nat, n :: p' < p ==> !IsFinalVarMatch(text, p', n))
            && (name !in namespace.value || namespace.value[name] == PyNone))
    ensures FindFinalAnswer(text, namespace) == LiteralAnswer(text)
  {
    var r := FinalVarSearch(text, 0);
    if r.Some? && namespace.Some? {
      if exists p, name ::
            && IsFinalVarMatch(text, p, name)
            && (forall p': nat, n :: p' < p ==> !IsFinalVarMatch(text, p', n))
            && (name !in namespace.value || namespace.value[name] == PyNone)
      {
        var p, name :|
            && IsFinalVarMatch(text, p, name)
            && (forall p': nat, n :: p' < p ==> !IsFinalVarMatch(text, p', n))
            && (name !in namespace.value || namespace.value[name] == PyNone);
        LeftmostFinalVar(text, p, name);
      } else {
        FinalVarSearchHit(text);
        FinalVarAtMatches(text, r.value.0, r.value.1);
      }
    }
  }

  /** Neither marker present: no answer. */
  lemma NoMarkerNoAnswer(text: String, namespace: Option<map<String, PyValue>>)
    requires forall p, n :: !IsFinalVarMatch(text, p, n)
    requires !Contains(text, FinalOpener)
    ensures FindFinalAnswer(text, namespace) == None
  {
    FallsThroughToLiteral(text, namespace);
    LiteralAnswerAtFirstOpener(text);
  }

  // ---------------------------------------------------------------------
  // truncate_output

  const MarkerHead: String := "\n\n... ["
  const MarkerTail: String := " characters truncated] ...\n\n"

  /** The inline marker reporting `omitted` characters. */
  function Marker(omitted: nat): String {
    MarkerHead + NatToString(omitted) + MarkerTail
  }

  /** Python's `s[-k:]`: the last `k` characters, except that `-0` is `0`,
      so `k == 0` gives the whole text. */
  function NegativeSlice(s: String, k: nat): String
    requires k <= |s|
  {
    if k == 0 then s else s[|s| - k..]
  }

  /** `truncate_output` as written. */
  function TruncateOutput(text: String, maxLength: nat): (r: String)
    ensures |text| <= maxLength ==> r == text
  {
    if |text| <= maxLength then text
    else
      var keep := maxLength / 2;
      text[..keep] + Marker(|text| - maxLength) + NegativeSlice(text, keep)
  }

  /** The count between the marker's brackets, read back from a truncated
      text given the length limit it was truncated to. */
  function ReadOmitted(r: String, maxLength: nat): int {
    var keep := maxLength / 2;
    if keep + |MarkerHead| + |MarkerTail| + keep <= |r|
    then ParseNat(r[keep + |MarkerHead|..|r| - keep - |MarkerTail|])
    else -1
  }

  /** A truncated text keeps the first and last `max_length // 2`
      characters around the marker, drops `len - 2 * keep` characters while
      reporting `len - max_length` (one fewer when `max_length` is odd), and
      the reported count reads back exactly. */
  lemma TruncationLayout(text: String, maxLength: nat)
    requires |text| > maxLength >= 2
    ensures var r, keep, omitted := TruncateOutput(text, maxLength), maxLength / 2, |text| - maxLength;
      && r[..keep] == text[..keep]
      && r[keep..|r| - keep] == Marker(omitted)
      && r[|r| - keep..] == text[|text| - keep..]
      && |text| - 2 * keep == omitted + maxLength % 2
      && ReadOmitted(r, maxLength) == omitted
  {
    TruncationKeepsEnds(text, maxLength);
    TruncationReadsBack(text, maxLength);
  }

  lemma TruncationKeepsEnds(text: String, maxLength: nat)
    requires |text| > maxLength >= 2
    ensures var r, keep := TruncateOutput(text, maxLength), maxLength / 2;
      && r[..keep] == text[..keep]
      && r[keep..|r| - keep] == Marker(|text| - maxLength)
      && r[|r| - keep..] == text[|text| - keep..]
  {
    var keep := maxLength / 2;
    TruncatedShape(text, maxLength);
    Concat3(text[..keep], Marker(|text| - maxLength), text[|text| - keep..]);
  }

  lemma TruncationReadsBack(text: String, maxLength: nat)
    requires |text| > maxLength >= 2
    ensures ReadOmitted(TruncateOutput(text, maxLength), maxLength) == |text| - maxLength
  {
    ShapeReadsBack(text, maxLength);
    ReadOmittedOfShape(text, maxLength, |text| - maxLength);
  }

  lemma ShapeReadsBack(text: String, maxLength: nat)
    requires |text| > maxLength >= 2
    ensures ReadOmitted(text[..maxLength / 2] + Marker(|text| - maxLength) + text[|text| - maxLength / 2..], maxLength)
      == |text| - maxLength
  {
    var keep := maxLength / 2;
    var a, b := text[..keep], text[|text| - keep..];
    assert |a| == keep && |b| == keep;
    LayoutReadsBack(a, b, maxLength, |text| - maxLength);
  }

  lemma ReadOmittedOfShape(text: String, maxLength: nat, count: int)
    requires |text| > maxLength >= 2
    requires ReadOmitted(text[..maxLength / 2] + Marker(|text| - maxLength) + text[|text| - maxLength / 2..], maxLength)
      == count
    ensures ReadOmitted(TruncateOutput(text, maxLength), maxLength) == count
  {
    TruncatedShape(text, maxLength);
  }

  /** The marker between any two ends of `max_length // 2` characters
      reads back as the count it reports. */
  lemma LayoutReadsBack(a: String, b: String, maxLength: nat, omitted: nat)
    requires |a| == |b| == maxLength / 2
    ensures ReadOmitted(a + Marker(omitted) + b, maxLength) == omitted
  {
    var m := Marker(omitted);
    MarkerReadsBack(omitted);
    MiddleOf(a, m, b, |MarkerHead|, |MarkerTail|);
    ReadOmittedAt(a + m + b, maxLength, m[|MarkerHead|..|m| - |MarkerTail|]);
  }

  lemma MiddleOf(a: String, m: String, b: String, h: nat, t: nat)
    requires h + t <= |m|
    ensures (a + m + b)[|a| + h..|a + m + b| - |b| - t] == m[h..|m| - t]
  {
    var s := a + m + b;
    var lhs, rhs := s[|a| + h..|s| - |b| - t], m[h..|m| - t];
    forall x | 0 <= x < |rhs| ensures lhs[x] == rhs[x] {
      assert s[|a| + h + x] == m[h + x];
    }
  }

  lemma ReadOmittedAt(r: String, maxLength: nat, digits: String)
    requires maxLength / 2 + |MarkerHead| + |MarkerTail| + maxLength / 2 <= |r|
    requires r[maxLength / 2 + |MarkerHead|..|r| - maxLength / 2 - |MarkerTail|] == digits
    ensures ReadOmitted(r, maxLength) == ParseNat(digits)
  {
  }

  lemma TruncatedShape(text: String, maxLength: nat)
    requires |text| > maxLength >= 2
    ensures TruncateOutput(text, maxLength)
      == text[..maxLength / 2] + Marker(|text| - maxLength) + text[|text| - maxLength / 2..]
  {
  }

  /** The digits between the marker's fixed parts are the count it reports. */
  lemma MarkerReadsBack(omitted: nat)
    ensures var m := Marker(omitted);
      |MarkerHead| + |MarkerTail| <= |m| && ParseNat(m[|MarkerHead|..|m| - |MarkerTail|]) == omitted
  {
    Concat3(MarkerHead, NatToString(omitted), MarkerTail);
    ParseNatToString(omitted);
  }

  lemma Concat3(a: String, m: String, b: String)
    ensures (a + m + b)[..|a|] == a
    ensures (a + m + b)[|a|..|a + m + b| - |b|] == m
    ensures (a + m + b)[|a + m + b| - |b|..] == b
  {
  }

  /** Finding, as written: with `max_length` 0 or 1, `keep` is 0 and
      `text[-0:]` is the whole text, so the result reports at least one
      truncated character and still holds every character of the text. */
  lemma TruncateKeepZeroKeepsEverything(text: String, maxLength: nat)
    requires |text| > maxLength && maxLength < 2
    ensures TruncateOutput(text, maxLength) == Marker(|text| - maxLength) + text
    ensures |text| - maxLength >= 1
  {
    var m := Marker(|text| - maxLength);
    assert maxLength / 2 == 0;
    assert NegativeSlice(text, 0) == text;
    assert text[..0] + m == m;
  }

  /** The evidently intended truncation: the tail is the last `keep`
      characters, none when `keep` is 0. */
  function TruncateOutputFixed(text: String, maxLength: nat): (r: String)
    ensures |text| <= maxLength ==> r == text
  {
    if |text| <= maxLength then text
    else
      var keep := maxLength / 2;
      text[..keep] + Marker(|text| - maxLength) + text[|text| - keep..]
  }

  /** The corrected truncation keeps `max_length // 2` characters from each
      end around the marker, for every limit, and never keeps a character
      the marker counts as truncated: what it keeps plus what it reports is
      at most the length of the text. */
  lemma FixedNeverOverreports(text: String, maxLength: nat)
    requires |text| > maxLength
    ensures var r, keep, m := TruncateOutputFixed(text, maxLength), maxLength / 2, Marker(|text| - maxLength);
      && r[..keep] == text[..keep]
      && r[keep..|r| - keep] == m
      && r[|r| - keep..] == text[|text| - keep..]
      && (|r| - |m|) + (|text| - maxLength) <= |text|
  {
    var keep := maxLength / 2;
    Concat3(text[..keep], Marker(|text| - maxLength), text[|text| - keep..]);
  }

  /** For every limit the source uses (at least 2) the corrected truncation
      is the one the source computes. */
  lemma FixedAgreesFromTwo(text: String, maxLength: nat)
    requires maxLength >= 2
    ensures TruncateOutputFixed(text, maxLength) == TruncateOutput(text, maxLength)
  {
  }
}
