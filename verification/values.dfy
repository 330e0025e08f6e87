/** The values a REPL namespace holds. Python objects are not modelled as
    such: each value carries what the REPL ever asks of it, its `str`, its
    `repr` and the name of its type. */
module Values {
  import opened Text

  datatype PyValue =
    | PyNone
    | PyStr(s: String)
    /** Any other object, already rendered by `str` and `repr`. */
    | PyObject(typeName: String, text: String, repr: String)
    /** The REPL's `__builtins__` table, by the names it binds. */
    | PyBuiltins(names: set<String>)
    /** A function or bound method the REPL injects, by its binding name. */
    | PyFunction(name: String, typeName: String)

  /** `type(v).__name__` */
  function TypeName(v: PyValue): String {
    match v
    case PyNone => "NoneType"
    case PyStr(_) => "str"
    case PyObject(t, _, _) => t
    case PyBuiltins(_) => "dict"
    case PyFunction(_, t) => t
  }

  /** `str(v)`; the renderings of the builtins table and of functions are
      placeholders (CPython's include memory addresses). */
  function ToStr(v: PyValue): (s: String)
    ensures v.PyStr? ==> s == v.s
    ensures s == [] ==> v.PyStr? || v.PyObject?
  {
    match v
    case PyNone => "None"
    case PyStr(s) => s
    case PyObject(_, text, _) => text
    case PyBuiltins(_) => "{...}"
    case PyFunction(name, _) => "<function " + name + ">"
  }

  /** `repr(v)`: a str's repr is its text in matching quotes; None, the
      builtins table and functions have the same repr as str. */
  function ToRepr(v: PyValue): (r: String)
    ensures v.PyStr? ==> 2 <= |r| && r[0] == r[|r| - 1] && (r[0] == '\'' || r[0] == '"')
    ensures v.PyStr? ==> (r[0] == '"' <==> '\'' in v.s && '"' !in v.s)
    ensures v.PyStr? ==> |v.s| + 2 <= |r|
    ensures v.PyNone? || v.PyBuiltins? || v.PyFunction? ==> r == ToStr(v)
  {
    match v
    case PyStr(s) =>
      EscapeAllLength(s, if '\'' in s && '"' !in s then '"' else '\'');
      StrRepr(s)
    case PyObject(_, _, repr) => repr
    case _ => ToStr(v)
  }

  function HexDigit(d: nat): char
    requires d < 16
  {
    "0123456789abcdef"[d]
  }

  /** How `repr` writes one character of a string quoted with `quote`. */
  function EscapeChar(c: char, quote: char): String {
    if c == '\\' then "\\\\"
    else if c == quote then ['\\', quote]
    else if c == '\t' then "\\t"
    else if c == '\n' then "\\n"
    else if c == '\r' then "\\r"
    else if c < ' ' || c == '\U{7F}' then ['\\', 'x', HexDigit(c as int / 16), HexDigit(c as int % 16)]
    else [c]
  }

  function EscapeAll(s: String, quote: char): String {
    if s == [] then [] else EscapeChar(s[0], quote) + EscapeAll(s[1..], quote)
  }

  /** Escaping never shortens a text. */
  lemma {:induction false} EscapeAllLength(s: String, quote: char)
    ensures |s| <= |EscapeAll(s, quote)|
  {
    if s != [] {
      EscapeAllLength(s[1..], quote);
    }
  }

  /** A character `repr` writes as itself in single quotes: printable
      ASCII or beyond, and neither a quote nor a backslash. */
  predicate Plain(c: char) {
    ' ' <= c && c != '\U{7F}' && c != '\\' && c != '\'' && c != '"'
  }

  /** Plain characters pass through escaping unchanged. */
  lemma {:induction false} EscapeAllPlain(s: String, quote: char)
    requires quote == '\'' || quote == '"'
    requires forall i :: 0 <= i < |s| ==> Plain(s[i])
    ensures EscapeAll(s, quote) == s
  {
    if s != [] {
      EscapeAllPlain(s[1..], quote);
    }
  }

  /** A string of plain characters has its text, unchanged, between single
      quotes as its `repr`. */
  lemma PlainRepr(s: String)
    requires forall i :: 0 <= i < |s| ==> Plain(s[i])
    ensures ToRepr(PyStr(s)) == "'" + s + "'"
  {
    EscapeAllPlain(s, '\'');
  }

  /** A string holding a single quote and no double quote is written
      between double quotes, its single quotes left unescaped. */
  lemma {:induction false} SingleQuotedTextRepr(s: String)
    requires '\'' in s && '"' !in s
    ensures ToRepr(PyStr(s)) == "\"" + EscapeAll(s, '"') + "\""
    ensures EscapeChar('\'', '"') == "'"
  {
  }

  /** `repr` of a str: single quotes unless the text has a single quote and
      no double quote. */
  function StrRepr(s: String): String {
    var quote := if '\'' in s && '"' !in s then '"' else '\'';
    [quote] + EscapeAll(s, quote) + [quote]
  }
}
