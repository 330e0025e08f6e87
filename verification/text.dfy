/** Strings as Python sees them: whitespace, scanning for a pattern, strip(),
    lower(), decimal and thousands-separated formatting, and str.join. */
module Text {

  type String = seq<char>

  datatype Option<+T> = None | Some(value: T)

  datatype Result<+T, +E> = Ok(value: T) | Err(error: E)

  /** Python's whitespace: what `str.isspace` accepts, what `str.strip()`
      removes and what `\s` matches in a `re` pattern over `str`. */
  predicate IsSpace(c: char) {
    c == ' ' || ('\t' <= c <= '\r') || ('\U{1C}' <= c <= '\U{1F}')
    || c == '\U{85}' || c == '\U{A0}' || c == '\U{1680}'
    || ('\U{2000}' <= c <= '\U{200A}') || c == '\U{2028}' || c == '\U{2029}'
    || c == '\U{202F}' || c == '\U{205F}' || c == '\U{3000}'
  }

  /** The ASCII part of `\w`: letters, digits and the underscore. */
  predicate IsWordChar(c: char) {
    ('a' <= c <= 'z') || ('A' <= c <= 'Z') || ('0' <= c <= '9') || c == '_'
  }

  predicate IsDigit(c: char) {
    '0' <= c <= '9'
  }

  predicate AllSpace(s: String, i: nat, j: nat)
    requires i <= j <= |s|
  {
    forall k :: i <= k < j ==> IsSpace(s[k])
  }

  /** `pat` occurs in `s` starting at index `i`. */
  predicate OccursAt(s: String, pat: String, i: nat) {
    i + |pat| <= |s| && s[i..i + |pat|] == pat
  }

  /** The first index at or after `from` where `pat` occurs (`str.find`). */
  function FindFrom(s: String, pat: String, from: nat): (r: Option<nat>)
    decreases |s| - from
    ensures r.Some? ==> from <= r.value && OccursAt(s, pat, r.value)
    ensures r.Some? ==> forall j :: from <= j < r.value ==> !OccursAt(s, pat, j)
    ensures r.None? ==> forall j :: from <= j ==> !OccursAt(s, pat, j)
  {
    if from + |pat| > |s| then None
    else if OccursAt(s, pat, from) then Some(from)
    else FindFrom(s, pat, from + 1)
  }

  /** Python's `pat in s`. */
  predicate Contains(s: String, pat: String) {
    FindFrom(s, pat, 0).Some?
  }

  /** The end of the longest run of characters satisfying `inClass` that
      starts at `i` (a greedy `\s*` or `\w*`). */
  function RunEnd(s: String, i: nat, inClass: char -> bool): (j: nat)
    requires i <= |s|
    decreases |s| - i
    ensures i <= j <= |s|
    ensures forall k :: i <= k < j ==> inClass(s[k])
    ensures j < |s| ==> !inClass(s[j])
  {
    if i == |s| || !inClass(s[i]) then i else RunEnd(s, i + 1, inClass)
  }

  function SpaceRunEnd(s: String, i: nat): (j: nat)
    requires i <= |s|
    ensures i <= j <= |s| && AllSpace(s, i, j)
    ensures j < |s| ==> !IsSpace(s[j])
  {
    RunEnd(s, i, IsSpace)
  }

  /** The number of whitespace characters at the start of `s`. */
  function LeadingSpace(s: String): (n: nat)
    ensures n <= |s| && AllSpace(s, 0, n)
    ensures n < |s| ==> !IsSpace(s[n])
  {
    if s != [] && IsSpace(s[0]) then 1 + LeadingSpace(s[1..]) else 0
  }

  /** The number of whitespace characters at the end of `s`. */
  function TrailingSpace(s: String): (n: nat)
    ensures n <= |s| && AllSpace(s, |s| - n, |s|)
    ensures n < |s| ==> !IsSpace(s[|s| - 1 - n])
  {
    if s != [] && IsSpace(s[|s| - 1]) then 1 + TrailingSpace(s[..|s| - 1]) else 0
  }

  /** Python's `s.strip()`: the slice of `s` left when whitespace is removed
      from both ends. */
  function Strip(s: String): (r: String)
    ensures LeadingSpace(s) + |r| <= |s|
    ensures r == s[LeadingSpace(s)..LeadingSpace(s) + |r|]
    ensures AllSpace(s, LeadingSpace(s) + |r|, |s|)
    ensures r != [] ==> !IsSpace(r[0]) && !IsSpace(r[|r| - 1])
  {
    var t := s[LeadingSpace(s)..];
    t[..|t| - TrailingSpace(t)]
  }

  lemma {:induction false} LeadingSpaceAppend(w: String, x: String)
    requires AllSpace(w, 0, |w|)
    ensures LeadingSpace(w + x) == |w| + LeadingSpace(x)
  {
    if w != [] {
      assert (w + x)[0] == w[0] && IsSpace(w[0]);
      assert (w + x)[1..] == w[1..] + x;
      LeadingSpaceAppend(w[1..], x);
    } else {
      assert w + x == x;
    }
  }

  /** Whitespace in front of a text does not change what strip() returns. */
  lemma StripSkipsLeadingSpace(w: String, x: String)
    requires AllSpace(w, 0, |w|)
    ensures Strip(w + x) == Strip(x)
  {
    LeadingSpaceAppend(w, x);
    assert (w + x)[LeadingSpace(w + x)..] == x[LeadingSpace(x)..];
  }

  /** A slice keeps every absence of a pattern in the text it is cut from. */
  lemma NoOccurrenceInSlice(s: String, pat: String, i: nat, j: nat)
    requires i <= j <= |s| && |pat| > 0
    requires forall k :: i <= k < j ==> !OccursAt(s, pat, k)
    ensures !Contains(s[i..j], pat)
  {
    var t := s[i..j];
    forall k | 0 <= k ensures !OccursAt(t, pat, k) {
      if OccursAt(t, pat, k) {
        assert i + k < j;
        forall m | 0 <= m < |pat| ensures s[i + k + m] == pat[m] {
          assert t[k + m] == t[k..k + |pat|][m];
        }
        assert s[i + k..i + k + |pat|] == pat;
        assert OccursAt(s, pat, i + k);
      }
    }
  }

  function LowerChar(c: char): (d: char)
    ensures IsDigit(d) <==> IsDigit(c)
  {
    if 'A' <= c <= 'Z' then (c as int + 32) as char else c
  }

  /** Python's `s.lower()` on ASCII letters; every other character is kept. */
  function Lower(s: String): (r: String)
    ensures |r| == |s|
    ensures forall i :: 0 <= i < |s| ==> r[i] == LowerChar(s[i])
  {
    seq(|s|, i requires 0 <= i < |s| => LowerChar(s[i]))
  }

  /** Lower-casing a text keeps every occurrence of a pattern that
      lower-casing leaves as it is. */
  lemma LowerKeepsFixedPattern(s: String, pat: String)
    requires forall i :: 0 <= i < |pat| ==> LowerChar(pat[i]) == pat[i]
    ensures Contains(s, pat) ==> Contains(Lower(s), pat)
  {
    if Contains(s, pat) {
      var k := FindFrom(s, pat, 0).value;
      var l := Lower(s);
      forall i | 0 <= i < |pat| ensures l[k + i] == pat[i] {
        assert s[k + i] == s[k..k + |pat|][i];
      }
      assert l[k..k + |pat|] == pat;
      assert OccursAt(l, pat, k);
    }
  }

  /** Lower-casing a text finds a digits-only pattern exactly where the
      original text has it. */
  lemma LowerKeepsDigitPattern(s: String, pat: String)
    requires forall i :: 0 <= i < |pat| ==> IsDigit(pat[i])
    ensures Contains(Lower(s), pat) <==> Contains(s, pat)
  {
    var l := Lower(s);
    forall k: nat ensures OccursAt(l, pat, k) <==> OccursAt(s, pat, k) {
      if k + |pat| <= |s| {
        if OccursAt(s, pat, k) {
          forall i | 0 <= i < |pat| ensures l[k + i] == pat[i] {
            assert s[k + i] == s[k..k + |pat|][i];
          }
          assert l[k..k + |pat|] == pat;
        }
        if OccursAt(l, pat, k) {
          forall i | 0 <= i < |pat| ensures s[k + i] == pat[i] {
            assert l[k + i] == l[k..k + |pat|][i];
          }
          assert s[k..k + |pat|] == pat;
        }
      }
    }
    var a, b := FindFrom(l, pat, 0), FindFrom(s, pat, 0);
    if a.Some? { assert OccursAt(s, pat, a.value); }
    if b.Some? { assert OccursAt(l, pat, b.value); }
  }

  function DigitChar(d: nat): (c: char)
    requires d < 10
    ensures IsDigit(c)
  {
    (d + '0' as int) as char
  }

  function DigitValue(c: char): int {
    c as int - '0' as int
  }

  /** Python's `str(n)` for a non-negative integer. */
  function NatToString(n: nat): (r: String)
    ensures |r| >= 1
    ensures forall i :: 0 <= i < |r| ==> IsDigit(r[i])
  {
    if n < 10 then [DigitChar(n)] else NatToString(n / 10) + [DigitChar(n % 10)]
  }

  /** Reads a string of decimal digits back as a number. */
  function ParseNat(s: String): int {
    if s == [] then 0 else 10 * ParseNat(s[..|s| - 1]) + DigitValue(s[|s| - 1])
  }

  /** A count written by `str` reads back as the same count. */
  lemma {:induction false} ParseNatToString(n: nat)
    ensures ParseNat(NatToString(n)) == n
  {
    var r := NatToString(n);
    if n >= 10 {
      ParseNatToString(n / 10);
      assert r[..|r| - 1] == NatToString(n / 10);
    }
  }

  /** Inserts a comma before every group of three digits counted from the
      right, as Python's `{:,}` format does for an integer. */
  function GroupThousands(digits: String): String
    decreases |digits|
  {
    if |digits| <= 3 then digits
    else GroupThousands(digits[..|digits| - 3]) + "," + digits[|digits| - 3..]
  }

  /** Python's `f"{n:,}"` for a non-negative integer. */
  function Thousands(n: nat): String {
    GroupThousands(NatToString(n))
  }

  function RemoveCommas(s: String): String {
    if s == [] then [] else RemoveCommas(s[..|s| - 1]) + (if s[|s| - 1] == ',' then [] else [s[|s| - 1]])
  }

  lemma {:induction false} RemoveCommasAppend(a: String, b: String)
    ensures RemoveCommas(a + b) == RemoveCommas(a) + RemoveCommas(b)
    decreases |b|
  {
    if b != [] {
      assert (a + b)[..|a + b| - 1] == a + b[..|b| - 1];
      RemoveCommasAppend(a, b[..|b| - 1]);
    } else {
      assert a + b == a;
    }
  }

  lemma {:induction false} RemoveCommasOfDigits(s: String)
    requires forall i :: 0 <= i < |s| ==> IsDigit(s[i])
    ensures RemoveCommas(s) == s
  {
    if s != [] {
      RemoveCommasOfDigits(s[..|s| - 1]);
      assert s == s[..|s| - 1] + [s[|s| - 1]];
    }
  }

  /** The separators are the only thing `{:,}` adds: dropping the commas
      gives back `str(n)`. */
  lemma {:induction false} ThousandsDropsToDigits(n: nat)
    ensures RemoveCommas(Thousands(n)) == NatToString(n)
  {
    GroupDropsToDigits(NatToString(n));
  }

  lemma {:induction false} GroupDropsToDigits(digits: String)
    requires forall i :: 0 <= i < |digits| ==> IsDigit(digits[i])
    ensures RemoveCommas(GroupThousands(digits)) == digits
    decreases |digits|
  {
    if |digits| <= 3 {
      RemoveCommasOfDigits(digits);
    } else {
      var head, tail := digits[..|digits| - 3], digits[|digits| - 3..];
      GroupDropsToDigits(head);
      RemoveCommasOfDigits(tail);
      RemoveCommasAround(GroupThousands(head), tail);
      assert head + tail == digits;
    }
  }

  /** Dropping the commas of two texts joined by a comma drops that one too. */
  lemma RemoveCommasAround(a: String, b: String)
    ensures RemoveCommas(a + "," + b) == RemoveCommas(a) + RemoveCommas(b)
  {
    RemoveCommasAppend(a + ",", b);
    RemoveCommasAppend(a, ",");
    CommaRemoved();
  }

  lemma CommaRemoved()
    ensures RemoveCommas(",") == []
  {
    assert ","[..0] == [];
  }

  /** Python's `sep.join(parts)`. */
  function Join(parts: seq<String>, sep: String): String {
    if parts == [] then []
    else if |parts| == 1 then parts[0]
    else parts[0] + sep + Join(parts[1..], sep)
  }

  function TotalLength(parts: seq<String>): nat {
    if parts == [] then 0 else |parts[0]| + TotalLength(parts[1..])
  }

  /** Where part `i` begins in a join: the earlier parts, each followed by
      one separator. */
  function PartOffset(parts: seq<String>, sep: String, i: nat): nat
    requires i <= |parts|
  {
    if i == 0 then 0 else |parts[0]| + |sep| + PartOffset(parts[1..], sep, i - 1)
  }

  /** A join holds every part, in order, and one separator between each two
      neighbours: part `i` occurs at its offset and is followed by a
      separator unless it is the last, and the length is the parts' total
      plus one separator fewer than there are parts. */
  lemma JoinLayout(parts: seq<String>, sep: String)
    requires parts != []
    ensures var j := Join(parts, sep);
      && |j| == TotalLength(parts) + (|parts| - 1) * |sep|
      && (forall i :: 0 <= i < |parts| ==> OccursAt(j, parts[i], PartOffset(parts, sep, i)))
      && (forall i :: 0 <= i < |parts| - 1 ==> OccursAt(j, sep, PartOffset(parts, sep, i) + |parts[i]|))
  {
    JoinLength(parts, sep);
    JoinParts(parts, sep);
  }

  lemma {:induction false} JoinLength(parts: seq<String>, sep: String)
    requires parts != []
    ensures |Join(parts, sep)| == TotalLength(parts) + (|parts| - 1) * |sep|
  {
    if |parts| > 1 {
      JoinLength(parts[1..], sep);
    }
  }

  lemma JoinParts(parts: seq<String>, sep: String)
    requires parts != []
    ensures var j := Join(parts, sep);
      && (forall i :: 0 <= i < |parts| ==> OccursAt(j, parts[i], PartOffset(parts, sep, i)))
      && (forall i :: 0 <= i < |parts| - 1 ==> OccursAt(j, sep, PartOffset(parts, sep, i) + |parts[i]|))
  {
    forall i | 0 <= i < |parts|
      ensures OccursAt(Join(parts, sep), parts[i], PartOffset(parts, sep, i))
      ensures i < |parts| - 1 ==> OccursAt(Join(parts, sep), sep, PartOffset(parts, sep, i) + |parts[i]|)
    {
      JoinPartAt(parts, sep, i);
    }
  }

  /** Part `i` of a join, and the separator after it. */
  lemma {:induction false} JoinPartAt(parts: seq<String>, sep: String, i: nat)
    requires i < |parts|
    decreases i
    ensures OccursAt(Join(parts, sep), parts[i], PartOffset(parts, sep, i))
    ensures i < |parts| - 1 ==> OccursAt(Join(parts, sep), sep, PartOffset(parts, sep, i) + |parts[i]|)
  {
    var j := Join(parts, sep);
    if |parts| == 1 {
      assert j[..|parts[0]|] == parts[0];
    } else {
      var head, rest := parts[0] + sep, parts[1..];
      var jr := Join(rest, sep);
      assert j == head + jr;
      if i == 0 {
        assert j[..|parts[0]|] == parts[0];
        assert j[|parts[0]|..|head|] == sep;
      } else {
        JoinPartAt(rest, sep, i - 1);
        assert parts[i] == rest[i - 1];
        OccursAfter(head, jr, parts[i], PartOffset(rest, sep, i - 1));
        if i < |parts| - 1 {
          OccursAfter(head, jr, sep, PartOffset(rest, sep, i - 1) + |parts[i]|);
        }
      }
    }
  }

  /** An occurrence in `b` is one in `a + b`, shifted by `|a|`. */
  lemma OccursAfter(a: String, b: String, pat: String, k: nat)
    requires OccursAt(b, pat, k)
    ensures OccursAt(a + b, pat, |a| + k)
  {
    assert (a + b)[|a| + k..|a| + k + |pat|] == b[k..k + |pat|];
  }
}
