/**
 * The Python string builtins that app.py relies on, with their Python
 * semantics: `str.lower`, `str.endswith`, the substring test `in`, slicing
 * with clamped and negative bounds, `sep.join`, `str.strip` and
 * `s.split('.')[-1]`.
 */
module PyStr {

  // ---------------------------------------------------------------- lower()

  /** Lower-casing of one character, on the ASCII letters. */
  function LowerChar(c: char): char {
    if 'A' <= c <= 'Z' then (c as int - 'A' as int + 'a' as int) as char else c
  }

  function Lower(s: string): (r: string)
    ensures |r| == |s|
    ensures forall i :: 0 <= i < |s| ==> r[i] == LowerChar(s[i])
  {
    seq(|s|, i requires 0 <= i < |s| => LowerChar(s[i]))
  }

  lemma LowerAppend(a: string, b: string)
    ensures Lower(a + b) == Lower(a) + Lower(b)
  {
    assert forall i :: 0 <= i < |a + b| ==> Lower(a + b)[i] == (Lower(a) + Lower(b))[i];
  }

  /** Lower-casing neither creates nor removes a '.'. */
  lemma LowerKeepsDots(s: string)
    ensures '.' in Lower(s) <==> '.' in s
  {
    if '.' in Lower(s) {
      var i :| 0 <= i < |s| && Lower(s)[i] == '.';
      assert s[i] == '.';
    }
    if '.' in s {
      var i :| 0 <= i < |s| && s[i] == '.';
      assert Lower(s)[i] == '.';
    }
  }

  // ------------------------------------------------- endswith() and `in`

  predicate StartsWith(s: string, prefix: string) {
    |prefix| <= |s| && s[..|prefix|] == prefix
  }

  predicate EndsWith(s: string, suffix: string) {
    |suffix| <= |s| && s[|s| - |suffix|..] == suffix
  }

  /** Where `pat` occurs in `s`, starting at index i. */
  ghost predicate OccursAt(s: string, pat: string, i: int) {
    0 <= i && i + |pat| <= |s| && s[i..i + |pat|] == pat
  }

  /** Python's `pat in s` on strings. */
  function Contains(s: string, pat: string): bool
    decreases |s|
  {
    StartsWith(s, pat) || (|s| > 0 && Contains(s[1..], pat))
  }

  lemma {:induction false} ContainsMeansOccurs(s: string, pat: string)
    ensures Contains(s, pat) <==> exists i :: OccursAt(s, pat, i)
    decreases |s|
  {
    assert OccursAt(s, pat, 0) <==> StartsWith(s, pat);
    if |s| > 0 {
      ContainsMeansOccurs(s[1..], pat);
      if Contains(s[1..], pat) {
        var i :| OccursAt(s[1..], pat, i);
        OccursShift(s, pat, i);
      }
      if exists i :: OccursAt(s, pat, i) {
        var i :| OccursAt(s, pat, i);
        if i > 0 {
          OccursShift(s, pat, i - 1);
        }
      }
    }
  }

  /** An occurrence at i + 1 in s is an occurrence at i in s without its first character. */
  lemma OccursShift(s: string, pat: string, i: nat)
    requires |s| > 0
    ensures OccursAt(s, pat, i + 1) <==> OccursAt(s[1..], pat, i)
  {
    if i + 1 + |pat| <= |s| {
      assert s[1..][i..i + |pat|] == s[i + 1..i + 1 + |pat|];
    }
  }

  // --------------------------------------------------------------- slicing

  /** Python's normalisation of a slice bound against a length n. */
  function SliceBound(i: int, n: nat): (k: nat)
    ensures k <= n
  {
    if i < 0 then (if i + n < 0 then 0 else i + n)
    else if i <= n then i
    else n
  }

  /** Python's `s[i:j]`; an omitted start is 0 and an omitted stop is len(s). */
  function Slice(s: string, i: int, j: int): (r: string)
    ensures |r| <= |s|
  {
    var a, b := SliceBound(i, |s|), SliceBound(j, |s|);
    if a < b then s[a..b] else ""
  }

  /** With non-negative bounds a slice is the span between the bounds, each cut at the end of s. */
  lemma SliceClamps(s: string, i: int, j: int)
    requires 0 <= i && 0 <= j
    ensures var a := if i < |s| then i else |s|;
      var b := if j < |s| then j else |s|;
      Slice(s, i, j) == if a <= b then s[a..b] else ""
  {
  }

  // ----------------------------------------------------------------- join

  /** Python's `sep.join(parts)`. */
  function Join(sep: string, parts: seq<string>): string {
    if |parts| == 0 then ""
    else if |parts| == 1 then parts[0]
    else Join(sep, parts[..|parts| - 1]) + sep + parts[|parts| - 1]
  }

  /** Joining no parts gives "", and joining one part gives that part unchanged, with no separator. */
  lemma JoinShort(sep: string, x: string)
    ensures Join(sep, []) == ""
    ensures Join(sep, [x]) == x
  {
  }

  /** Joining two non-empty lists is joining their joins: the parts stay in order. */
  lemma {:induction false} JoinConcat(sep: string, xs: seq<string>, ys: seq<string>)
    requires |xs| > 0 && |ys| > 0
    ensures Join(sep, xs + ys) == Join(sep, xs) + sep + Join(sep, ys)
    decreases |ys|
  {
    var zs := xs + ys;
    if |ys| == 1 {
      assert zs[..|zs| - 1] == xs;
    } else {
      var ys' := ys[..|ys| - 1];
      assert zs[..|zs| - 1] == xs + ys';
      JoinConcat(sep, xs, ys');
    }
  }

  /** The joined text is as long as the parts plus one separator between each two. */
  lemma {:induction false} JoinLength(sep: string, parts: seq<string>)
    requires |parts| > 0
    ensures |Join(sep, parts)| == TotalLength(parts) + (|parts| - 1) * |sep|
  {
    if |parts| > 1 {
      var init := parts[..|parts| - 1];
      JoinLength(sep, init);
      TotalLengthSnoc(init, parts[|parts| - 1]);
      assert init + [parts[|parts| - 1]] == parts;
    }
  }

  function TotalLength(parts: seq<string>): nat {
    if parts == [] then 0 else |parts[0]| + TotalLength(parts[1..])
  }

  lemma {:induction false} TotalLengthSnoc(parts: seq<string>, x: string)
    ensures TotalLength(parts + [x]) == TotalLength(parts) + |x|
  {
    if parts != [] {
      assert (parts + [x])[1..] == parts[1..] + [x];
      TotalLengthSnoc(parts[1..], x);
    }
  }

  // ---------------------------------------------------------------- strip()

  /** Python's `str.isspace` on one character. */
  predicate IsSpace(c: char) {
    || ('\t' <= c <= '\r')
    || ('\U{1C}' <= c <= ' ')
    || c == '\U{85}' || c == '\U{A0}' || c == '\U{1680}'
    || ('\U{2000}' <= c <= '\U{200A}')
    || c == '\U{2028}' || c == '\U{2029}' || c == '\U{202F}' || c == '\U{205F}'
    || c == '\U{3000}'
  }

  ghost predicate AllSpace(s: string) {
    forall i :: 0 <= i < |s| ==> IsSpace(s[i])
  }

  /** How many whitespace characters s starts with. */
  function LeadingSpaces(s: string): (n: nat)
    ensures n <= |s|
    ensures AllSpace(s[..n])
    ensures n < |s| ==> !IsSpace(s[n])
  {
    if s != "" && IsSpace(s[0]) then 1 + LeadingSpaces(s[1..]) else 0
  }

  /** How many whitespace characters s ends with. */
  function TrailingSpaces(s: string): (n: nat)
    ensures n <= |s|
    ensures AllSpace(s[|s| - n..])
    ensures n < |s| ==> !IsSpace(s[|s| - n - 1])
  {
    if s != "" && IsSpace(s[|s| - 1]) then 1 + TrailingSpaces(s[..|s| - 1]) else 0
  }

  /**
   * Python's `s.strip()`: s with its leading and trailing whitespace removed,
   * and nothing else removed.
   */
  function Strip(s: string): (r: string)
    ensures var a := LeadingSpaces(s);
      && a + |r| <= |s|
      && r == s[a..a + |r|]
      && AllSpace(s[..a])
      && AllSpace(s[a + |r|..])
    ensures r != "" ==> !IsSpace(r[0]) && !IsSpace(r[|r| - 1])
    ensures r == "" <==> AllSpace(s)
  {
    var a := LeadingSpaces(s);
    if a == |s| then "" else s[a..|s| - TrailingSpaces(s)]
  }

  // ------------------------------------------------------- split(sep)[-1]

  /** Python's `s.split(sep)[-1]`: what follows the last sep, or all of s when there is none. */
  function SplitLast(s: string, sep: char): (r: string)
    ensures |r| <= |s| && r == s[|s| - |r|..]
    ensures sep !in r
    ensures |r| < |s| ==> s[|s| - |r| - 1] == sep
  {
    if s == "" then ""
    else if s[|s| - 1] == sep then ""
    else SplitLast(s[..|s| - 1], sep) + [s[|s| - 1]]
  }

  /** When sep occurs in s, s is what precedes the last sep, the sep, and the last segment. */
  lemma SplitLastDecompose(s: string, sep: char)
    requires sep in s
    ensures var r := SplitLast(s, sep);
      |r| < |s| && s == s[..|s| - |r| - 1] + [sep] + r
  {
  }

  /** The last segment after a '.' is whatever follows the final '.'. */
  lemma {:induction false} SplitLastAfterDot(p: string, seg: string)
    requires '.' !in seg
    ensures SplitLast(p + "." + seg, '.') == seg
    decreases |seg|
  {
    var s := p + "." + seg;
    if seg != "" {
      var init := seg[..|seg| - 1];
      assert s[..|s| - 1] == p + "." + init;
      assert '.' !in init by {
        assert forall c :: c in init ==> c in seg;
      }
      SplitLastAfterDot(p, init);
      assert init + [seg[|seg| - 1]] == seg;
    }
  }

  /**
   * A name ending in "." followed by a dot-free segment ends in "." + ext
   * exactly when that segment is ext: the last dot pins the extension down.
   */
  lemma DottedSuffix(p: string, seg: string, ext: string)
    requires '.' !in seg && '.' !in ext
    ensures EndsWith(p + "." + seg, "." + ext) <==> seg == ext
  {
    DottedEndsWith(p, ext);
    var s := p + "." + seg;
    if EndsWith(s, "." + ext) {
      var q := s[..|s| - |ext| - 1];
      EndsWithSplit(s, "." + ext);
      assert s == q + "." + ext;
      SplitLastAfterDot(p, seg);
      SplitLastAfterDot(q, ext);
    }
  }

  lemma DottedEndsWith(p: string, ext: string)
    ensures EndsWith(p + "." + ext, "." + ext)
  {
    var s := p + "." + ext;
    assert s[|s| - |ext| - 1..] == "." + ext;
  }

  lemma EndsWithSplit(s: string, t: string)
    requires EndsWith(s, t)
    ensures s == s[..|s| - |t|] + t
  {
  }
}
