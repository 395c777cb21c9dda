/**
 * The grammar report that `grammar_check_resume` builds from the grammar
 * service's reply: matches with no replacement, or whose message mentions
 * "whitespace" in any case, are dropped; each remaining match becomes an
 * issue that shows the message, the context sentence with the flagged span
 * wrapped in "**", and the replacements joined by ", "; the issues are put
 * under a fixed header, or a fixed sentence says there are none.
 *
 * The HTTP request and the JSON decoding are not modelled: the report is a
 * function of the decoded `matches` list.
 */
module Grammar {
  import opened Wrappers
  import opened PyStr

  /** The `context` object of a match, each key possibly absent. */
  datatype RawContext = RawContext(text: Option<string>, offset: Option<int>, length: Option<int>)

  /** One element of the reply's `matches` list, each key possibly absent. */
  datatype RawMatch = RawMatch(
    message: Option<string>,
    replacements: Option<seq<string>>,
    context: Option<RawContext>)

  /** A match once absent keys have taken their defaults. */
  datatype Match = Match(message: string, replacements: seq<string>, text: string, offset: int, length: int)

  const NoIssues := "No major grammar issues found!"
  const Header := "### Grammar Issues Found:\n\n"

  /** The labels of the three lines of an issue. */
  const IssueLabel := "\U{1F539} **Issue:** "
  const LineLabel := "\U{1F538} **Line:** "
  const SuggestionLabel := "\U{1F4A1} **Suggestion:** "

  /** The `.get(key, default)` lookups: "" for text, [] for lists, 0 for numbers. */
  function Normalize(raw: RawMatch): (m: Match)
    ensures raw.message.Some? ==> m.message == raw.message.value
    ensures raw.message.None? ==> m.message == ""
    ensures raw.replacements.Some? ==> m.replacements == raw.replacements.value
    ensures raw.replacements.None? ==> m.replacements == []
    ensures raw.context.None? ==> m.text == "" && m.offset == 0 && m.length == 0
    ensures raw.context.Some? ==>
      var ctx := raw.context.value;
      && (ctx.text.Some? ==> m.text == ctx.text.value) && (ctx.text.None? ==> m.text == "")
      && (ctx.offset.Some? ==> m.offset == ctx.offset.value) && (ctx.offset.None? ==> m.offset == 0)
      && (ctx.length.Some? ==> m.length == ctx.length.value) && (ctx.length.None? ==> m.length == 0)
  {
    var ctx := raw.context.GetOr(RawContext(None, None, None));
    Match(raw.message.GetOr(""), raw.replacements.GetOr([]),
          ctx.text.GetOr(""), ctx.offset.GetOr(0), ctx.length.GetOr(0))
  }

  function NormalizeAll(raws: seq<RawMatch>): (ms: seq<Match>)
    ensures |ms| == |raws|
    ensures forall i :: 0 <= i < |raws| ==> ms[i] == Normalize(raws[i])
  {
    seq(|raws|, i requires 0 <= i < |raws| => Normalize(raws[i]))
  }

  /** A match survives the filter: it has a replacement and its message does not mention whitespace. */
  predicate Kept(m: Match) {
    |m.replacements| > 0 && !Contains(Lower(m.message), "whitespace")
  }

  /** The filter in terms of where "whitespace" occurs in the lower-cased message. */
  lemma KeptMeaning(m: Match)
    ensures Kept(m) <==> |m.replacements| > 0 && !exists i :: OccursAt(Lower(m.message), "whitespace", i)
  {
    ContainsMeansOccurs(Lower(m.message), "whitespace");
  }

  /** The context sentence with `text[offset:offset+length]` wrapped in "**", by Python slicing. */
  function Highlight(text: string, offset: int, length: int): string {
    Slice(text, 0, offset) + "**" + Slice(text, offset, offset + length) + "**" + Slice(text, offset + length, |text|)
  }

  /** Deleting the two markers from `a + "**" + b + "**" + c` gives back `a + b + c`. */
  lemma Unmark(a: string, b: string, c: string)
    ensures var h := a + "**" + b + "**" + c;
      && |h| == |a| + |b| + |c| + 4
      && h[..|a|] + h[|a| + 2..|a| + |b| + 2] + h[|a| + |b| + 4..] == a + b + c
  {
    var h := a + "**" + b + "**" + c;
    assert h[..|a|] == a;
    assert h[|a| + 2..|a| + |b| + 2] == b;
    assert h[|a| + |b| + 4..] == c;
  }

  /** A clamped bound: i, cut at n. */
  function Clamp(i: nat, n: nat): (k: nat)
    ensures k <= n && k <= i && (k == i || k == n)
  {
    if i < n then i else n
  }

  /** With non-negative bounds, each of the three Python slices is a plain span between clamped bounds. */
  lemma HighlightSpans(text: string, offset: nat, length: nat)
    ensures var p, q := Clamp(offset, |text|), Clamp(offset + length, |text|);
      Highlight(text, offset, length) == text[..p] + "**" + text[p..q] + "**" + text[q..]
  {
    SliceClamps(text, 0, offset);
    SliceClamps(text, offset, offset + length);
    SliceClamps(text, offset + length, |text|);
  }

  /**
   * For a non-negative offset and length the markers go around the flagged
   * span, cut short at the end of the sentence, and deleting the two markers
   * gives back the sentence unchanged.
   */
  lemma HighlightMarksSpan(text: string, offset: int, length: int)
    requires offset >= 0 && length >= 0
    ensures var p, q := Clamp(offset, |text|), Clamp(offset + length, |text|);
      var h := Highlight(text, offset, length);
      && p <= q
      && h == text[..p] + "**" + text[p..q] + "**" + text[q..]
      && |h| == |text| + 4
      && h[..p] + h[p + 2..q + 2] + h[q + 4..] == text
  {
    var p, q := Clamp(offset, |text|), Clamp(offset + length, |text|);
    HighlightSpans(text, offset, length);
    Unmark(text[..p], text[p..q], text[q..]);
    assert text[..p] + text[p..q] + text[q..] == text;
  }

  /** One issue of the report: message, highlighted line, and the suggestions joined by ", ". */
  function FormatIssue(m: Match): (r: string)
    ensures StartsWith(r, IssueLabel + m.message + "\n")
    ensures EndsWith(r, "\n" + SuggestionLabel + Join(", ", m.replacements) + "\n")
    ensures var h := IssueLabel + m.message + "\n";
      var t := "\n" + SuggestionLabel + Join(", ", m.replacements) + "\n";
      |h| + |t| <= |r| && r[|h|..|r| - |t|] == LineLabel + Highlight(m.text, m.offset, m.length)
  {
    var head := IssueLabel + m.message + "\n";
    var mid := LineLabel + Highlight(m.text, m.offset, m.length);
    var tail := "\n" + SuggestionLabel + Join(", ", m.replacements) + "\n";
    var r := head + mid + tail;
    assert r[..|head|] == head;
    assert r[|r| - |tail|..] == tail;
    assert r[|head|..|r| - |tail|] == mid;
    r
  }

  /** The matches that survive the filter, in their original order. */
  function KeptMatches(ms: seq<Match>): (ks: seq<Match>)
    ensures |ks| <= |ms|
    ensures forall k :: k in ks ==> k in ms && Kept(k)
    ensures forall m :: m in ms && Kept(m) ==> m in ks
  {
    if ms == [] then []
    else
      var last := ms[|ms| - 1];
      var init := ms[..|ms| - 1];
      assert ms == init + [last];
      KeptMatches(init) + (if Kept(last) then [last] else [])
  }

  /** Filtering distributes over concatenation, so the order of the matches is kept. */
  lemma {:induction false} KeptMatchesConcat(a: seq<Match>, b: seq<Match>)
    ensures KeptMatches(a + b) == KeptMatches(a) + KeptMatches(b)
    decreases |b|
  {
    if b == [] {
      assert a + b == a;
    } else {
      var init := b[..|b| - 1];
      assert (a + b)[..|a + b| - 1] == a + init;
      assert (a + b)[|a + b| - 1] == b[|b| - 1];
      KeptMatchesConcat(a, init);
    }
  }

  function FormatAll(ks: seq<Match>): (issues: seq<string>)
    ensures |issues| == |ks|
    ensures forall i :: 0 <= i < |ks| ==> issues[i] == FormatIssue(ks[i])
  {
    seq(|ks|, i requires 0 <= i < |ks| => FormatIssue(ks[i]))
  }

  /** The report for a list of matches, as `grammar_check_resume` returns it. */
  function Report(ms: seq<Match>): (r: string)
    ensures r == NoIssues <==> forall m :: m in ms ==> !Kept(m)
    ensures r != NoIssues ==> StartsWith(r, Header)
  {
    var issues := FormatAll(KeptMatches(ms));
    if issues == [] then NoIssues
    else
      var r := Header + Join("\n", issues);
      assert KeptMatches(ms)[0] in KeptMatches(ms);
      assert r[0] == '#' != NoIssues[0];
      assert r[..|Header|] == Header;
      r
  }

  /** A report with issues lists exactly the kept matches, each formatted, one after another. */
  lemma ReportLists(ms: seq<Match>)
    requires exists m :: m in ms && Kept(m)
    ensures Report(ms) == Header + Join("\n", FormatAll(KeptMatches(ms)))
    ensures 0 < |KeptMatches(ms)| <= |ms|
  {
    var m :| m in ms && Kept(m);
    assert m in KeptMatches(ms);
  }

  lemma FormatAllSnoc(ks: seq<Match>, m: Match)
    ensures FormatAll(ks + [m]) == FormatAll(ks) + [FormatIssue(m)]
  {
    var l, r := FormatAll(ks + [m]), FormatAll(ks) + [FormatIssue(m)];
    assert |l| == |r|;
    forall i | 0 <= i < |l| ensures l[i] == r[i] {
      if i < |ks| { assert (ks + [m])[i] == ks[i]; }
    }
  }

  lemma KeptSingleton(m: Match)
    ensures KeptMatches([m]) == if Kept(m) then [m] else []
  {
    assert [m][..0] == [];
  }

  /** Extending the walked prefix by one match extends the issue list by at most that match's issue. */
  lemma IssuesStep(raws: seq<RawMatch>, i: nat)
    requires i < |raws|
    ensures var m := Normalize(raws[i]);
      FormatAll(KeptMatches(NormalizeAll(raws[..i + 1])))
        == FormatAll(KeptMatches(NormalizeAll(raws[..i]))) + (if Kept(m) then [FormatIssue(m)] else [])
  {
    var m := Normalize(raws[i]);
    var before := NormalizeAll(raws[..i]);
    assert NormalizeAll(raws[..i + 1]) == before + [m];
    KeptMatchesConcat(before, [m]);
    KeptSingleton(m);
    var ks := KeptMatches(before);
    if Kept(m) {
      FormatAllSnoc(ks, m);
    } else {
      assert ks + [] == ks;
    }
  }

  /**
   * The loop of `grammar_check_resume` after the reply is decoded: it walks
   * `result.get('matches', [])`, skips filtered matches, appends each other
   * issue, and then chooses between the fixed sentence and the header.
   */
  method GrammarReport(matches: Option<seq<RawMatch>>) returns (report: string)
    ensures report == Report(NormalizeAll(matches.GetOr([])))
  {
    var raws := matches.GetOr([]);
    var issues: seq<string> := [];
    var i := 0;
    while i < |raws|
      invariant 0 <= i <= |raws|
      invariant issues == FormatAll(KeptMatches(NormalizeAll(raws[..i])))
    {
      var m := Normalize(raws[i]);
      IssuesStep(raws, i);
      if |m.replacements| == 0 || Contains(Lower(m.message), "whitespace") {
        // skipped: no replacement, or a whitespace complaint
      } else {
        issues := issues + [FormatIssue(m)];
      }
      i := i + 1;
    }
    assert raws[..i] == raws;
    if issues == [] {
      report := NoIssues;
    } else {
      report := Header + Join("\n", issues);
    }
  }
}
