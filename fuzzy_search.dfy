/**
  The ordered-character matcher used by the search filters, and the
  highlighter that wraps matched index ranges in `<mark>` tags.
*/
module FuzzySearch {
  import opened Wrappers
  import opened Text
  import opened Sequences

  // ---------------------------------------------------------------------------
  // Matching
  // ---------------------------------------------------------------------------

  /**
    The specification of a match: both strings are non-empty and the
    lower-cased pattern can be read, in order, among the characters of the
    lower-cased text.
  */
  predicate Matches(text: string, pattern: string) {
    |text| > 0 && |pattern| > 0 && Subseq(Lower(pattern), Lower(text))
  }

  /**
    How many characters of `p` the greedy scan has consumed after reading all
    of `t`: each character of `t` that equals the next unconsumed character
    of `p` consumes it.
  */
  function Consumed(p: string, t: string): (n: nat)
    ensures n <= |p|
    decreases |t|
  {
    if t == [] then 0
    else
      var c := Consumed(p, t[..|t| - 1]);
      if c < |p| && t[|t| - 1] == p[c] then c + 1 else c
  }

  /**
    Greedy consumption is optimal: the first `k` characters of `p` are a
    subsequence of `t` exactly when the greedy scan consumes at least `k`.
  */
  lemma {:induction false} GreedyIsOptimal(p: string, t: string, k: nat)
    requires k <= |p|
    ensures Subseq(p[..k], t) <==> k <= Consumed(p, t)
    decreases |t|
  {
    if k == 0 {
    } else if t == [] {
    } else {
      var t', y := t[..|t| - 1], t[|t| - 1];
      var c := Consumed(p, t');
      GreedyIsOptimal(p, t', k);
      GreedyIsOptimal(p, t', k - 1);
      assert p[..k][..k - 1] == p[..k - 1];
      assert p[..k][k - 1] == p[k - 1];
      if k <= Consumed(p, t) && !(k <= c) {
        // the last character of `t` consumed `p[k - 1]`
        assert c == k - 1 && y == p[k - 1];
      }
    }
  }

  /**
    `fuzzyMatch`: false for an empty text or pattern; otherwise walks the
    lower-cased text once, advancing through the lower-cased pattern on each
    equal character, and succeeds when the whole pattern was consumed.
  */
  method FuzzyMatch(text: string, pattern: string) returns (b: bool)
    ensures b <==> Matches(text, pattern)
    ensures |text| == 0 || |pattern| == 0 ==> !b
  {
    if |pattern| == 0 || |text| == 0 {
      return false;
    }
    var textLower := Lower(text);
    var patternLower := Lower(pattern);
    var patternIndex := 0;
    var i := 0;
    while i < |textLower| && patternIndex < |patternLower|
      invariant 0 <= i <= |textLower|
      invariant patternIndex == Consumed(patternLower, textLower[..i])
      invariant Subseq(patternLower[..patternIndex], textLower[..i])
    {
      assert textLower[..i + 1][..i] == textLower[..i];
      if textLower[i] == patternLower[patternIndex] {
        patternIndex := patternIndex + 1;
      }
      i := i + 1;
      GreedyIsOptimal(patternLower, textLower[..i], patternIndex);
    }
    GreedyIsOptimal(patternLower, textLower[..i], |patternLower|);
    assert patternLower[..|patternLower|] == patternLower;
    if patternIndex == |patternLower| {
      SubseqAppend(patternLower, textLower[..i], textLower[i..]);
      assert textLower[..i] + textLower[i..] == textLower;
    } else {
      assert textLower[..i] == textLower;
    }
    b := patternIndex == |patternLower|;
  }

  /** Only the lower-cased inputs matter: matching ignores letter case. */
  lemma MatchesIgnoresCase(text: string, pattern: string)
    ensures Matches(text, pattern) <==> Matches(Lower(text), Lower(pattern))
  {
    LowerIdempotent(text);
    LowerIdempotent(pattern);
  }

  /** Every non-empty text matches itself. */
  lemma MatchesSelf(text: string)
    requires |text| > 0
    ensures Matches(text, text)
  {
    SubseqRefl(Lower(text));
  }

  /** A match never needs more characters than the text has. */
  lemma MatchesNoLonger(text: string, pattern: string)
    requires Matches(text, pattern)
    ensures |pattern| <= |text|
  {
    SubseqLength(Lower(pattern), Lower(text));
  }

  /** Shortening the pattern to a non-empty prefix keeps a match. */
  lemma MatchesPrefix(text: string, pattern: string, k: nat)
    requires Matches(text, pattern) && 0 < k <= |pattern|
    ensures Matches(text, pattern[..k])
  {
    SubseqPrefix(Lower(pattern), Lower(text), k);
    LowerPrefix(pattern, k);
  }

  /** Appending to the text keeps a match. */
  lemma MatchesAppend(text: string, more: string, pattern: string)
    requires Matches(text, pattern)
    ensures Matches(text + more, pattern)
  {
    SubseqAppend(Lower(pattern), Lower(text), Lower(more));
    LowerAppend(text, more);
  }

  // ---------------------------------------------------------------------------
  // Highlighting
  // ---------------------------------------------------------------------------

  /** An index pair `[start, end]` with an inclusive end. */
  datatype Span = Span(start: int, end: int)

  /** The part of a search hit the highlighter reads: its index pairs. */
  datatype FuseMatch = FuseMatch(indices: seq<Span>)

  /** A stretch of output text, shown as is or wrapped in a mark tag. */
  datatype Piece = Plain(s: string) | Marked(s: string)

  /** The template literal that wraps one matched range. */
  function Mark(s: string): string {
    "<mark>" + s + "</mark>"
  }

  function RenderPiece(p: Piece): string {
    match p
    case Plain(s) => s
    case Marked(s) => Mark(s)
  }

  /** The markup for a sequence of pieces. */
  function Render(ps: seq<Piece>): string {
    if ps == [] then "" else RenderPiece(ps[0]) + Render(ps[1..])
  }

  /** The text of a sequence of pieces with the tags left out. */
  function Unmarked(ps: seq<Piece>): string {
    if ps == [] then "" else ps[0].s + Unmarked(ps[1..])
  }

  /** The contents of the marked pieces, in order. */
  function Marks(ps: seq<Piece>): seq<string> {
    if ps == [] then []
    else if ps[0].Marked? then [ps[0].s] + Marks(ps[1..])
    else Marks(ps[1..])
  }

  /**
    The pieces the highlighter produces from position `last` on: the text up
    to each span's start, the span itself marked, and finally the rest of the
    text. Positions go through `substring`, so out-of-range or reversed pairs
    behave as JavaScript makes them.
  */
  function PiecesFrom(text: string, spans: seq<Span>, last: int): seq<Piece>
    decreases |spans|
  {
    if spans == [] then [Plain(Substring(text, last, |text|))]
    else
      var sp := spans[0];
      [Plain(Substring(text, last, sp.start)), Marked(Substring(text, sp.start, sp.end + 1))]
        + PiecesFrom(text, spans[1..], sp.end + 1)
  }

  /** Sorted, non-overlapping spans inside a text of length `n`, all at or after `from`. */
  predicate Ordered(spans: seq<Span>, from: int, n: nat)
    decreases |spans|
  {
    spans == [] ||
    (from <= spans[0].start <= spans[0].end < n && Ordered(spans[1..], spans[0].end + 1, n))
  }

  /** The output markup: the text itself without hits, else the pieces of the first hit's spans. */
  function Highlighted(text: string, matches: Option<seq<FuseMatch>>): string {
    if matches.None? || matches.value == [] then text
    else Render(PiecesFrom(text, matches.value[0].indices, 0))
  }

  /**
    `highlightMatches`: returns the text when there are no hits; otherwise
    appends, for each index pair of the first hit, the text since the previous
    pair and then the marked pair, and finally the rest of the text.
  */
  method HighlightMatches(text: string, matches: Option<seq<FuseMatch>>) returns (result: string)
    ensures result == Highlighted(text, matches)
    ensures matches.None? || matches.value == [] ==> result == text
  {
    if matches.None? || |matches.value| == 0 {
      return text;
    }
    var indices := matches.value[0].indices;
    ghost var whole := Render(PiecesFrom(text, indices, 0));
    result := "";
    var lastIndex := 0;
    var k := 0;
    assert indices[0..] == indices;
    while k < |indices|
      invariant 0 <= k <= |indices|
      invariant result + Render(PiecesFrom(text, indices[k..], lastIndex)) == whole
    {
      var sp := indices[k];
      HighlightStep(text, indices, k, lastIndex, result, whole);
      result := result + Substring(text, lastIndex, sp.start);
      result := result + Mark(Substring(text, sp.start, sp.end + 1));
      lastIndex := sp.end + 1;
      k := k + 1;
    }
    assert indices[k..] == [];
    HighlightEnd(text, lastIndex, result, whole);
    result := result + Substring(text, lastIndex, |text|);
  }

  /** One pass of the highlighter's loop keeps the accumulated markup a prefix of the whole. */
  lemma HighlightStep(text: string, spans: seq<Span>, k: nat, last: int, acc: string, whole: string)
    requires k < |spans|
    requires acc + Render(PiecesFrom(text, spans[k..], last)) == whole
    ensures acc + Substring(text, last, spans[k].start) + Mark(Substring(text, spans[k].start, spans[k].end + 1))
      + Render(PiecesFrom(text, spans[k + 1..], spans[k].end + 1)) == whole
  {
    var tail := spans[k..];
    RenderStep(text, tail, last);
    assert tail[0] == spans[k];
    assert tail[1..] == spans[k + 1..];
    Regroup(acc, Substring(text, last, spans[k].start), Mark(Substring(text, spans[k].start, spans[k].end + 1)),
      Render(PiecesFrom(text, spans[k + 1..], spans[k].end + 1)));
  }

  lemma Regroup(a: string, b: string, c: string, d: string)
    ensures a + (b + (c + d)) == a + b + c + d
  {
  }

  /** After the last span only the rest of the text is left to append. */
  lemma HighlightEnd(text: string, last: int, acc: string, whole: string)
    requires acc + Render(PiecesFrom(text, [], last)) == whole
    ensures acc + Substring(text, last, |text|) == whole
  {
    var tail := Substring(text, last, |text|);
    assert Render([Plain(tail)]) == tail + Render([]);
  }

  /** Unfolding the markup of one span. */
  lemma RenderStep(text: string, spans: seq<Span>, last: int)
    requires spans != []
    ensures Render(PiecesFrom(text, spans, last)) ==
      Substring(text, last, spans[0].start)
      + (Mark(Substring(text, spans[0].start, spans[0].end + 1)) + Render(PiecesFrom(text, spans[1..], spans[0].end + 1)))
  {
    var sp := spans[0];
    var a, b := Plain(Substring(text, last, sp.start)), Marked(Substring(text, sp.start, sp.end + 1));
    var rest := PiecesFrom(text, spans[1..], sp.end + 1);
    assert ([a, b] + rest)[1..] == [b] + rest;
    assert ([b] + rest)[1..] == rest;
  }

  /** With ordered spans, removing the tags gives back the text from `last` on. */
  lemma {:induction false} UnmarkedIsText(text: string, spans: seq<Span>, last: int)
    requires 0 <= last <= |text| && Ordered(spans, last, |text|)
    ensures Unmarked(PiecesFrom(text, spans, last)) == text[last..]
    decreases |spans|
  {
    if spans == [] {
      UnmarkedTail(text, last);
    } else {
      UnmarkedIsText(text, spans[1..], spans[0].end + 1);
      UnmarkedFirst(text, spans, last);
    }
  }

  /** Without spans the only piece is the rest of the text. */
  lemma UnmarkedTail(text: string, last: int)
    requires 0 <= last <= |text|
    ensures Unmarked(PiecesFrom(text, [], last)) == text[last..]
  {
    assert text[last..|text|] == text[last..];
    assert PiecesFrom(text, [], last) == [Plain(text[last..])];
    assert [Plain(text[last..])][1..] == [];
  }

  /** The first span's two pieces put back the text up to where the remaining pieces start. */
  lemma UnmarkedFirst(text: string, spans: seq<Span>, last: int)
    requires 0 <= last && spans != [] && last <= spans[0].start <= spans[0].end < |text|
    requires Unmarked(PiecesFrom(text, spans[1..], spans[0].end + 1)) == text[spans[0].end + 1..]
    ensures Unmarked(PiecesFrom(text, spans, last)) == text[last..]
  {
    var sp := spans[0];
    var before, marked := text[last..sp.start], text[sp.start..sp.end + 1];
    var rest := PiecesFrom(text, spans[1..], sp.end + 1);
    PiecesFromFirst(text, spans, last);
    UnmarkedStep(before, marked, rest);
    SlicesJoin(text, last, sp.start, sp.end + 1);
  }

  /** The first span of an ordered list cuts the text at its own bounds. */
  lemma PiecesFromFirst(text: string, spans: seq<Span>, last: int)
    requires 0 <= last && spans != [] && last <= spans[0].start <= spans[0].end < |text|
    ensures PiecesFrom(text, spans, last) ==
      [Plain(text[last..spans[0].start]), Marked(text[spans[0].start..spans[0].end + 1])] +
      PiecesFrom(text, spans[1..], spans[0].end + 1)
  {
  }

  lemma SlicesJoin(text: string, a: int, b: int, c: int)
    requires 0 <= a <= b <= c <= |text|
    ensures text[a..b] + (text[b..c] + text[c..]) == text[a..]
  {
    assert text[b..c] + text[c..] == text[b..];
  }

  lemma UnmarkedStep(before: string, marked: string, rest: seq<Piece>)
    ensures Unmarked([Plain(before), Marked(marked)] + rest) == before + (marked + Unmarked(rest))
  {
    var a, b := Plain(before), Marked(marked);
    assert ([a, b] + rest)[1..] == [b] + rest;
    assert ([b] + rest)[1..] == rest;
  }

  /** The range each span names, read through `substring` with the end made exclusive. */
  function SpanTexts(text: string, spans: seq<Span>): (r: seq<string>)
    ensures |r| == |spans|
  {
    seq(|spans|, k requires 0 <= k < |spans| => Substring(text, spans[k].start, spans[k].end + 1))
  }

  /** The marked pieces are the spans' ranges, one per span and in span order. */
  lemma {:induction false} MarksAreSpans(text: string, spans: seq<Span>, last: int)
    ensures Marks(PiecesFrom(text, spans, last)) == SpanTexts(text, spans)
    decreases |spans|
  {
    if spans != [] {
      var sp := spans[0];
      var a, b := Plain(Substring(text, last, sp.start)), Marked(Substring(text, sp.start, sp.end + 1));
      var rest := PiecesFrom(text, spans[1..], sp.end + 1);
      MarksAreSpans(text, spans[1..], sp.end + 1);
      assert ([a, b] + rest)[1..] == [b] + rest;
      assert ([b] + rest)[1..] == rest;
      assert SpanTexts(text, spans) == [b.s] + SpanTexts(text, spans[1..]);
    }
  }

  /** Every span in an ordered list lies inside the text and starts at or after `from`. */
  lemma {:induction false} OrderedInRange(spans: seq<Span>, from: int, n: nat)
    requires Ordered(spans, from, n)
    ensures forall k :: 0 <= k < |spans| ==> from <= spans[k].start <= spans[k].end < n
    decreases |spans|
  {
    if spans != [] {
      OrderedInRange(spans[1..], spans[0].end + 1, n);
      forall k | 0 < k < |spans| ensures from <= spans[k].start <= spans[k].end < n {
        assert spans[k] == spans[1..][k - 1];
      }
    }
  }

  /**
    The whole guarantee of the highlighter for ordered spans: the output is
    the markup of pieces whose text is the input and whose marked parts are
    exactly the spans' ranges, end included.
  */
  lemma HighlightKeepsText(text: string, matches: Option<seq<FuseMatch>>)
    requires matches.Some? && matches.value != []
    requires Ordered(matches.value[0].indices, 0, |text|)
    ensures var spans := matches.value[0].indices;
      var ps := PiecesFrom(text, spans, 0);
      Highlighted(text, matches) == Render(ps) && Unmarked(ps) == text &&
      |Marks(ps)| == |spans| &&
      forall k :: 0 <= k < |spans| ==>
        0 <= spans[k].start <= spans[k].end < |text| &&
        Marks(ps)[k] == text[spans[k].start..spans[k].end + 1]
  {
    var spans := matches.value[0].indices;
    UnmarkedIsText(text, spans, 0);
    assert text[0..] == text;
    MarksAreSpans(text, spans, 0);
    OrderedInRange(spans, 0, |text|);
    SpanTextsInText(text, spans);
  }

  /** Spans inside the text name their ranges exactly, end included. */
  lemma SpanTextsInText(text: string, spans: seq<Span>)
    requires forall k :: 0 <= k < |spans| ==> 0 <= spans[k].start <= spans[k].end < |text|
    ensures forall k :: 0 <= k < |spans| ==> SpanTexts(text, spans)[k] == text[spans[k].start..spans[k].end + 1]
  {
  }

  /** A hit without index pairs leaves the text unchanged. */
  lemma HighlightNoSpans(text: string, matches: Option<seq<FuseMatch>>)
    requires matches.Some? && matches.value != [] && matches.value[0].indices == []
    ensures Highlighted(text, matches) == text
  {
    assert text[0..|text|] == text;
    assert Render([Plain(text)]) == text + Render([]);
  }
}
