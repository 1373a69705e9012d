/** The pure projections of the results dashboard (components/ResultsDashboard.tsx):
    the `**` emphasis convention, the removal of a leading "N." numbering, the
    shortened score labels, the overall score text and the bar-chart order. */
module ResultsDashboard {
  import opened Types
  import opened JsText
  import opened Scoring
  import SurveyView

  // ---------------------------------------------------------------------------
  // Emphasis markers

  /** A `**` starts at index i of s. */
  predicate MarkerAt(s: string, i: int) {
    0 <= i && i + 1 < |s| && s[i] == '*' && s[i + 1] == '*'
  }

  predicate HasMarker(s: string) {
    exists i :: 0 <= i < |s| && MarkerAt(s, i)
  }

  /** line.split('**'): matches taken left to right without overlap. */
  function SplitMarkers(line: string): (parts: seq<string>)
    ensures |parts| >= 1
  {
    SplitFrom(line, "")
  }

  /** The rest of the split of `s` when `cur` is the piece read so far. */
  function SplitFrom(s: string, cur: string): (parts: seq<string>)
    ensures |parts| >= 1
    decreases |s|
  {
    if s == [] then [cur]
    else if MarkerAt(s, 0) then [cur] + SplitFrom(s[2..], "")
    else SplitFrom(s[1..], cur + [s[0]])
  }

  /** parts.join('**'). */
  function JoinMarkers(parts: seq<string>): string
    requires |parts| >= 1
  {
    if |parts| == 1 then parts[0] else parts[0] + "**" + JoinMarkers(parts[1..])
  }

  /** The number of `**` that split finds. */
  function MarkerCount(s: string): nat {
    if s == [] then 0 else if MarkerAt(s, 0) then 1 + MarkerCount(s[2..]) else MarkerCount(s[1..])
  }

  /** line.replaceAll('**', ''). */
  function RemoveMarkers(s: string): string {
    if s == [] then [] else if MarkerAt(s, 0) then RemoveMarkers(s[2..]) else [s[0]] + RemoveMarkers(s[1..])
  }

  function Concat(parts: seq<string>): string {
    if parts == [] then [] else parts[0] + Concat(parts[1..])
  }

  lemma {:induction false} JoinSplitFrom(s: string, cur: string)
    ensures JoinMarkers(SplitFrom(s, cur)) == cur + s
    decreases |s|
  {
    if s == [] {
    } else if MarkerAt(s, 0) {
      JoinSplitFrom(s[2..], "");
      assert s == "**" + s[2..];
    } else {
      JoinSplitFrom(s[1..], cur + [s[0]]);
      assert s == [s[0]] + s[1..];
    }
  }

  /** Joining the parts with `**` gives the line back. */
  lemma JoinSplitMarkers(line: string)
    ensures JoinMarkers(SplitMarkers(line)) == line
  {
    JoinSplitFrom(line, "");
  }

  lemma {:induction false} SplitFromCount(s: string, cur: string)
    ensures |SplitFrom(s, cur)| == MarkerCount(s) + 1
    decreases |s|
  {
    if s == [] {
    } else if MarkerAt(s, 0) {
      SplitFromCount(s[2..], "");
    } else {
      SplitFromCount(s[1..], cur + [s[0]]);
    }
  }

  /** There is one more part than there are markers. */
  lemma SplitMarkersCount(line: string)
    ensures |SplitMarkers(line)| == MarkerCount(line) + 1
  {
    SplitFromCount(line, "");
  }

  lemma {:induction false} ConcatSplitFrom(s: string, cur: string)
    ensures Concat(SplitFrom(s, cur)) == cur + RemoveMarkers(s)
    decreases |s|
  {
    if s == [] {
    } else if MarkerAt(s, 0) {
      ConcatSplitFrom(s[2..], "");
    } else {
      ConcatSplitFrom(s[1..], cur + [s[0]]);
    }
  }

  /** Concatenating the parts gives the line without its markers. */
  lemma ConcatSplitMarkers(line: string)
    ensures Concat(SplitMarkers(line)) == RemoveMarkers(line)
  {
    ConcatSplitFrom(line, "");
  }

  /** The piece being read never holds a marker, and a trailing '*' of it is
      never followed by another '*'. */
  predicate PieceInvariant(s: string, cur: string) {
    !HasMarker(cur) && (cur != [] && cur[|cur| - 1] == '*' ==> s == [] || s[0] != '*')
  }

  lemma {:induction false} SplitFromNoMarker(s: string, cur: string)
    requires PieceInvariant(s, cur)
    ensures forall k :: 0 <= k < |SplitFrom(s, cur)| ==> !HasMarker(SplitFrom(s, cur)[k])
    decreases |s|
  {
    if s == [] {
    } else if MarkerAt(s, 0) {
      SplitFromNoMarker(s[2..], "");
    } else {
      var next := cur + [s[0]];
      forall i | MarkerAt(next, i) ensures false {
        if i + 1 < |cur| { assert MarkerAt(cur, i); }
      }
      SplitFromNoMarker(s[1..], next);
    }
  }

  /** No part contains a marker. */
  lemma PartsHaveNoMarker(line: string)
    ensures forall k :: 0 <= k < |SplitMarkers(line)| ==> !HasMarker(SplitMarkers(line)[k])
  {
    SplitFromNoMarker(line, "");
  }

  /** Reading one more character that does not start a marker keeps the piece invariant. */
  lemma PieceInvariantStep(s: string, cur: string)
    requires PieceInvariant(s, cur) && s != [] && !MarkerAt(s, 0)
    ensures PieceInvariant(s[1..], cur + [s[0]])
  {
    var next := cur + [s[0]];
    forall i | MarkerAt(next, i) ensures false {
      if i + 1 < |cur| { assert MarkerAt(cur, i); }
    }
  }

  /** No part before the last ends with '*'. */
  predicate LeftmostParts(parts: seq<string>) {
    forall k :: 0 <= k < |parts| - 1 ==> parts[k] == [] || parts[k][|parts[k]| - 1] != '*'
  }

  lemma {:induction false} SplitFromLeftmost(s: string, cur: string)
    requires PieceInvariant(s, cur)
    ensures LeftmostParts(SplitFrom(s, cur))
    decreases |s|
  {
    if s == [] {
    } else if MarkerAt(s, 0) {
      var rest := SplitFrom(s[2..], "");
      SplitFromLeftmost(s[2..], "");
      var parts := [cur] + rest;
      assert SplitFrom(s, cur) == parts;
      assert cur == [] || cur[|cur| - 1] != '*';
      forall k | 0 <= k < |parts| - 1
        ensures parts[k] == [] || parts[k][|parts[k]| - 1] != '*'
      {
        if k > 0 {
          assert parts[k] == rest[k - 1];
        }
      }
    } else {
      PieceInvariantStep(s, cur);
      SplitFromLeftmost(s[1..], cur + [s[0]]);
      assert SplitFrom(s, cur) == SplitFrom(s[1..], cur + [s[0]]);
    }
  }

  /** Each marker split on is the leftmost one: no part before the last ends
      with '*', so "***" splits as "" and "*", never as "*" and "". With the
      join and the absence of markers in the parts this fixes the split. */
  lemma PartsSplitLeftmost(line: string)
    ensures LeftmostParts(SplitMarkers(line))
  {
    SplitFromLeftmost(line, "");
  }

  predicate MarkerFreeParts(parts: seq<string>) {
    forall k :: 0 <= k < |parts| ==> !HasMarker(parts[k])
  }

  lemma PartsTail(parts: seq<string>)
    requires |parts| >= 1
    ensures LeftmostParts(parts) ==> LeftmostParts(parts[1..])
    ensures MarkerFreeParts(parts) ==> MarkerFreeParts(parts[1..])
  {
    var tail := parts[1..];
    assert forall k :: 0 <= k < |tail| ==> tail[k] == parts[k + 1];
  }

  /** Splitting a piece p, read after cur, followed by the join of later parts,
      gives those parts back. */
  lemma {:induction false} SplitFromJoined(p: string, cur: string, tail: seq<string>)
    requires !HasMarker(cur + p)
    requires tail != [] ==> LeftmostParts([cur + p] + tail) && MarkerFreeParts(tail)
    ensures SplitFrom(p + (if tail == [] then [] else "**" + JoinMarkers(tail)), cur) == [cur + p] + tail
    decreases |p + (if tail == [] then [] else "**" + JoinMarkers(tail))|, 1
  {
    var x := if tail == [] then [] else "**" + JoinMarkers(tail);
    var s := p + x;
    if p == [] {
      assert s == x;
      assert cur + p == cur;
      if tail != [] {
        assert MarkerAt(s, 0);
        assert s[2..] == JoinMarkers(tail);
        PartsTail([cur + p] + tail);
        assert ([cur + p] + tail)[1..] == tail;
        SplitJoinedTail(tail);
      }
    } else {
      if |p| >= 2 {
        assert !MarkerAt(cur + p, |cur|);
      } else if tail != [] {
        assert ([cur + p] + tail)[0] == cur + p;
        assert (cur + p)[|cur + p| - 1] == p[0];
      }
      assert !MarkerAt(s, 0);
      assert s[1..] == p[1..] + x;
      assert cur + p == (cur + [p[0]]) + p[1..];
      SplitFromJoined(p[1..], cur + [p[0]], tail);
    }
  }

  /** The step of SplitFromJoined past a marker: the later parts split back. */
  lemma {:induction false} SplitJoinedTail(tail: seq<string>)
    requires tail != [] && LeftmostParts(tail) && MarkerFreeParts(tail)
    ensures SplitFrom(JoinMarkers(tail), "") == tail
    decreases |JoinMarkers(tail)| + 2, 0
  {
    var e: string := [];
    var rest := if tail[1..] == [] then [] else "**" + JoinMarkers(tail[1..]);
    assert JoinMarkers(tail) == tail[0] + rest;
    assert e + tail[0] == tail[0];
    assert [e + tail[0]] + tail[1..] == tail;
    PartsTail(tail);
    SplitFromJoined(tail[0], e, tail[1..]);
  }

  /** split('**') is the only way to cut the line at markers so that no part holds
      a marker and no part before the last ends with '*'. */
  lemma SplitMarkersUnique(line: string, parts: seq<string>)
    requires |parts| >= 1 && JoinMarkers(parts) == line
    requires MarkerFreeParts(parts) && LeftmostParts(parts)
    ensures SplitMarkers(line) == parts
  {
    var e: string := [];
    var tail := parts[1..];
    var x := if tail == [] then [] else "**" + JoinMarkers(tail);
    assert line == parts[0] + x by {
      if |parts| > 1 {
        assert JoinMarkers(parts) == parts[0] + "**" + JoinMarkers(tail);
      }
    }
    assert e + parts[0] == parts[0];
    assert [e + parts[0]] + tail == parts;
    PartsTail(parts);
    SplitFromJoined(parts[0], e, tail);
    assert SplitFrom(line, e) == parts;
  }

  lemma {:induction false} SplitFromWithoutMarker(s: string, cur: string)
    requires !HasMarker(cur + s)
    ensures SplitFrom(s, cur) == [cur + s]
    decreases |s|
  {
    if s == [] {
      assert cur + s == cur;
    } else {
      if MarkerAt(s, 0) {
        assert MarkerAt(cur + s, |cur|);
      }
      assert cur + s == (cur + [s[0]]) + s[1..];
      SplitFromWithoutMarker(s[1..], cur + [s[0]]);
    }
  }

  datatype Span = Plain(text: string) | Strong(text: string)

  /** renderLine: the parts of the split, every odd-indexed one emphasised. */
  function RenderLine(line: string): (r: seq<Span>)
    ensures |r| == MarkerCount(line) + 1
    ensures forall i :: 0 <= i < |r| ==> (r[i].Strong? <==> i % 2 == 1)
    ensures forall i :: 0 <= i < |r| ==> !HasMarker(r[i].text)
  {
    var parts := SplitMarkers(line);
    SplitMarkersCount(line);
    PartsHaveNoMarker(line);
    seq(|parts|, i requires 0 <= i < |parts| => if i % 2 == 1 then Strong(parts[i]) else Plain(parts[i]))
  }

  function SpanTexts(spans: seq<Span>): seq<string> {
    seq(|spans|, i requires 0 <= i < |spans| => spans[i].text)
  }

  /** The rendered text is the line with its markers removed, and re-inserting
      markers between the spans gives the line back. */
  lemma RenderLineText(line: string)
    ensures Concat(SpanTexts(RenderLine(line))) == RemoveMarkers(line)
    ensures JoinMarkers(SpanTexts(RenderLine(line))) == line
  {
    assert SpanTexts(RenderLine(line)) == SplitMarkers(line);
    ConcatSplitMarkers(line);
    JoinSplitMarkers(line);
  }

  /** A line without a marker is rendered as one plain span. */
  lemma RenderLineWithoutMarker(line: string)
    requires !HasMarker(line)
    ensures RenderLine(line) == [Plain(line)]
  {
    assert "" + line == line;
    SplitFromWithoutMarker(line, "");
  }

  // ---------------------------------------------------------------------------
  // Numbering

  /** line.replace(/^\d+\.\s* /, ''): one leading "digits, dot, whitespace" prefix removed. */
  function StripNumbering(line: string): (r: string)
    ensures r == line || (line != [] && IsDigit(line[0]) && |r| < |line| && r == line[|line| - |r|..])
    ensures r != line ==> r == [] || !IsWhitespace(r[0])
  {
    var k := LeadingDigitCount(line);
    if 0 < k < |line| && line[k] == '.' then TrimStart(line[k + 1..]) else line
  }

  /** A numbered line loses exactly its numbering, whatever follows it. */
  lemma StripNumberingPrefix(digits: string, ws: string, rest: string)
    requires digits != [] && AllDigits(digits) && AllWhitespace(ws)
    requires rest == [] || !IsWhitespace(rest[0])
    ensures StripNumbering(digits + "." + ws + rest) == rest
  {
    var tail := "." + ws + rest;
    var line := digits + tail;
    assert digits + "." + ws + rest == line;
    StripPrefixSteps(digits, tail, ws + rest);
    TrimStartOfPadded(ws, rest);
  }

  lemma StripPrefixSteps(digits: string, tail: string, after: string)
    requires digits != [] && AllDigits(digits) && tail == "." + after
    ensures StripNumbering(digits + tail) == TrimStart(after)
  {
    var line := digits + tail;
    LeadingDigitCountAppend(digits, tail);
    StripNumberingAt(line, |digits|);
    assert line[|digits| + 1..] == after;
  }

  lemma StripNumberingAt(line: string, k: nat)
    requires LeadingDigitCount(line) == k && 0 < k < |line| && line[k] == '.'
    ensures StripNumbering(line) == TrimStart(line[k + 1..])
  {
  }

  lemma {:induction false} LeadingDigitCountAppend(d: string, t: string)
    requires AllDigits(d) && (t == [] || !IsDigit(t[0]))
    ensures LeadingDigitCount(d + t) == |d|
  {
    if d != [] {
      assert (d + t)[1..] == d[1..] + t;
      LeadingDigitCountAppend(d[1..], t);
    }
  }

  lemma {:induction false} TrimStartOfPadded(ws: string, rest: string)
    requires AllWhitespace(ws) && (rest == [] || !IsWhitespace(rest[0]))
    ensures TrimStart(ws + rest) == rest
  {
    if ws == [] {
      assert ws + rest == rest;
      TrimStartIdentity(rest);
    } else {
      assert (ws + rest)[1..] == ws[1..] + rest;
      TrimStartOfPadded(ws[1..], rest);
    }
  }

  /** A line that does not start with digits followed by a dot is left alone. */
  lemma StripNumberingUnnumbered(line: string)
    requires LeadingDigitCount(line) == 0 || LeadingDigitCount(line) == |line|
      || line[LeadingDigitCount(line)] != '.'
    ensures StripNumbering(line) == line
  {
  }

  // ---------------------------------------------------------------------------
  // Scores

  /** formattedScores: the same scores in the same order, labels shortened. */
  function FormattedScores(scores: seq<CategoryScore>): (r: seq<CategoryScore>)
    ensures |r| == |scores|
    ensures forall i :: 0 <= i < |r| ==>
      r[i].score == scores[i].score && r[i].category == SurveyView.ShortCategoryTitle(scores[i].category)
  {
    seq(|scores|, i requires 0 <= i < |scores| =>
      CategoryScore(SurveyView.ShortCategoryTitle(scores[i].category), scores[i].score))
  }

  function SumScores(scores: seq<CategoryScore>): (r: int)
    ensures (forall i :: 0 <= i < |scores| ==> scores[i].score >= 0) ==> r >= 0
  {
    if scores == [] then 0 else SumScores(scores[..|scores| - 1]) + scores[|scores| - 1].score
  }

  /** Number.prototype.toFixed(0) of num / den: the sign of the quotient, then its
      magnitude rounded to the nearest integer, halves away from zero. A small
      negative quotient is shown as "-0". */
  function ToFixedZero(num: int, den: int): (r: string)
    requires den > 0
    ensures |r| >= 1
    ensures r[0] == '-' <==> num < 0
    ensures var digits := if num < 0 then r[1..] else r;
      |digits| >= 1 && AllDigits(digits) && DigitsValue(digits) == RoundHalfUp(if num < 0 then -num else num, den)
  {
    DigitsValueOfNatToString(RoundHalfUp(if num < 0 then -num else num, den));
    if num < 0 then "-" + NatToString(RoundHalfUp(-num, den)) else NatToString(RoundHalfUp(num, den))
  }

  /** overallAverageScore; an empty score list gives "NaN" (0 / 0). */
  function OverallAverageText(scores: seq<CategoryScore>): (r: string)
    ensures r == "NaN" <==> scores == []
  {
    if scores == [] then "NaN" else ToFixedZero(SumScores(scores), |scores|)
  }

  predicate ScoresWithin(scores: seq<CategoryScore>, lo: int, hi: int) {
    forall i :: 0 <= i < |scores| ==> lo <= scores[i].score <= hi
  }

  lemma {:induction false} SumScoresBounds(scores: seq<CategoryScore>, lo: int, hi: int)
    requires ScoresWithin(scores, lo, hi)
    ensures lo * |scores| <= SumScores(scores) <= hi * |scores|
  {
    if scores != [] {
      var init := scores[..|scores| - 1];
      assert ScoresWithin(init, lo, hi) by {
        forall i | 0 <= i < |init| ensures lo <= init[i].score <= hi {
          assert init[i] == scores[i];
        }
      }
      SumScoresBounds(init, lo, hi);
      var last := scores[|scores| - 1].score;
      assert SumScores(scores) == SumScores(init) + last;
      BoundsAddOne(lo, hi, |init|, SumScores(init), last);
    }
  }

  /** One more summand in lo..hi moves the bounds of a sum of n by one step. */
  lemma BoundsAddOne(lo: int, hi: int, n: nat, sum: int, x: int)
    requires lo * n <= sum <= hi * n && lo <= x <= hi
    ensures lo * (n + 1) <= sum + x <= hi * (n + 1)
  {
    assert lo * (n + 1) == lo * n + lo;
    assert hi * (n + 1) == hi * n + hi;
  }

  /** For non-negative scores the overall score is the mean rounded half up, and
      for scores in 0..100 that rounded mean lies in 0..100 too. */
  lemma OverallAverageIsRoundedMean(scores: seq<CategoryScore>)
    requires scores != [] && ScoresWithin(scores, 0, 100)
    ensures exists m: nat :: (OverallAverageText(scores) == NatToString(m) && m <= 100 &&
      2 * |scores| * m - |scores| <= 2 * SumScores(scores) < 2 * |scores| * m + |scores|)
  {
    var k := |scores|;
    var total := SumScores(scores);
    SumScoresBounds(scores, 0, 100);
    var m := RoundHalfUp(total, k);
    if m > 100 {
      MulMonotone(2 * k, 101, m);
      assert false;
    }
    assert OverallAverageText(scores) == NatToString(m);
  }

  // ---------------------------------------------------------------------------
  // Bar chart order

  /** Insert x before the first entry whose score is not below x's. */
  function InsertByScore(x: CategoryScore, t: seq<CategoryScore>): seq<CategoryScore> {
    if t == [] || x.score <= t[0].score then [x] + t else [t[0]] + InsertByScore(x, t[1..])
  }

  predicate SortedByScore(s: seq<CategoryScore>) {
    forall i, j :: 0 <= i < j < |s| ==> s[i].score <= s[j].score
  }

  /** The entries of s with score v, in their order in s. */
  function WithScore(s: seq<CategoryScore>, v: int): seq<CategoryScore> {
    if s == [] then [] else (if s[0].score == v then [s[0]] else []) + WithScore(s[1..], v)
  }

  lemma {:induction false} InsertByScoreMultiset(x: CategoryScore, t: seq<CategoryScore>)
    ensures multiset(InsertByScore(x, t)) == multiset(t) + multiset{x}
  {
    if t != [] && x.score > t[0].score {
      InsertByScoreMultiset(x, t[1..]);
      assert t == [t[0]] + t[1..];
    }
  }

  predicate AllAtLeast(s: seq<CategoryScore>, b: int) {
    forall i :: 0 <= i < |s| ==> b <= s[i].score
  }

  lemma {:induction false} InsertByScoreAtLeast(x: CategoryScore, t: seq<CategoryScore>, b: int)
    requires b <= x.score && AllAtLeast(t, b)
    ensures AllAtLeast(InsertByScore(x, t), b)
  {
    if t != [] && x.score > t[0].score {
      InsertByScoreAtLeast(x, t[1..], b);
    }
  }

  lemma {:induction false} InsertByScoreSorted(x: CategoryScore, t: seq<CategoryScore>)
    requires SortedByScore(t)
    ensures SortedByScore(InsertByScore(x, t))
  {
    if t != [] && x.score > t[0].score {
      var tail := InsertByScore(x, t[1..]);
      InsertByScoreSorted(x, t[1..]);
      InsertByScoreAtLeast(x, t[1..], t[0].score);
      ConsSorted(t[0], tail);
    }
  }

  lemma ConsSorted(a: CategoryScore, tail: seq<CategoryScore>)
    requires SortedByScore(tail) && AllAtLeast(tail, a.score)
    ensures SortedByScore([a] + tail)
  {
    var r := [a] + tail;
    forall i, j | 0 <= i < j < |r| ensures r[i].score <= r[j].score {
      assert r[j] == tail[j - 1];
      if i > 0 { assert r[i] == tail[i - 1]; }
    }
  }

  lemma {:induction false} InsertByScoreWithScore(x: CategoryScore, t: seq<CategoryScore>, v: int)
    ensures WithScore(InsertByScore(x, t), v) == (if x.score == v then [x] else []) + WithScore(t, v)
  {
    if t != [] && x.score > t[0].score {
      InsertByScoreWithScore(x, t[1..], v);
      var head := if t[0].score == v then [t[0]] else [];
      var r := [t[0]] + InsertByScore(x, t[1..]);
      assert InsertByScore(x, t) == r;
      assert r[1..] == InsertByScore(x, t[1..]);
      assert WithScore(r, v) == head + WithScore(r[1..], v);
      assert WithScore(t, v) == head + WithScore(t[1..], v);
    } else {
      var r := [x] + t;
      assert InsertByScore(x, t) == r;
      assert r[1..] == t;
      assert WithScore(r, v) == (if x.score == v then [x] else []) + WithScore(t, v);
    }
  }

  /** [...formattedScores].sort((a, b) => a.score - b.score): a stable sort,
      ascending by score. The input sequence is a value and is not changed. */
  function SortByScore(s: seq<CategoryScore>): (r: seq<CategoryScore>)
    ensures SortedByScore(r)
    ensures multiset(r) == multiset(s)
    ensures forall v :: WithScore(r, v) == WithScore(s, v)
  {
    if s == [] then []
    else
      var rest := SortByScore(s[1..]);
      InsertByScoreSorted(s[0], rest);
      InsertByScoreMultiset(s[0], rest);
      assert forall v :: WithScore(InsertByScore(s[0], rest), v) == WithScore(s, v) by {
        forall v ensures WithScore(InsertByScore(s[0], rest), v) == WithScore(s, v) {
          InsertByScoreWithScore(s[0], rest, v);
        }
      }
      assert s == [s[0]] + s[1..];
      InsertByScore(s[0], rest)
  }

  /** sortedScoresForBarChart. */
  function BarChartScores(result: AnalysisResult): (r: seq<CategoryScore>)
    ensures SortedByScore(r)
    ensures multiset(r) == multiset(FormattedScores(result.scores))
    ensures forall v :: WithScore(r, v) == WithScore(FormattedScores(result.scores), v)
  {
    SortByScore(FormattedScores(result.scores))
  }
}
