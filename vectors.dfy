/** Concrete instances of the scoring and dashboard rules, on the sample
    fixture and on small hand-made inputs. */
module Vectors {
  import opened Types
  import opened JsText
  import opened Scoring
  import opened ResultsDashboard
  import SampleData

  /** The sample scores sum to 533 over seven categories: "76". */
  lemma SampleOverallAverage()
    ensures SumScores(SampleData.SampleScores) == 533
    ensures OverallAverageText(SampleData.SampleScores) == "76"
  {
    var s := SampleData.SampleScores;
    SampleSum(s);
    assert |s| == 7;
    assert RoundHalfUp(533, 7) == 76;
    assert NatToString(76) == "76";
  }

  lemma SampleSum(s: seq<CategoryScore>)
    requires s == SampleData.SampleScores
    ensures SumScores(s) == 533
  {
    SumScoresPrefix(s, 1);
    assert SumScores(s[..1]) == 85;
    SumScoresPrefix(s, 2);
    assert SumScores(s[..2]) == 150;
    SumScoresPrefix(s, 3);
    assert SumScores(s[..3]) == 225;
    SumScoresPrefix(s, 4);
    assert SumScores(s[..4]) == 315;
    SumScoresPrefix(s, 5);
    assert SumScores(s[..5]) == 385;
    SumScoresPrefix(s, 6);
    assert SumScores(s[..6]) == 473;
    SumScoresPrefix(s, 7);
    assert s[..7] == s;
  }

  lemma SumScoresPrefix(s: seq<CategoryScore>, k: nat)
    requires 0 < k <= |s|
    ensures SumScores(s[..k]) == SumScores(s[..k - 1]) + s[k - 1].score
  {
    assert s[..k][..k - 1] == s[..k - 1];
  }

  lemma TotalPrefix(qs: seq<Question>, data: Answers, k: nat)
    requires 0 < k <= |qs|
    ensures Total(qs[..k], data) == Total(qs[..k - 1], data) + AnswerOrZero(data, qs[k - 1].id)
  {
    assert qs[..k][..k - 1] == qs[..k - 1];
  }

  /** Two questions answered 3 and 4: 25 * 5 / 2 = 62.5 rounds up to 63. */
  lemma TwoQuestionCategory()
    ensures CategoryScoreOf(Category("c", [Question("q1", "a"), Question("q2", "b")], "d"), map["q1" := 3, "q2" := 4]) == 63
  {
    var qs := [Question("q1", "a"), Question("q2", "b")];
    assert qs[..1] == [Question("q1", "a")];
    assert Total(qs, map["q1" := 3, "q2" := 4]) == 7;
  }

  /** One of four questions answered 3: 25 * (3 - 4) / 4 = -6.25 rounds to -6. */
  lemma PartiallyAnsweredCategory()
    ensures CategoryScoreOf(
      Category("c", [Question("q1", ""), Question("q2", ""), Question("q3", ""), Question("q4", "")], ""),
      map["q1" := 3]) == -6
  {
    var qs := [Question("q1", ""), Question("q2", ""), Question("q3", ""), Question("q4", "")];
    var data := map["q1" := 3];
    TotalPrefix(qs, data, 1);
    TotalPrefix(qs, data, 2);
    TotalPrefix(qs, data, 3);
    TotalPrefix(qs, data, 4);
    assert qs[..4] == qs;
  }

  /** A mean slightly below zero is printed with its sign: -1/3 gives "-0". */
  lemma NegativeZeroAverage()
    ensures OverallAverageText([CategoryScore("a", -1), CategoryScore("b", 0), CategoryScore("c", 0)]) == "-0"
  {
    var s := [CategoryScore("a", -1), CategoryScore("b", 0), CategoryScore("c", 0)];
    SumScoresPrefix(s, 1);
    SumScoresPrefix(s, 2);
    SumScoresPrefix(s, 3);
    assert s[..3] == s;
    assert NatToString(0) == "0";
  }

  /** toFixed(0) rounds a negative half away from zero where Math.round rounds
      it up: a mean of -2.5 is shown as "-3", not as Math.round's -2. */
  lemma NegativeHalfAverage()
    ensures OverallAverageText([CategoryScore("a", -3), CategoryScore("b", -2)]) == "-3"
    ensures RoundHalfUp(-5, 2) == -2
  {
    var s := [CategoryScore("a", -3), CategoryScore("b", -2)];
    SumScoresPrefix(s, 1);
    SumScoresPrefix(s, 2);
    assert s[..2] == s;
    assert NatToString(3) == "3";
  }

  /** Only one numbering prefix is removed. */
  lemma OnePrefixOnly()
    ensures StripNumbering("1. 2. x") == "2. x"
  {
    StripNumberingPrefix("1", " ", "2. x");
    assert "1" + "." + " " + "2. x" == "1. 2. x";
  }
}
