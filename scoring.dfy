/** Category scoring, the pure part of handleSurveySubmit (App.tsx): each
    category's Likert total is rescaled from [n, 5n] to [0, 100] and rounded
    the way Math.round rounds, in exact rational arithmetic. */
module Scoring {
  import opened Types

  /** surveyData[q.id] || 0: a missing answer counts as 0. */
  function AnswerOrZero(data: Answers, id: string): (r: int)
    ensures id in data ==> r == data[id]
    ensures id !in data ==> r == 0
  {
    if id in data then data[id] else 0
  }

  /** The reduce over a category's questions, from the left. */
  function Total(qs: seq<Question>, data: Answers): (r: int)
    ensures (forall i :: 0 <= i < |qs| ==> qs[i].id !in data) ==> r == 0
  {
    if qs == [] then 0 else Total(qs[..|qs| - 1], data) + AnswerOrZero(data, qs[|qs| - 1].id)
  }

  /** Math.round(num / den) for den > 0: the nearest integer, halves upward. */
  function RoundHalfUp(num: int, den: int): (r: int)
    requires den > 0
    ensures 2 * den * r - den <= 2 * num < 2 * den * r + den
    ensures num >= 0 ==> r >= 0
  {
    (2 * num + den) / (2 * den)
  }

  /** The normalised score of a category with n questions and answer total t:
      0 when t is 0, otherwise ((t - n) / (5n - n)) * 100 = 25 (t - n) / n rounded
      half up. A non-zero total needs at least one question, so n > 0 there. */
  function NormalizedScore(total: int, n: nat): (r: int)
    requires total != 0 ==> n > 0
    ensures total == 0 ==> r == 0
    ensures total != 0 ==> 2 * n * r - n <= 50 * (total - n) < 2 * n * r + n
  {
    if total == 0 then 0 else RoundHalfUp(25 * (total - n), n)
  }

  /** The score of one category: 0 for a zero total, otherwise the integer
      nearest to (t - n) / (4n) * 100, halves upward. */
  function CategoryScoreOf(cat: Category, data: Answers): (r: int)
    ensures var t, n := Total(cat.questions, data), |cat.questions|;
      (t == 0 ==> r == 0) && (t != 0 ==> n > 0 && 2 * n * r - n <= 50 * (t - n) < 2 * n * r + n)
  {
    NormalizedScore(Total(cat.questions, data), |cat.questions|)
  }

  /** SURVEY_CATEGORIES.map(...): one score per category, in category order,
      labelled with the category's title. */
  function CategoryScores(cats: seq<Category>, data: Answers): (r: seq<CategoryScore>)
    ensures |r| == |cats|
    ensures forall i :: 0 <= i < |cats| ==>
      r[i].category == cats[i].title && r[i].score == CategoryScoreOf(cats[i], data)
  {
    seq(|cats|, i requires 0 <= i < |cats| => CategoryScore(cats[i].title, CategoryScoreOf(cats[i], data)))
  }

  // ---------------------------------------------------------------------------
  // Properties

  /** The question's id has an answer on the Likert scale. */
  predicate AnsweredOnScale(data: Answers, id: string) {
    id in data && 1 <= data[id] <= 5
  }

  predicate CategoryAnsweredOnScale(cat: Category, data: Answers) {
    forall i :: 0 <= i < |cat.questions| ==> AnsweredOnScale(data, cat.questions[i].id)
  }

  lemma {:induction false} TotalBounds(qs: seq<Question>, data: Answers)
    requires forall i :: 0 <= i < |qs| ==> AnsweredOnScale(data, qs[i].id)
    ensures |qs| <= Total(qs, data) <= 5 * |qs|
  {
    if qs != [] {
      TotalBounds(qs[..|qs| - 1], data);
    }
  }

  lemma {:induction false} TotalOfConstant(qs: seq<Question>, data: Answers, v: int)
    requires forall i :: 0 <= i < |qs| ==> qs[i].id in data && data[qs[i].id] == v
    ensures Total(qs, data) == v * |qs|
  {
    if qs != [] {
      TotalOfConstant(qs[..|qs| - 1], data, v);
    }
  }

  /** A category with no answered question, or with no question at all, scores 0. */
  lemma UnansweredScoresZero(cat: Category, data: Answers)
    requires forall i :: 0 <= i < |cat.questions| ==> cat.questions[i].id !in data
    ensures CategoryScoreOf(cat, data) == 0
  {
    TotalUnanswered(cat.questions, data);
  }

  lemma {:induction false} TotalUnanswered(qs: seq<Question>, data: Answers)
    requires forall i :: 0 <= i < |qs| ==> qs[i].id !in data
    ensures Total(qs, data) == 0
  {
    if qs != [] {
      TotalUnanswered(qs[..|qs| - 1], data);
    }
  }

  /** With every question answered on the 1..5 scale the score lies in 0..100. */
  lemma ScoreInRange(cat: Category, data: Answers)
    requires CategoryAnsweredOnScale(cat, data)
    ensures 0 <= CategoryScoreOf(cat, data) <= 100
  {
    var n := |cat.questions|;
    var t := Total(cat.questions, data);
    TotalBounds(cat.questions, data);
    if t != 0 {
      var r := NormalizedScore(t, n);
      if r > 100 {
        MulMonotone(2 * n, 101, r);
        assert false;
      }
    }
  }

  lemma MulMonotone(k: nat, a: int, b: int)
    requires a <= b
    ensures k * a <= k * b
  {
  }

  /** Every answer 1 gives 0; every answer 5 gives 100. */
  lemma AllMinimumScoresZero(cat: Category, data: Answers)
    requires forall i :: 0 <= i < |cat.questions| ==> cat.questions[i].id in data && data[cat.questions[i].id] == 1
    ensures CategoryScoreOf(cat, data) == 0
  {
    var n := |cat.questions|;
    TotalOfConstant(cat.questions, data, 1);
    if n > 0 {
      var r := RoundHalfUp(0, n);
      if r > 0 {
        MulMonotone(2 * n, 1, r);
      }
      assert r == 0;
      assert NormalizedScore(n, n) == r;
    }
  }

  lemma AllMaximumScoresHundred(cat: Category, data: Answers)
    requires |cat.questions| > 0
    requires forall i :: 0 <= i < |cat.questions| ==> cat.questions[i].id in data && data[cat.questions[i].id] == 5
    ensures CategoryScoreOf(cat, data) == 100
  {
    var n := |cat.questions|;
    TotalOfConstant(cat.questions, data, 5);
    var r := NormalizedScore(5 * n, n);
    if r < 100 {
      MulMonotone(2 * n, r, 99);
      assert false;
    }
    if r > 100 {
      MulMonotone(2 * n, 101, r);
      assert false;
    }
  }

  /** Among non-zero totals the score never decreases as the total grows. */
  lemma ScoreMonotone(t1: int, t2: int, n: nat)
    requires n > 0 && t1 <= t2 && t1 != 0 && t2 != 0
    ensures NormalizedScore(t1, n) <= NormalizedScore(t2, n)
  {
    var r1, r2 := NormalizedScore(t1, n), NormalizedScore(t2, n);
    var k := 2 * n;
    assert k * r1 - n <= 50 * (t1 - n);
    assert 50 * (t2 - n) < k * r2 + n;
    assert k * (r2 + 1) == k * r2 + k;
    MulCancel(k, r1, r2 + 1);
  }

  lemma MulCancel(k: nat, a: int, b: int)
    requires k * a < k * b
    ensures a < b
  {
  }

  /** The zero-total guard is the only place monotonicity breaks: a partially
      answered category scores below an unanswered one. */
  lemma ZeroGuardNotMonotone()
    ensures NormalizedScore(0, 4) == 0 && NormalizedScore(3, 4) == -6
  {
  }
}
