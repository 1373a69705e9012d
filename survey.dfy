/** The derived view of the survey screen (components/Survey.tsx): everything
    here is a pure function of the current step and the answer map. */
module SurveyView {
  import opened Types
  import opened JsText

  /** The values the five answer buttons pass to onAnswer, in button order. */
  const ScaleValues: seq<int> := [1, 2, 3, 4, 5]

  /** The number of questions whose id has an entry in the answer map
      (category.questions.filter(q => surveyData[q.id] !== undefined).length). */
  function AnsweredCount(qs: seq<Question>, data: Answers): (r: nat)
    ensures r <= |qs|
  {
    if qs == [] then 0 else (if qs[0].id in data then 1 else 0) + AnsweredCount(qs[1..], data)
  }

  /** Every question is counted exactly when every question is answered. */
  lemma {:induction false} AnsweredCountFull(qs: seq<Question>, data: Answers)
    ensures AnsweredCount(qs, data) == |qs| <==> forall i :: 0 <= i < |qs| ==> qs[i].id in data
  {
    if qs != [] {
      AnsweredCountFull(qs[1..], data);
      if AnsweredCount(qs, data) == |qs| {
        forall i | 0 <= i < |qs| ensures qs[i].id in data {
          if i > 0 { assert qs[i] == qs[1..][i - 1]; }
        }
      }
      if forall i :: 0 <= i < |qs| ==> qs[i].id in data {
        assert forall i :: 0 <= i < |qs[1..]| ==> qs[1..][i].id in data by {
          forall i | 0 <= i < |qs[1..]| ensures qs[1..][i].id in data {
            assert qs[1..][i] == qs[i + 1];
          }
        }
      }
    }
  }

  /** No question is counted exactly when no question is answered. */
  lemma {:induction false} AnsweredCountNone(qs: seq<Question>, data: Answers)
    ensures AnsweredCount(qs, data) == 0 <==> forall i :: 0 <= i < |qs| ==> qs[i].id !in data
  {
    if qs != [] {
      AnsweredCountNone(qs[1..], data);
      if AnsweredCount(qs, data) == 0 {
        forall i | 0 <= i < |qs| ensures qs[i].id !in data {
          if i > 0 { assert qs[i] == qs[1..][i - 1]; }
        }
      }
      if forall i :: 0 <= i < |qs| ==> qs[i].id !in data {
        assert forall i :: 0 <= i < |qs[1..]| ==> qs[1..][i].id !in data by {
          forall i | 0 <= i < |qs[1..]| ensures qs[1..][i].id !in data {
            assert qs[1..][i] == qs[i + 1];
          }
        }
      }
    }
  }

  /** allQuestionsAnswered: answeredCount === totalQuestions for the current category. */
  predicate AllQuestionsAnswered(cats: seq<Category>, step: int, data: Answers)
    requires 0 <= step < |cats|
    ensures AllQuestionsAnswered(cats, step, data) <==>
      forall i :: 0 <= i < |cats[step].questions| ==> cats[step].questions[i].id in data
  {
    AnsweredCountFull(cats[step].questions, data);
    AnsweredCount(cats[step].questions, data) == |cats[step].questions|
  }

  datatype ForwardButton = NextButton | SubmitButton

  /** The navigation row: the previous button, and either Next or Submit. */
  datatype Navigation = Navigation(prevEnabled: bool, forward: ForwardButton, forwardEnabled: bool)

  function NavigationOf(cats: seq<Category>, step: int, data: Answers): (r: Navigation)
    requires 0 <= step < |cats|
    ensures r.prevEnabled <==> step != 0
    ensures r.forward == SubmitButton <==> step == |cats| - 1
    ensures r.forwardEnabled <==>
      forall i :: 0 <= i < |cats[step].questions| ==> cats[step].questions[i].id in data
  {
    var isLastStep := step == |cats| - 1;
    Navigation(step != 0, if isLastStep then SubmitButton else NextButton, AllQuestionsAnswered(cats, step, data))
  }

  // ---------------------------------------------------------------------------
  // Stepper

  datatype StepStatus = Completed | Current | Pending

  function StatusOf(step: int, index: int): StepStatus {
    if step > index then Completed else if step == index then Current else Pending
  }

  /** One status per category, in category order. */
  function Stepper(step: int, n: nat): (r: seq<StepStatus>)
    ensures |r| == n
    ensures forall i :: 0 <= i < n ==> (r[i] == Completed <==> i < step)
    ensures forall i :: 0 <= i < n ==> (r[i] == Current <==> i == step)
  {
    seq(n, i => StatusOf(step, i))
  }

  function CountCurrent(s: seq<StepStatus>): nat {
    if s == [] then 0 else (if s[|s| - 1] == Current then 1 else 0) + CountCurrent(s[..|s| - 1])
  }

  lemma {:induction false} CountCurrentNone(s: seq<StepStatus>)
    requires forall i :: 0 <= i < |s| ==> s[i] != Current
    ensures CountCurrent(s) == 0
  {
    if s != [] {
      CountCurrentNone(s[..|s| - 1]);
    }
  }

  lemma {:induction false} CountCurrentOne(s: seq<StepStatus>, k: nat)
    requires k < |s| && s[k] == Current
    requires forall i :: 0 <= i < |s| && i != k ==> s[i] != Current
    ensures CountCurrent(s) == 1
  {
    if k == |s| - 1 {
      CountCurrentNone(s[..|s| - 1]);
    } else {
      CountCurrentOne(s[..|s| - 1], k);
    }
  }

  /** While the step is a valid index, exactly one step of the stepper is current. */
  lemma StepperHasOneCurrent(step: int, n: nat)
    requires 0 <= step < n
    ensures CountCurrent(Stepper(step, n)) == 1
  {
    CountCurrentOne(Stepper(step, n), step);
  }

  // ---------------------------------------------------------------------------
  // Titles

  /** getShortCategoryTitle: title.split('(')[0].trim(). */
  function ShortCategoryTitle(title: string): (r: string)
    ensures '(' !in r
    ensures r == [] || (!IsWhitespace(r[0]) && !IsWhitespace(r[|r| - 1]))
  {
    var head := BeforeFirst(title, '(');
    TrimKeepsAbsent(head, '(');
    Trim(head)
  }

  lemma TrimKeepsAbsent(s: string, c: char)
    requires c !in s
    ensures c !in Trim(s)
  {
    var t := TrimStart(s);
    assert t == s[|s| - |t|..];
    var u := TrimEnd(t);
    assert u == t[..|u|];
  }

  /** A title without '(' is shortened to its trim. */
  lemma ShortTitleWithoutParen(title: string)
    requires '(' !in title
    ensures ShortCategoryTitle(title) == Trim(title)
  {
    BeforeFirstAbsent(title, '(');
  }

  /** A title "head (rest)" is shortened to the trimmed head. */
  lemma ShortTitleOfLabelled(head: string, rest: string)
    requires '(' !in head
    ensures ShortCategoryTitle(head + "(" + rest) == Trim(head)
  {
    BeforeFirstOfJoined(head, rest);
  }

  lemma {:induction false} BeforeFirstOfJoined(head: string, rest: string)
    requires '(' !in head
    ensures BeforeFirst(head + "(" + rest, '(') == head
  {
    if head != [] {
      assert (head + "(" + rest)[1..] == head[1..] + "(" + rest;
      BeforeFirstOfJoined(head[1..], rest);
    }
  }

  /** Shortening an already short title changes nothing. */
  lemma ShortTitleIdempotent(title: string)
    ensures ShortCategoryTitle(ShortCategoryTitle(title)) == ShortCategoryTitle(title)
  {
    var r := ShortCategoryTitle(title);
    BeforeFirstAbsent(r, '(');
    TrimIdentity(r);
  }
}
