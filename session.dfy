/** The session state machine of the App component (App.tsx): the React state
    (appState, currentStep, surveyData, analysisResult, isSampleView) next to
    the localStorage entries it persists. The transitions are first given as
    functions on a Session record, which the lemmas reason about, and then as
    the methods of AppSession, which change the fields step by step as the
    handlers do and are proved to agree with those functions. */
module App {
  import opened Types
  import opened JsText
  import opened Scoring
  import SurveyView
  import SampleData

  // The three localStorage keys.
  const StepKey := "surveyStep"
  const DataKey := "surveyData"
  const ResultKey := "analysisResult"

  /** localStorage: string keys to string values. */
  type Store = map<string, string>

  /** JSON.stringify and JSON.parse for the two stored shapes. JSON itself is not
      part of this model: a parse that throws is None. */
  datatype Codec = Codec(
    encodeAnswers: Answers -> string,
    decodeAnswers: string -> Option<Answers>,
    encodeResult: AnalysisResult -> string,
    decodeResult: string -> Option<AnalysisResult>)

  /** What the model relies on from JSON: parsing what stringify wrote gives the
      value back, and stringify of an object is never the empty string. */
  ghost predicate Lawful(codec: Codec) {
    && (forall m :: codec.decodeAnswers(codec.encodeAnswers(m)) == Some(m) && codec.encodeAnswers(m) != [])
    && (forall r :: codec.decodeResult(codec.encodeResult(r)) == Some(r) && codec.encodeResult(r) != [])
  }

  datatype Session = Session(
    appState: AppState,
    currentStep: int,
    surveyData: Answers,
    analysisResult: Option<AnalysisResult>,
    isSampleView: bool,
    store: Store)

  /** The useState initial values, with whatever localStorage holds. */
  function Initial(store: Store): (r: Session)
    ensures r.appState == Welcome && r.currentStep == 0 && r.surveyData == map[]
    ensures r.analysisResult == None && !r.isSampleView && r.store == store
  {
    Session(Welcome, 0, map[], None, false, store)
  }

  /** `if (localStorage.getItem(key))`: the key is stored and its value is not "". */
  predicate Truthy(store: Store, key: string): (b: bool)
    ensures b ==> key in store && |store[key]| > 0
    ensures !b ==> key !in store || store[key] == ""
  {
    key in store && store[key] != ""
  }

  /** The mount effect. It acts only when both the step and the answers are
      stored; a stored result then wins over the step and the answers; a parse
      that throws clears all of localStorage and leaves the state as it was;
      only the upper bound of the parsed step is checked (NaN fails the test). */
  function Restore(s: Session, n: nat, codec: Codec): (r: Session)
    ensures !(Truthy(s.store, StepKey) && Truthy(s.store, DataKey)) ==> r == s
    ensures Truthy(s.store, StepKey) && Truthy(s.store, DataKey) ==>
      var data := codec.decodeAnswers(s.store[DataKey]);
      var result := if Truthy(s.store, ResultKey) then codec.decodeResult(s.store[ResultKey]) else None;
      var step := ParseInt(s.store[StepKey]);
      if data.None? || (Truthy(s.store, ResultKey) && result.None?) then r == s.(store := map[])
      else if result.Some? then r == s.(analysisResult := result, appState := Results)
      else if step.Some? && step.value < n then r == s.(currentStep := step.value, surveyData := data.value, appState := Survey)
      else r == s
  {
    var store := s.store;
    if !(Truthy(store, StepKey) && Truthy(store, DataKey)) then s
    else
      var parsedStep := ParseInt(store[StepKey]);
      match codec.decodeAnswers(store[DataKey])
      case None => s.(store := map[])
      case Some(parsedData) =>
        if Truthy(store, ResultKey) then
          match codec.decodeResult(store[ResultKey])
          case None => s.(store := map[])
          case Some(result) => s.(analysisResult := Some(result), appState := Results)
        else if parsedStep.Some? && parsedStep.value < n then
          s.(currentStep := parsedStep.value, surveyData := parsedData, appState := Survey)
        else s
  }

  /** handleViewSample: the fixture is shown; nothing is written to localStorage. */
  function ViewSample(s: Session): (r: Session)
    ensures r.appState == Results && r.analysisResult == Some(SampleData.SampleResult) && r.isSampleView
    ensures r.store == s.store && r.currentStep == s.currentStep && r.surveyData == s.surveyData
  {
    s.(analysisResult := Some(SampleData.SampleResult), isSampleView := true, appState := Results)
  }

  /** handleViewSampleSurvey. */
  function ViewSampleSurvey(s: Session): (r: Session)
    ensures r.appState == SampleSurvey && r.(appState := s.appState) == s
  {
    s.(appState := SampleSurvey)
  }

  /** handleAnswer: exactly questionId is set to score, and the stored answers
      are the new map. */
  function Answer(s: Session, codec: Codec, questionId: string, score: int): (r: Session)
    ensures questionId in r.surveyData && r.surveyData[questionId] == score
    ensures forall k :: k != questionId ==>
      (k in r.surveyData <==> k in s.surveyData) && (k in s.surveyData ==> r.surveyData[k] == s.surveyData[k])
    ensures r.store.Keys == s.store.Keys + {DataKey}
    ensures forall k :: k in s.store && k != DataKey ==> r.store[k] == s.store[k]
    ensures Lawful(codec) ==> codec.decodeAnswers(r.store[DataKey]) == Some(r.surveyData)
    ensures r.(surveyData := s.surveyData, store := s.store) == s
  {
    var newData := s.surveyData[questionId := score];
    s.(surveyData := newData, store := s.store[DataKey := codec.encodeAnswers(newData)])
  }

  /** handleNext: one step forward unless that would leave the categories; the
      stored step then reads back as the new step. At the last step nothing
      changes and nothing is written. */
  function Next(s: Session, n: nat): (r: Session)
    ensures 0 <= s.currentStep < n ==> 0 <= r.currentStep < n
    ensures s.currentStep + 1 < n ==>
      && r.currentStep == s.currentStep + 1
      && r.store.Keys == s.store.Keys + {StepKey}
      && ParseInt(r.store[StepKey]) == Some(r.currentStep)
      && (forall k :: k in s.store && k != StepKey ==> r.store[k] == s.store[k])
    ensures s.currentStep + 1 >= n ==> r == s
    ensures r.(currentStep := s.currentStep, store := s.store) == s
  {
    var nextStep := s.currentStep + 1;
    if nextStep < n then
      ParseIntOfIntToString(nextStep);
      s.(currentStep := nextStep, store := s.store[StepKey := IntToString(nextStep)])
    else s
  }

  /** handlePrev: one step back unless the step is already 0 (or below). */
  function Prev(s: Session): (r: Session)
    ensures s.currentStep >= 0 ==> 0 <= r.currentStep <= s.currentStep
    ensures s.currentStep >= 1 ==>
      && r.currentStep == s.currentStep - 1
      && r.store.Keys == s.store.Keys + {StepKey}
      && ParseInt(r.store[StepKey]) == Some(r.currentStep)
      && (forall k :: k in s.store && k != StepKey ==> r.store[k] == s.store[k])
    ensures s.currentStep < 1 ==> r == s
    ensures r.(currentStep := s.currentStep, store := s.store) == s
  {
    var prevStep := s.currentStep - 1;
    if prevStep >= 0 then
      ParseIntOfIntToString(prevStep);
      s.(currentStep := prevStep, store := s.store[StepKey := IntToString(prevStep)])
    else s
  }

  /** The first half of handleSurveySubmit: the loading screen is shown. */
  function BeginSubmit(s: Session): (r: Session)
    ensures r.appState == Loading && r.(appState := s.appState) == s
  {
    s.(appState := Loading)
  }

  /** The second half, once the analysis promise settles: Some(analysis) when it
      resolves, None when it rejects. */
  function FinishSubmit(s: Session, scores: seq<CategoryScore>, outcome: Option<Analysis>, codec: Codec): (r: Session)
    ensures outcome.Some? ==>
      && r.appState == Results
      && r.analysisResult == Some(AnalysisResult(scores, outcome.value))
      && r.store.Keys == s.store.Keys + {ResultKey}
      && (forall k :: k in s.store && k != ResultKey ==> r.store[k] == s.store[k])
      && (Lawful(codec) ==> codec.decodeResult(r.store[ResultKey]) == r.analysisResult)
      && r.(appState := s.appState, analysisResult := s.analysisResult, store := s.store) == s
    ensures outcome.None? ==> r == s.(appState := Survey)
  {
    match outcome
    case Some(analysis) =>
      var newResult := AnalysisResult(scores, analysis);
      s.(analysisResult := Some(newResult), store := s.store[ResultKey := codec.encodeResult(newResult)], appState := Results)
    case None => s.(appState := Survey)
  }

  /** handleRestart: the fresh state, and exactly the three keys removed. */
  function Restart(s: Session): (r: Session)
    ensures r.appState == Welcome && r.currentStep == 0 && r.surveyData == map[]
    ensures r.analysisResult == None && !r.isSampleView
    ensures r.store.Keys == s.store.Keys - {StepKey, DataKey, ResultKey}
    ensures forall k :: k in r.store ==> r.store[k] == s.store[k]
  {
    var store := s.store - {StepKey} - {DataKey} - {ResultKey};
    Initial(store)
  }

  // ---------------------------------------------------------------------------
  // Reload: what the stored entries bring back

  /** A survey in progress whose localStorage entries mirror it. */
  ghost predicate Resumable(s: Session, n: nat, codec: Codec) {
    && s.appState == Survey && s.currentStep < n
    && s.analysisResult == None && !s.isSampleView
    && Truthy(s.store, StepKey) && Truthy(s.store, DataKey) && !Truthy(s.store, ResultKey)
    && ParseInt(s.store[StepKey]) == Some(s.currentStep)
    && codec.decodeAnswers(s.store[DataKey]) == Some(s.surveyData)
  }

  /** Restoring into the survey leaves a session whose entries mirror it. */
  lemma RestoredSurveyIsResumable(store: Store, n: nat, codec: Codec)
    requires Restore(Initial(store), n, codec).appState == Survey
    ensures Resumable(Restore(Initial(store), n, codec), n, codec)
  {
  }

  /** Reloading a resumable session brings back exactly that session. */
  lemma ReloadResumes(s: Session, n: nat, codec: Codec)
    requires Resumable(s, n, codec)
    ensures Restore(Initial(s.store), n, codec) == s
  {
  }

  lemma AnswerKeepsResumable(s: Session, n: nat, codec: Codec, questionId: string, score: int)
    requires Lawful(codec) && Resumable(s, n, codec)
    ensures Resumable(Answer(s, codec, questionId, score), n, codec)
  {
  }

  lemma NextKeepsResumable(s: Session, n: nat, codec: Codec)
    requires Resumable(s, n, codec)
    ensures Resumable(Next(s, n), n, codec)
  {
    var r := Next(s, n);
    if s.currentStep + 1 < n {
      assert r.store[DataKey] == s.store[DataKey];
      assert ResultKey in r.store <==> ResultKey in s.store;
      assert ResultKey in s.store ==> r.store[ResultKey] == s.store[ResultKey];
      assert r.store[StepKey] != "" by {
        assert ParseInt(r.store[StepKey]) == Some(r.currentStep);
      }
    }
  }

  lemma PrevKeepsResumable(s: Session, n: nat, codec: Codec)
    requires Resumable(s, n, codec)
    ensures Resumable(Prev(s), n, codec)
  {
    var r := Prev(s);
    if s.currentStep >= 1 {
      assert r.store[DataKey] == s.store[DataKey];
      assert ResultKey in r.store <==> ResultKey in s.store;
      assert ResultKey in s.store ==> r.store[ResultKey] == s.store[ResultKey];
      assert r.store[StepKey] != "" by {
        assert ParseInt(r.store[StepKey]) == Some(r.currentStep);
      }
    }
  }

  /** After a successful submit from a resumable session, a reload shows that
      exact result, whatever step and answers are stored beside it. */
  lemma ReloadAfterSubmitShowsResult(s: Session, n: nat, codec: Codec, cats: seq<Category>, analysis: Analysis)
    requires Lawful(codec) && Resumable(s, n, codec)
    ensures
      var scores := CategoryScores(cats, s.surveyData);
      var done := FinishSubmit(BeginSubmit(s), scores, Some(analysis), codec);
      Restore(Initial(done.store), n, codec) == Initial(done.store).(
        appState := Results, analysisResult := Some(AnalysisResult(scores, analysis)))
  {
  }

  /** A failed analysis returns to the survey with the answers and step untouched. */
  lemma FailedSubmitKeepsProgress(s: Session, codec: Codec, scores: seq<CategoryScore>)
    requires s.appState == Survey
    ensures FinishSubmit(BeginSubmit(s), scores, None, codec) == s
  {
  }

  /** After a restart a reload starts fresh. */
  lemma ReloadAfterRestartIsFresh(s: Session, n: nat, codec: Codec)
    ensures Restore(Initial(Restart(s).store), n, codec) == Restart(s)
  {
  }

  /** Only the upper bound of the stored step is checked: a stored "-1" is
      restored as step -1. */
  lemma NegativeStepIsRestored(codec: Codec, n: nat)
    requires Lawful(codec)
    ensures
      var store := map[StepKey := "-1", DataKey := codec.encodeAnswers(map[])];
      Restore(Initial(store), n, codec).appState == Survey &&
      Restore(Initial(store), n, codec).currentStep == -1
  {
    var store := map[StepKey := "-1", DataKey := codec.encodeAnswers(map[])];
    ParseIntOfNumeral("-1", "1");
    var s := Session(Survey, -1, map[], None, false, store);
    assert Resumable(s, n, codec);
    ReloadResumes(s, n, codec);
  }

  // ---------------------------------------------------------------------------
  // A session driven through the survey screen

  /** The step is a valid index, every answer came from an answer button, and
      every category before the current one is fully answered. */
  ghost predicate Guided(s: Session, cats: seq<Category>) {
    && 0 <= s.currentStep < |cats|
    && (forall k :: k in s.surveyData ==> 1 <= s.surveyData[k] <= 5)
    && (forall j :: 0 <= j < s.currentStep ==> CategoryAnsweredOnScale(cats[j], s.surveyData))
  }

  lemma AnswerKeepsGuided(s: Session, cats: seq<Category>, codec: Codec, questionId: string, score: int)
    requires Guided(s, cats) && score in SurveyView.ScaleValues
    ensures Guided(Answer(s, codec, questionId, score), cats)
  {
    var r := Answer(s, codec, questionId, score);
    forall j | 0 <= j < r.currentStep ensures CategoryAnsweredOnScale(cats[j], r.surveyData) {
      assert CategoryAnsweredOnScale(cats[j], s.surveyData);
    }
  }

  /** Next is only clickable once the current category is answered, so moving
      forward keeps every earlier category complete. */
  lemma NextKeepsGuided(s: Session, cats: seq<Category>)
    requires Guided(s, cats)
    requires SurveyView.NavigationOf(cats, s.currentStep, s.surveyData).forwardEnabled
    ensures Guided(Next(s, |cats|), cats)
  {
    var step, data := s.currentStep, s.surveyData;
    var questions := cats[step].questions;
    assert forall i :: 0 <= i < |questions| ==> questions[i].id in data;
    assert CategoryAnsweredOnScale(cats[step], data);
    CompleteThrough(cats, step, data);
  }

  lemma CompleteThrough(cats: seq<Category>, step: nat, data: Answers)
    requires step < |cats|
    requires forall j :: 0 <= j < step ==> CategoryAnsweredOnScale(cats[j], data)
    requires CategoryAnsweredOnScale(cats[step], data)
    ensures forall j :: 0 <= j < step + 1 ==> CategoryAnsweredOnScale(cats[j], data)
  {
  }

  lemma PrevKeepsGuided(s: Session, cats: seq<Category>)
    requires Guided(s, cats)
    ensures Guided(Prev(s), cats)
  {
  }

  /** When Submit is enabled in a guided session, every category is fully
      answered on the scale, so every submitted score lies in 0..100. */
  lemma GuidedSubmitScoresInRange(s: Session, cats: seq<Category>)
    requires Guided(s, cats)
    requires SurveyView.NavigationOf(cats, s.currentStep, s.surveyData).forward == SurveyView.SubmitButton
    requires SurveyView.NavigationOf(cats, s.currentStep, s.surveyData).forwardEnabled
    ensures forall i :: 0 <= i < |cats| ==> 0 <= CategoryScores(cats, s.surveyData)[i].score <= 100
  {
    forall i | 0 <= i < |cats| ensures 0 <= CategoryScores(cats, s.surveyData)[i].score <= 100 {
      assert CategoryAnsweredOnScale(cats[i], s.surveyData);
      ScoreInRange(cats[i], s.surveyData);
    }
  }

  // ---------------------------------------------------------------------------
  // The component's state, updated in place by its handlers

  class AppSession {
    const categories: seq<Category>
    const codec: Codec
    var appState: AppState
    var currentStep: int
    var surveyData: Answers
    var analysisResult: Option<AnalysisResult>
    var isSampleView: bool
    /** localStorage */
    var store: Store

    function State(): Session
      reads this
    {
      Session(appState, currentStep, surveyData, analysisResult, isSampleView, store)
    }

    constructor (categories: seq<Category>, codec: Codec, saved: Store)
      requires |categories| > 0
      ensures this.categories == categories && this.codec == codec
      ensures State() == Initial(saved)
    {
      this.categories := categories;
      this.codec := codec;
      appState := Welcome;
      currentStep := 0;
      surveyData := map[];
      analysisResult := None;
      isSampleView := false;
      store := saved;
    }

    /** The mount effect. */
    method RestoreProgress()
      modifies this
      ensures State() == Restore(old(State()), |categories|, codec)
    {
      ghost var before := State();
      if Truthy(store, StepKey) && Truthy(store, DataKey) {
        var parsedStep := ParseInt(store[StepKey]);
        var parsedData := codec.decodeAnswers(store[DataKey]);
        if parsedData.None? {
          store := map[];
          assert State() == before.(store := map[]);
          return;
        }
        if Truthy(store, ResultKey) {
          var parsedResult := codec.decodeResult(store[ResultKey]);
          if parsedResult.None? {
            store := map[];
            assert State() == before.(store := map[]);
            return;
          }
          analysisResult := parsedResult;
          appState := Results;
          assert State() == before.(analysisResult := parsedResult, appState := Results);
        } else if parsedStep.Some? && parsedStep.value < |categories| {
          currentStep := parsedStep.value;
          surveyData := parsedData.value;
          appState := Survey;
          assert State() == before.(currentStep := parsedStep.value, surveyData := parsedData.value, appState := Survey);
        }
      }
    }

    method HandleViewSample()
      modifies this
      ensures appState == Results && analysisResult == Some(SampleData.SampleResult) && isSampleView
      ensures State() == ViewSample(old(State()))
    {
      analysisResult := Some(SampleData.SampleResult);
      isSampleView := true;
      appState := Results;
    }

    method HandleViewSampleSurvey()
      modifies this
      ensures State() == ViewSampleSurvey(old(State()))
    {
      appState := SampleSurvey;
    }

    method HandleAnswer(questionId: string, score: int)
      modifies this
      ensures surveyData == old(surveyData)[questionId := score]
      ensures store == old(store)[DataKey := codec.encodeAnswers(surveyData)]
      ensures State() == Answer(old(State()), codec, questionId, score)
    {
      var newData := surveyData[questionId := score];
      surveyData := newData;
      store := store[DataKey := codec.encodeAnswers(newData)];
    }

    method HandleNext()
      modifies this
      ensures old(currentStep) + 1 < |categories| ==>
        currentStep == old(currentStep) + 1 && store == old(store)[StepKey := IntToString(currentStep)]
      ensures old(currentStep) + 1 >= |categories| ==> currentStep == old(currentStep) && store == old(store)
      ensures State() == Next(old(State()), |categories|)
    {
      var nextStep := currentStep + 1;
      if nextStep < |categories| {
        currentStep := nextStep;
        store := store[StepKey := IntToString(nextStep)];
      }
    }

    method HandlePrev()
      modifies this
      ensures old(currentStep) >= 1 ==>
        currentStep == old(currentStep) - 1 && store == old(store)[StepKey := IntToString(currentStep)]
      ensures old(currentStep) < 1 ==> currentStep == old(currentStep) && store == old(store)
      ensures State() == Prev(old(State()))
    {
      var prevStep := currentStep - 1;
      if prevStep >= 0 {
        currentStep := prevStep;
        store := store[StepKey := IntToString(prevStep)];
      }
    }

    /** handleSurveySubmit up to the await: the loading screen, and the scores
      that will be sent to the analysis. */
    method HandleSurveySubmit() returns (categoryScores: seq<CategoryScore>)
      modifies this
      ensures appState == Loading
      ensures categoryScores == CategoryScores(categories, surveyData)
      ensures State() == BeginSubmit(old(State()))
    {
      appState := Loading;
      categoryScores := CategoryScores(categories, surveyData);
    }

    /** handleSurveySubmit after the await. */
    method CompleteSurveySubmit(categoryScores: seq<CategoryScore>, outcome: Option<Analysis>)
      modifies this
      ensures State() == FinishSubmit(old(State()), categoryScores, outcome, codec)
    {
      match outcome
      case Some(analysis) =>
        var newAnalysisResult := AnalysisResult(categoryScores, analysis);
        analysisResult := Some(newAnalysisResult);
        store := store[ResultKey := codec.encodeResult(newAnalysisResult)];
        appState := Results;
      case None =>
        appState := Survey;
    }

    method HandleRestart()
      modifies this
      ensures appState == Welcome && currentStep == 0 && surveyData == map[]
      ensures analysisResult == None && !isSampleView
      ensures store == old(store) - {StepKey, DataKey, ResultKey}
      ensures State() == Restart(old(State()))
    {
      appState := Welcome;
      currentStep := 0;
      surveyData := map[];
      analysisResult := None;
      isSampleView := false;
      store := store - {StepKey};
      store := store - {DataKey};
      store := store - {ResultKey};
    }
  }
}
