/** The survey's records, mirrored from types.ts, plus the Option type used for
    the error branches of JSON.parse and parseInt. */
module Types {

  datatype Option<+T> = None | Some(value: T)

  datatype Question = Question(id: string, text: string)

  datatype Category = Category(title: string, questions: seq<Question>, description: string)

  /** SurveyData: question id to the chosen Likert value. */
  type Answers = map<string, int>

  datatype Persona = Persona(name: string, description: string)

  datatype CategoryScore = CategoryScore(category: string, score: int)

  datatype Analysis = Analysis(
    persona: Persona,
    strengths: seq<string>,
    weaknesses: seq<string>,
    recommendations: seq<string>)

  datatype AnalysisResult = AnalysisResult(scores: seq<CategoryScore>, analysis: Analysis)

  datatype AppState = Welcome | Survey | Loading | Results | SampleSurvey
}
