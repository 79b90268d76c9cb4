/** The shared data model of the quiz (types.ts), plus an Option type for
    JavaScript's `null` / `undefined`. */
module Types {

  datatype Option<+T> = None | Some(value: T)

  /** One quiz question: its prompt, its options in display order, and the
      index of the correct option. */
  datatype Question = Question(id: int, text: string, options: seq<string>, correctAnswer: nat)

  /** The four mutually exclusive screens of the application. */
  datatype AppState = WelcomeScreen | QuizScreen | ResultsScreen | LeaderboardScreen

  /** The participant's session record; `choices` maps a question's text to
      the text of the answer recorded for it. `endTime` is optional, as in
      the source interface. */
  datatype UserStats = UserStats(
    name: string,
    score: int,
    totalQuestions: nat,
    startTime: int,
    endTime: Option<int>,
    totalTime: int,
    choices: map<string, string>)

  /** Question texts are the keys of the choice map, so "one entry per
      question" holds only when no two questions share a text. */
  ghost predicate DistinctTexts(qs: seq<Question>)
  {
    forall i, j :: 0 <= i < j < |qs| ==> qs[i].text != qs[j].text
  }
}
