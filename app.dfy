/** The screen and session state of App.tsx: which of the four screens is
    shown and the participant's `UserStats`, updated by four handlers. */
module AppShell {
  import opened Types

  /** The stats at mount and after every restart. */
  function InitialStats(questionCount: nat): (s: UserStats)
    ensures s.name == "" && s.score == 0 && s.totalQuestions == questionCount
    ensures s.startTime == 0 && s.endTime == None && s.totalTime == 0 && s.choices == map[]
  {
    UserStats("", 0, questionCount, 0, None, 0, map[])
  }

  /** A screen component with the props that carry state. */
  datatype Screen = WelcomeView | QuizView(questions: seq<Question>) | ResultsView(stats: UserStats) | LeaderboardView

  /** The four independent conditional renders of the main element. */
  function Rendered(state: AppState, questions: seq<Question>, stats: UserStats): (shown: seq<Screen>)
    ensures |shown| == 1
    ensures shown[0].WelcomeView? <==> state == WelcomeScreen
    ensures shown[0].QuizView? <==> state == QuizScreen
    ensures shown[0].ResultsView? <==> state == ResultsScreen
    ensures shown[0].LeaderboardView? <==> state == LeaderboardScreen
    ensures shown[0].QuizView? ==> shown[0].questions == questions
    ensures shown[0].ResultsView? ==> shown[0].stats == stats
  {
    (if state == WelcomeScreen then [WelcomeView] else [])
    + (if state == QuizScreen then [QuizView(questions)] else [])
    + (if state == ResultsScreen then [ResultsView(stats)] else [])
    + (if state == LeaderboardScreen then [LeaderboardView] else [])
  }

  class App {
    /** The static question list. */
    const questions: seq<Question>
    var appState: AppState
    var userStats: UserStats

    /** The question count never changes, and the welcome screen always
        starts from fresh stats. */
    ghost predicate Valid()
      reads this
    {
      && userStats.totalQuestions == |questions|
      && (appState == WelcomeScreen ==> userStats == InitialStats(|questions|))
    }

    constructor (questions: seq<Question>)
      ensures Valid() && this.questions == questions
      ensures appState == WelcomeScreen && userStats == InitialStats(|questions|)
    {
      this.questions := questions;
      appState := WelcomeScreen;
      userStats := InitialStats(|questions|);
    }

    /** `handleStart(name)` at time `now`: records the name and start time,
        clears the choices and the time, keeps everything else. */
    method HandleStart(name: string, now: int)
      requires Valid()
      modifies this
      ensures Valid() && appState == QuizScreen
      ensures userStats == old(userStats).(name := name, startTime := now, choices := map[], totalTime := 0)
    {
      userStats := userStats.(name := name, startTime := now, choices := map[], totalTime := 0);
      appState := QuizScreen;
    }

    /** `handleFinish(score, choices, seconds)` at time `now`: stores the
        quiz outcome and the end time, keeps name, start time and question
        count. */
    method HandleFinish(finalScore: int, finalChoices: map<string, string>, totalSeconds: int, now: int)
      requires Valid()
      modifies this
      ensures Valid() && appState == ResultsScreen
      ensures userStats == old(userStats).(score := finalScore, choices := finalChoices, totalTime := totalSeconds, endTime := Some(now))
    {
      userStats := userStats.(score := finalScore, choices := finalChoices, totalTime := totalSeconds, endTime := Some(now));
      appState := ResultsScreen;
    }

    /** `handleRestart`: back to the welcome screen with the initial stats,
        whatever the state before, so a second restart changes nothing. */
    method HandleRestart()
      requires Valid()
      modifies this
      ensures Valid() && appState == WelcomeScreen && userStats == InitialStats(|questions|)
    {
      userStats := InitialStats(|questions|);
      appState := WelcomeScreen;
    }

    /** `showLeaderboard`: switches the screen and leaves the stats alone. */
    method ShowLeaderboard()
      requires Valid()
      modifies this
      ensures Valid() && appState == LeaderboardScreen && userStats == old(userStats)
    {
      appState := LeaderboardScreen;
    }

    /** The leaderboard's back button is wired to `handleRestart`. */
    method LeaderboardBack()
      requires Valid()
      modifies this
      ensures Valid() && appState == WelcomeScreen && userStats == InitialStats(|questions|)
    {
      HandleRestart();
    }
  }

  /** A full session: the stats that reach the results screen carry the
      typed name, the start and end times and the quiz outcome, and a
      restart afterwards restores the initial stats twice over. */
  method Session(questions: seq<Question>, name: string, start: int, score: int,
                 choices: map<string, string>, seconds: int, end: int)
    returns (atResults: UserStats, afterRestart: UserStats, afterSecondRestart: UserStats)
    ensures atResults == UserStats(name, score, |questions|, start, Some(end), seconds, choices)
    ensures afterRestart == afterSecondRestart == InitialStats(|questions|)
  {
    var app := new App(questions);
    app.HandleStart(name, start);
    app.HandleFinish(score, choices, seconds, end);
    atResults := app.userStats;
    app.ShowLeaderboard();
    app.LeaderboardBack();
    afterRestart := app.userStats;
    app.HandleRestart();
    afterSecondRestart := app.userStats;
  }
}
