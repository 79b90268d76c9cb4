/** The per-question timer/answer state machine of components/Quiz.tsx.

    The component's `setTimeout` callbacks become discrete events:
    `Tick` (the one-second countdown), `Timeout` (the effect branch that
    fires once the counter is at zero), `Click(i)` (an option button) and
    `Advance` (the `handleNext` call deferred after an answer). The deferred
    advance runs the `handleNext` closure of the render in which the answer
    was given, so it is modelled as a `Snapshot` of that render's state. */
module QuizComponent {
  import opened Types

  /** Seconds on the clock at the start of every question. */
  const TimeLimit: nat := 30
  /** The choice recorded for a question whose clock ran out. */
  const TimeExpired: string := "انتهى الوقت"

  /** How a question was answered: by an option button, or by the clock. */
  datatype Answer = Chose(option: nat) | Expired

  /** The values that the `handleNext` closure captured when the advance
      was scheduled. */
  datatype Snapshot = Snapshot(index: nat, score: nat, choices: map<string, string>, seconds: nat)

  /** The arguments passed to `onFinish`. */
  datatype FinishReport = FinishReport(score: nat, choices: map<string, string>, totalSeconds: nat)

  /** Every chosen option exists in its question. */
  ghost predicate AnswersFit(qs: seq<Question>, ans: seq<Answer>)
  {
    |ans| <= |qs| && forall j :: 0 <= j < |ans| && ans[j].Chose? ==> ans[j].option < |qs[j].options|
  }

  /** The text recorded in the choice map for one answer. */
  function AnswerText(q: Question, a: Answer): (t: string)
    requires a.Chose? ==> a.option < |q.options|
    ensures a.Expired? ==> t == TimeExpired
    ensures a.Chose? ==> t == q.options[a.option]
  {
    match a
    case Chose(i) => q.options[i]
    case Expired => TimeExpired
  }

  /** Number of answers that picked the correct option. */
  function CountCorrect(qs: seq<Question>, ans: seq<Answer>): (n: nat)
    requires |ans| <= |qs|
    ensures n <= |ans|
  {
    if |ans| == 0 then 0
    else
      var k := |ans| - 1;
      CountCorrect(qs, ans[..k]) + (if ans[k] == Chose(qs[k].correctAnswer) then 1 else 0)
  }

  /** Full marks exactly when every answer picked the correct option. */
  lemma {:induction false} CountCorrectFullMarks(qs: seq<Question>, ans: seq<Answer>)
    requires |ans| <= |qs|
    ensures CountCorrect(qs, ans) == |ans| <==> forall j :: 0 <= j < |ans| ==> ans[j] == Chose(qs[j].correctAnswer)
  {
    if |ans| > 0 {
      var k := |ans| - 1;
      CountCorrectFullMarks(qs, ans[..k]);
      assert forall j :: 0 <= j < k ==> ans[..k][j] == ans[j];
    }
  }

  /** The choice map built by recording the answers in order, each keyed by
      its question's text (a later question overrides an equal text). */
  function ChoicesOf(qs: seq<Question>, ans: seq<Answer>): (m: map<string, string>)
    requires AnswersFit(qs, ans)
  {
    if |ans| == 0 then map[]
    else
      var k := |ans| - 1;
      ChoicesOf(qs, ans[..k])[qs[k].text := AnswerText(qs[k], ans[k])]
  }

  /** The choice map's keys are exactly the texts of the answered
      questions. */
  lemma {:induction false} ChoicesOfKeys(qs: seq<Question>, ans: seq<Answer>)
    requires AnswersFit(qs, ans)
    ensures ChoicesOf(qs, ans).Keys == set j | 0 <= j < |ans| :: qs[j].text
  {
    if |ans| > 0 {
      var k := |ans| - 1;
      ChoicesOfKeys(qs, ans[..k]);
      assert forall j :: 0 <= j < k ==> ans[..k][j] == ans[j];
    }
  }

  /** The newest answer's text is not a key of the earlier choices when
      question texts are distinct. */
  lemma FreshKey(qs: seq<Question>, ans: seq<Answer>)
    requires AnswersFit(qs, ans) && DistinctTexts(qs) && |ans| > 0
    ensures qs[|ans| - 1].text !in ChoicesOf(qs, ans[..|ans| - 1])
  {
    ChoicesOfKeys(qs, ans[..|ans| - 1]);
  }

  /** With distinct question texts the choice map has exactly one entry per
      answered question. */
  lemma {:induction false} ChoicesOfSize(qs: seq<Question>, ans: seq<Answer>)
    requires AnswersFit(qs, ans) && DistinctTexts(qs)
    ensures |ChoicesOf(qs, ans)| == |ans|
  {
    if |ans| > 0 {
      var k := |ans| - 1;
      var prev := ans[..k];
      ChoicesOfSize(qs, prev);
      FreshKey(qs, ans);
      var m := ChoicesOf(qs, prev);
      var m' := m[qs[k].text := AnswerText(qs[k], ans[k])];
      assert m'.Keys == m.Keys + {qs[k].text};
    }
  }

  /** With distinct question texts each answered question's entry in the
      choice map is the answer given to it. */
  lemma {:induction false} ChoicesOfLookup(qs: seq<Question>, ans: seq<Answer>, j: nat)
    requires AnswersFit(qs, ans) && DistinctTexts(qs) && j < |ans|
    ensures qs[j].text in ChoicesOf(qs, ans)
    ensures ChoicesOf(qs, ans)[qs[j].text] == AnswerText(qs[j], ans[j])
  {
    var k := |ans| - 1;
    if j < k {
      var prev := ans[..k];
      ChoicesOfLookup(qs, prev, j);
      assert prev[j] == ans[j];
      assert qs[j].text != qs[k].text;
    }
  }

  /** Recording one more answer: the earlier answers are a prefix, the
      score rises by one exactly for the correct option, and the new
      question's text maps to the answer's text. */
  lemma RecordAnswer(qs: seq<Question>, ans: seq<Answer>, a: Answer)
    requires AnswersFit(qs, ans) && |ans| < |qs|
    requires a.Chose? ==> a.option < |qs[|ans|].options|
    ensures AnswersFit(qs, ans + [a])
    ensures (ans + [a])[..|ans|] == ans
    ensures CountCorrect(qs, ans + [a]) == CountCorrect(qs, ans) + (if a == Chose(qs[|ans|].correctAnswer) then 1 else 0)
    ensures ChoicesOf(qs, ans + [a]) == ChoicesOf(qs, ans)[qs[|ans|].text := AnswerText(qs[|ans|], a)]
  {
    assert (ans + [a])[..|ans|] == ans;
  }

  /** The score recorded over a prefix of the answers never exceeds the
      score over all of them, and grows by at most one per answer. */
  lemma {:induction false} CountCorrectPrefix(qs: seq<Question>, ans: seq<Answer>, k: nat)
    requires |ans| <= |qs| && k <= |ans|
    ensures CountCorrect(qs, ans[..k]) <= CountCorrect(qs, ans) <= CountCorrect(qs, ans[..k]) + (|ans| - k)
    decreases |ans| - k
  {
    if k < |ans| {
      CountCorrectPrefix(qs, ans, k + 1);
      assert ans[..k + 1][..k] == ans[..k];
    } else {
      assert ans[..k] == ans;
    }
  }

  /** The component's state, field by field, with the ghost record of the
      answers given so far and the seconds spent before this question. */
  datatype QuizState = QuizState(
    questions: seq<Question>, currentIndex: nat, score: nat, choices: map<string, string>,
    selectedOption: Option<nat>, isAnswered: bool, timeLeft: int, totalSecondsSpent: nat,
    pending: Option<Snapshot>, answers: seq<Answer>, priorSeconds: nat)

  /** The invariant the component keeps: the score and the choice map are
      those of the answers recorded, the clock and the seconds spent agree,
      and a pending advance carries the state of the render that scheduled
      it. */
  ghost predicate Consistent(s: QuizState) {
    && |s.questions| > 0
    && s.currentIndex < |s.questions|
    && 0 <= s.timeLeft <= TimeLimit
    && |s.answers| == s.currentIndex + (if s.isAnswered then 1 else 0)
    && AnswersFit(s.questions, s.answers)
    && s.selectedOption == (if s.isAnswered && s.answers[s.currentIndex].Chose? then Some(s.answers[s.currentIndex].option) else None)
    && (s.isAnswered && s.answers[s.currentIndex].Expired? ==> s.timeLeft == 0)
    && s.score == CountCorrect(s.questions, s.answers)
    && s.choices == ChoicesOf(s.questions, s.answers)
    && s.priorSeconds <= TimeLimit * s.currentIndex
    && s.totalSecondsSpent == s.priorSeconds + (TimeLimit - s.timeLeft)
    && (s.pending.Some? ==>
          && s.isAnswered
          && s.pending.value == Snapshot(s.currentIndex, CountCorrect(s.questions, s.answers[..s.currentIndex]),
                                         ChoicesOf(s.questions, s.answers[..s.currentIndex]), s.totalSecondsSpent))
    && (s.isAnswered && s.pending.None? ==> s.currentIndex == |s.questions| - 1)
  }

  /** Answering the open question with option `index` keeps the invariant. */
  lemma AnswerKeepsConsistent(s: QuizState, index: nat)
    requires Consistent(s) && !s.isAnswered
    requires index < |s.questions[s.currentIndex].options|
    ensures var q := s.questions[s.currentIndex];
      Consistent(s.(selectedOption := Some(index), isAnswered := true,
                    choices := s.choices[q.text := q.options[index]],
                    score := s.score + (if index == q.correctAnswer then 1 else 0),
                    answers := s.answers + [Chose(index)],
                    pending := Some(Snapshot(s.currentIndex, s.score, s.choices, s.totalSecondsSpent))))
  {
    RecordAnswer(s.questions, s.answers, Chose(index));
  }


  class Quiz {
    const questions: seq<Question>
    var currentIndex: nat
    var score: nat
    var choices: map<string, string>
    var selectedOption: Option<nat>
    var isAnswered: bool
    var timeLeft: int
    var totalSecondsSpent: nat
    /** The advance scheduled by the last answer, with the state its
        `handleNext` closure captured; `None` when no advance is pending. */
    var pending: Option<Snapshot>

    /** How each question so far was answered, in order. */
    ghost var answers: seq<Answer>
    /** Seconds spent on the questions before the current one. */
    ghost var priorSeconds: nat

    ghost function State(): QuizState
      reads this
    {
      QuizState(questions, currentIndex, score, choices, selectedOption, isAnswered, timeLeft,
                totalSecondsSpent, pending, answers, priorSeconds)
    }

    ghost predicate Valid()
      reads this
    {
      Consistent(State())
    }

    /** Mounting the component: first question, full clock, nothing
        recorded. */
    constructor (questions: seq<Question>)
      requires |questions| > 0
      ensures Valid() && this.questions == questions
      ensures currentIndex == 0 && score == 0 && choices == map[] && selectedOption == None
      ensures !isAnswered && timeLeft == TimeLimit && totalSecondsSpent == 0 && pending == None
    {
      this.questions := questions;
      currentIndex, score, choices := 0, 0, map[];
      selectedOption, isAnswered := None, false;
      timeLeft, totalSecondsSpent := TimeLimit, 0;
      pending := None;
      answers, priorSeconds := [], 0;
    }

    /** The one-second countdown: it runs only while the question is
        unanswered and the clock is above zero. */
    method Tick()
      requires Valid()
      modifies this
      ensures Valid()
      ensures old(!isAnswered && timeLeft > 0) ==>
        timeLeft == old(timeLeft) - 1 && totalSecondsSpent == old(totalSecondsSpent) + 1
      ensures !old(!isAnswered && timeLeft > 0) ==>
        timeLeft == old(timeLeft) && totalSecondsSpent == old(totalSecondsSpent)
      ensures currentIndex == old(currentIndex) && score == old(score) && choices == old(choices)
      ensures selectedOption == old(selectedOption) && isAnswered == old(isAnswered) && pending == old(pending)
    {
      if !isAnswered && timeLeft > 0 {
        timeLeft := timeLeft - 1;
        totalSecondsSpent := totalSecondsSpent + 1;
      }
    }

    /** The effect branch for an unanswered question whose clock reads zero:
        the question is answered with the time-expired marker, no point is
        scored, and the advance is scheduled with the state of this render. */
    method Timeout()
      requires Valid()
      modifies this
      ensures Valid()
      ensures old(timeLeft == 0 && !isAnswered) ==>
        && isAnswered
        && choices == old(choices)[questions[currentIndex].text := TimeExpired]
        && pending == Some(Snapshot(currentIndex, score, old(choices), totalSecondsSpent))
      ensures !old(timeLeft == 0 && !isAnswered) ==>
        isAnswered == old(isAnswered) && choices == old(choices) && pending == old(pending)
      ensures currentIndex == old(currentIndex) && score == old(score) && selectedOption == old(selectedOption)
      ensures timeLeft == old(timeLeft) && totalSecondsSpent == old(totalSecondsSpent)
    {
      if timeLeft == 0 && !isAnswered {
        pending := Some(Snapshot(currentIndex, score, choices, totalSecondsSpent));
        isAnswered := true;
        choices := choices[questions[currentIndex].text := TimeExpired];
        RecordAnswer(questions, answers, Expired);
        answers := answers + [Expired];
      }
    }

    /** `handleOptionClick(index)`: ignored once the question is answered;
        otherwise records the option's text under the question's text,
        scores a point exactly when `index` is the correct one, and schedules
        the advance with the state of this render. */
    method Click(index: nat)
      requires Valid()
      requires index < |questions[currentIndex].options|
      modifies this
      ensures Valid()
      ensures old(isAnswered) ==>
        score == old(score) && choices == old(choices) && selectedOption == old(selectedOption) && pending == old(pending)
      ensures !old(isAnswered) ==>
        && selectedOption == Some(index)
        && choices == old(choices)[questions[currentIndex].text := questions[currentIndex].options[index]]
        && score == old(score) + (if index == questions[currentIndex].correctAnswer then 1 else 0)
        && pending == Some(Snapshot(currentIndex, old(score), old(choices), totalSecondsSpent))
      ensures isAnswered
      ensures currentIndex == old(currentIndex) && timeLeft == old(timeLeft) && totalSecondsSpent == old(totalSecondsSpent)
    {
      if isAnswered {
        return;
      }
      Answer(index);
    }

    /** The part of the click handler past the `isAnswered` guard. */
    method Answer(index: nat)
      requires Valid() && !isAnswered
      requires index < |questions[currentIndex].options|
      modifies this
      ensures Valid()
      ensures isAnswered && selectedOption == Some(index)
      ensures choices == old(choices)[questions[currentIndex].text := questions[currentIndex].options[index]]
      ensures score == old(score) + (if index == questions[currentIndex].correctAnswer then 1 else 0)
      ensures pending == Some(Snapshot(currentIndex, old(score), old(choices), totalSecondsSpent))
      ensures currentIndex == old(currentIndex) && timeLeft == old(timeLeft) && totalSecondsSpent == old(totalSecondsSpent)
    {
      var q := questions[currentIndex];
      AnswerKeepsConsistent(State(), index);
      pending := Some(Snapshot(currentIndex, score, choices, totalSecondsSpent));
      selectedOption := Some(index);
      isAnswered := true;
      choices := choices[q.text := q.options[index]];
      if index == q.correctAnswer {
        score := score + 1;
      }
      answers := answers + [Chose(index)];
    }

    /** The deferred `handleNext`, as written: before the last question it
        moves on and resets the per-question state; on the last question it
        reports the score and choices its closure captured, which do not
        include the final answer. */
    method Advance() returns (finished: Option<FinishReport>)
      requires Valid()
      modifies this
      ensures Valid()
      ensures pending == None && choices == old(choices) && score == old(score)
      ensures totalSecondsSpent == old(totalSecondsSpent)
      ensures old(pending).None? ==>
        finished == None && currentIndex == old(currentIndex) && isAnswered == old(isAnswered)
        && selectedOption == old(selectedOption) && timeLeft == old(timeLeft)
      ensures old(pending).Some? && old(currentIndex) < |questions| - 1 ==>
        && finished == None && currentIndex == old(currentIndex) + 1
        && selectedOption == None && !isAnswered && timeLeft == TimeLimit
      ensures old(pending).Some? && old(currentIndex) == |questions| - 1 ==>
        && currentIndex == old(currentIndex) && isAnswered && selectedOption == old(selectedOption)
        && timeLeft == old(timeLeft)
        && finished == Some(FinishReport(old(pending).value.score, old(pending).value.choices, old(pending).value.seconds))
      ensures finished.Some? ==>
        && finished.value == FinishReport(CountCorrect(questions, answers[..|questions| - 1]),
                                          ChoicesOf(questions, answers[..|questions| - 1]), totalSecondsSpent)
        && finished.value.score <= score <= finished.value.score + 1
    {
      finished := None;
      if pending.None? {
        return;
      }
      var snap := pending.value;
      pending := None;
      if snap.index < |questions| - 1 {
        currentIndex := currentIndex + 1;
        selectedOption := None;
        isAnswered := false;
        timeLeft := TimeLimit;
        priorSeconds := totalSecondsSpent;
      } else {
        finished := Some(FinishReport(snap.score, snap.choices, snap.seconds));
        CountCorrectPrefix(questions, answers, currentIndex);
      }
    }

    /** The intended `handleNext`: identical, except that the last question
        reports the live score and choices, so every question's answer is
        in the report. */
    method AdvanceLive() returns (finished: Option<FinishReport>)
      requires Valid()
      modifies this
      ensures Valid()
      ensures pending == None && choices == old(choices) && score == old(score)
      ensures totalSecondsSpent == old(totalSecondsSpent)
      ensures old(pending).None? ==>
        finished == None && currentIndex == old(currentIndex) && isAnswered == old(isAnswered)
        && selectedOption == old(selectedOption) && timeLeft == old(timeLeft)
      ensures old(pending).Some? && old(currentIndex) < |questions| - 1 ==>
        && finished == None && currentIndex == old(currentIndex) + 1
        && selectedOption == None && !isAnswered && timeLeft == TimeLimit
      ensures old(pending).Some? && old(currentIndex) == |questions| - 1 ==>
        && currentIndex == old(currentIndex) && isAnswered && selectedOption == old(selectedOption)
        && timeLeft == old(timeLeft)
        && finished == Some(FinishReport(score, choices, totalSecondsSpent))
      ensures finished.Some? ==>
        && |answers| == |questions|
        && finished.value == FinishReport(CountCorrect(questions, answers), ChoicesOf(questions, answers), totalSecondsSpent)
        && finished.value.score <= |questions|
        && finished.value.totalSeconds <= TimeLimit * |questions|
        && (DistinctTexts(questions) ==> |finished.value.choices| == |questions|)
    {
      finished := None;
      if pending.None? {
        return;
      }
      var snap := pending.value;
      pending := None;
      if snap.index < |questions| - 1 {
        currentIndex := currentIndex + 1;
        selectedOption := None;
        isAnswered := false;
        timeLeft := TimeLimit;
        priorSeconds := totalSecondsSpent;
      } else {
        finished := Some(FinishReport(score, choices, totalSecondsSpent));
        if DistinctTexts(questions) {
          ChoicesOfSize(questions, answers);
        }
      }
    }
  }

  /** A one-question quiz answered correctly with 25 seconds left: as
      written, the report carries neither the point nor the choice. */
  method CorrectFinalAnswerDropped() returns (report: Option<FinishReport>)
    ensures report == Some(FinishReport(0, map[], 5))
  {
    var quiz := new Quiz([Question(1, "q", ["a", "b"], 0)]);
    quiz.Tick(); quiz.Tick(); quiz.Tick(); quiz.Tick(); quiz.Tick();
    quiz.Click(0);
    report := quiz.Advance();
  }

  /** The same run with the intended advance: one point, one choice, five
      seconds. */
  method CorrectFinalAnswerReported() returns (report: Option<FinishReport>)
    ensures report == Some(FinishReport(1, map["q" := "a"], 5))
  {
    var quiz := new Quiz([Question(1, "q", ["a", "b"], 0)]);
    quiz.Tick(); quiz.Tick(); quiz.Tick(); quiz.Tick(); quiz.Tick();
    quiz.Click(0);
    report := quiz.AdvanceLive();
  }

  /** Lets the clock of a fresh one-question quiz run down to zero. */
  method RunClockDown(q: Question) returns (quiz: Quiz)
    ensures fresh(quiz) && quiz.Valid() && quiz.questions == [q]
    ensures quiz.timeLeft == 0 && quiz.totalSecondsSpent == TimeLimit
    ensures !quiz.isAnswered && quiz.currentIndex == 0 && quiz.score == 0
    ensures quiz.choices == map[] && quiz.pending == None
  {
    quiz := new Quiz([q]);
    var k := 0;
    while k < TimeLimit
      invariant 0 <= k <= TimeLimit
      invariant quiz.Valid() && quiz.questions == [q]
      invariant quiz.timeLeft == TimeLimit - k && quiz.totalSecondsSpent == k
      invariant !quiz.isAnswered && quiz.currentIndex == 0 && quiz.score == 0
      invariant quiz.choices == map[] && quiz.pending == None
      modifies quiz
    {
      quiz.Tick();
      k := k + 1;
    }
  }

  /** A one-question quiz left to time out: as written, the report lacks the
      time-expired entry. */
  method ExpiredFinalAnswerDropped() returns (report: Option<FinishReport>)
    ensures report == Some(FinishReport(0, map[], TimeLimit))
  {
    var quiz := RunClockDown(Question(1, "q", ["a", "b"], 0));
    quiz.Timeout();
    report := quiz.Advance();
  }

  /** The same run with the intended advance records the time-expired
      marker. */
  method ExpiredFinalAnswerReported() returns (report: Option<FinishReport>)
    ensures report == Some(FinishReport(0, map["q" := TimeExpired], TimeLimit))
  {
    var quiz := RunClockDown(Question(1, "q", ["a", "b"], 0));
    quiz.Timeout();
    report := quiz.AdvanceLive();
  }
}
