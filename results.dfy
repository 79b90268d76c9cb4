/** The results screen of components/Results.tsx: the rounded percentage,
    the feedback and icon bands, the submitted record and the submission
    status. */
module ResultsComponent {
  import opened Types

  /** `Math.round(score / total * 100)` in exact arithmetic: the integer
      nearest to 100 * score / total, with halves rounded up. */
  function Percentage(score: int, total: nat): (p: int)
    requires total > 0
    ensures 2 * total * p <= 200 * score + total < 2 * total * (p + 1)
    ensures 0 <= score <= total ==> 0 <= p <= 100
  {
    var p := (200 * score + total) / (2 * total);
    PercentageBounds(score, total, p);
    p
  }

  lemma PercentageBounds(score: int, total: nat, p: int)
    requires total > 0 && p == (200 * score + total) / (2 * total)
    ensures 2 * total * p <= 200 * score + total < 2 * total * (p + 1)
    ensures 0 <= score <= total ==> 0 <= p <= 100
  {
    var d := 2 * total;
    var n := 200 * score + total;
    FloorDivBounds(n, d);
    if 0 <= score <= total {
      if p < 0 { ScaleMonotone(d, p, -1); }
      if p > 100 { ScaleMonotone(d, 101, p); }
    }
  }

  lemma FloorDivBounds(n: int, d: int)
    requires d > 0
    ensures d * (n / d) <= n < d * (n / d + 1)
  {
    assert n == d * (n / d) + n % d;
  }

  lemma ScaleMonotone(d: int, a: int, b: int)
    requires d > 0 && a <= b
    ensures d * a <= d * b
  {
    assert d * b - d * a == d * (b - a);
  }

  const ExpertFeedback: string := "أنت خبير استراتيجي حقيقي!"
  const GreatFeedback: string := "رائع! لديك رؤية تطويرية عميقة."
  const GoodFeedback: string := "أداء جيد، استمر في النمو."
  const StartFeedback: string := "بداية موفقة، التعلم رحلة مستمرة."

  /** `getFeedback()`: the first band whose threshold the percentage
      reaches. */
  function Feedback(percentage: int): (f: string)
    ensures f == FeedbackByLevel[Level(percentage)]
  {
    if percentage >= 90 then ExpertFeedback
    else if percentage >= 70 then GreatFeedback
    else if percentage >= 50 then GoodFeedback
    else StartFeedback
  }

  /** `getRankIcon()`: an icon per band, with the same thresholds. */
  function ResultIcon(percentage: int): (icon: string)
    ensures icon == IconByLevel[Level(percentage)]
  {
    if percentage >= 90 then "💎"
    else if percentage >= 70 then "🏆"
    else if percentage >= 50 then "🥇"
    else "💡"
  }

  /** The band as the number of thresholds reached, from 0 (below 50) to 3
      (90 and above). */
  function Level(percentage: int): (l: nat)
    ensures l <= 3
  {
    (if percentage >= 50 then 1 else 0) + (if percentage >= 70 then 1 else 0) + (if percentage >= 90 then 1 else 0)
  }

  const FeedbackByLevel: seq<string> := [StartFeedback, GoodFeedback, GreatFeedback, ExpertFeedback]
  const IconByLevel: seq<string> := ["💡", "🥇", "🏆", "💎"]

  /** Both chains pick the entry of the band that counting thresholds
      gives, so the icon and the feedback always belong to the same band,
      and the band never falls as the percentage rises. */
  lemma FeedbackAndIconShareBand(p: int, q: int)
    ensures Feedback(p) == FeedbackByLevel[Level(p)]
    ensures ResultIcon(p) == IconByLevel[Level(p)]
    ensures Feedback(p) == Feedback(q) <==> ResultIcon(p) == ResultIcon(q)
    ensures p <= q ==> Level(p) <= Level(q)
  {
  }

  /** The four messages differ, so exactly one applies to a percentage. */
  lemma FeedbackExclusive(p: int)
    ensures forall l :: 0 <= l < 4 ==> (Feedback(p) == FeedbackByLevel[l] <==> l == Level(p))
  {
  }

  const NameField: string := "المتسابق"
  const ScoreField: string := "النقاط"
  const TimeField: string := "الوقت"

  datatype JsonValue = JsonString(s: string) | JsonNumber(n: int)

  /** `{ name, ...choices, score, time }`: later keys override earlier ones,
      so a choice keyed like the name field overrides the name, and the
      score and time fields override any choice. */
  function Payload(stats: UserStats): (body: map<string, JsonValue>)
    ensures body.Keys == stats.choices.Keys + {NameField, ScoreField, TimeField}
    ensures body[ScoreField] == JsonNumber(stats.score)
    ensures body[TimeField] == JsonNumber(stats.totalTime)
    ensures body[NameField] == if NameField in stats.choices then JsonString(stats.choices[NameField]) else JsonString(stats.name)
    ensures forall k :: k in stats.choices && k != ScoreField && k != TimeField ==> body[k] == JsonString(stats.choices[k])
  {
    var answers := map k | k in stats.choices :: JsonString(stats.choices[k]);
    map[NameField := JsonString(stats.name)] + answers + map[ScoreField := JsonNumber(stats.score), TimeField := JsonNumber(stats.totalTime)]
  }

  datatype SubmitStatus = Idle | Success | Error

  /** The status line under the score: a spinner while submitting, then
      "recorded" whatever the outcome. */
  datatype StatusLine = Saving | Recorded

  class Results {
    const stats: UserStats
    var isSubmitting: bool
    var submitStatus: SubmitStatus

    constructor (stats: UserStats)
      ensures this.stats == stats && isSubmitting && submitStatus == Idle
    {
      this.stats := stats;
      isSubmitting, submitStatus := true, Idle;
    }

    /** `submitResults` once the POST settles; `threw` says whether `fetch`
        threw. Returns the body that was posted. */
    method SubmitResults(threw: bool) returns (body: map<string, JsonValue>)
      modifies this
      ensures body == Payload(stats)
      ensures !isSubmitting
      ensures submitStatus == (if threw then Error else Success)
    {
      body := Payload(stats);
      if threw {
        submitStatus := Error;
      } else {
        submitStatus := Success;
      }
      isSubmitting := false;
    }

    function Status(): (line: StatusLine)
      reads this
      ensures line == Saving <==> isSubmitting
    {
      if isSubmitting then Saving else Recorded
    }
  }

  /** Entering the results screen and settling the submission: the status
      is the outcome of the request, and the line shown is "recorded" even
      when the request threw. */
  method ShowResults(stats: UserStats, threw: bool) returns (status: SubmitStatus, line: StatusLine)
    ensures status == Success <==> !threw
    ensures status != Idle
    ensures line == Recorded
  {
    var view := new Results(stats);
    var _ := view.SubmitResults(threw);
    status, line := view.submitStatus, view.Status();
  }
}
