/** components/QuizPage.tsx: a timed multiple-choice quiz. The page keeps
    the question on screen, the chosen answer per question id, the seconds
    left and whether the quiz is submitted; the score is the rounded
    percentage of questions answered correctly. */
module QuizPage {
  import opened Common
  import opened Text

  /** A question as far as scoring and navigation see it; the wording is display only. */
  datatype Question = Question(id: int, optionCount: nat, correctAnswer: int)

  /** Thirty minutes. */
  const TimeLimit: nat := 1800

  /** The lowest passing score, in percent. */
  const PassMark: int := 70

  /** The five questions the page asks. */
  function Questions(): (qs: seq<Question>)
    ensures |qs| == 5
    ensures forall i :: 0 <= i < |qs| ==> qs[i].id == i + 1 && 0 <= qs[i].correctAnswer < qs[i].optionCount
  {
    [Question(1, 4, 1), Question(2, 4, 1), Question(3, 4, 1), Question(4, 4, 2), Question(5, 4, 1)]
  }

  // ---------------------------------------------------------------------
  // The clock display

  /** `formatTime`: whole minutes, a colon, and the remaining seconds padded to two digits. */
  function FormatTime(seconds: nat): string {
    NatToString(seconds / 60) + ":" + PadStart2(NatToString(seconds % 60))
  }

  /** Reads a `minutes:seconds` display back as a number of seconds. */
  function ParseTime(t: string): Option<nat> {
    var colon := IndexOf(t, ':');
    if colon < |t| && IsDigits(t[..colon]) && IsDigits(t[colon + 1..]) then
      Some(60 * ParseDigits(t[..colon]) + ParseDigits(t[colon + 1..]))
    else None
  }

  /** The seconds field reads back as the seconds. */
  lemma {:induction false} ParsePaddedSeconds(secs: nat)
    requires secs < 60
    ensures IsDigits(PadStart2(NatToString(secs)))
    ensures ParseDigits(PadStart2(NatToString(secs))) == secs
  {
    ParseNatToString(secs);
    var d := NatToString(secs);
    if secs < 10 {
      var p := PadStart2(d);
      assert p == ['0'] + d;
      assert p[..1] == ['0'];
      assert ParseDigits(['0']) == 0 by {
        assert ['0'][..0] == [];
      }
      assert d == [d[0]];
    }
  }

  /** The display determines the time: reading it back gives the seconds shown. */
  lemma {:induction false} FormatTimeRoundTrip(seconds: nat)
    ensures ParseTime(FormatTime(seconds)) == Some(seconds)
  {
    ParseNatToString(seconds / 60);
    ParsePaddedSeconds(seconds % 60);
    FormatTimeSplit(seconds);
  }

  /** The display splits at its first colon into the minutes and the padded seconds. */
  lemma FormatTimeSplit(seconds: nat)
    ensures var mins, t := NatToString(seconds / 60), FormatTime(seconds);
      && IndexOf(t, ':') == |mins|
      && t[..|mins|] == mins
      && t[|mins| + 1..] == PadStart2(NatToString(seconds % 60))
  {
    var mins, secs := NatToString(seconds / 60), PadStart2(NatToString(seconds % 60));
    var t := FormatTime(seconds);
    assert t == mins + ":" + secs;
    assert t[..|mins|] == mins;
    assert t[|mins| + 1..] == secs;
    assert t[|mins|] == ':';
    assert forall k :: 0 <= k < |mins| ==> t[k] == mins[k] && t[k] != ':';
  }

  /** Two different times never show the same text. */
  lemma FormatTimeInjective(a: nat, b: nat)
    requires FormatTime(a) == FormatTime(b)
    ensures a == b
  {
    FormatTimeRoundTrip(a);
    FormatTimeRoundTrip(b);
  }

  /** The display at the start, after a minute and five seconds, and at the end. */
  lemma FormatTimeExamples()
    ensures FormatTime(TimeLimit) == "30:00"
    ensures FormatTime(65) == "1:05"
    ensures FormatTime(0) == "0:00"
  {
  }

  // ---------------------------------------------------------------------
  // Answers and score

  /** `selectedAnswers[question.id] === question.correctAnswer`; an unanswered question is wrong. */
  predicate IsCorrect(answers: map<int, int>, q: Question) {
    q.id in answers && answers[q.id] == q.correctAnswer
  }

  /** The number of questions answered correctly. */
  function CorrectCount(qs: seq<Question>, answers: map<int, int>): nat {
    Count(qs, (q: Question) => IsCorrect(answers, q))
  }

  /** `calculateScore`: the percentage of correct answers, rounded half up. */
  function Score(qs: seq<Question>, answers: map<int, int>): int
    requires |qs| > 0
  {
    RoundDiv(100 * CorrectCount(qs, answers), |qs|)
  }

  /** The score is a percentage: 0 with nothing correct, 100 with everything correct. */
  lemma ScoreBounds(qs: seq<Question>, answers: map<int, int>)
    requires |qs| > 0
    ensures 0 <= Score(qs, answers) <= 100
    ensures CorrectCount(qs, answers) == 0 ==> Score(qs, answers) == 0
    ensures CorrectCount(qs, answers) == |qs| ==> Score(qs, answers) == 100
  {
    var n, c := |qs|, CorrectCount(qs, answers);
    RoundDivBounds(100 * c, n, 100 * n);
    RoundDivExact(0, n);
    RoundDivExact(100, n);
  }

  /** More correct answers never lower the score. */
  lemma ScoreMonotone(qs: seq<Question>, a: map<int, int>, b: map<int, int>)
    requires |qs| > 0 && CorrectCount(qs, a) <= CorrectCount(qs, b)
    ensures Score(qs, a) <= Score(qs, b)
  {
    RoundDivMonotone(100 * CorrectCount(qs, a), 100 * CorrectCount(qs, b), |qs|);
  }

  /** The result badge: "Passed" iff the score reaches the pass mark. */
  predicate Passed(score: int) {
    score >= PassMark
  }

  /** With the page's five questions each is worth 20 points, so passing needs four correct
      answers and a full score needs all five. */
  lemma PassingTheFiveQuestions(answers: map<int, int>)
    ensures Score(Questions(), answers) == 20 * CorrectCount(Questions(), answers)
    ensures Passed(Score(Questions(), answers)) <==> CorrectCount(Questions(), answers) >= 4
    ensures Score(Questions(), answers) == 100 <==> CorrectCount(Questions(), answers) == 5
  {
    var c := CorrectCount(Questions(), answers);
    var r := Score(Questions(), answers);
    assert 10 * r <= 200 * c + 5 < 10 * r + 10;
  }

  /** `getAnsweredCount`: how many question ids have an answer. */
  function AnsweredCount(answers: map<int, int>): nat {
    |answers.Keys|
  }

  /** `handleAnswerSelect`: set or replace the answer to one question. */
  function SelectAnswer(answers: map<int, int>, questionId: int, answer: int): map<int, int> {
    answers[questionId := answer]
  }

  /** Selecting an answer replaces only that question's entry, and the
      answered count grows exactly when the question was unanswered. */
  lemma SelectAnswerChangesOneEntry(answers: map<int, int>, questionId: int, answer: int)
    ensures var r := SelectAnswer(answers, questionId, answer);
      && questionId in r && r[questionId] == answer
      && (forall q :: q != questionId ==> (q in r <==> q in answers) && (q in r ==> r[q] == answers[q]))
      && AnsweredCount(r) == AnsweredCount(answers) + (if questionId in answers then 0 else 1)
  {
    var r := SelectAnswer(answers, questionId, answer);
    if questionId in answers {
      assert r.Keys == answers.Keys;
    } else {
      assert r.Keys == answers.Keys + {questionId};
    }
  }

  // ---------------------------------------------------------------------
  // The page state

  datatype QuizState = QuizState(
    current: int,
    answers: map<int, int>,
    timeLeft: nat,
    isSubmitted: bool,
    showResults: bool)

  function InitialState(): QuizState {
    QuizState(0, map[], TimeLimit, false, false)
  }

  /** The states the page reaches: the question on screen is one of the `n`
      questions, and the results show exactly once submitted. */
  predicate Reachable(s: QuizState, n: nat) {
    0 <= s.current < n && s.showResults == s.isSubmitted
  }

  /** "Previous": one question back, never below the first. */
  function Previous(s: QuizState): QuizState {
    s.(current := if s.current - 1 > 0 then s.current - 1 else 0)
  }

  /** "Next", which is offered only before the last question (the last shows "Submit" instead). */
  function Next(s: QuizState, n: nat): QuizState {
    if s.current < n - 1 then s.(current := s.current + 1) else s
  }

  /** A button of the question grid. */
  function Jump(s: QuizState, index: int): QuizState {
    s.(current := index)
  }

  /** `handleSubmit`. */
  function Submit(s: QuizState): QuizState {
    s.(isSubmitted := true, showResults := true)
  }

  /** The "Submit" button is enabled once something is answered; the timeout submits regardless. */
  predicate SubmitEnabled(s: QuizState) {
    AnsweredCount(s.answers) != 0
  }

  /** The "Submit" button starts disabled, is enabled exactly when some
      answer is recorded, and stays enabled once an answer is selected. */
  lemma SubmitButton(s: QuizState, questionId: int, answer: int)
    ensures !SubmitEnabled(InitialState())
    ensures SubmitEnabled(s) <==> s.answers != map[]
    ensures SubmitEnabled(s.(answers := SelectAnswer(s.answers, questionId, answer)))
  {
    if |s.answers.Keys| == 0 {
      assert s.answers == map[];
    }
    assert questionId in SelectAnswer(s.answers, questionId, answer).Keys;
  }

  /** One run of the countdown effect: a second passes while time is left and
      the quiz is open; at zero the quiz is submitted. */
  function Tick(s: QuizState): QuizState {
    if s.timeLeft > 0 && !s.isSubmitted then s.(timeLeft := s.timeLeft - 1)
    else if s.timeLeft == 0 then Submit(s)
    else s
  }

  /** `k` runs of the countdown effect. */
  function Ticks(s: QuizState, k: nat): QuizState
    decreases k
  {
    if k == 0 then s else Ticks(Tick(s), k - 1)
  }

  /** Navigation keeps the question on screen in range, and the other steps keep the state reachable. */
  lemma StepsKeepReachable(s: QuizState, n: nat, index: int, questionId: int, answer: int)
    requires Reachable(s, n)
    ensures Reachable(Previous(s), n) && Reachable(Next(s, n), n)
    ensures 0 <= index < n ==> Reachable(Jump(s, index), n)
    ensures Reachable(Submit(s), n) && Reachable(Tick(s), n)
    ensures Reachable(s.(answers := SelectAnswer(s.answers, questionId, answer)), n)
  {
  }

  /** A tick on an open quiz with time left takes exactly one second off and changes nothing else. */
  lemma TickCountsDown(s: QuizState)
    requires s.timeLeft > 0 && !s.isSubmitted
    ensures Tick(s).timeLeft == s.timeLeft - 1
    ensures Tick(s) == s.(timeLeft := s.timeLeft - 1)
  {
  }

  /** Left open, the quiz submits itself when the time runs out: after one
      tick per second left, plus the one that sees zero. */
  lemma {:induction false} TimeoutSubmits(s: QuizState)
    requires !s.isSubmitted
    decreases s.timeLeft
    ensures var t := Ticks(s, s.timeLeft + 1);
      t.isSubmitted && t.showResults && t.timeLeft == 0 && t.answers == s.answers && t.current == s.current
  {
    if s.timeLeft > 0 {
      TimeoutSubmits(Tick(s));
    }
  }

  /** Once submitted, the countdown stops. */
  lemma SubmittedClockStops(s: QuizState, k: nat)
    requires s.isSubmitted && s.showResults
    ensures Ticks(s, k).timeLeft == s.timeLeft && Ticks(s, k).isSubmitted
  {
    if k > 0 {
      SubmittedClockStops(Tick(s), k - 1);
    }
  }

  class Quiz {
    const questions: seq<Question>
    var currentQuestion: int
    var selectedAnswers: map<int, int>
    var timeLeft: nat
    var isSubmitted: bool
    var showResults: bool

    function State(): QuizState
      reads this
    {
      QuizState(currentQuestion, selectedAnswers, timeLeft, isSubmitted, showResults)
    }

    predicate Valid()
      reads this
    {
      Reachable(State(), |questions|)
    }

    constructor()
      ensures questions == Questions() && State() == InitialState() && Valid()
    {
      questions := Questions();
      currentQuestion := 0;
      selectedAnswers := map[];
      timeLeft := TimeLimit;
      isSubmitted := false;
      showResults := false;
    }

    method HandleAnswerSelect(questionId: int, answer: int)
      requires Valid()
      modifies this
      ensures Valid()
      ensures State() == old(State()).(answers := SelectAnswer(old(selectedAnswers), questionId, answer))
    {
      selectedAnswers := selectedAnswers[questionId := answer];
    }

    method GoPrevious()
      requires Valid()
      modifies this
      ensures Valid() && State() == Previous(old(State()))
    {
      currentQuestion := if currentQuestion - 1 > 0 then currentQuestion - 1 else 0;
    }

    method GoNext()
      requires Valid()
      modifies this
      ensures Valid() && State() == Next(old(State()), |questions|)
    {
      if currentQuestion < |questions| - 1 {
        currentQuestion := currentQuestion + 1;
      }
    }

    /** A grid button; the grid has one button per question. */
    method GoTo(index: int)
      requires Valid() && 0 <= index < |questions|
      modifies this
      ensures Valid() && State() == Jump(old(State()), index)
    {
      currentQuestion := index;
    }

    method HandleSubmit()
      requires Valid()
      modifies this
      ensures Valid() && State() == Submit(old(State()))
    {
      isSubmitted := true;
      showResults := true;
    }

    /** One run of the countdown effect. */
    method CountdownEffect()
      requires Valid()
      modifies this
      ensures Valid() && State() == Tick(old(State()))
    {
      if timeLeft > 0 && !isSubmitted {
        timeLeft := timeLeft - 1;
      } else if timeLeft == 0 {
        HandleSubmit();
      }
    }

    /** `calculateScore`: count the correct answers, then round the percentage. */
    method CalculateScore() returns (score: int)
      requires |questions| > 0
      ensures score == Score(questions, selectedAnswers)
    {
      var correct := 0;
      var answers := selectedAnswers;
      var p := (q: Question) => IsCorrect(answers, q);
      for i := 0 to |questions|
        invariant correct == Count(questions[..i], p)
      {
        FilterAppend(questions[..i], questions[i], p);
        assert questions[..i + 1] == questions[..i] + [questions[i]];
        if questions[i].id in answers && answers[questions[i].id] == questions[i].correctAnswer {
          correct := correct + 1;
        }
      }
      assert questions[..|questions|] == questions;
      score := RoundDiv(100 * correct, |questions|);
    }
  }
}
