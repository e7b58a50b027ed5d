/** The multiple-choice quiz of src/components/QuizSection.tsx: one
    question at a time, an answer checked before moving on, and a final
    score with a feedback message. */
module Quiz {
  import opened Wrappers

  datatype Question = Question(question: string, options: seq<string>, correctAnswer: int, explanation: string)

  datatype QuizState = QuizState(
    currentQuestion: nat, selectedOption: Option<int>, showAnswer: bool,
    correctAnswers: nat, quizCompleted: bool)

  /** The initial state, to which `resetQuiz` also returns. */
  const Start: QuizState := QuizState(0, None, false, 0, false)

  /** How many questions have been answered: the earlier ones, and the
      current one once its answer is shown. */
  function Answered(s: QuizState): nat {
    s.currentQuestion + if s.showAnswer then 1 else 0
  }

  /** The states the component can be in for a non-empty question list. */
  predicate Valid(qs: seq<Question>, s: QuizState) {
    && s.currentQuestion < |qs|
    && s.correctAnswers <= Answered(s)
    && (s.showAnswer ==> s.selectedOption.Some?)
    && (s.quizCompleted ==> s.showAnswer && s.currentQuestion == |qs| - 1)
  }

  /** `handleOptionSelect`: ignored once the answer is shown. */
  function SelectOption(s: QuizState, index: int): (r: QuizState)
    ensures s.showAnswer ==> r == s
    ensures !s.showAnswer ==> r == s.(selectedOption := Some(index))
  {
    if s.showAnswer then s else s.(selectedOption := Some(index))
  }

  /** Whether an option is correct for question `k`. */
  predicate IsCorrect(qs: seq<Question>, k: nat, option: int)
    requires k < |qs|
  {
    option == qs[k].correctAnswer
  }

  /** `checkAnswer`: with nothing selected only a warning is shown (see
      `WarnsNoSelection`); otherwise the answer is revealed and counted when
      correct. */
  function CheckAnswer(qs: seq<Question>, s: QuizState): (r: QuizState)
    requires s.currentQuestion < |qs|
    ensures s.selectedOption.None? ==> r == s
    ensures s.selectedOption.Some? ==>
      (&& r.showAnswer && r.currentQuestion == s.currentQuestion
       && r.selectedOption == s.selectedOption && r.quizCompleted == s.quizCompleted
       && r.correctAnswers == s.correctAnswers + (if IsCorrect(qs, s.currentQuestion, s.selectedOption.value) then 1 else 0))
  {
    if s.selectedOption.None? then s
    else s.(showAnswer := true,
            correctAnswers := s.correctAnswers + if s.selectedOption.value == qs[s.currentQuestion].correctAnswer then 1 else 0)
  }

  /** The "select an option" toast of `checkAnswer`. */
  predicate WarnsNoSelection(s: QuizState) {
    s.selectedOption.None?
  }

  /** `nextQuestion`: the next question with a fresh selection, or, after
      the last one, the completed view. */
  function NextQuestion(qs: seq<Question>, s: QuizState): (r: QuizState)
    ensures s.currentQuestion + 1 < |qs| ==>
      r == s.(currentQuestion := s.currentQuestion + 1, selectedOption := None, showAnswer := false)
    ensures s.currentQuestion + 1 >= |qs| ==> r == s.(quizCompleted := true)
  {
    if s.currentQuestion < |qs| - 1 then
      s.(currentQuestion := s.currentQuestion + 1, selectedOption := None, showAnswer := false)
    else s.(quizCompleted := true)
  }

  /** What the user can click: an option of the current question, the
      footer button, the restart button of the completed view. */
  datatype QuizEvent = ChooseOption(index: int) | PressFooter | PressRestart

  /** One click on what is on screen; a button that is not rendered does
      nothing. The footer checks the answer while it is hidden and moves on
      once it is shown. */
  function Step(qs: seq<Question>, s: QuizState, e: QuizEvent): (r: QuizState)
    requires s.currentQuestion < |qs|
    ensures !e.PressRestart? ==> s.currentQuestion <= r.currentQuestion <= s.currentQuestion + 1
    ensures !e.PressRestart? ==> s.correctAnswers <= r.correctAnswers <= s.correctAnswers + 1
  {
    if s.quizCompleted then
      if e.PressRestart? then Start else s
    else match e
      case ChooseOption(i) =>
        if 0 <= i < |qs[s.currentQuestion].options| then SelectOption(s, i) else s
      case PressFooter =>
        if !s.showAnswer then CheckAnswer(qs, s) else NextQuestion(qs, s)
      case PressRestart => s
  }

  lemma StartValid(qs: seq<Question>)
    requires |qs| > 0
    ensures Valid(qs, Start)
  {
  }

  /** Every click keeps the state valid: the question index stays in
      range, the count of correct answers never exceeds the answers given,
      and the quiz completes only on the last question with its answer
      shown. */
  lemma StepKeepsValid(qs: seq<Question>, s: QuizState, e: QuizEvent)
    requires Valid(qs, s)
    ensures Valid(qs, Step(qs, s, e))
  {
  }

  function Run(qs: seq<Question>, s: QuizState, events: seq<QuizEvent>): (r: QuizState)
    requires Valid(qs, s)
    ensures Valid(qs, r)
    decreases |events|
  {
    StepKeepsValid(qs, s, if events == [] then PressRestart else events[0]);
    if events == [] then s else Run(qs, Step(qs, s, events[0]), events[1..])
  }

  /** After any sequence of clicks a completed quiz has answered every
      question; validity itself is `Run`'s own postcondition. */
  lemma {:induction false} RunKeepsValid(qs: seq<Question>, s: QuizState, events: seq<QuizEvent>)
    requires Valid(qs, s)
    ensures Run(qs, s, events).quizCompleted ==>
      Answered(Run(qs, s, events)) == |qs| && Run(qs, s, events).correctAnswers <= |qs|
    decreases |events|
  {
    if events != [] {
      StepKeepsValid(qs, s, events[0]);
      RunKeepsValid(qs, Step(qs, s, events[0]), events[1..]);
    }
  }

  /** `getScore`: `Math.round(correct / total * 100)` in exact arithmetic,
      ties rounded up. */
  function Score(correct: nat, total: nat): (r: int)
    requires total > 0
    ensures 0 <= r
    ensures correct <= total ==> r <= 100
  {
    var x, d := 200 * correct + total, 2 * total;
    QuotientAtLeast(x, d, 0);
    if correct <= total then
      QuotientAtMost(x, d, 100);
      x / d
    else x / d
  }

  /** The score is the percentage rounded to the nearest integer, a half
      rounded up: r - 1/2 <= 100 * correct / total < r + 1/2. */
  lemma ScoreIsRoundedPercentage(correct: nat, total: nat)
    requires total > 0
    ensures var r := Score(correct, total);
      2 * total * r - total <= 200 * correct < 2 * total * r + total
  {
    var x, d := 200 * correct + total, 2 * total;
    assert x == d * (x / d) + x % d && 0 <= x % d < d;
  }

  lemma MulMonotone(a: nat, b: int, c: int)
    requires b <= c
    ensures a * b <= a * c
  {
  }

  /** A quotient is at most `b` when the dividend is below `d * (b + 1)`. */
  lemma QuotientAtMost(x: int, d: int, b: int)
    requires d > 0 && x < d * (b + 1)
    ensures x / d <= b
  {
    var q := x / d;
    assert d * q <= x;
    if q > b {
      MulMonotone(d, b + 1, q);
    }
  }

  /** A quotient is at least `b` when the dividend is at least `d * b`. */
  lemma QuotientAtLeast(x: int, d: int, b: int)
    requires d > 0 && d * b <= x
    ensures b <= x / d
  {
    var q := x / d;
    assert x < d * q + d == d * (q + 1);
    if q < b {
      MulMonotone(d, q + 1, b);
    }
  }

  /** A score lies between 0 and 100 when at most every question was
      answered correctly; all correct is 100, none is 0. */
  lemma ScoreBounds(correct: nat, total: nat)
    requires 0 < total && correct <= total
    ensures 0 <= Score(correct, total) <= 100
    ensures correct == total ==> Score(correct, total) == 100
    ensures correct == 0 ==> Score(correct, total) == 0
  {
    var x, d := 200 * correct + total, 2 * total;
    if correct == total {
      QuotientAtLeast(x, d, 100);
    }
    if correct == 0 {
      QuotientAtMost(x, d, 0);
    }
  }

  /** More correct answers never lower the score. */
  lemma ScoreMonotone(c1: nat, c2: nat, total: nat)
    requires 0 < total && c1 <= c2
    ensures Score(c1, total) <= Score(c2, total)
  {
    var n1, n2, d := 200 * c1 + total, 200 * c2 + total, 2 * total;
    assert d * (n1 / d) <= n1;
    QuotientAtLeast(n2, d, n1 / d);
  }

  /** The four feedback messages of `getFeedback`, from best to worst. */
  datatype Feedback = Excellent | VeryGood | GoodStart | KeepStudying

  function FeedbackFor(score: int): (f: Feedback)
    ensures f == Excellent <==> score >= 90
    ensures f == KeepStudying <==> score < 60
  {
    if score >= 90 then Excellent
    else if score >= 75 then VeryGood
    else if score >= 60 then GoodStart
    else KeepStudying
  }

  function Message(f: Feedback): string {
    match f
    case Excellent => "Excelente! Você domina este tópico."
    case VeryGood => "Muito bom! Você compreende bem o assunto."
    case GoodStart => "Bom! Você está no caminho certo."
    case KeepStudying => "Continue estudando! Este tópico precisa de mais atenção."
  }

  function Rank(f: Feedback): nat {
    match f
    case Excellent => 3
    case VeryGood => 2
    case GoodStart => 1
    case KeepStudying => 0
  }

  /** Each message belongs to one band of scores, the bands in order. */
  lemma FeedbackBands(score: int)
    ensures FeedbackFor(score) == Excellent <==> score >= 90
    ensures FeedbackFor(score) == VeryGood <==> 75 <= score < 90
    ensures FeedbackFor(score) == GoodStart <==> 60 <= score < 75
    ensures FeedbackFor(score) == KeepStudying <==> score < 60
  {
  }

  /** A higher score never gets a worse message. */
  lemma FeedbackMonotone(a: int, b: int)
    requires a <= b
    ensures Rank(FeedbackFor(a)) <= Rank(FeedbackFor(b))
  {
  }

  /** The colour of the result bar. */
  datatype BarColor = Green | Amber | Red

  function BarColorFor(score: int): BarColor {
    if score >= 75 then Green else if score >= 60 then Amber else Red
  }

  /** The bar is green for the two best messages, amber for the third and
      red for the last. */
  lemma BarMatchesFeedback(score: int)
    ensures BarColorFor(score) == Green <==> FeedbackFor(score) in {Excellent, VeryGood}
    ensures BarColorFor(score) == Amber <==> FeedbackFor(score) == GoodStart
    ensures BarColorFor(score) == Red <==> FeedbackFor(score) == KeepStudying
  {
  }

  /** The component. */
  class QuizSection {
    const questions: seq<Question>
    var currentQuestion: nat
    var selectedOption: Option<int>
    var showAnswer: bool
    var correctAnswers: nat
    var quizCompleted: bool

    function State(): QuizState
      reads this
    {
      QuizState(currentQuestion, selectedOption, showAnswer, correctAnswers, quizCompleted)
    }

    predicate ValidState()
      reads this
    {
      Valid(questions, State())
    }

    /** Rendering reads the current question, so the list is not empty. */
    constructor (questions: seq<Question>)
      requires |questions| > 0
      ensures this.questions == questions
      ensures State() == Start && ValidState()
    {
      this.questions := questions;
      currentQuestion := 0;
      selectedOption := None;
      showAnswer := false;
      correctAnswers := 0;
      quizCompleted := false;
    }

    method SetState(s: QuizState)
      modifies this
      ensures State() == s
    {
      currentQuestion, selectedOption, showAnswer := s.currentQuestion, s.selectedOption, s.showAnswer;
      correctAnswers, quizCompleted := s.correctAnswers, s.quizCompleted;
    }

    method HandleOptionSelect(index: int)
      modifies this
      ensures State() == SelectOption(old(State()), index)
    {
      if !showAnswer {
        selectedOption := Some(index);
      }
    }

    /** `checkAnswer`; `warned` is the toast for a missing selection. */
    method CheckAnswerClick() returns (warned: bool)
      requires ValidState()
      modifies this
      ensures State() == CheckAnswer(questions, old(State()))
      ensures warned == WarnsNoSelection(old(State()))
    {
      warned := selectedOption.None?;
      if !warned {
        showAnswer := true;
        if selectedOption.value == questions[currentQuestion].correctAnswer {
          correctAnswers := correctAnswers + 1;
        }
      }
    }

    method NextQuestionClick()
      modifies this
      ensures State() == NextQuestion(questions, old(State()))
    {
      if currentQuestion < |questions| - 1 {
        currentQuestion := currentQuestion + 1;
        selectedOption := None;
        showAnswer := false;
      } else {
        quizCompleted := true;
      }
    }

    /** `resetQuiz` */
    method ResetQuiz()
      modifies this
      ensures State() == Start
    {
      SetState(Start);
    }

    /** The footer button: `checkAnswer` while the answer is hidden,
        `nextQuestion` once it is shown. */
    method FooterClick() returns (warned: bool)
      requires ValidState() && !quizCompleted
      modifies this
      ensures ValidState()
      ensures State() == Step(questions, old(State()), PressFooter)
    {
      StepKeepsValid(questions, State(), PressFooter);
      if !showAnswer {
        warned := CheckAnswerClick();
      } else {
        warned := false;
        NextQuestionClick();
      }
    }

    /** The score and message of the completed view. */
    method Result() returns (score: int, feedback: Feedback)
      requires ValidState() && quizCompleted
      ensures 0 <= score <= 100
      ensures score == Score(correctAnswers, |questions|)
      ensures feedback == FeedbackFor(score)
    {
      ScoreBounds(correctAnswers, |questions|);
      score := Score(correctAnswers, |questions|);
      feedback := FeedbackFor(score);
    }
  }
}
