/**
 * The true/false quiz: one answer, given once, compared with the quiz's
 * correct answer, which may be missing.
 */
module TrueFalseQuiz {
  import opened QuizParse
  import opened Common

  /** `answer === quiz.correctAnswer`: no answer (`null`) never equals a missing one (`undefined`). */
  function IsCorrect(answer: Option<bool>, correctAnswer: Option<bool>): bool {
    answer.Some? && answer == correctAnswer
  }

  /** With a correct answer known, exactly one of the two answers is right; with none, neither is, and no answer never is. */
  lemma ExactlyOneAnswerRight(correctAnswer: Option<bool>)
    ensures correctAnswer.Some? ==> IsCorrect(Some(true), correctAnswer) != IsCorrect(Some(false), correctAnswer)
    ensures correctAnswer.Some? ==> IsCorrect(Some(correctAnswer.value), correctAnswer)
    ensures correctAnswer.None? ==> !IsCorrect(Some(true), correctAnswer) && !IsCorrect(Some(false), correctAnswer)
    ensures !IsCorrect(None, correctAnswer)
  {
    if correctAnswer.Some? {
      assert IsCorrect(Some(true), correctAnswer) == correctAnswer.value;
      assert IsCorrect(Some(false), correctAnswer) == !correctAnswer.value;
    }
  }

  /** The verdict line: for a wrong answer it states the proposition's truth value, a missing one read as false. */
  function Feedback(isCorrect: bool, correctAnswer: Option<bool>): (r: string)
    ensures isCorrect ==> r == "回答正确！"
    ensures !isCorrect && correctAnswer == Some(true) ==> r == "回答错误。该命题是正确的。"
    ensures !isCorrect && correctAnswer != Some(true) ==> r == "回答错误。该命题是错误的。"
  {
    if isCorrect then "回答正确！"
    else "回答错误。该命题是" + (if correctAnswer == Some(true) then "正确" else "错误") + "的。"
  }

  /** A wrong answer to a proposition is told the value it did not give. */
  lemma WrongAnswerToldOpposite(answer: bool, correct: bool)
    requires !IsCorrect(Some(answer), Some(correct))
    ensures Feedback(false, Some(correct)) ==
      if answer then "回答错误。该命题是错误的。" else "回答错误。该命题是正确的。"
  {
  }

  /** The component's state: the answer given, and whether it is revealed. */
  class TrueFalse {
    const quiz: ParsedQuiz
    var answer: Option<bool>
    var revealed: bool

    /** An answer is shown exactly when one was given. */
    predicate Valid()
      reads this
    {
      revealed <==> answer.Some?
    }

    constructor(quiz: ParsedQuiz)
      ensures this.quiz == quiz && answer == None && !revealed && Valid()
    {
      this.quiz := quiz;
      answer := None;
      revealed := false;
    }

    /** `handleAnswer`: the first answer is kept and revealed; later ones are ignored. */
    method HandleAnswer(value: bool)
      requires Valid()
      modifies this
      ensures Valid() && revealed
      ensures old(revealed) ==> answer == old(answer)
      ensures !old(revealed) ==> answer == Some(value)
    {
      if revealed {
        return;
      }
      answer := Some(value);
      revealed := true;
    }

    predicate AnswerCorrect()
      reads this
    {
      IsCorrect(answer, quiz.correctAnswer)
    }

    /** The explanation shows once the answer is revealed. */
    predicate ExplanationVisible()
      reads this
    {
      revealed
    }
  }
}
