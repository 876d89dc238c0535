/**
 * The multiple-choice quiz: options are toggled in and out of the
 * selection until the answer is submitted; the answer is right when the
 * selection is exactly the set of correct options.
 */
module MultiChoiceQuiz {
  import opened Common
  import opened QuizParse

  /** The indices of the correct options from `k` on, in ascending order. */
  function CorrectFrom(options: seq<QuizOption>, k: nat): (r: seq<int>)
    requires k <= |options|
    ensures forall i :: i in r <==> k <= i < |options| && options[i].isCorrect
    ensures forall j :: 0 <= j < |r| ==> k <= r[j]
    ensures forall a, b :: 0 <= a < b < |r| ==> r[a] < r[b]
    decreases |options| - k
  {
    if k == |options| then []
    else if options[k].isCorrect then [k] + CorrectFrom(options, k + 1)
    else CorrectFrom(options, k + 1)
  }

  /** `correctIndices`, listed in the order the set keeps them: ascending, as inserted. */
  function CorrectList(options: seq<QuizOption>): seq<int> {
    CorrectFrom(options, 0)
  }

  function CorrectSet(options: seq<QuizOption>): (r: set<int>)
    ensures forall i :: i in r <==> 0 <= i < |options| && options[i].isCorrect
  {
    set i | i in CorrectList(options)
  }

  /** `isAllCorrect`: revealed, as many selected as correct, and every selected one correct. */
  predicate IsAllCorrect(revealed: bool, selected: set<int>, correct: set<int>) {
    revealed && |selected| == |correct| && (forall i :: i in selected ==> i in correct)
  }

  lemma SubsetSameSize<T>(a: set<T>, b: set<T>)
    requires a <= b && |a| == |b|
    ensures a == b
  {
    var extra := b - a;
    assert b == a + extra;
    assert a * extra == {};
    assert |b| == |a| + |extra|;
  }

  /** The answer is right exactly when the selection is the set of correct options. */
  lemma AllCorrectIff(revealed: bool, selected: set<int>, correct: set<int>)
    ensures IsAllCorrect(revealed, selected, correct) <==> revealed && selected == correct
  {
    if IsAllCorrect(revealed, selected, correct) {
      assert forall i :: i in selected ==> i in correct;
      assert selected <= correct;
      SubsetSameSize(selected, correct);
    }
  }

  /** `String.fromCharCode(65 + i)` for each index, as one-letter strings. */
  function Letters(indices: seq<int>): (r: seq<string>)
    ensures |r| == |indices| && forall j :: 0 <= j < |r| ==> r[j] == [FromCharCode(65 + indices[j])]
  {
    seq(|indices|, j requires 0 <= j < |indices| => [FromCharCode(65 + indices[j])])
  }

  const RightText: string := "回答正确！"

  /** The verdict line shown after submitting. */
  function Feedback(allCorrect: bool, options: seq<QuizOption>): string {
    if allCorrect then RightText
    else "回答错误。正确答案是 " + Join(Letters(CorrectList(options)), "、") + "。"
  }

  /** In the verdict for a wrong answer every listed letter names a correct option. */
  lemma FeedbackLettersAreCorrect(options: seq<QuizOption>)
    requires |options| <= 0xD800 - 65
    ensures var letters := Letters(CorrectList(options));
      forall j :: 0 <= j < |letters| ==>
        |letters[j]| == 1 && var i := letters[j][0] as int - 65; 0 <= i < |options| && options[i].isCorrect
  {
    var list := CorrectList(options);
    forall j | 0 <= j < |list|
      ensures 0 <= list[j] < |options| && options[list[j]].isCorrect
    {
      assert list[j] in list;
    }
  }

  /** Every correct option is listed in the verdict. */
  lemma FeedbackListsEveryCorrect(options: seq<QuizOption>)
    ensures forall i :: 0 <= i < |options| && options[i].isCorrect ==> [FromCharCode(65 + i)] in Letters(CorrectList(options))
  {
    var list := CorrectList(options);
    var letters := Letters(list);
    forall i | 0 <= i < |options| && options[i].isCorrect
      ensures [FromCharCode(65 + i)] in letters
    {
      var j :| 0 <= j < |list| && list[j] == i;
      assert letters[j] == [FromCharCode(65 + i)];
    }
  }

  /** The letters of the verdict go in alphabetical order. */
  lemma FeedbackLettersInOrder(options: seq<QuizOption>)
    requires |options| <= 0xD800 - 65
    ensures var letters := Letters(CorrectList(options));
      forall a, b :: 0 <= a < b < |letters| ==> letters[a][0] < letters[b][0]
  {
    var list := CorrectList(options);
    forall j | 0 <= j < |list|
      ensures 0 <= list[j] < |options|
    {
      assert list[j] in list;
    }
  }

  /** Toggling an option: out of the selection if it was in, in otherwise. */
  function Toggle(selected: set<int>, index: int): (r: set<int>)
    ensures index in r <==> index !in selected
    ensures forall i :: i != index ==> (i in r <==> i in selected)
  {
    if index in selected then selected - {index} else selected + {index}
  }

  /** Toggling twice restores the selection. */
  lemma ToggleTwice(selected: set<int>, index: int)
    ensures Toggle(Toggle(selected, index), index) == selected
  {
  }

  /** The component's state: the selection and whether the answer is revealed. */
  class MultiChoice {
    const quiz: ParsedQuiz
    var selected: set<int>
    var revealed: bool

    constructor(quiz: ParsedQuiz)
      ensures this.quiz == quiz && selected == {} && !revealed
    {
      this.quiz := quiz;
      selected := {};
      revealed := false;
    }

    /** `toggleOption`: ignored once revealed. */
    method ToggleOption(index: int)
      modifies this
      ensures revealed == old(revealed)
      ensures old(revealed) ==> selected == old(selected)
      ensures !old(revealed) ==> selected == Toggle(old(selected), index)
    {
      if revealed {
        return;
      }
      var next := selected;
      if index in next {
        next := next - {index};
      } else {
        next := next + {index};
      }
      selected := next;
    }

    /** `handleSubmit`: reveals once something is selected; the selection stays. */
    method HandleSubmit()
      modifies this
      ensures selected == old(selected)
      ensures revealed == (old(revealed) || old(selected) != {})
    {
      if |selected| == 0 || revealed {
        return;
      }
      revealed := true;
    }

    predicate AllCorrect()
      reads this
    {
      IsAllCorrect(revealed, selected, CorrectSet(quiz.options))
    }

    /** The explanation shows once the answer is revealed. */
    predicate ExplanationVisible()
      reads this
    {
      revealed
    }
  }
}
