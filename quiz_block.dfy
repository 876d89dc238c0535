/**
 * The click-to-answer quiz block: every list item below the quiz element
 * is an option, shown up to its nested list; the first item with the
 * class `correct` is the right one; the first click is the answer.
 */
module QuizBlock {
  import opened Common
  import opened QuizParse

  /** `html.replace(/<ul.*$/s, '')`: everything from the first `<ul` on is dropped. */
  function CutNestedList(html: string): (r: string)
    ensures IndexOf(html, "<ul").None? ==> r == html
    ensures IndexOf(html, "<ul").Some? ==> r == html[..IndexOf(html, "<ul").value]
  {
    match IndexOf(html, "<ul")
    case None => html
    case Some(k) => html[..k]
  }

  /** What is left holds no nested list and starts the option's markup. */
  lemma CutLeavesNoList(html: string)
    ensures var r := CutNestedList(html);
      r <= html && forall k :: !MatchAt(r, "<ul", k)
  {
    var r := CutNestedList(html);
    forall k | MatchAt(r, "<ul", k)
      ensures false
    {
      assert r[k..k + 3] == html[k..k + 3];
      assert MatchAt(html, "<ul", k);
    }
  }

  /** The list items below the element, in document order (`querySelectorAll('li')`). */
  function Items(found: seq<Found>): (r: seq<Node>)
    ensures |r| <= |found|
    ensures forall n :: n in r ==> n.Elem? && n.tag == "li"
  {
    if found == [] then []
    else if HasTag(found[0].node, "li") then [found[0].node] + Items(found[1..])
    else Items(found[1..])
  }

  function ListItems(element: Node): seq<Node>
    requires element.Elem?
  {
    Items(Descendants(element.children, false))
  }

  /** The option markup of each item. */
  function OptionMarkup(items: seq<Node>): (r: seq<string>)
    requires forall n :: n in items ==> n.Elem?
    ensures |r| == |items|
    ensures forall i :: 0 <= i < |items| ==> r[i] == CutNestedList(HtmlOf(items[i].children))
  {
    seq(|items|, i requires 0 <= i < |items| => CutNestedList(HtmlOf(items[i].children)))
  }

  /** `findIndex` of the class `correct`: the first such item, or -1. */
  function CorrectIndex(items: seq<Node>): (r: int)
    ensures -1 <= r < |items|
    ensures r >= 0 ==> HasClass(items[r], "correct") && forall j :: 0 <= j < r ==> !HasClass(items[j], "correct")
    ensures r == -1 <==> forall j :: 0 <= j < |items| ==> !HasClass(items[j], "correct")
  {
    if items == [] then -1
    else if HasClass(items[0], "correct") then 0
    else
      var r := CorrectIndex(items[1..]);
      assert forall j :: 1 <= j < |items| ==> items[j] == items[1..][j - 1];
      if r == -1 then -1 else r + 1
  }

  /** How a row is drawn once the answer is revealed. */
  datatype RowLook = Hoverable | RightRow | WrongPick | Faded

  /** The row classes: hoverable before the answer; then green for the right option, red for a wrong pick, faded for the rest. */
  function Look(index: int, selectedIndex: Option<int>, revealed: bool, correctIndex: int): RowLook {
    var isCorrect := index == correctIndex;
    var isSelected := selectedIndex == Some(index);
    if !revealed then Hoverable
    else if isCorrect then RightRow
    else if isSelected then WrongPick
    else Faded
  }

  /** After the answer, the right row is green, the picked row red unless it is right, and every other row faded. */
  lemma RevealedRows(selected: int, correctIndex: int, index: int)
    ensures Look(index, Some(selected), true, correctIndex) == RightRow <==> index == correctIndex
    ensures Look(index, Some(selected), true, correctIndex) == WrongPick <==> index == selected && selected != correctIndex
    ensures Look(index, Some(selected), true, correctIndex) == Faded <==> index != selected && index != correctIndex
    ensures Look(index, Some(selected), true, correctIndex) != Hoverable
  {
  }

  /** `String.fromCharCode(65 + index)`. */
  function Letter(index: int): char {
    FromCharCode(65 + index)
  }

  /** `selectedIndex === correctIndex`. */
  predicate AnswerRight(selectedIndex: Option<int>, correctIndex: int) {
    selectedIndex == Some(correctIndex)
  }

  function Feedback(selectedIndex: Option<int>, correctIndex: int): string {
    if AnswerRight(selectedIndex, correctIndex) then "回答正确！"
    else "回答错误。正确答案是 " + [Letter(correctIndex)] + "。"
  }

  /**
   * Without an item marked `correct` no click is right, and the verdict
   * names the character before `A`.
   */
  lemma NoCorrectItem(items: seq<Node>, selected: nat)
    requires forall j :: 0 <= j < |items| ==> !HasClass(items[j], "correct")
    ensures !AnswerRight(Some(selected), CorrectIndex(items))
    ensures Feedback(Some(selected), CorrectIndex(items)) == "回答错误。正确答案是 @。"
  {
    var c := CorrectIndex(items);
    assert c == -1;
    assert Letter(c) == '@';
  }

  /** Clicking the right option is the only way to be right. */
  lemma RightIffCorrectItem(items: seq<Node>, selected: nat)
    requires selected < |items|
    ensures AnswerRight(Some(selected), CorrectIndex(items)) <==>
      HasClass(items[selected], "correct") && forall j :: 0 <= j < selected ==> !HasClass(items[j], "correct")
  {
  }

  /** The component's state: the clicked option, and whether the answer is revealed. */
  class Block {
    const options: seq<string>
    const correctIndex: int
    var selectedIndex: Option<int>
    var revealed: bool

    predicate Valid()
      reads this
    {
      revealed <==> selectedIndex.Some?
    }

    /** The memo over the element's list items. */
    constructor(element: Node)
      requires element.Elem?
      ensures options == OptionMarkup(ListItems(element)) && correctIndex == CorrectIndex(ListItems(element))
      ensures selectedIndex == None && !revealed && Valid()
    {
      var items := ListItems(element);
      options := OptionMarkup(items);
      correctIndex := CorrectIndex(items);
      selectedIndex := None;
      revealed := false;
    }

    /** `handleSelect`: the first click is the answer; later ones are ignored. */
    method HandleSelect(index: int)
      requires Valid()
      modifies this
      ensures Valid() && revealed
      ensures old(revealed) ==> selectedIndex == old(selectedIndex)
      ensures !old(revealed) ==> selectedIndex == Some(index)
    {
      if revealed {
        return;
      }
      selectedIndex := Some(index);
      revealed := true;
    }
  }
}
