/**
 * Reading a quiz out of the rendered list item. The DOM is an abstract
 * tree of text and elements (lower-case tag, class list, children);
 * `innerHTML` is a plain serialisation of that tree with the class
 * attribute only, and `textContent` the concatenated text below a node.
 */
module QuizParse {
  import opened Common

  datatype Node = Text(value: string) | Elem(tag: string, classes: seq<string>, children: seq<Node>)

  datatype QuizType = Single | Multi | TrueFalse | Fill

  datatype QuizOption = QuizOption(html: string, isCorrect: bool)

  /** `ParsedQuiz`; an absent `correctAnswer` or explanation is `None`. */
  datatype ParsedQuiz = ParsedQuiz(
    kind: QuizType,
    questionHtml: string,
    options: seq<QuizOption>,
    correctAnswer: Option<bool>,
    gaps: seq<string>,
    mistakes: seq<string>,
    explanationHtml: Option<string>)

  predicate HasClass(n: Node, c: string) {
    n.Elem? && c in n.classes
  }

  predicate HasTag(n: Node, tag: string) {
    n.Elem? && n.tag == tag
  }

  function ClassAttr(classes: seq<string>): string {
    if classes == [] then "" else " class=\"" + Join(classes, " ") + "\""
  }

  /** The markup of a node. */
  function NodeHtml(n: Node): string
    decreases n
  {
    match n
    case Text(v) => v
    case Elem(tag, classes, children) => "<" + tag + ClassAttr(classes) + ">" + HtmlOf(children) + "</" + tag + ">"
  }

  /** The markup of a run of sibling nodes: `innerHTML` of their parent. */
  function HtmlOf(nodes: seq<Node>): string
    decreases nodes
  {
    if nodes == [] then "" else NodeHtml(nodes[0]) + HtmlOf(nodes[1..])
  }

  /** `textContent`. */
  function TextOf(n: Node): string
    decreases n
  {
    match n
    case Text(v) => v
    case Elem(_, _, children) => TextsOf(children)
  }

  function TextsOf(nodes: seq<Node>): string
    decreases nodes
  {
    if nodes == [] then "" else TextOf(nodes[0]) + TextsOf(nodes[1..])
  }

  /** The first child element with the tag: `querySelector(':scope > tag')`. */
  function ChildWithTag(children: seq<Node>, tag: string): (r: Option<Node>)
    ensures r.Some? ==> r.value in children && HasTag(r.value, tag)
    ensures r.None? ==> forall c :: c in children ==> !HasTag(c, tag)
  {
    if children == [] then None
    else if HasTag(children[0], tag) then Some(children[0])
    else ChildWithTag(children[1..], tag)
  }

  /** The first child element with the class: `querySelector(':scope > .cls')`. */
  function ChildWithClass(children: seq<Node>, cls: string): (r: Option<Node>)
    ensures r.Some? ==> r.value in children && HasClass(r.value, cls)
    ensures r.None? ==> forall c :: c in children ==> !HasClass(c, cls)
  {
    if children == [] then None
    else if HasClass(children[0], cls) then Some(children[0])
    else ChildWithClass(children[1..], cls)
  }

  /** An element below the scanned root, with whether it or an ancestor is a `blockquote`. */
  datatype Found = Found(node: Node, inBlockquote: bool)

  /** The elements below `nodes` in document order (`querySelectorAll`), each with its `closest('blockquote')` test. */
  function Descendants(nodes: seq<Node>, inBlockquote: bool): (r: seq<Found>)
    ensures forall f :: f in r ==> f.node.Elem?
    decreases nodes
  {
    if nodes == [] then []
    else
      var rest := Descendants(nodes[1..], inBlockquote);
      match nodes[0]
      case Text(_) => rest
      case Elem(tag, _, children) =>
        var here := inBlockquote || tag == "blockquote";
        [Found(nodes[0], here)] + Descendants(children, here) + rest
  }

  /** The `span` elements with the class, among the found elements. */
  function Spans(found: seq<Found>, cls: string): (r: seq<Found>)
    ensures |r| <= |found|
    ensures forall f :: f in r ==> f in found && HasTag(f.node, "span") && HasClass(f.node, cls)
    ensures forall f :: f in found && HasTag(f.node, "span") && HasClass(f.node, cls) ==> f in r
  {
    if found == [] then []
    else if HasTag(found[0].node, "span") && HasClass(found[0].node, cls) then [found[0]] + Spans(found[1..], cls)
    else Spans(found[1..], cls)
  }

  /** `getSource`: the `.quiz-original` child when there is one, else the element itself. */
  function GetSource(el: Node): (r: Node)
    requires el.Elem?
    ensures ChildWithClass(el.children, "quiz-original").Some? ==> r == ChildWithClass(el.children, "quiz-original").value
    ensures ChildWithClass(el.children, "quiz-original").None? ==> r == el
  {
    match ChildWithClass(el.children, "quiz-original")
    case Some(c) => c
    case None => el
  }

  /** `detectQuizType`: class `fill` wins, then `multi`; else single when the source has an option list, true/false otherwise. */
  function DetectQuizType(el: Node, source: Node): (t: QuizType)
    requires source.Elem?
    ensures t == Fill <==> HasClass(el, "fill")
    ensures t == Multi <==> !HasClass(el, "fill") && HasClass(el, "multi")
    ensures t == TrueFalse <==> !HasClass(el, "fill") && !HasClass(el, "multi") && ChildWithTag(source.children, "ul").None?
    ensures t == Single <==> !HasClass(el, "fill") && !HasClass(el, "multi") && ChildWithTag(source.children, "ul").Some?
  {
    if HasClass(el, "fill") then Fill
    else if HasClass(el, "multi") then Multi
    else if ChildWithTag(source.children, "ul").None? then TrueFalse
    else Single
  }

  /** The children `extractQuestionHtml` removes: option lists and explanation quotes. */
  predicate Removed(n: Node) {
    HasTag(n, "ul") || HasTag(n, "ol") || HasTag(n, "blockquote")
  }

  /** The children left in the clone, in order. */
  function Kept(children: seq<Node>): (r: seq<Node>)
    ensures forall c :: c in r <==> c in children && !Removed(c)
    ensures |r| <= |children|
  {
    if children == [] then []
    else if Removed(children[0]) then Kept(children[1..])
    else [children[0]] + Kept(children[1..])
  }

  lemma KeptAppend(a: seq<Node>, b: seq<Node>)
    ensures Kept(a + b) == Kept(a) + Kept(b)
  {
    if a == [] {
      assert a + b == b;
    } else {
      assert (a + b)[1..] == a[1..] + b;
    }
  }

  /**
   * `extractQuestionHtml`: walks the clone's children and removes every
   * `ul`, `ol` and `blockquote`; the trimmed markup of what is left.
   * The element passed in is a value, so the original is untouched.
   */
  method ExtractQuestionHtml(el: Node) returns (html: string)
    requires el.Elem?
    ensures html == Trim(HtmlOf(Kept(el.children)))
  {
    var clone := [];
    var i := 0;
    while i < |el.children|
      invariant 0 <= i <= |el.children|
      invariant clone == Kept(el.children[..i])
    {
      var child := el.children[i];
      KeptAppend(el.children[..i], [child]);
      assert el.children[..i + 1] == el.children[..i] + [child];
      if !Removed(child) {
        clone := clone + [child];
      }
      i := i + 1;
    }
    assert el.children[..i] == el.children;
    html := Trim(HtmlOf(clone));
  }

  /** The options of a list: one per direct `li`, correct exactly when it has the class `correct`. */
  function OptionsOf(items: seq<Node>): (r: seq<QuizOption>)
    ensures |r| <= |items|
  {
    if items == [] then []
    else if HasTag(items[0], "li") then
      [QuizOption(HtmlOf(items[0].children), HasClass(items[0], "correct"))] + OptionsOf(items[1..])
    else OptionsOf(items[1..])
  }

  /** `extractOptions`: the options of the first direct `ul`; none without one. */
  function ExtractOptions(el: Node): (r: seq<QuizOption>)
    requires el.Elem?
    ensures ChildWithTag(el.children, "ul").None? ==> r == []
  {
    match ChildWithTag(el.children, "ul")
    case None => []
    case Some(ul) => OptionsOf(ul.children)
  }

  /** An option is correct exactly when its item carries the class `correct`. */
  lemma {:induction false} OptionsFollowItems(items: seq<Node>)
    requires forall i :: 0 <= i < |items| ==> items[i].Elem? && items[i].tag == "li"
    ensures |OptionsOf(items)| == |items|
    ensures forall i :: 0 <= i < |items| ==>
      OptionsOf(items)[i] == QuizOption(HtmlOf(items[i].children), HasClass(items[i], "correct"))
  {
    if items != [] {
      OptionsFollowItems(items[1..]);
    }
  }

  /** `extractExplanation`: the markup of the first direct `blockquote`. */
  function ExtractExplanation(el: Node): (r: Option<string>)
    requires el.Elem?
    ensures r.Some? <==> ChildWithTag(el.children, "blockquote").Some?
    ensures r.Some? ==> r.value == HtmlOf(ChildWithTag(el.children, "blockquote").value.children)
  {
    match ChildWithTag(el.children, "blockquote")
    case None => None
    case Some(bq) => Some(HtmlOf(bq.children))
  }

  /** The gap texts outside any blockquote, in document order. */
  function GapTexts(spans: seq<Found>): (r: seq<string>)
    ensures |r| <= |spans|
  {
    if spans == [] then []
    else if spans[0].inBlockquote then GapTexts(spans[1..])
    else [TextOf(spans[0].node)] + GapTexts(spans[1..])
  }

  lemma GapTextsAppend(a: seq<Found>, b: seq<Found>)
    ensures GapTexts(a + b) == GapTexts(a) + GapTexts(b)
  {
    if a == [] {
      assert a + b == b;
    } else {
      assert (a + b)[1..] == a[1..] + b;
    }
  }

  /**
   * `extractGaps`: every `span.gap` below the element, skipped when it or
   * an ancestor is a `blockquote`. `inBlockquote` says whether the element
   * itself lies in one: the ancestor search does not stop at the element.
   */
  method ExtractGaps(el: Node, inBlockquote: bool) returns (gaps: seq<string>)
    requires el.Elem?
    ensures gaps == GapTexts(Spans(Descendants(el.children, inBlockquote), "gap"))
  {
    var spans := Spans(Descendants(el.children, inBlockquote), "gap");
    gaps := [];
    var i := 0;
    while i < |spans|
      invariant 0 <= i <= |spans|
      invariant gaps == GapTexts(spans[..i])
    {
      var span := spans[i];
      GapTextsAppend(spans[..i], [span]);
      assert spans[..i + 1] == spans[..i] + [span];
      if !span.inBlockquote {
        gaps := gaps + [TextOf(span.node)];
      }
      i := i + 1;
    }
    assert spans[..i] == spans;
  }

  /** Inside a blockquote no gap is read at all. */
  lemma {:induction false} NoGapsInsideBlockquote(spans: seq<Found>)
    requires forall f :: f in spans ==> f.inBlockquote
    ensures GapTexts(spans) == []
  {
    if spans != [] {
      assert forall f :: f in spans[1..] ==> f in spans;
      NoGapsInsideBlockquote(spans[1..]);
    }
  }

  /** Every element found below a node inside a blockquote is inside one too. */
  lemma {:induction false} DescendantsInherit(nodes: seq<Node>)
    ensures forall f :: f in Descendants(nodes, true) ==> f.inBlockquote
    decreases nodes
  {
    if nodes != [] {
      DescendantsInherit(nodes[1..]);
      match nodes[0]
      case Text(_) =>
      case Elem(_, _, children) =>
        DescendantsInherit(children);
    }
  }

  /** `extractMistakes`: the texts of the `span.mistake` elements below the direct `blockquote`; none without one. */
  function ExtractMistakes(el: Node): (r: seq<string>)
    requires el.Elem?
    ensures ChildWithTag(el.children, "blockquote").None? ==> r == []
  {
    match ChildWithTag(el.children, "blockquote")
    case None => []
    case Some(bq) => TextsOfFound(Spans(Descendants(bq.children, true), "mistake"))
  }

  function TextsOfFound(found: seq<Found>): (r: seq<string>)
    ensures |r| == |found| && forall i :: 0 <= i < |r| ==> r[i] == TextOf(found[i].node)
  {
    seq(|found|, i requires 0 <= i < |found| => TextOf(found[i].node))
  }

  /** `parseQuizElement`; `inBlockquote` says whether an element above `el` is a blockquote (`closest` also tests `el` and the source). */
  method ParseQuizElement(el: Node, inBlockquote: bool) returns (quiz: ParsedQuiz)
    requires el.Elem?
    ensures var source := GetSource(el);
      quiz.kind == DetectQuizType(el, source) &&
      quiz.explanationHtml == ExtractExplanation(source)
    ensures quiz.kind == Single || quiz.kind == Multi ==> quiz.options == ExtractOptions(GetSource(el))
    ensures quiz.kind != Single && quiz.kind != Multi ==> quiz.options == []
    ensures quiz.kind == TrueFalse ==> quiz.correctAnswer == Some(HasClass(el, "true"))
    ensures quiz.kind != TrueFalse ==> quiz.correctAnswer == None
    ensures quiz.kind != Fill ==> quiz.gaps == [] && quiz.mistakes == []
    ensures quiz.kind == Fill ==> quiz.mistakes == ExtractMistakes(GetSource(el))
    ensures quiz.kind == Fill ==>
              quiz.gaps == GapTexts(Spans(Descendants(GetSource(el).children,
                inBlockquote || HasTag(el, "blockquote") || HasTag(GetSource(el), "blockquote")), "gap"))
    ensures quiz.questionHtml == Trim(HtmlOf(Kept(GetSource(el).children)))
  {
    var source := GetSource(el);
    var kind := DetectQuizType(el, source);
    var questionHtml := ExtractQuestionHtml(source);
    var gaps := [];
    if kind == Fill {
      gaps := ExtractGaps(source, inBlockquote || HasTag(el, "blockquote") || HasTag(source, "blockquote"));
    }
    quiz := ParsedQuiz(
      kind,
      questionHtml,
      if kind == Single || kind == Multi then ExtractOptions(source) else [],
      if kind == TrueFalse then Some(HasClass(el, "true")) else None,
      gaps,
      if kind == Fill then ExtractMistakes(source) else [],
      ExtractExplanation(source));
  }
}
