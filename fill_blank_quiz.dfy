/**
 * The fill-in-the-blank quiz: the question's markup is split around the
 * gap placeholders `<span class="gap">answer</span>` into markup parts and
 * numbered gaps, and gaps are revealed one by one until all are shown.
 */
module FillBlankQuiz {
  import opened Common
  import opened QuizParse

  const GapOpen: string := "<span class=\"gap\">"
  const GapClose: string := "</span>"

  /**
   * `/<span class="gap">[^<]*<\/span>/` matches at `p`: the opening tag,
   * then everything up to the next `<`, which must start the closing tag.
   */
  predicate GapAt(html: string, p: nat) {
    MatchAt(html, GapOpen, p) &&
    var c := FindChar(html, '<', p + |GapOpen|);
    c.Some? && MatchAt(html, GapClose, c.value)
  }

  /** Where the answer inside the gap at `p` ends: at the closing tag. */
  function AnswerEnd(html: string, p: nat): (q: nat)
    requires GapAt(html, p)
    ensures p + |GapOpen| <= q && MatchAt(html, GapClose, q)
  {
    FindChar(html, '<', p + |GapOpen|).value
  }

  /** The end of the whole match at `p`, where `lastIndex` goes next. */
  function MatchEnd(html: string, p: nat): (e: nat)
    requires GapAt(html, p)
    ensures p < e <= |html|
  {
    AnswerEnd(html, p) + |GapClose|
  }

  /** The answer text has no `<`, as `[^<]*` demands. */
  lemma AnswerHasNoTag(html: string, p: nat)
    requires GapAt(html, p)
    ensures !HasChar(html[p + |GapOpen|..AnswerEnd(html, p)], '<')
  {
    var s := p + |GapOpen|;
    var q := AnswerEnd(html, p);
    FindCharFirst(html, '<', s);
    var a := html[s..q];
    forall k | 0 <= k < |a| ensures a[k] != '<' {
      assert a[k] == html[s + k];
    }
  }

  /** `gapRegex.exec` from `from`: the first position at or after it where a gap matches. */
  function NextGap(html: string, from: nat): (r: Option<nat>)
    requires from <= |html|
    ensures r.Some? ==> from <= r.value && GapAt(html, r.value)
    decreases |html| - from
  {
    if from == |html| then None
    else if GapAt(html, from) then Some(from)
    else NextGap(html, from + 1)
  }

  /** The match found is the leftmost one. */
  lemma {:induction false} NextGapLeftmost(html: string, from: nat)
    requires from <= |html|
    ensures NextGap(html, from).Some? ==> forall k :: from <= k < NextGap(html, from).value ==> !GapAt(html, k)
    ensures NextGap(html, from).None? ==> forall k :: from <= k <= |html| ==> !GapAt(html, k)
    decreases |html| - from
  {
    if from < |html| && !GapAt(html, from) {
      NextGapLeftmost(html, from + 1);
    }
  }

  /** A stretch of the question: markup between gaps, or a gap with its answer. */
  datatype Segment = Markup(text: string) | Blank(answer: string)

  function SegmentSource(s: Segment): string {
    match s
    case Markup(t) => t
    case Blank(a) => GapOpen + a + GapClose
  }

  function Sources(segs: seq<Segment>): string {
    if segs == [] then "" else SegmentSource(segs[0]) + Sources(segs[1..])
  }

  /** The markup before a gap; nothing when the gap starts right away. */
  function Lead(html: string, from: nat, p: nat): (r: seq<Segment>)
    requires from <= p <= |html|
    ensures p > from ==> r == [Markup(html[from..p])]
    ensures p == from ==> r == []
  {
    if p > from then [Markup(html[from..p])] else []
  }

  /** The stretches of `html[from..]`, in order. */
  function Segments(html: string, from: nat): seq<Segment>
    requires from <= |html|
    decreases |html| - from
  {
    match NextGap(html, from)
    case None => if from < |html| then [Markup(html[from..])] else []
    case Some(p) =>
      Lead(html, from, p) + [Blank(html[p + |GapOpen|..AnswerEnd(html, p)])] + Segments(html, MatchEnd(html, p))
  }

  lemma SegmentsStep(html: string, from: nat, p: nat)
    requires from <= |html| && NextGap(html, from) == Some(p)
    ensures Segments(html, from) ==
      Lead(html, from, p) + [Blank(html[p + |GapOpen|..AnswerEnd(html, p)])] + Segments(html, MatchEnd(html, p))
  {
  }

  lemma SourcesAppend(a: seq<Segment>, b: seq<Segment>)
    ensures Sources(a + b) == Sources(a) + Sources(b)
  {
    if a != [] {
      assert (a + b)[1..] == a[1..] + b;
      SourcesAppend(a[1..], b);
    } else {
      assert a + b == b;
    }
  }

  lemma SourcesOne(s: Segment)
    ensures Sources([s]) == SegmentSource(s)
  {
    assert [s][1..] == [];
  }

  lemma SourcesSnoc(head: seq<Segment>, s: Segment, x: string, y: string)
    requires Sources(head) == x && SegmentSource(s) == y
    ensures Sources(head + [s]) == x + y
  {
    SourcesAppend(head, [s]);
    SourcesOne(s);
  }

  lemma SourcesConcat(a: seq<Segment>, b: seq<Segment>, x: string, y: string)
    requires Sources(a) == x && Sources(b) == y
    ensures Sources(a + b) == x + y
  {
    SourcesAppend(a, b);
  }

  lemma SliceJoin(html: string, from: nat, p: nat, next: nat)
    requires from <= p < next <= |html|
    ensures html[from..p] + html[p..next] + html[next..] == html[from..]
  {
  }

  /** Three stretches read from consecutive slices give back the slices joined. */
  lemma SourcesOfStep(html: string, from: nat, p: nat, next: nat, head: seq<Segment>, s: Segment, rest: seq<Segment>)
    requires from <= p < next <= |html|
    requires Sources(head) == html[from..p] && SegmentSource(s) == html[p..next] && Sources(rest) == html[next..]
    ensures Sources(head + [s] + rest) == html[from..]
  {
    SourcesSnoc(head, s, html[from..p], html[p..next]);
    SourcesConcat(head + [s], rest, html[from..p] + html[p..next], html[next..]);
    SliceJoin(html, from, p, next);
  }

  /** The gap found at `p` is exactly the text up to the end of its match. */
  lemma BlankSource(html: string, p: nat)
    requires GapAt(html, p)
    ensures SegmentSource(Blank(html[p + |GapOpen|..AnswerEnd(html, p)])) == html[p..MatchEnd(html, p)]
  {
    var q := AnswerEnd(html, p);
    var s := p + |GapOpen|;
    assert html[p..s] == GapOpen;
    assert html[q..q + |GapClose|] == GapClose;
    assert html[p..MatchEnd(html, p)] == html[p..s] + html[s..q] + html[q..q + |GapClose|];
  }

  lemma RebuildLast(html: string, from: nat)
    requires from <= |html| && NextGap(html, from).None?
    ensures Sources(Segments(html, from)) == html[from..]
  {
    if from < |html| {
      SourcesOne(Markup(html[from..]));
    }
  }

  lemma RebuildStep(html: string, from: nat, p: nat)
    requires from <= |html| && NextGap(html, from) == Some(p)
    requires Sources(Segments(html, MatchEnd(html, p))) == html[MatchEnd(html, p)..]
    ensures Sources(Segments(html, from)) == html[from..]
  {
    var hit := Blank(html[p + |GapOpen|..AnswerEnd(html, p)]);
    SegmentsStep(html, from, p);
    BlankSource(html, p);
    if p > from {
      SourcesOne(Markup(html[from..p]));
    }
    SourcesOfStep(html, from, p, MatchEnd(html, p), Lead(html, from, p), hit, Segments(html, MatchEnd(html, p)));
  }

  /** Splitting loses nothing: the stretches joined give back the question's markup. */
  lemma {:induction false} SegmentsRebuild(html: string, from: nat)
    requires from <= |html|
    ensures Sources(Segments(html, from)) == html[from..]
    decreases |html| - from
  {
    match NextGap(html, from)
    case None => RebuildLast(html, from);
    case Some(p) =>
      SegmentsRebuild(html, MatchEnd(html, p));
      RebuildStep(html, from, p);
  }

  /** Markup stretches are never empty, and no answer holds a `<`. */
  lemma {:induction false} SegmentsWellFormed(html: string, from: nat)
    requires from <= |html|
    ensures forall i :: 0 <= i < |Segments(html, from)| ==> WellFormed(Segments(html, from)[i])
    decreases |html| - from
  {
    match NextGap(html, from)
    case None =>
    case Some(p) =>
      SegmentsStep(html, from, p);
      AnswerHasNoTag(html, p);
      SegmentsWellFormed(html, MatchEnd(html, p));
  }

  predicate WellFormed(s: Segment) {
    match s
    case Markup(t) => t != []
    case Blank(a) => !HasChar(a, '<')
  }

  /** A part of the rendered question: markup, or the gap with its answer and number. */
  datatype Part = HtmlPart(content: string) | GapPart(content: string, index: nat)

  /** `quiz.gaps[gapIndex] || ''`. */
  function GapContent(gaps: seq<string>, k: nat): (r: string)
    ensures k < |gaps| ==> r == gaps[k]
    ensures k >= |gaps| ==> r == ""
  {
    if k < |gaps| then gaps[k] else ""
  }

  function Blanks(segs: seq<Segment>): nat {
    if segs == [] then 0 else (if segs[0].Blank? then 1 else 0) + Blanks(segs[1..])
  }

  /** The parts for the stretches, the gaps numbered on from `k`. */
  function Label(segs: seq<Segment>, gaps: seq<string>, k: nat): seq<Part>
    decreases |segs|
  {
    if segs == [] then []
    else match segs[0]
      case Markup(t) => [HtmlPart(t)] + Label(segs[1..], gaps, k)
      case Blank(_) => [GapPart(GapContent(gaps, k), k)] + Label(segs[1..], gaps, k + 1)
  }

  lemma {:induction false} LabelAppend(a: seq<Segment>, b: seq<Segment>, gaps: seq<string>, k: nat)
    ensures Label(a + b, gaps, k) == Label(a, gaps, k) + Label(b, gaps, k + Blanks(a))
    decreases |a|
  {
    if a == [] {
      assert a + b == b;
    } else {
      assert (a + b)[0] == a[0] && (a + b)[1..] == a[1..] + b;
      if a[0].Blank? {
        LabelAppend(a[1..], b, gaps, k + 1);
      } else {
        LabelAppend(a[1..], b, gaps, k);
      }
    }
  }

  /** The gap numbers in order of appearance. */
  function GapIndices(parts: seq<Part>): seq<nat> {
    if parts == [] then []
    else if parts[0].GapPart? then [parts[0].index] + GapIndices(parts[1..])
    else GapIndices(parts[1..])
  }

  function Range(lo: nat, hi: nat): (r: seq<nat>)
    requires lo <= hi
    ensures |r| == hi - lo && forall i :: 0 <= i < |r| ==> r[i] == lo + i
    decreases hi - lo
  {
    if lo == hi then [] else [lo] + Range(lo + 1, hi)
  }

  lemma {:induction false} LabelLength(segs: seq<Segment>, gaps: seq<string>, k: nat)
    ensures |Label(segs, gaps, k)| == |segs|
    decreases |segs|
  {
    if segs != [] {
      LabelLength(segs[1..], gaps, if segs[0].Blank? then k + 1 else k);
    }
  }

  /** Gaps are numbered one after the other from `k`. */
  lemma {:induction false} LabelNumbers(segs: seq<Segment>, gaps: seq<string>, k: nat)
    ensures GapIndices(Label(segs, gaps, k)) == Range(k, k + Blanks(segs))
    decreases |segs|
  {
    if segs != [] {
      var rest := segs[1..];
      if segs[0].Blank? {
        LabelNumbers(rest, gaps, k + 1);
        assert Range(k, k + Blanks(segs)) == [k] + Range(k + 1, k + 1 + Blanks(rest));
      } else {
        LabelNumbers(rest, gaps, k);
      }
    }
  }

  /** Each gap shows the answer of its number, and its number lies in the range handed out. */
  lemma {:induction false} LabelContents(segs: seq<Segment>, gaps: seq<string>, k: nat)
    ensures forall i :: 0 <= i < |Label(segs, gaps, k)| && Label(segs, gaps, k)[i].GapPart? ==>
      k <= Label(segs, gaps, k)[i].index < k + Blanks(segs) &&
      Label(segs, gaps, k)[i].content == GapContent(gaps, Label(segs, gaps, k)[i].index)
    decreases |segs|
  {
    if segs != [] {
      var rest := segs[1..];
      var k' := if segs[0].Blank? then k + 1 else k;
      LabelContents(rest, gaps, k');
      var all := Label(segs, gaps, k);
      assert all == [all[0]] + Label(rest, gaps, k');
      forall i | 1 <= i < |all|
        ensures all[i] == Label(rest, gaps, k')[i - 1]
      {
      }
    }
  }

  /** Markup parts carry the markup stretches, in order and unchanged. */
  lemma {:induction false} LabelKeepsMarkup(segs: seq<Segment>, gaps: seq<string>, k: nat)
    ensures forall i :: 0 <= i < |segs| && segs[i].Markup? ==>
      i < |Label(segs, gaps, k)| && Label(segs, gaps, k)[i] == HtmlPart(segs[i].text)
    decreases |segs|
  {
    if segs != [] {
      var rest := segs[1..];
      var k' := if segs[0].Blank? then k + 1 else k;
      LabelKeepsMarkup(rest, gaps, k');
      LabelLength(segs, gaps, k);
      assert Label(segs, gaps, k) == [Label(segs, gaps, k)[0]] + Label(rest, gaps, k');
      forall i | 1 <= i < |segs| && segs[i].Markup?
        ensures Label(segs, gaps, k)[i] == HtmlPart(segs[i].text)
      {
        assert segs[i] == rest[i - 1];
      }
    }
  }

  /** The parts of the whole question. */
  function QuestionPartsSpec(html: string, gaps: seq<string>): seq<Part> {
    Label(Segments(html, 0), gaps, 0)
  }

  lemma LabelStep(html: string, from: nat, p: nat, gaps: seq<string>, k: nat)
    requires from <= |html| && NextGap(html, from) == Some(p)
    ensures Label(Segments(html, from), gaps, k) ==
      Label(Lead(html, from, p), gaps, k) + [GapPart(GapContent(gaps, k), k)] + Label(Segments(html, MatchEnd(html, p)), gaps, k + 1)
  {
    var lead := Lead(html, from, p);
    var hit := Blank(html[p + |GapOpen|..AnswerEnd(html, p)]);
    var rest := Segments(html, MatchEnd(html, p));
    SegmentsStep(html, from, p);
    assert Blanks(lead) == 0;
    LabelAppend(lead + [hit], rest, gaps, k);
    LabelAppend(lead, [hit], gaps, k);
    assert Label([hit], gaps, k) == [GapPart(GapContent(gaps, k), k)];
    assert Blanks([hit]) == 1;
    assert Blanks(lead + [hit]) == 1 by {
      assert Blanks(lead + [hit]) == Blanks(lead) + Blanks([hit]) by { BlanksAppend(lead, [hit]); }
    }
  }

  lemma {:induction false} BlanksAppend(a: seq<Segment>, b: seq<Segment>)
    ensures Blanks(a + b) == Blanks(a) + Blanks(b)
    decreases |a|
  {
    if a == [] {
      assert a + b == b;
    } else {
      assert (a + b)[0] == a[0] && (a + b)[1..] == a[1..] + b;
      BlanksAppend(a[1..], b);
    }
  }

  /** The parts before a gap, extended by the lead and the gap, still end the same way. */
  lemma ExtendParts(parts: seq<Part>, lead: seq<Part>, gap: Part, rest: seq<Part>, whole: seq<Part>, parts': seq<Part>)
    requires parts + (lead + [gap] + rest) == whole
    requires parts' == parts + lead + [gap]
    ensures parts' + rest == whole
  {
  }

  lemma LeadParts(html: string, from: nat, p: nat, gaps: seq<string>, k: nat)
    requires from <= p <= |html|
    ensures p > from ==> Label(Lead(html, from, p), gaps, k) == [HtmlPart(html[from..p])]
    ensures p == from ==> Label(Lead(html, from, p), gaps, k) == []
  {
    if p > from {
      assert Label([Markup(html[from..p])], gaps, k) == [HtmlPart(html[from..p])] + Label([], gaps, k);
    }
  }

  /**
   * One pass of the loop for the match at `p`: a markup part for the
   * stretch since `lastIndex` when there is one, then the numbered gap.
   */
  method EmitGap(html: string, gaps: seq<string>, lastIndex: nat, p: nat, gapIndex: nat, parts: seq<Part>, ghost whole: seq<Part>)
    returns (parts': seq<Part>, next: nat)
    requires lastIndex <= |html| && NextGap(html, lastIndex) == Some(p)
    requires parts + Label(Segments(html, lastIndex), gaps, gapIndex) == whole
    ensures lastIndex < next <= |html| && next == MatchEnd(html, p)
    ensures parts' + Label(Segments(html, next), gaps, gapIndex + 1) == whole
  {
    ghost var lead := Label(Lead(html, lastIndex, p), gaps, gapIndex);
    LabelStep(html, lastIndex, p, gaps, gapIndex);
    LeadParts(html, lastIndex, p, gaps, gapIndex);
    parts' := parts;
    if p > lastIndex {
      parts' := parts' + [HtmlPart(html[lastIndex..p])];
    }
    var gap := GapPart(GapContent(gaps, gapIndex), gapIndex);
    parts' := parts' + [gap];
    next := MatchEnd(html, p);
    ExtendParts(parts, lead, gap, Label(Segments(html, next), gaps, gapIndex + 1), whole, parts');
  }

  /**
   * The `questionParts` memo: `exec` the gap expression from `lastIndex`,
   * push the markup before each match and the numbered gap, then the
   * markup after the last match, if any.
   */
  method QuestionParts(html: string, gaps: seq<string>) returns (parts: seq<Part>)
    ensures parts == QuestionPartsSpec(html, gaps)
  {
    ghost var whole := QuestionPartsSpec(html, gaps);
    parts := [];
    var lastIndex := 0;
    var gapIndex := 0;
    var match_ := NextGap(html, lastIndex);
    while match_.Some?
      invariant lastIndex <= |html|
      invariant match_ == NextGap(html, lastIndex)
      invariant parts + Label(Segments(html, lastIndex), gaps, gapIndex) == whole
      decreases |html| - lastIndex
    {
      parts, lastIndex := EmitGap(html, gaps, lastIndex, match_.value, gapIndex, parts, whole);
      gapIndex := gapIndex + 1;
      match_ := NextGap(html, lastIndex);
    }
    if lastIndex < |html| {
      assert Label(Segments(html, lastIndex), gaps, gapIndex) == [HtmlPart(html[lastIndex..])];
      parts := parts + [HtmlPart(html[lastIndex..])];
    } else {
      assert parts == whole;
    }
  }

  /** The gap numbers of the question are 0, 1, … in order, one per placeholder, each showing the answer of its number or nothing. */
  lemma QuestionPartsNumbered(html: string, gaps: seq<string>)
    ensures var n := Blanks(Segments(html, 0));
      var parts := QuestionPartsSpec(html, gaps);
      GapIndices(parts) == Range(0, n) &&
      forall i :: 0 <= i < |parts| && parts[i].GapPart? ==>
        parts[i].index < n && parts[i].content == GapContent(gaps, parts[i].index)
  {
    LabelNumbers(Segments(html, 0), gaps, 0);
    LabelContents(Segments(html, 0), gaps, 0);
  }

  /** Whether every gap counts as revealed: as many numbers revealed as there are answers. */
  predicate AllRevealed(revealed: set<int>, gaps: seq<string>) {
    |revealed| >= |gaps|
  }

  /** The numbers 0 to n - 1 as a set. */
  function Upto(n: nat): (r: set<int>)
    ensures |r| == n
    ensures forall i :: i in r <==> 0 <= i < n
  {
    if n == 0 then {} else Upto(n - 1) + {n - 1}
  }

  /** Once every gap of the question is revealed, all count as revealed exactly when there are at least as many gaps as answers. */
  lemma RevealingEveryGap(html: string, gaps: seq<string>)
    ensures var n := Blanks(Segments(html, 0));
      AllRevealed(Upto(n), gaps) <==> n >= |gaps|
  {
  }

  /** Revealing never hides anything. */
  lemma RevealMonotone(revealed: set<int>, index: int, gaps: seq<string>)
    requires AllRevealed(revealed, gaps)
    ensures AllRevealed(revealed + {index}, gaps)
  {
    assert revealed <= revealed + {index};
    SubsetSize(revealed, revealed + {index});
  }

  lemma SubsetSize<T>(a: set<T>, b: set<T>)
    requires a <= b
    ensures |a| <= |b|
  {
    assert b == a + (b - a);
  }

  /** The component's state: the set of revealed gap numbers. */
  class FillBlank {
    const quiz: ParsedQuiz
    var revealedGaps: set<int>

    constructor(quiz: ParsedQuiz)
      ensures this.quiz == quiz && revealedGaps == {}
    {
      this.quiz := quiz;
      revealedGaps := {};
    }

    /** `revealGap`: adds the number; revealing stays revealed. */
    method RevealGap(index: int)
      modifies this
      ensures revealedGaps == old(revealedGaps) + {index}
      ensures old(AllRevealed(revealedGaps, quiz.gaps)) ==> AllRevealed(revealedGaps, quiz.gaps)
    {
      if AllRevealed(revealedGaps, quiz.gaps) {
        RevealMonotone(revealedGaps, index, quiz.gaps);
      }
      revealedGaps := revealedGaps + {index};
    }

    /** The common mistakes are listed once there are some and all gaps are revealed. */
    predicate MistakesShown()
      reads this
    {
      |quiz.mistakes| > 0 && AllRevealed(revealedGaps, quiz.gaps)
    }

    predicate ExplanationVisible()
      reads this
    {
      AllRevealed(revealedGaps, quiz.gaps)
    }

    predicate GapRevealed(index: int)
      reads this
    {
      index in revealedGaps
    }
  }

  /** A quiz without answers starts with everything shown. */
  lemma NoGapsStartRevealed(quiz: ParsedQuiz)
    requires quiz.gaps == []
    ensures AllRevealed({}, quiz.gaps)
  {
  }
}
