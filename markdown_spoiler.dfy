/**
 * The remark plugin for the Shoka spoiler syntax: in a text node, every
 * `!!content!!` becomes `<span class="spoiler">content</span>`, and an
 * attribute block `{.a .b}` right after it adds the classes `a b`. The
 * node is replaced in its parent by the text and HTML pieces in order.
 *
 * The global regular expression is modelled by the position where it
 * matches next (`NextSpoiler`), and the scan loop by a method that
 * advances `lastIndex` as the plugin does.
 */
module MarkdownSpoiler {
  import opened Common

  /** The phrasing nodes the plugin produces; `Other` stands for every other kind of child. */
  datatype Phrasing = TextNode(value: string) | HtmlNode(value: string) | Other

  /**
   * A spoiler starts at `p` (`/!!([^!\s](?:[^!]*[^!\s])?)!!/`): two `!`,
   * then a content that runs up to the next `!`, is non-empty and neither
   * starts nor ends with white space, then a second `!!`.
   */
  predicate SpoilerAt(text: string, p: nat) {
    p + 2 <= |text| && text[p] == '!' && text[p + 1] == '!' &&
    var q := FindChar(text, '!', p + 2);
    q.Some? && q.value > p + 2 && q.value + 1 < |text| && text[q.value + 1] == '!' &&
    !IsSpace(text[p + 2]) && !IsSpace(text[q.value - 1])
  }

  /** Where the content of the spoiler at `p` ends: the first `!` after the opening pair. */
  function ContentEnd(text: string, p: nat): (q: nat)
    requires SpoilerAt(text, p)
    ensures p + 2 < q && q + 1 < |text| && text[q] == '!' && text[q + 1] == '!'
  {
    FindChar(text, '!', p + 2).value
  }

  /** The content runs up to the first `!`: it holds none. */
  lemma ContentHasNoBang(text: string, p: nat)
    requires SpoilerAt(text, p)
    ensures forall k :: p + 2 <= k < ContentEnd(text, p) ==> text[k] != '!'
  {
    FindCharFirst(text, '!', p + 2);
  }

  /** The leftmost spoiler at or after `from`, as `exec` finds it. */
  function NextSpoiler(text: string, from: nat): (r: Option<nat>)
    requires from <= |text|
    ensures r.Some? ==> from <= r.value && SpoilerAt(text, r.value)
    decreases |text| - from
  {
    if from + 2 > |text| then None
    else if SpoilerAt(text, from) then Some(from)
    else NextSpoiler(text, from + 1)
  }

  /** `exec` finds the leftmost spoiler, and finds none only when there is none. */
  lemma {:induction false} NextSpoilerLeftmost(text: string, from: nat)
    requires from <= |text|
    ensures NextSpoiler(text, from).Some? ==> forall k :: from <= k < NextSpoiler(text, from).value ==> !SpoilerAt(text, k)
    ensures NextSpoiler(text, from).None? ==> forall k :: from <= k ==> !SpoilerAt(text, k)
    decreases |text| - from
  {
    if from + 2 <= |text| && !SpoilerAt(text, from) {
      NextSpoilerLeftmost(text, from + 1);
    }
  }

  /**
   * `/^\{([^}]+)\}/` on the text after a spoiler: an opening brace, a
   * non-empty run without `}`, then `}`; the run is returned.
   */
  function AttrBlock(after: string): (r: Option<string>)
    ensures r.Some? ==> 0 < |r.value| && |r.value| + 2 <= |after|
  {
    if |after| > 0 && after[0] == '{' then
      match FindChar(after, '}', 1)
      case None => None
      case Some(e) => if e > 1 then Some(after[1..e]) else None
    else None
  }

  /** An attribute block is the brace-enclosed run it returns, and that run holds no `}`. */
  lemma AttrBlockShape(after: string)
    requires AttrBlock(after).Some?
    ensures var raw := AttrBlock(after).value;
      after[..|raw| + 2] == "{" + raw + "}" && !HasChar(raw, '}')
  {
    var e := FindChar(after, '}', 1).value;
    var raw := after[1..e];
    FindCharFirst(after, '}', 1);
    assert after[..e + 1] == "{" + raw + "}";
    assert forall k :: 0 <= k < |raw| ==> raw[k] == after[k + 1];
  }

  /** No white space anywhere in `s`. */
  predicate NoSpace(s: string) {
    forall i :: 0 <= i < |s| ==> !IsSpace(s[i])
  }

  /** The first word of a text: its longest prefix without white space. */
  function Word(s: string): (w: string)
    ensures w <= s && NoSpace(w)
    ensures |w| == |s| || IsSpace(s[|w|])
    ensures s != [] && !IsSpace(s[0]) ==> |w| >= 1
  {
    if s == [] || IsSpace(s[0]) then [] else [s[0]] + Word(s[1..])
  }

  /** The words of a text: its maximal runs of non-space characters, in order. */
  function Words(s: string): (r: seq<string>)
    ensures forall w :: w in r ==> w != [] && NoSpace(w)
    decreases |s|
  {
    if s == [] then []
    else if IsSpace(s[0]) then Words(s[1..])
    else
      var w := Word(s);
      var rest := Words(s[|w|..]);
      assert forall x :: x in [w] + rest ==> x == w || x in rest;
      [w] + rest
  }

  /**
   * `extractClasses`: the tokens between white space that start with `.`,
   * without the dot. (`split(/\s+/)` also yields empty tokens at the
   * ends, which never start with a dot.)
   */
  function ExtractClasses(raw: string): (r: seq<string>)
    ensures forall c :: c in r ==> NoSpace(c)
  {
    DotTokens(Words(raw))
  }

  function DotTokens(words: seq<string>): (r: seq<string>)
    requires forall w :: w in words ==> NoSpace(w)
    ensures |r| <= |words|
    ensures forall c :: c in r ==> NoSpace(c)
  {
    if words == [] then []
    else if |words[0]| > 0 && words[0][0] == '.' then
      assert words[0] in words;
      var w0 := words[0];
      assert NoSpace(w0);
      assert NoSpace(w0[1..]) by {
        forall j | 0 <= j < |w0| - 1 ensures !IsSpace(w0[1..][j]) { assert w0[1..][j] == w0[j + 1]; assert !IsSpace(w0[j + 1]); }
      }
      assert forall w :: w in words[1..] ==> w in words;
      [words[0][1..]] + DotTokens(words[1..])
    else
      assert forall w :: w in words[1..] ==> w in words;
      DotTokens(words[1..])
  }

  /** The `class` attribute: `spoiler`, then the extra classes separated by spaces. */
  function SpoilerClasses(attrs: Option<string>): string {
    if attrs.None? then "spoiler"
    else
      var extra := ExtractClasses(attrs.value);
      if |extra| > 0 then "spoiler" + " " + Join(extra, " ") else "spoiler"
  }

  function SpoilerHtml(content: string, attrs: Option<string>): string {
    "<span class=\"" + SpoilerClasses(attrs) + "\">" + content + "</span>"
  }

  /** A piece of a scanned text: plain text, or a spoiler with its attribute block when one follows. */
  datatype Piece = Plain(text: string) | Spoiler(content: string, attrs: Option<string>)

  /** The text a piece was read from. */
  function Source(piece: Piece): string {
    match piece
    case Plain(t) => t
    case Spoiler(c, a) => "!!" + c + "!!" + (if a.Some? then "{" + a.value + "}" else "")
  }

  function Sources(pieces: seq<Piece>): string {
    if pieces == [] then "" else Source(pieces[0]) + Sources(pieces[1..])
  }

  /** Where scanning resumes after the spoiler at `p`: past the closing `!!` and any attribute block. */
  function ResumeAt(text: string, p: nat): (r: nat)
    requires SpoilerAt(text, p)
    ensures p < r <= |text|
  {
    var after := ContentEnd(text, p) + 2;
    var attrs := AttrBlock(text[after..]);
    if attrs.Some? then after + |attrs.value| + 2 else after
  }

  /** The plain piece for the stretch before a spoiler; none when the spoiler starts right away. */
  function Gap(text: string, from: nat, p: nat): (r: seq<Piece>)
    requires from <= p <= |text|
    ensures p > from ==> r == [Plain(text[from..p])]
    ensures p == from ==> r == []
  {
    if p > from then [Plain(text[from..p])] else []
  }

  lemma ResumeAfterAttrs(text: string, p: nat)
    requires SpoilerAt(text, p)
    ensures var q := ContentEnd(text, p);
      AttrBlock(text[q + 2..]).None? ==> ResumeAt(text, p) == q + 2
    ensures var q := ContentEnd(text, p);
      AttrBlock(text[q + 2..]).Some? ==> ResumeAt(text, p) == q + 2 + |AttrBlock(text[q + 2..]).value| + 2
  {
  }

  /** The pieces of `text[from..]`: plain stretches (never empty) and spoilers, in order. */
  function Pieces(text: string, from: nat): (r: seq<Piece>)
    requires from <= |text|
    decreases |text| - from
  {
    match NextSpoiler(text, from)
    case None => if from < |text| then [Plain(text[from..])] else []
    case Some(p) =>
      var q := ContentEnd(text, p);
      var attrs := AttrBlock(text[q + 2..]);
      Gap(text, from, p) + [Spoiler(text[p + 2..q], attrs)] + Pieces(text, ResumeAt(text, p))
  }

  /** One step of the scan: the stretch before the next spoiler, the spoiler, then the pieces after it. */
  lemma PiecesStep(text: string, from: nat, p: nat)
    requires from <= |text| && NextSpoiler(text, from) == Some(p)
    ensures var q := ContentEnd(text, p);
      Pieces(text, from) ==
        Gap(text, from, p) +
        [Spoiler(text[p + 2..q], AttrBlock(text[q + 2..]))] +
        Pieces(text, ResumeAt(text, p))
  {
  }

  lemma SourcesAppend(a: seq<Piece>, b: seq<Piece>)
    ensures Sources(a + b) == Sources(a) + Sources(b)
  {
    if a != [] {
      assert (a + b)[1..] == a[1..] + b;
      SourcesAppend(a[1..], b);
    } else {
      assert a + b == b;
    }
  }

  lemma SourcesOne(piece: Piece)
    ensures Sources([piece]) == Source(piece)
  {
    assert [piece][1..] == [];
  }

  lemma SourcesSnoc(head: seq<Piece>, piece: Piece, x: string, y: string)
    requires Sources(head) == x && Source(piece) == y
    ensures Sources(head + [piece]) == x + y
  {
    SourcesAppend(head, [piece]);
    SourcesOne(piece);
  }

  lemma SourcesConcat(a: seq<Piece>, b: seq<Piece>, x: string, y: string)
    requires Sources(a) == x && Sources(b) == y
    ensures Sources(a + b) == x + y
  {
    SourcesAppend(a, b);
  }

  lemma SliceJoin(text: string, from: nat, p: nat, next: nat)
    requires from <= p < next <= |text|
    ensures text[from..p] + text[p..next] + text[next..] == text[from..]
  {
  }

  /** Pieces read from three consecutive stretches of the text give back the three stretches. */
  lemma SourcesOfStep(text: string, from: nat, p: nat, next: nat, head: seq<Piece>, piece: Piece, rest: seq<Piece>)
    requires from <= p < next <= |text|
    requires Sources(head) == text[from..p] && Source(piece) == text[p..next] && Sources(rest) == text[next..]
    ensures Sources(head + [piece] + rest) == text[from..]
  {
    SourcesSnoc(head, piece, text[from..p], text[p..next]);
    SourcesConcat(head + [piece], rest, text[from..p] + text[p..next], text[next..]);
    SliceJoin(text, from, p, next);
  }

  /** The source of the spoiler found at `p` is exactly the text from `p` to where scanning resumes. */
  lemma SpoilerSource(text: string, p: nat)
    requires SpoilerAt(text, p)
    ensures var q := ContentEnd(text, p);
      Source(Spoiler(text[p + 2..q], AttrBlock(text[q + 2..]))) == text[p..ResumeAt(text, p)]
  {
    var q := ContentEnd(text, p);
    var after := text[q + 2..];
    var attrs := AttrBlock(after);
    assert text[p..q + 2] == "!!" + text[p + 2..q] + "!!";
    if attrs.Some? {
      AttrBlockShape(after);
      var e := q + 2 + |attrs.value| + 2;
      assert text[q + 2..e] == after[..|attrs.value| + 2];
      assert text[p..e] == text[p..q + 2] + text[q + 2..e];
    }
  }

  /** With no spoiler left, the rest of the text is one plain piece. */
  lemma RebuildLast(text: string, from: nat)
    requires from <= |text| && NextSpoiler(text, from).None?
    ensures Sources(Pieces(text, from)) == text[from..]
  {
    if from < |text| {
      assert Pieces(text, from) == [Plain(text[from..])];
      SourcesOne(Plain(text[from..]));
    }
  }

  /** If the pieces after a spoiler rebuild their stretch, the pieces from `from` rebuild theirs. */
  lemma RebuildStep(text: string, from: nat, p: nat)
    requires from <= |text| && NextSpoiler(text, from) == Some(p)
    requires Sources(Pieces(text, ResumeAt(text, p))) == text[ResumeAt(text, p)..]
    ensures Sources(Pieces(text, from)) == text[from..]
  {
    var q := ContentEnd(text, p);
    var head := Gap(text, from, p);
    var hit := Spoiler(text[p + 2..q], AttrBlock(text[q + 2..]));
    PiecesStep(text, from, p);
    SpoilerSource(text, p);
    if p > from {
      SourcesOne(Plain(text[from..p]));
    }
    SourcesOfStep(text, from, p, ResumeAt(text, p), head, hit, Pieces(text, ResumeAt(text, p)));
  }

  /** Joining the pieces' sources gives back the scanned text. */
  lemma {:induction false} PiecesRebuildText(text: string, from: nat)
    requires from <= |text|
    ensures Sources(Pieces(text, from)) == text[from..]
    decreases |text| - from
  {
    var m := NextSpoiler(text, from);
    if m.None? {
      RebuildLast(text, from);
    } else {
      PiecesRebuildText(text, ResumeAt(text, m.value));
      RebuildStep(text, from, m.value);
    }
  }

  /** Every spoiler content obeys the syntax; plain pieces are never empty. */
  lemma {:induction false} PiecesWellFormed(text: string, from: nat)
    requires from <= |text|
    ensures forall i :: 0 <= i < |Pieces(text, from)| ==> WellFormed(Pieces(text, from)[i])
    decreases |text| - from
  {
    match NextSpoiler(text, from)
    case None =>
    case Some(p) =>
      var q := ContentEnd(text, p);
      PiecesStep(text, from, p);
      ContentHasNoBang(text, p);
      PiecesWellFormed(text, ResumeAt(text, p));
      var c := text[p + 2..q];
      assert !HasChar(c, '!') by {
        forall k | 0 <= k < |c| ensures c[k] != '!' { assert c[k] == text[p + 2 + k]; }
      }
  }

  /** A spoiler's content is non-empty, has no `!`, and has no white space at either end; plain text is non-empty. */
  predicate WellFormed(piece: Piece) {
    match piece
    case Plain(t) => t != []
    case Spoiler(c, _) => c != [] && !HasChar(c, '!') && !IsSpace(c[0]) && !IsSpace(c[|c| - 1])
  }

  function Render(piece: Piece): Phrasing {
    match piece
    case Plain(t) => TextNode(t)
    case Spoiler(c, a) => HtmlNode(SpoilerHtml(c, a))
  }

  function RenderAll(pieces: seq<Piece>): (r: seq<Phrasing>)
    ensures |r| == |pieces|
  {
    if pieces == [] then [] else [Render(pieces[0])] + RenderAll(pieces[1..])
  }

  lemma {:induction false} RenderAllAppend(a: seq<Piece>, b: seq<Piece>)
    ensures RenderAll(a + b) == RenderAll(a) + RenderAll(b)
    decreases |a|
  {
    if a == [] {
      assert a + b == b;
    } else {
      assert (a + b)[0] == a[0] && (a + b)[1..] == a[1..] + b;
      RenderAllAppend(a[1..], b);
    }
  }

  lemma RenderOne(piece: Piece)
    ensures RenderAll([piece]) == [Render(piece)]
  {
    assert [piece][1..] == [];
  }

  /** Rendering pieces read as plain text, a spoiler and the rest. */
  lemma RenderStep(head: seq<Piece>, piece: Piece, rest: seq<Piece>, x: seq<Phrasing>, z: seq<Phrasing>)
    requires RenderAll(head) == x && RenderAll(rest) == z
    ensures RenderAll(head + [piece] + rest) == x + [Render(piece)] + z
  {
    RenderAllAppend(head + [piece], rest);
    RenderAllAppend(head, [piece]);
    RenderOne(piece);
  }

  /** The parts produced before a spoiler, a text part for the stretch before it and its HTML extend the rendering by one step. */
  lemma ScanStepAfterText(text: string, from: nat, p: nat, before: seq<Phrasing>, whole: seq<Phrasing>, html: string, next: nat)
    requires from <= |text| && NextSpoiler(text, from) == Some(p) && p > from
    requires before + RenderAll(Pieces(text, from)) == whole
    requires html == SpoilerHtml(text[p + 2..ContentEnd(text, p)], AttrBlock(text[ContentEnd(text, p) + 2..]))
    requires next == ResumeAt(text, p)
    ensures before + [TextNode(text[from..p])] + [HtmlNode(html)] + RenderAll(Pieces(text, next)) == whole
  {
    var q := ContentEnd(text, p);
    var hit := Spoiler(text[p + 2..q], AttrBlock(text[q + 2..]));
    PiecesStep(text, from, p);
    RenderOne(Plain(text[from..p]));
    ExtendRendering(before, Pieces(text, from), [Plain(text[from..p])], hit, Pieces(text, next), whole);
  }

  /** The same step for a spoiler that starts where the previous one ended: no text part. */
  lemma ScanStepAdjacent(text: string, from: nat, p: nat, before: seq<Phrasing>, whole: seq<Phrasing>, html: string, next: nat)
    requires from <= |text| && NextSpoiler(text, from) == Some(p) && p == from
    requires before + RenderAll(Pieces(text, from)) == whole
    requires html == SpoilerHtml(text[p + 2..ContentEnd(text, p)], AttrBlock(text[ContentEnd(text, p) + 2..]))
    requires next == ResumeAt(text, p)
    ensures before + [HtmlNode(html)] + RenderAll(Pieces(text, next)) == whole
  {
    var q := ContentEnd(text, p);
    var hit := Spoiler(text[p + 2..q], AttrBlock(text[q + 2..]));
    PiecesStep(text, from, p);
    ExtendRendering(before, Pieces(text, from), [], hit, Pieces(text, next), whole);
  }

  /** If `all` is `head`, a piece and `rest`, then so is its rendering. */
  lemma ExtendRendering(before: seq<Phrasing>, all: seq<Piece>, head: seq<Piece>, piece: Piece, rest: seq<Piece>, whole: seq<Phrasing>)
    requires before + RenderAll(all) == whole && all == head + [piece] + rest
    ensures before + RenderAll(head) + [Render(piece)] + RenderAll(rest) == whole
  {
    RenderStep(head, piece, rest, RenderAll(head), RenderAll(rest));
    PrependAssoc(before, RenderAll(head), [Render(piece)], RenderAll(rest));
  }

  lemma PrependAssoc<T>(a: seq<T>, b: seq<T>, c: seq<T>, d: seq<T>)
    ensures a + (b + c + d) == a + b + c + d
  {
  }

  /** When no spoiler is left, the rendering ends with the rest of the text, if any. */
  lemma ScanEnd(text: string, from: nat, before: seq<Phrasing>, whole: seq<Phrasing>)
    requires from <= |text| && NextSpoiler(text, from).None?
    requires before + RenderAll(Pieces(text, from)) == whole
    ensures before + (if from < |text| then [TextNode(text[from..])] else []) == whole
  {
    if from < |text| {
      assert Pieces(text, from) == [Plain(text[from..])];
      RenderOne(Plain(text[from..]));
    }
  }

  /**
   * The body of the scan loop for a match at `p`: the classes from a
   * following attribute block, the span's HTML, and the index after the
   * match and the block.
   */
  method SpoilerSpan(text: string, p: nat) returns (html: string, next: nat)
    requires SpoilerAt(text, p)
    ensures var q := ContentEnd(text, p);
      html == SpoilerHtml(text[p + 2..q], AttrBlock(text[q + 2..]))
    ensures next == ResumeAt(text, p)
  {
    var q := ContentEnd(text, p);
    var classes := "spoiler";
    next := q + 2;
    var attrMatch := AttrBlock(text[q + 2..]);
    ResumeAfterAttrs(text, p);
    if attrMatch.Some? {
      var extra := ExtractClasses(attrMatch.value);
      if |extra| > 0 {
        classes := classes + " " + Join(extra, " ");
      }
      next := next + |attrMatch.value| + 2;
    }
    html := "<span class=\"" + classes + "\">" + text[p + 2..q] + "</span>";
  }

  /**
   * One pass of the scan loop for the match at `p`: a text part for the
   * stretch since `lastIndex` when there is one, then the spoiler's HTML;
   * `next` is where the regular expression resumes.
   */
  method EmitMatch(text: string, lastIndex: nat, p: nat, parts: seq<Phrasing>, ghost whole: seq<Phrasing>)
    returns (parts': seq<Phrasing>, next: nat)
    requires lastIndex <= |text| && NextSpoiler(text, lastIndex) == Some(p)
    requires parts + RenderAll(Pieces(text, lastIndex)) == whole
    ensures lastIndex < next <= |text| && parts' != []
    ensures parts' + RenderAll(Pieces(text, next)) == whole
  {
    parts' := parts;
    if p > lastIndex {
      parts' := parts' + [TextNode(text[lastIndex..p])];
    }
    var html;
    html, next := SpoilerSpan(text, p);
    parts' := parts' + [HtmlNode(html)];
    if p > lastIndex {
      ScanStepAfterText(text, lastIndex, p, parts, whole, html, next);
    } else {
      ScanStepAdjacent(text, lastIndex, p, parts, whole, html, next);
    }
  }

  /**
   * The scan loop of the plugin: `exec` from the regular expression's
   * `lastIndex`, a text part for the stretch before each match, the
   * spoiler's HTML, and `lastIndex` moved past a consumed attribute block.
   * No part is produced when nothing matches; otherwise the rest of the
   * text follows as a last text part.
   */
  method SpoilerParts(text: string) returns (parts: seq<Phrasing>)
    ensures NextSpoiler(text, 0).None? ==> parts == []
    ensures NextSpoiler(text, 0).Some? ==> parts == RenderAll(Pieces(text, 0))
  {
    parts := [];
    var regexLastIndex := 0;
    var lastIndex := 0;
    var match_ := NextSpoiler(text, regexLastIndex);
    ghost var whole := RenderAll(Pieces(text, 0));
    while match_.Some?
      invariant lastIndex == regexLastIndex <= |text|
      invariant match_ == NextSpoiler(text, regexLastIndex)
      invariant parts == [] <==> lastIndex == 0
      invariant parts + RenderAll(Pieces(text, lastIndex)) == whole
      invariant parts != [] ==> NextSpoiler(text, 0).Some?
      decreases |text| - regexLastIndex
    {
      parts, regexLastIndex := EmitMatch(text, lastIndex, match_.value, parts, whole);
      lastIndex := regexLastIndex;
      match_ := NextSpoiler(text, regexLastIndex);
    }
    if |parts| == 0 {
      return;
    }
    ScanEnd(text, lastIndex, parts, whole);
    if lastIndex < |text| {
      parts := parts + [TextNode(text[lastIndex..])];
    }
  }

  /**
   * The visitor for one text node: skipped without an index or a parent;
   * left alone when nothing matched; otherwise replaced in its parent's
   * children by the parts.
   */
  method VisitText(text: string, index: Option<nat>, children: Option<seq<Phrasing>>) returns (r: Option<seq<Phrasing>>)
    requires index.Some? && children.Some? ==> index.value < |children.value| && children.value[index.value] == TextNode(text)
    ensures index.None? || children.None? ==> r == children
    ensures NextSpoiler(text, 0).None? ==> r == children
    ensures index.Some? && children.Some? && NextSpoiler(text, 0).Some? ==>
      var cs := children.value;
      r == Some(cs[..index.value] + RenderAll(Pieces(text, 0)) + cs[index.value + 1..])
  {
    if index.None? || children.None? {
      return children;
    }
    var parts := SpoilerParts(text);
    if |parts| == 0 {
      return children;
    }
    var cs := children.value;
    r := Some(cs[..index.value] + parts + cs[index.value + 1..]);
  }
}
