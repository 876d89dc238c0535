/**
 * The front matter form of the in-browser editor: the text shown for a
 * post's categories and how typed text is parsed back into categories
 * and tags, and the field updates each control emits.
 */
module CmsFrontmatterEditor {
  import opened Common
  import opened CmsJson

  /** One entry of `categories`: a single name, or a path of names from the top level down. */
  datatype Category = Name(name: string) | Path(levels: seq<string>)

  const LevelSep := " > "

  function FormatCategory(c: Category): string {
    match c
    case Name(n) => n
    case Path(levels) => Join(levels, LevelSep)
  }

  function FormattedParts(cats: seq<Category>): (r: seq<string>)
    ensures |r| == |cats| && forall i :: 0 <= i < |cats| ==> r[i] == FormatCategory(cats[i])
  {
    seq(|cats|, i requires 0 <= i < |cats| => FormatCategory(cats[i]))
  }

  /** `formatCategoryDisplay`; absent categories show as an empty list does. */
  function FormatCategoryDisplay(cats: seq<Category>): string {
    if cats == [] then "" else Join(FormattedParts(cats), ", ")
  }

  /** One comma-separated part, once some part has several levels. */
  function ParsePart(p: string): Category {
    if Contains(p, LevelSep) then Path(TrimAll(Split(p, LevelSep))) else Path([p])
  }

  /**
   * `parseCategoryInput`: nothing for blank input; otherwise the trimmed
   * comma-separated parts (empty ones kept), all as paths as soon as one
   * of them has a ` > `, else all as names.
   */
  function ParseCategoryInput(input: string): seq<Category> {
    if Trim(input) == "" then []
    else
      var parts := TrimAll(Split(input, ","));
      if AnyMultiLevel(parts) then AsPaths(parts) else AsNames(parts)
  }

  predicate AnyMultiLevel(parts: seq<string>) {
    exists i :: 0 <= i < |parts| && Contains(parts[i], LevelSep)
  }

  function AsPaths(parts: seq<string>): (r: seq<Category>)
    ensures |r| == |parts| && forall i :: 0 <= i < |parts| ==> r[i] == ParsePart(parts[i])
  {
    seq(|parts|, i requires 0 <= i < |parts| => ParsePart(parts[i]))
  }

  function AsNames(parts: seq<string>): (r: seq<Category>)
    ensures |r| == |parts| && forall i :: 0 <= i < |parts| ==> r[i] == Name(parts[i])
  {
    seq(|parts|, i requires 0 <= i < |parts| => Name(parts[i]))
  }

  /** `input.split(',').map(t => t.trim()).filter(Boolean)` for tags. */
  function ParseTags(input: string): (r: seq<string>)
    ensures forall i :: 0 <= i < |r| ==> CleanPart(r[i])
  {
    var pieces := Split(input, ",");
    var trimmed := TrimAll(pieces);
    TrimmedPiecesClean(pieces);
    NonEmptyClean(trimmed);
    NonEmpty(trimmed)
  }

  // ---------------------------------------------------------------------
  // Facts about the separators

  /** Trimming keeps a character out. */
  lemma TrimNoChar(s: string, c: char)
    requires !Contains(s, [c])
    ensures !HasChar(Trim(s), c)
  {
    ContainsChar(s, c);
    var t := TrimStart(s);
    TrimStartShape(s);
    SliceNoChar(s, c, |s| - |t|, |s|);
    assert t == s[|s| - |t|..|s|];
    var r := TrimEnd(t);
    TrimEndShape(t);
    SliceNoChar(t, c, 0, |r|);
    assert r == t[0..|r|];
  }

  /** A non-empty, trimmed, comma-free part of a comma-separated list. */
  predicate CleanPart(x: string) {
    x != [] && IsTrimmed(x) && !HasChar(x, ',')
  }

  lemma TrimmedPiecesClean(pieces: seq<string>)
    requires forall i :: 0 <= i < |pieces| ==> !Contains(pieces[i], ",")
    ensures forall i :: 0 <= i < |pieces| ==> TrimAll(pieces)[i] == [] || CleanPart(TrimAll(pieces)[i])
  {
    forall i | 0 <= i < |pieces| ensures !HasChar(Trim(pieces[i]), ',') {
      TrimNoChar(pieces[i], ',');
    }
  }

  lemma {:induction false} NonEmptyClean(parts: seq<string>)
    requires forall i :: 0 <= i < |parts| ==> parts[i] == [] || CleanPart(parts[i])
    ensures forall i :: 0 <= i < |NonEmpty(parts)| ==> CleanPart(NonEmpty(parts)[i])
  {
    if parts != [] {
      NonEmptyClean(parts[1..]);
    }
  }

  /** A name usable on either side of ` > `. */
  predicate GoodName(n: string) {
    n != [] && IsTrimmed(n) && !HasChar(n, ',') && !HasChar(n, '>')
  }

  lemma GoodNameSafe(n: string)
    requires GoodName(n)
    ensures !Contains(n, LevelSep)
    ensures SafeBeforeSep(n, LevelSep)
  {
    assert LevelSep[0] == ' ' && LevelSep[1] == '>';
    forall j | 0 < j < |LevelSep| && j <= |n| ensures n[|n| - j..] != LevelSep[..j] {
      assert n[|n| - j..][j - 1] == n[|n| - 1];
      assert LevelSep[..j][j - 1] == LevelSep[j - 1];
    }
  }

  /** Joining with ` > ` puts a separator in exactly when there are two levels or more. */
  lemma JoinedLevels(levels: seq<string>)
    requires levels != [] && forall i :: 0 <= i < |levels| ==> GoodName(levels[i])
    ensures |levels| >= 2 <==> Contains(Join(levels, LevelSep), LevelSep)
    ensures Split(Join(levels, LevelSep), LevelSep) == levels
  {
    forall i | 0 <= i < |levels| ensures SafeBeforeSep(levels[i], LevelSep) && !Contains(levels[i], LevelSep) {
      GoodNameSafe(levels[i]);
    }
    SplitJoin(levels, LevelSep);
    if |levels| >= 2 {
      var j := Join(levels, LevelSep);
      assert j == levels[0] + LevelSep + Join(levels[1..], LevelSep);
      assert MatchAt(j, LevelSep, |levels[0]|) by {
        assert j[|levels[0]|..|levels[0]| + 3] == LevelSep;
      }
    }
  }

  /** The joined path starts with the first level's first character and ends with the last level's last one, and has no comma. */
  lemma {:induction false} JoinedLevelsEnds(levels: seq<string>)
    requires levels != [] && levels[0] != [] && levels[|levels| - 1] != []
    requires forall i :: 0 <= i < |levels| ==> GoodName(levels[i])
    ensures var j := Join(levels, LevelSep);
      j != [] && j[0] == levels[0][0] && j[|j| - 1] == levels[|levels| - 1][|levels[|levels| - 1]| - 1] &&
      !HasChar(j, ',')
    decreases |levels|
  {
    if |levels| >= 2 {
      JoinedLevelsEnds(levels[1..]);
      var rest := Join(levels[1..], LevelSep);
      var j := levels[0] + LevelSep + rest;
      assert Join(levels, LevelSep) == j;
      assert j[|j| - 1] == rest[|rest| - 1];
      forall i | 0 <= i < |j| ensures j[i] != ',' {
        if i < |levels[0]| { assert j[i] == levels[0][i]; }
        else if i < |levels[0]| + 3 { assert j[i] == LevelSep[i - |levels[0]|]; }
        else { assert j[i] == rest[i - |levels[0]| - 3]; }
      }
    }
  }

  /** Every element with a space in front. */
  function SpaceAll(xs: seq<string>): (r: seq<string>)
    ensures |r| == |xs| && forall i :: 0 <= i < |xs| ==> r[i] == " " + xs[i]
  {
    seq(|xs|, i requires 0 <= i < |xs| => " " + xs[i])
  }

  /** `parts.join(', ')` read as pieces split on `,`: the first part, then the others each behind a space. */
  function Spaced(parts: seq<string>): seq<string>
    requires parts != []
  {
    [parts[0]] + SpaceAll(parts[1..])
  }

  lemma {:induction false} SpaceJoin(rest: seq<string>)
    requires rest != []
    ensures " " + Join(rest, ", ") == Join(SpaceAll(rest), ",")
    decreases |rest|
  {
    if |rest| >= 2 {
      SpaceJoin(rest[1..]);
      assert SpaceAll(rest)[1..] == SpaceAll(rest[1..]);
      assert " " + Join(rest, ", ") == (" " + rest[0]) + "," + (" " + Join(rest[1..], ", "));
    }
  }

  lemma CommaSpaceJoin(parts: seq<string>)
    requires parts != []
    ensures Join(parts, ", ") == Join(Spaced(parts), ",")
  {
    if |parts| >= 2 {
      SpaceJoin(parts[1..]);
      assert Spaced(parts)[1..] == SpaceAll(parts[1..]);
      assert Join(parts, ", ") == parts[0] + "," + (" " + Join(parts[1..], ", "));
    }
  }

  /** A trimmed non-empty string behind one space trims back to itself. */
  lemma TrimSpaced(p: string)
    requires p != [] && IsTrimmed(p)
    ensures Trim(" " + p) == p
  {
    TrimStartSpace(p);
    TrimTrimmed(p);
  }

  lemma TrimStartSpace(p: string)
    ensures TrimStart(" " + p) == TrimStart(p)
  {
    var q := " " + p;
    assert q[0] == ' ' && q[1..] == p;
  }

  /** The pieces of `Spaced(parts)` are comma-free and trim back to the parts. */
  lemma SpacedPieces(parts: seq<string>)
    requires parts != [] && forall i :: 0 <= i < |parts| ==> CleanPart(parts[i])
    ensures forall i :: 0 <= i < |Spaced(parts)| ==> !HasChar(Spaced(parts)[i], ',')
    ensures TrimAll(Spaced(parts)) == parts
  {
    var sp := Spaced(parts);
    forall i | 0 <= i < |sp| ensures !HasChar(sp[i], ',') && Trim(sp[i]) == parts[i] {
      if i == 0 {
        TrimTrimmed(parts[0]);
      } else {
        assert sp[i] == " " + parts[i];
        TrimSpaced(parts[i]);
        forall k | 0 <= k < |sp[i]| ensures sp[i][k] != ',' {
          if k > 0 { assert sp[i][k] == parts[i][k - 1]; }
        }
      }
    }
    var t := TrimAll(sp);
    assert forall i :: 0 <= i < |t| ==> t[i] == parts[i];
  }

  lemma {:induction false} JoinFirst(parts: seq<string>, sep: string)
    requires parts != [] && parts[0] != []
    ensures Join(parts, sep) != [] && Join(parts, sep)[0] == parts[0][0]
  {
    if |parts| >= 2 {
      assert Join(parts, sep) == parts[0] + (sep + Join(parts[1..], sep));
    }
  }

  /**
   * Comma-free, trimmed, non-empty parts joined with `, ` come back from
   * splitting on `,` and trimming each piece.
   */
  lemma CommaRoundTrip(parts: seq<string>)
    requires parts != [] && forall i :: 0 <= i < |parts| ==> CleanPart(parts[i])
    ensures TrimAll(Split(Join(parts, ", "), ",")) == parts
    ensures Trim(Join(parts, ", ")) != ""
  {
    var sp := Spaced(parts);
    var j := Join(parts, ", ");
    assert Split(j, ",") == sp by {
      SpacedPieces(parts);
      forall i | 0 <= i < |sp| ensures SafeBeforeSep(sp[i], ",") {
        SingleCharSafe(sp[i], ',');
      }
      SplitJoin(sp, ",");
      CommaSpaceJoin(parts);
    }
    assert TrimAll(sp) == parts by {
      SpacedPieces(parts);
    }
    assert Trim(j) != "" by {
      JoinFirst(parts, ", ");
      TrimEmptyIff(j);
    }
  }

  // ---------------------------------------------------------------------
  // The round trip between the display text and the categories

  /** A flat list of names. */
  predicate Flat(cats: seq<Category>) {
    forall i :: 0 <= i < |cats| ==> cats[i].Name? && GoodName(cats[i].name)
  }

  /** A path of at least one level, every level a good name. */
  predicate GoodPath(c: Category) {
    c.Path? && c.levels != [] && forall k :: 0 <= k < |c.levels| ==> GoodName(c.levels[k])
  }

  /** A list of paths, at least one of them with two levels or more. */
  predicate Nested(cats: seq<Category>) {
    (forall i :: 0 <= i < |cats| ==> GoodPath(cats[i])) &&
    exists i :: 0 <= i < |cats| && cats[i].Path? && |cats[i].levels| >= 2
  }

  /** The displayed part of a path: clean, with a ` > ` exactly when it has two levels, and parsed back to the path. */
  lemma PathShape(c: Category)
    requires GoodPath(c)
    ensures CleanPart(FormatCategory(c))
    ensures Contains(FormatCategory(c), LevelSep) <==> |c.levels| >= 2
    ensures ParsePart(FormatCategory(c)) == c
  {
    var levels := c.levels;
    var p := FormatCategory(c);
    assert p == Join(levels, LevelSep);
    assert CleanPart(p) by {
      assert GoodName(levels[0]) && GoodName(levels[|levels| - 1]);
      JoinedLevelsEnds(levels);
    }
    assert Split(p, LevelSep) == levels && (Contains(p, LevelSep) <==> |levels| >= 2) by {
      JoinedLevels(levels);
    }
    if |levels| >= 2 {
      assert TrimAll(levels) == levels by {
        forall k | 0 <= k < |levels| ensures Trim(levels[k]) == levels[k] {
          TrimTrimmed(levels[k]);
        }
      }
    } else {
      assert levels == [levels[0]];
    }
  }

  /**
   * Parsing the displayed text gives the categories back, for a flat list
   * of names or a list of paths with at least one multi-level path, when
   * the names are non-empty, trimmed and free of `,` and `>`.
   */
  lemma CategoryRoundTrip(cats: seq<Category>)
    requires Flat(cats) || Nested(cats)
    ensures ParseCategoryInput(FormatCategoryDisplay(cats)) == cats
  {
    if cats != [] {
      if Flat(cats) {
        FlatRoundTrip(cats);
      } else {
        NestedRoundTrip(cats);
      }
    }
  }

  /** Clean parts shown joined with `, ` are parsed part by part. */
  lemma ParseCleanJoin(parts: seq<string>)
    requires parts != [] && forall i :: 0 <= i < |parts| ==> CleanPart(parts[i])
    ensures ParseCategoryInput(Join(parts, ", ")) == if AnyMultiLevel(parts) then AsPaths(parts) else AsNames(parts)
  {
    CommaRoundTrip(parts);
  }

  lemma FlatRoundTrip(cats: seq<Category>)
    requires cats != [] && Flat(cats)
    ensures ParseCategoryInput(FormatCategoryDisplay(cats)) == cats
  {
    var parts := FormattedParts(cats);
    forall i | 0 <= i < |parts| ensures CleanPart(parts[i]) && !Contains(parts[i], LevelSep) {
      GoodNameSafe(cats[i].name);
    }
    ParseCleanJoin(parts);
    assert AsNames(parts) == cats;
  }

  lemma NestedRoundTrip(cats: seq<Category>)
    requires Nested(cats)
    ensures ParseCategoryInput(FormatCategoryDisplay(cats)) == cats
  {
    NestedParts(cats);
    ParseCleanJoin(FormattedParts(cats));
  }

  /** The displayed parts of nested categories are clean, one of them has a ` > `, and each parses back as a path. */
  lemma NestedParts(cats: seq<Category>)
    requires Nested(cats)
    ensures var parts := FormattedParts(cats);
      parts != [] && (forall i :: 0 <= i < |parts| ==> CleanPart(parts[i])) &&
      AnyMultiLevel(parts) && AsPaths(parts) == cats
  {
    var parts := FormattedParts(cats);
    assert forall i :: 0 <= i < |parts| ==> CleanPart(parts[i]) by {
      forall i | 0 <= i < |parts| ensures CleanPart(parts[i]) {
        PathShape(cats[i]);
      }
    }
    assert AnyMultiLevel(parts) by {
      var m :| 0 <= m < |cats| && cats[m].Path? && |cats[m].levels| >= 2;
      PathShape(cats[m]);
    }
    assert AsPaths(parts) == cats by {
      forall i | 0 <= i < |parts| ensures ParsePart(parts[i]) == cats[i] {
        PathShape(cats[i]);
      }
    }
  }

  /**
   * Text mixing a plain name and a two-level path parses to two paths,
   * `[[a], [b, c]]`, not to the mixed `[a, [b, c]]` the function's own
   * documentation shows.
   */
  lemma MixedInputAllPaths(a: string, b: string, c: string)
    requires GoodName(a) && GoodName(b) && GoodName(c)
    ensures ParseCategoryInput(a + ", " + b + LevelSep + c) == [Path([a]), Path([b, c])]
  {
    var cats := [Path([a]), Path([b, c])];
    assert GoodPath(cats[0]) && GoodPath(cats[1]);
    assert Nested(cats) by {
      assert cats[1].Path? && |cats[1].levels| >= 2;
    }
    assert FormatCategoryDisplay(cats) == a + ", " + b + LevelSep + c by {
      assert Join([b, c], LevelSep) == b + LevelSep + Join([c], LevelSep);
      assert FormattedParts(cats) == [a, b + LevelSep + c];
      assert Join([a, b + LevelSep + c], ", ") == a + ", " + Join([b + LevelSep + c], ", ");
    }
    NestedRoundTrip(cats);
  }

  /** Comma-free, trimmed, non-empty tags shown joined with `, ` parse back to themselves. */
  lemma TagRoundTrip(tags: seq<string>)
    requires forall i :: 0 <= i < |tags| ==> tags[i] != [] && IsTrimmed(tags[i]) && !HasChar(tags[i], ',')
    ensures ParseTags(Join(tags, ", ")) == tags
  {
    if tags == [] {
      EmptyTags();
    } else {
      var j := Join(tags, ", ");
      CommaRoundTrip(tags);
      NonEmptyAll(tags);
      assert ParseTags(j) == NonEmpty(TrimAll(Split(j, ",")));
    }
  }

  /** Empty input has no tags. */
  lemma EmptyTags()
    ensures ParseTags("") == []
  {
    assert Split("", ",") == [""];
    var t := TrimAll([""]);
    assert t[0] == Trim("") == "";
    assert NonEmpty(t) == [];
  }

  lemma {:induction false} NonEmptyAll(parts: seq<string>)
    requires forall i :: 0 <= i < |parts| ==> parts[i] != []
    ensures NonEmpty(parts) == parts
  {
    if parts != [] {
      NonEmptyAll(parts[1..]);
      assert [parts[0]] + parts[1..] == parts;
    }
  }

  /** Blank input clears the categories and the tags. */
  lemma BlankInput(input: string)
    requires AllSpace(input)
    ensures ParseCategoryInput(input) == [] && ParseTags(input) == []
  {
    TrimEmptyIff(input);
    var pieces := Split(input, ",");
    assert forall i :: 0 <= i < |pieces| ==> TrimAll(pieces)[i] == [] by {
      forall i | 0 <= i < |pieces| ensures Trim(pieces[i]) == [] {
        BlankPieces(input, i);
        TrimEmptyIff(pieces[i]);
      }
    }
    NonEmptyOfEmpties(TrimAll(pieces));
  }

  lemma {:induction false} NonEmptyOfEmpties(parts: seq<string>)
    requires forall i :: 0 <= i < |parts| ==> parts[i] == []
    ensures NonEmpty(parts) == []
  {
    if parts != [] {
      NonEmptyOfEmpties(parts[1..]);
    }
  }

  /** The pieces of blank text are blank. */
  lemma {:induction false} BlankPieces(input: string, i: nat)
    requires AllSpace(input) && i < |Split(input, ",")|
    ensures AllSpace(Split(input, ",")[i])
    decreases |input|
  {
    match IndexOf(input, ",")
    case None =>
    case Some(k) =>
      if i > 0 {
        var rest := input[k + 1..];
        assert AllSpace(rest) by {
          forall j | 0 <= j < |rest| ensures IsSpace(rest[j]) { assert rest[j] == input[k + 1 + j]; }
        }
        BlankPieces(rest, i - 1);
      }
  }

  // ---------------------------------------------------------------------
  // The record the form edits

  /** A category as the record stores it: a string, or an array of strings. */
  function CategoryValue(c: Category): Value {
    match c
    case Name(n) => Str(n)
    case Path(levels) => Arr(StrItems(levels))
  }

  function StrItems(xs: seq<string>): (r: seq<Value>)
    ensures |r| == |xs| && forall i :: 0 <= i < |xs| ==> r[i] == Str(xs[i])
  {
    seq(|xs|, i requires 0 <= i < |xs| => Str(xs[i]))
  }

  function CategoriesValue(cats: seq<Category>): (r: Value)
    ensures r.Arr? && |r.items| == |cats| && forall i :: 0 <= i < |cats| ==> r.items[i] == CategoryValue(cats[i])
  {
    Arr(seq(|cats|, i requires 0 <= i < |cats| => CategoryValue(cats[i])))
  }

  /** The text of a schema string; a value outside the schema reads as empty. */
  function StrText(v: Value): string {
    if v.Str? then v.s else ""
  }

  function StrTexts(items: seq<Value>): (r: seq<string>)
    ensures |r| == |items| && forall i :: 0 <= i < |items| ==> r[i] == StrText(items[i])
  {
    seq(|items|, i requires 0 <= i < |items| => StrText(items[i]))
  }

  /** The record's `categories` as the blog schema types them; absent or not an array reads as none. */
  function DecodeCategories(v: Value): seq<Category> {
    if v.Arr? then
      seq(|v.items|, i requires 0 <= i < |v.items| =>
        if v.items[i].Arr? then Path(StrTexts(v.items[i].items)) else Name(StrText(v.items[i])))
    else []
  }

  /** The record's `tags`; absent or not an array reads as none. */
  function DecodeTags(v: Value): seq<string> {
    if v.Arr? then StrTexts(v.items) else []
  }

  /** Stored categories read back as themselves. */
  lemma DecodeEncode(cats: seq<Category>)
    ensures DecodeCategories(CategoriesValue(cats)) == cats
  {
    var v := CategoriesValue(cats);
    forall i | 0 <= i < |cats| ensures DecodeCategories(v)[i] == cats[i] {
      if cats[i].Path? {
        assert StrTexts(StrItems(cats[i].levels)) == cats[i].levels;
      }
    }
  }

  /** Stored tags read back as themselves. */
  lemma DecodeTagsOfStored(tags: seq<string>)
    ensures DecodeTags(Arr(StrItems(tags))) == tags
  {
  }

  /** A property of the record, `undefined` when absent. */
  function Prop(fm: Entries, k: string): Value {
    match Lookup(fm, k)
    case None => Undefined
    case Some(v) => v
  }

  /** The text shown in the categories box for a record. */
  function CategoryText(fm: Entries): string {
    FormatCategoryDisplay(DecodeCategories(Prop(fm, "categories")))
  }

  /** `frontmatter.tags?.join(', ') || ''`. */
  function TagText(fm: Entries): string {
    Join(DecodeTags(Prop(fm, "tags")), ", ")
  }

  /** What typing `input` in the categories box stores: the parsed categories, or `undefined` when there are none. */
  function CategoryField(input: string): Value {
    var parsed := ParseCategoryInput(input);
    if |parsed| > 0 then CategoriesValue(parsed) else Undefined
  }

  /** What typing `input` in the tags box stores. */
  function TagField(input: string): Value {
    var tags := ParseTags(input);
    if |tags| > 0 then Arr(StrItems(tags)) else Undefined
  }

  /**
   * Once the parent passes the updated record back, the categories box
   * is refilled with the display of what was parsed; typed text that is
   * already such a display stays as typed.
   */
  lemma CategoryTextAfterEcho(fm: Entries, input: string)
    requires DistinctKeys(fm)
    ensures CategoryText(Assign(fm, "categories", CategoryField(input))) == FormatCategoryDisplay(ParseCategoryInput(input))
    ensures forall cats :: (Flat(cats) || Nested(cats)) && input == FormatCategoryDisplay(cats) ==>
      CategoryText(Assign(fm, "categories", CategoryField(input))) == input
  {
    AssignLookup(fm, "categories", CategoryField(input));
    DecodeEncode(ParseCategoryInput(input));
    forall cats | (Flat(cats) || Nested(cats)) && input == FormatCategoryDisplay(cats)
      ensures FormatCategoryDisplay(ParseCategoryInput(input)) == input
    {
      CategoryRoundTrip(cats);
    }
  }

  /** The same for the tags box. */
  lemma TagTextAfterEcho(fm: Entries, input: string)
    requires DistinctKeys(fm)
    ensures TagText(Assign(fm, "tags", TagField(input))) == Join(ParseTags(input), ", ")
    ensures forall tags :: (forall i :: 0 <= i < |tags| ==> CleanPart(tags[i])) && input == Join(tags, ", ") ==>
      TagText(Assign(fm, "tags", TagField(input))) == input
  {
    AssignLookup(fm, "tags", TagField(input));
    DecodeTagsOfStored(ParseTags(input));
    forall tags | (forall i :: 0 <= i < |tags| ==> CleanPart(tags[i])) && input == Join(tags, ", ")
      ensures Join(ParseTags(input), ", ") == input
    {
      TagRoundTrip(tags);
    }
  }

  /** The check boxes that store `true` or nothing, and show checked when the field is truthy. */
  datatype Flag = Draft | Sticky | ExcludeFromSummary

  function FlagKey(f: Flag): string {
    match f
    case Draft => "draft"
    case Sticky => "sticky"
    case ExcludeFromSummary => "excludeFromSummary"
  }

  /** `e.target.checked || undefined`. */
  function FlagValue(checked: bool): Value {
    if checked then Bool(true) else Undefined
  }

  /** `frontmatter.draft || false` and the like. */
  predicate FlagChecked(fm: Entries, f: Flag) {
    Truthy(Prop(fm, FlagKey(f)))
  }

  /** The check boxes that are on by default: they store `false` or nothing. */
  datatype DefaultOn = Catalog | TocNumbering

  function DefaultOnKey(d: DefaultOn): string {
    match d
    case Catalog => "catalog"
    case TocNumbering => "tocNumbering"
  }

  /** `e.target.checked ? undefined : false`. */
  function DefaultOnValue(checked: bool): Value {
    if checked then Undefined else Bool(false)
  }

  /** `frontmatter.catalog !== false` and the like. */
  predicate DefaultOnChecked(fm: Entries, d: DefaultOn) {
    Prop(fm, DefaultOnKey(d)) != Bool(false)
  }

  /** The optional text boxes, which store `undefined` for empty text. */
  datatype TextField = Description | Cover | Subtitle | Link

  function TextKey(t: TextField): string {
    match t
    case Description => "description"
    case Cover => "cover"
    case Subtitle => "subtitle"
    case Link => "link"
  }

  /** `e.target.value || undefined`. */
  function TextValue(text: string): Value {
    if text == "" then Undefined else Str(text)
  }

  /** `frontmatter.description || ''` and the like, for a schema string. */
  function TextShown(fm: Entries, t: TextField): string {
    var v := Prop(fm, TextKey(t));
    if Truthy(v) then StrText(v) else ""
  }

  /** Setting one property: it reads back, and every other property reads as before. */
  lemma PropAfterAssign(fm: Entries, k: string, v: Value)
    requires DistinctKeys(fm)
    ensures Prop(Assign(fm, k, v), k) == v
    ensures forall j :: j != k ==> Prop(Assign(fm, k, v), j) == Prop(fm, j)
  {
    AssignLookup(fm, k, v);
  }

  /** A check box shows the state it stored; every other property is kept. */
  lemma FlagShowsStored(fm: Entries, f: Flag, checked: bool)
    requires DistinctKeys(fm)
    ensures FlagChecked(Assign(fm, FlagKey(f), FlagValue(checked)), f) == checked
    ensures forall k :: k != FlagKey(f) ==> Prop(Assign(fm, FlagKey(f), FlagValue(checked)), k) == Prop(fm, k)
  {
    PropAfterAssign(fm, FlagKey(f), FlagValue(checked));
  }

  lemma DefaultOnShowsStored(fm: Entries, d: DefaultOn, checked: bool)
    requires DistinctKeys(fm)
    ensures DefaultOnChecked(Assign(fm, DefaultOnKey(d), DefaultOnValue(checked)), d) == checked
    ensures forall k :: k != DefaultOnKey(d) ==> Prop(Assign(fm, DefaultOnKey(d), DefaultOnValue(checked)), k) == Prop(fm, k)
  {
    PropAfterAssign(fm, DefaultOnKey(d), DefaultOnValue(checked));
  }

  /** An optional text box shows the text it stored, and empty text stores `undefined`. */
  lemma TextShowsStored(fm: Entries, t: TextField, text: string)
    requires DistinctKeys(fm)
    ensures TextShown(Assign(fm, TextKey(t), TextValue(text)), t) == text
    ensures text == "" <==> Prop(Assign(fm, TextKey(t), TextValue(text)), TextKey(t)) == Undefined
    ensures forall k :: k != TextKey(t) ==> Prop(Assign(fm, TextKey(t), TextValue(text)), k) == Prop(fm, k)
  {
    PropAfterAssign(fm, TextKey(t), TextValue(text));
  }

  /**
   * The form: the record it was given, the text of the categories and
   * tags boxes, and every record it has passed to `onChange`.
   */
  class FrontmatterForm {
    var frontmatter: Entries
    var categoryInput: string
    var tagInput: string
    var emitted: seq<Entries>

    constructor(frontmatter: Entries)
      ensures this.frontmatter == frontmatter && emitted == []
      ensures categoryInput == CategoryText(frontmatter) && tagInput == TagText(frontmatter)
    {
      this.frontmatter := frontmatter;
      categoryInput := CategoryText(frontmatter);
      tagInput := TagText(frontmatter);
      emitted := [];
    }

    /** `updateField`: passes the record with one property set to `onChange`. */
    method UpdateField(field: string, value: Value)
      modifies this
      ensures emitted == old(emitted) + [Assign(frontmatter, field, value)]
      ensures frontmatter == old(frontmatter) && categoryInput == old(categoryInput) && tagInput == old(tagInput)
    {
      emitted := emitted + [Assign(frontmatter, field, value)];
    }

    method HandleCategoryChange(value: string)
      modifies this
      ensures categoryInput == value && tagInput == old(tagInput) && frontmatter == old(frontmatter)
      ensures emitted == old(emitted) + [Assign(frontmatter, "categories", CategoryField(value))]
    {
      categoryInput := value;
      UpdateField("categories", CategoryField(value));
    }

    method HandleTagChange(value: string)
      modifies this
      ensures tagInput == value && categoryInput == old(categoryInput) && frontmatter == old(frontmatter)
      ensures emitted == old(emitted) + [Assign(frontmatter, "tags", TagField(value))]
    {
      tagInput := value;
      UpdateField("tags", TagField(value));
    }

    /** The title box stores its text as it is. */
    method HandleTitleChange(value: string)
      modifies this
      ensures emitted == old(emitted) + [Assign(frontmatter, "title", Str(value))]
      ensures frontmatter == old(frontmatter) && categoryInput == old(categoryInput) && tagInput == old(tagInput)
    {
      UpdateField("title", Str(value));
    }

    /** The date box: cleared text stores nothing; other text is read as a local date-time by `parse`. */
    method HandleDateChange(value: string, parse: string -> DateTime)
      modifies this
      ensures emitted == old(emitted) + (if value != "" then [Assign(frontmatter, "date", Date(parse(value)))] else [])
      ensures frontmatter == old(frontmatter) && categoryInput == old(categoryInput) && tagInput == old(tagInput)
    {
      if value != "" {
        UpdateField("date", Date(parse(value)));
      }
    }

    /** The updated box: cleared text removes the date. */
    method HandleUpdatedChange(value: string, parse: string -> DateTime)
      modifies this
      ensures emitted == old(emitted) + [Assign(frontmatter, "updated", if value != "" then Date(parse(value)) else Undefined)]
      ensures frontmatter == old(frontmatter) && categoryInput == old(categoryInput) && tagInput == old(tagInput)
    {
      UpdateField("updated", if value != "" then Date(parse(value)) else Undefined);
    }

    method HandleTextChange(t: TextField, value: string)
      modifies this
      ensures emitted == old(emitted) + [Assign(frontmatter, TextKey(t), TextValue(value))]
      ensures frontmatter == old(frontmatter) && categoryInput == old(categoryInput) && tagInput == old(tagInput)
    {
      UpdateField(TextKey(t), if value != "" then Str(value) else Undefined);
    }

    method HandleFlagChange(f: Flag, checked: bool)
      modifies this
      ensures emitted == old(emitted) + [Assign(frontmatter, FlagKey(f), FlagValue(checked))]
      ensures frontmatter == old(frontmatter) && categoryInput == old(categoryInput) && tagInput == old(tagInput)
    {
      UpdateField(FlagKey(f), if checked then Bool(true) else Undefined);
    }

    method HandleDefaultOnChange(d: DefaultOn, checked: bool)
      modifies this
      ensures emitted == old(emitted) + [Assign(frontmatter, DefaultOnKey(d), DefaultOnValue(checked))]
      ensures frontmatter == old(frontmatter) && categoryInput == old(categoryInput) && tagInput == old(tagInput)
    {
      UpdateField(DefaultOnKey(d), if checked then Undefined else Bool(false));
    }

    /**
     * The parent renders the form with `next`. The effect that refills
     * both boxes runs when `categories` or `tags` changed; `replaced` says
     * that one of them is a newly built array equal to the old one, which
     * React also sees as a change.
     */
    method Receive(next: Entries, replaced: bool)
      modifies this
      ensures frontmatter == next && emitted == old(emitted)
      ensures var sync := replaced || Prop(next, "categories") != Prop(old(frontmatter), "categories")
        || Prop(next, "tags") != Prop(old(frontmatter), "tags");
        if sync then categoryInput == CategoryText(next) && tagInput == TagText(next)
        else categoryInput == old(categoryInput) && tagInput == old(tagInput)
    {
      var sync := replaced || Prop(next, "categories") != Prop(frontmatter, "categories")
        || Prop(next, "tags") != Prop(frontmatter, "tags");
      frontmatter := next;
      if sync {
        categoryInput := CategoryText(next);
        tagInput := TagText(next);
      }
    }
  }
}
