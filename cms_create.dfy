/**
 * `POST /api/cms/create`: creates a post file with initial front matter at
 * a path built from the title and the categories, after registering new
 * category mappings in the site configuration file.
 */
module CmsCreate {
  import opened Common
  import opened CmsJson
  import opened CmsPath
  import opened CmsFrontmatter
  import opened CmsGuard
  import opened CmsDisk
  import CmsWrite

  // ---------------------------------------------------------------------
  // Registering category mappings in `config/site.yaml`

  const ConfigFile := "config/site.yaml"

  function ConfigPath(cwd: string): string {
    Normalize(cwd + "/" + ConfigFile)
  }

  predicate IsAsciiLetter(c: char) { 'a' <= c <= 'z' || 'A' <= c <= 'Z' }

  const HeaderKey := "categoryMap:"

  /** `/^categoryMap:\s*$/`: the line that opens the section. */
  predicate IsHeader(line: string) {
    |line| >= |HeaderKey| && line[..|HeaderKey|] == HeaderKey && AllSpace(line[|HeaderKey|..])
  }

  /** A line that starts a top-level key (a letter, so neither indented nor a comment). */
  predicate IsTopKey(line: string) {
    line != [] && IsAsciiLetter(line[0]) && line[0] != ' ' && line[0] != '#'
  }

  /** Inside the section, a line that leaves it: a top-level key other than another header. */
  predicate Leaves(line: string) {
    !IsHeader(line) && IsTopKey(line)
  }

  /** How many white-space characters a line starts with. */
  function LeadingCount(line: string): (r: nat)
    ensures r <= |line|
  {
    if line != [] && IsSpace(line[0]) then 1 + LeadingCount(line[1..]) else 0
  }

  /** `/^\s+\S/`: white space, then something else. */
  predicate StartsIndented(line: string) {
    0 < LeadingCount(line) < |line|
  }

  /** `line.match(/^(\s+)/)[1]`: the white space a line starts with. */
  function Leading(line: string): (r: string)
    ensures StartsIndented(line) ==> r != []
  {
    line[..LeadingCount(line)]
  }

  /** The leading white space is white space, and what follows it is not. */
  lemma {:induction false} LeadingIsSpace(line: string)
    ensures Leading(line) <= line && AllSpace(Leading(line))
    ensures LeadingCount(line) < |line| ==> !IsSpace(line[LeadingCount(line)])
  {
    if line != [] && IsSpace(line[0]) {
      LeadingIsSpace(line[1..]);
      assert Leading(line) == [line[0]] + Leading(line[1..]);
    }
  }

  /** The line `${indent}${name}: ${slug}` for one mapping. */
  function EntryLine(indent: string, mapping: (string, string)): string {
    indent + mapping.0 + ": " + mapping.1
  }

  /** One entry line per mapping, in entry order. */
  function EntryLines(indent: string, mappings: seq<(string, string)>): (r: seq<string>)
    ensures |r| == |mappings|
    ensures forall i :: 0 <= i < |r| ==> r[i] == EntryLine(indent, mappings[i])
  {
    seq(|mappings|, i requires 0 <= i < |mappings| => EntryLine(indent, mappings[i]))
  }

  /**
   * The line walk of `addCategoryMappings` from some point on, given
   * whether it is inside the section, the indent found so far and whether
   * the mappings are already in.
   */
  function Walk(lines: seq<string>, inMap: bool, indent: string, inserted: bool,
                mappings: seq<(string, string)>): seq<string>
    decreases |lines|
  {
    if lines == [] then (if inMap && !inserted then EntryLines(indent, mappings) else [])
    else
      var line := lines[0];
      if IsHeader(line) then [line] + Walk(lines[1..], true, indent, inserted, mappings)
      else if inMap && IsTopKey(line) then
        (if inserted then [] else EntryLines(indent, mappings)) + [line] + Walk(lines[1..], false, indent, true, mappings)
      else
        var next := if inMap && StartsIndented(line) && indent == "" then Leading(line) else indent;
        [line] + Walk(lines[1..], inMap, next, inserted, mappings)
  }

  /** The first header line, if any. */
  function FirstHeader(lines: seq<string>): (r: Option<nat>)
    ensures r.Some? ==> r.value < |lines|
  {
    if lines == [] then None
    else if IsHeader(lines[0]) then Some(0)
    else match FirstHeader(lines[1..])
      case None => None
      case Some(h) => Some(h + 1)
  }

  /** How many lines the section runs for: up to the first line that leaves it. */
  function SectionLength(lines: seq<string>): (r: nat)
    ensures r <= |lines|
  {
    if lines == [] || Leaves(lines[0]) then 0 else 1 + SectionLength(lines[1..])
  }

  /** The white space of the first indented line, or nothing. */
  function FirstIndent(lines: seq<string>): string {
    if lines == [] then ""
    else if StartsIndented(lines[0]) then Leading(lines[0])
    else FirstIndent(lines[1..])
  }

  /** The indent found is white space. */
  lemma {:induction false} FirstIndentIsSpace(lines: seq<string>)
    ensures AllSpace(FirstIndent(lines))
  {
    if lines != [] {
      LeadingIsSpace(lines[0]);
      FirstIndentIsSpace(lines[1..]);
    }
  }

  /** The header found is the first `categoryMap:` line, and with none found there is none. */
  lemma {:induction false} FirstHeaderIsFirst(lines: seq<string>)
    ensures FirstHeader(lines).Some? ==> IsHeader(lines[FirstHeader(lines).value])
    ensures FirstHeader(lines).Some? ==> forall j :: 0 <= j < FirstHeader(lines).value ==> !IsHeader(lines[j])
    ensures FirstHeader(lines).None? ==> forall j :: 0 <= j < |lines| ==> !IsHeader(lines[j])
  {
    if lines != [] && !IsHeader(lines[0]) {
      FirstHeaderIsFirst(lines[1..]);
      assert forall j :: 1 <= j < |lines| ==> lines[j] == lines[1..][j - 1];
    }
  }

  /** The section runs up to, and not including, the first line that leaves it. */
  lemma {:induction false} SectionEnds(lines: seq<string>)
    ensures forall j :: 0 <= j < SectionLength(lines) ==> !Leaves(lines[j])
    ensures SectionLength(lines) < |lines| ==> Leaves(lines[SectionLength(lines)])
  {
    if lines != [] && !Leaves(lines[0]) {
      SectionEnds(lines[1..]);
      assert forall j :: 1 <= j < |lines| ==> lines[j] == lines[1..][j - 1];
    }
  }

  /**
   * What registering the mappings does to the lines, stated without the
   * walk: with no `categoryMap:` line nothing changes; otherwise the
   * mapping lines, indented like the section's first indented line, go
   * just before the first top-level key after the header, or at the end.
   */
  function WithMappings(lines: seq<string>, mappings: seq<(string, string)>): seq<string> {
    match FirstHeader(lines)
    case None => lines
    case Some(h) => Splice(lines, SectionEnd(lines, h), EntryLines(SectionIndent(lines, h), mappings))
  }

  /** Where the section opened at line `h` ends. */
  function SectionEnd(lines: seq<string>, h: nat): (e: nat)
    requires h < |lines|
    ensures h < e <= |lines|
  {
    h + 1 + SectionLength(lines[h + 1..])
  }

  /** The indent of the section opened at line `h`. */
  function SectionIndent(lines: seq<string>, h: nat): string
    requires h < |lines|
  {
    FirstIndent(lines[h + 1..SectionEnd(lines, h)])
  }

  /** `block` put in before position `e`. */
  function Splice<T>(xs: seq<T>, e: nat, block: seq<T>): seq<T>
    requires e <= |xs|
  {
    xs[..e] + block + xs[e..]
  }

  // Sequence facts stated over any element type, so that the proofs about
  // lines do not reason about the characters inside them.

  lemma ConsTail<T>(xs: seq<T>)
    requires xs != []
    ensures [xs[0]] + xs[1..] == xs
  {
  }

  lemma ConsParts<T>(x: T, rest: seq<T>, e: nat)
    requires e <= |rest|
    ensures ([x] + rest)[..e + 1] == [x] + rest[..e]
    ensures ([x] + rest)[e + 1..] == rest[e..]
    ensures ([x] + rest[..e])[1..] == rest[..e] && ([x] + rest[..e])[0] == x
  {
  }

  lemma SliceStep<T>(xs: seq<T>, i: nat)
    requires i < |xs|
    ensures xs[i..] != [] && xs[i..][0] == xs[i] && xs[i..][1..] == xs[i + 1..]
  {
  }

  lemma Assoc<T>(a: seq<T>, b: seq<T>, c: seq<T>)
    ensures (a + b) + c == a + (b + c)
  {
  }

  lemma ConsSplice<T>(x: T, rest: seq<T>, e: nat, block: seq<T>)
    requires e <= |rest|
    ensures [x] + (rest[..e] + block + rest[e..]) == ([x] + rest)[..e + 1] + block + ([x] + rest)[e + 1..]
  {
    ConsParts(x, rest, e);
  }

  lemma TailSlices<T>(xs: seq<T>, h: nat, e: nat)
    requires xs != [] && h <= e < |xs|
    ensures xs[1..][h..] == xs[h + 1..]
    ensures xs[1..][h..e] == xs[h + 1..e + 1]
    ensures xs[1..][e..] == xs[e + 1..]
    ensures [xs[0]] + xs[1..][..e] == xs[..e + 1]
  {
    assert xs[1..][..e] == xs[1..e + 1];
    assert xs[..e + 1] == [xs[0]] + xs[1..e + 1];
  }

  /** Once the mappings are in, the walk copies the remaining lines. */
  lemma {:induction false} WalkInserted(lines: seq<string>, inMap: bool, indent: string, mappings: seq<(string, string)>)
    ensures Walk(lines, inMap, indent, true, mappings) == lines
    decreases |lines|
  {
    if lines != [] {
      var line := lines[0];
      var next := if inMap && !IsHeader(line) && !IsTopKey(line) && StartsIndented(line) && indent == "" then Leading(line) else indent;
      WalkInserted(lines[1..], true, indent, mappings);
      WalkInserted(lines[1..], false, indent, mappings);
      WalkInserted(lines[1..], inMap, next, mappings);
      ConsTail(lines);
    }
  }

  /** Inside the section, the walk inserts the mappings where the section ends. */
  lemma {:induction false} WalkInside(lines: seq<string>, indent: string, mappings: seq<(string, string)>)
    ensures var e := SectionLength(lines);
      Walk(lines, true, indent, false, mappings) ==
        lines[..e] + EntryLines(if indent == "" then FirstIndent(lines[..e]) else indent, mappings) + lines[e..]
    decreases |lines|
  {
    var e := SectionLength(lines);
    if lines == [] {
      assert FirstIndent(lines[..e]) == "";
    } else {
      var line := lines[0];
      var rest := lines[1..];
      ConsTail(lines);
      if Leaves(line) {
        assert e == 0 && FirstIndent(lines[..e]) == "";
        WalkInserted(rest, false, indent, mappings);
      } else {
        var next := if !IsHeader(line) && StartsIndented(line) && indent == "" then Leading(line) else indent;
        WalkInside(rest, next, mappings);
        var e' := SectionLength(rest);
        assert e == e' + 1;
        ConsParts(line, rest, e');
        assert FirstIndent(lines[..e]) == if StartsIndented(line) then Leading(line) else FirstIndent(rest[..e']);
        var ind := if next == "" then FirstIndent(rest[..e']) else next;
        assert ind == (if indent == "" then FirstIndent(lines[..e]) else indent);
        ConsSplice(line, rest, e', EntryLines(ind, mappings));
      }
    }
  }

  /** The walk from the top computes the reference description. */
  lemma {:induction false} WalkOutside(lines: seq<string>, mappings: seq<(string, string)>)
    ensures Walk(lines, false, "", false, mappings) == WithMappings(lines, mappings)
    decreases |lines|
  {
    if lines != [] {
      var line := lines[0];
      var rest := lines[1..];
      ConsTail(lines);
      if IsHeader(line) {
        WalkFromHeader(lines, mappings);
      } else {
        WalkOutside(rest, mappings);
        WithMappingsCons(line, rest, mappings);
      }
    }
  }

  /** A line before any header is kept in front of the rewritten rest. */
  lemma WithMappingsCons(line: string, rest: seq<string>, mappings: seq<(string, string)>)
    requires !IsHeader(line)
    ensures WithMappings([line] + rest, mappings) == [line] + WithMappings(rest, mappings)
  {
    var lines := [line] + rest;
    ConsParts(line, rest, 0);
    assert lines[1..] == rest;
    match FirstHeader(rest) {
      case None =>
        assert FirstHeader(lines) == None;
      case Some(h) =>
        assert FirstHeader(lines) == Some(h + 1);
        assert lines[h + 2..] == rest[h + 1..];
        assert SectionEnd(lines, h + 1) == SectionEnd(rest, h) + 1;
        var e := SectionEnd(rest, h);
        assert lines[h + 2..e + 1] == rest[h + 1..e];
        assert SectionIndent(lines, h + 1) == SectionIndent(rest, h);
        ConsSplice(line, rest, e, EntryLines(SectionIndent(rest, h), mappings));
    }
  }

  /** The walk from a first line that is the header. */
  lemma WalkFromHeader(lines: seq<string>, mappings: seq<(string, string)>)
    requires lines != [] && IsHeader(lines[0])
    ensures Walk(lines, false, "", false, mappings) == WithMappings(lines, mappings)
  {
    var rest := lines[1..];
    ConsTail(lines);
    WalkInside(rest, "", mappings);
    assert FirstHeader(lines) == Some(0);
    var e' := SectionLength(rest);
    assert SectionEnd(lines, 0) == e' + 1;
    TailSlices(lines, 0, e');
    assert rest[..e'] == lines[1..1 + e'];
    assert SectionIndent(lines, 0) == FirstIndent(rest[..e']);
    ConsSplice(lines[0], rest, e', EntryLines(FirstIndent(rest[..e']), mappings));
  }

  /** One step of the walk, at line `i`. */
  lemma WalkOne(lines: seq<string>, i: nat, inMap: bool, indent: string, inserted: bool, mappings: seq<(string, string)>)
    requires i < |lines|
    ensures Walk(lines[i..], inMap, indent, inserted, mappings) ==
      if IsHeader(lines[i]) then [lines[i]] + Walk(lines[i + 1..], true, indent, inserted, mappings)
      else if inMap && IsTopKey(lines[i]) then
        ((if inserted then [] else EntryLines(indent, mappings)) + [lines[i]]) + Walk(lines[i + 1..], false, indent, true, mappings)
      else
        [lines[i]] + Walk(lines[i + 1..], inMap,
          if inMap && StartsIndented(lines[i]) && indent == "" then Leading(lines[i]) else indent, inserted, mappings)
  {
    SliceStep(lines, i);
  }

  /** `newLines.push` of one line per mapping. */
  method PushEntries(newLines: seq<string>, indent: string, mappings: seq<(string, string)>) returns (r: seq<string>)
    ensures r == newLines + EntryLines(indent, mappings)
  {
    r := newLines;
    for k := 0 to |mappings|
      invariant r == newLines + EntryLines(indent, mappings[..k])
    {
      var (name, slug) := mappings[k];
      r := r + [indent + name + ": " + slug];
      assert EntryLines(indent, mappings[..k + 1]) == EntryLines(indent, mappings[..k]) + [indent + name + ": " + slug];
    }
    assert mappings[..|mappings|] == mappings;
  }

  /**
   * The text rewrite of `addCategoryMappings`: one pass over the lines of
   * the configuration file, tracking the section, its indent and whether
   * the mappings are in yet.
   */
  method InsertMappings(content: string, mappings: seq<(string, string)>) returns (text: string)
    ensures text == Join(WithMappings(Split(content, "\n"), mappings), "\n")
  {
    var lines := Split(content, "\n");
    var newLines: seq<string> := [];
    var inCategoryMap := false;
    var categoryMapIndent := "";
    var insertedMappings := false;
    for i := 0 to |lines|
      invariant newLines + Walk(lines[i..], inCategoryMap, categoryMapIndent, insertedMappings, mappings)
        == Walk(lines, false, "", false, mappings)
    {
      var line := lines[i];
      ghost var prev := newLines;
      WalkOne(lines, i, inCategoryMap, categoryMapIndent, insertedMappings, mappings);
      // The source's `continue` after the header and its fall-through after
      // leaving the section (where the indent test is then false) are the
      // three branches below.
      if IsHeader(line) {
        inCategoryMap := true;
        newLines := newLines + [line];
        Assoc(prev, [line], Walk(lines[i + 1..], inCategoryMap, categoryMapIndent, insertedMappings, mappings));
      } else if inCategoryMap && IsTopKey(line) {
        ghost var pushed: seq<string> := [];
        if !insertedMappings {
          newLines := PushEntries(newLines, categoryMapIndent, mappings);
          pushed := EntryLines(categoryMapIndent, mappings);
          insertedMappings := true;
        }
        inCategoryMap := false;
        newLines := newLines + [line];
        Assoc(prev, pushed + [line], Walk(lines[i + 1..], inCategoryMap, categoryMapIndent, insertedMappings, mappings));
      } else {
        if inCategoryMap && StartsIndented(line) && categoryMapIndent == "" {
          categoryMapIndent := Leading(line);
        }
        newLines := newLines + [line];
        Assoc(prev, [line], Walk(lines[i + 1..], inCategoryMap, categoryMapIndent, insertedMappings, mappings));
      }
    }
    assert lines[|lines|..] == [];
    if inCategoryMap && !insertedMappings {
      newLines := PushEntries(newLines, categoryMapIndent, mappings);
    }
    assert newLines == Walk(lines, false, "", false, mappings);
    WalkOutside(lines, mappings);
    return Join(newLines, "\n");
  }

  /** Without a `categoryMap:` line the file is written back unchanged: the mappings are not recorded. */
  lemma NoSectionUnchanged(content: string, mappings: seq<(string, string)>)
    requires forall j :: 0 <= j < |Split(content, "\n")| ==> !IsHeader(Split(content, "\n")[j])
    ensures Join(WithMappings(Split(content, "\n"), mappings), "\n") == content
  {
    FirstHeaderIsFirst(Split(content, "\n"));
    JoinSplit(content, "\n");
  }

  lemma SpliceParts<T>(xs: seq<T>, e: nat, block: seq<T>)
    requires e <= |xs|
    ensures var r := Splice(xs, e, block);
      |r| == |xs| + |block| && r[..e] + r[e + |block|..] == xs && r[e..e + |block|] == block
  {
    var r := Splice(xs, e, block);
    assert r[..e] == xs[..e];
    assert r[e + |block|..] == xs[e..];
    assert xs[..e] + xs[e..] == xs;
  }

  /**
   * With a section, every line is kept in order and the mapping lines,
   * indented by white space only, are added as one block after the header.
   */
  lemma MappingsAddedOnce(lines: seq<string>, mappings: seq<(string, string)>)
    requires FirstHeader(lines).Some?
    ensures var r := WithMappings(lines, mappings);
      var e := SectionEnd(lines, FirstHeader(lines).value);
      |r| == |lines| + |mappings| &&
      r[..e] + r[e + |mappings|..] == lines &&
      exists indent :: AllSpace(indent) && r[e..e + |mappings|] == EntryLines(indent, mappings)
  {
    var h := FirstHeader(lines).value;
    var e := SectionEnd(lines, h);
    var ind := SectionIndent(lines, h);
    var block := EntryLines(ind, mappings);
    FirstIndentIsSpace(lines[h + 1..e]);
    SpliceParts(lines, e, block);
    assert AllSpace(ind) && Splice(lines, e, block)[e..e + |mappings|] == block;
  }

  /**
   * `addCategoryMappings`: reads the configuration file, which must
   * exist and parse as YAML (`configLoads`), and writes back its lines
   * with the mappings registered; `writeFails` is a failing write.
   * Returns whether it completed.
   */
  method AddCategoryMappings(disk: Disk, cwd: string, mappings: seq<(string, string)>,
                             configLoads: string -> bool, writeFails: bool) returns (ok: bool)
    modifies disk
    ensures disk.dirs == old(disk.dirs)
    ensures ok <==> ConfigPath(cwd) in old(disk.files) && configLoads(old(disk.files)[ConfigPath(cwd)]) && !writeFails
    ensures !ok ==> disk.files == old(disk.files)
    ensures ok ==> disk.files == old(disk.files)[ConfigPath(cwd) :=
      Join(WithMappings(Split(old(disk.files)[ConfigPath(cwd)], "\n"), mappings), "\n")]
  {
    var configPath := ConfigPath(cwd);
    if configPath !in disk.files {
      return false;
    }
    var content := disk.files[configPath];
    if !configLoads(content) {
      return false;
    }
    var text := InsertMappings(content, mappings);
    if writeFails {
      return false;
    }
    disk.WriteFile(configPath, text);
    return true;
  }

  // ---------------------------------------------------------------------
  // The post's path and its initial front matter

  /** `String(v)` for the values a JSON body holds; a date never comes from JSON and has no text here. */
  function Text(v: Value): string {
    match v
    case Undefined => "undefined"
    case Null => "null"
    case Bool(b) => if b then "true" else "false"
    case Num(n) => IntText(n)
    case Str(s) => s
    case Arr(items) =>
      Join(seq(|items|, i requires 0 <= i < |items| =>
        if items[i].Null? || items[i].Undefined? then "" else Text(items[i])), ",")
    case Obj(_) => "[object Object]"
    case Date(_) => ""
  }

  /** How `Array.prototype.join` shows one element: `null` and `undefined` as nothing. */
  function ItemText(v: Value): string {
    if v.Null? || v.Undefined? then "" else Text(v)
  }

  function ItemTexts(items: seq<Value>): (r: seq<string>)
    ensures |r| == |items| && forall i :: 0 <= i < |items| ==> r[i] == ItemText(items[i])
  {
    seq(|items|, i requires 0 <= i < |items| => ItemText(items[i]))
  }

  /**
   * The directory a category goes to: the request's own mapping when it
   * gives a truthy one, else the site's category map when it gives a
   * non-empty one, else the slug of the name.
   */
  function CategorySegment(cat: Value, custom: Value, categoryMap: map<string, string>,
                           slug: string -> string): string {
    var own := CmsWrite.Field(custom, Text(cat));
    if Truthy(own) then Text(own)
    else if Text(cat) in categoryMap && categoryMap[Text(cat)] != "" then categoryMap[Text(cat)]
    else slug(Text(cat))
  }

  /** The order of precedence between the request's mappings, the site's map and the slug. */
  lemma SegmentPrecedence(name: string, custom: Entries, categoryMap: map<string, string>, slug: string -> string)
    requires DistinctKeys(custom)
    ensures forall i :: 0 <= i < |custom| && custom[i].0 == name && custom[i].1.Str? && custom[i].1.s != "" ==>
      CategorySegment(Str(name), Obj(custom), categoryMap, slug) == custom[i].1.s
    ensures name !in Keys(custom) && name in categoryMap && categoryMap[name] != "" ==>
      CategorySegment(Str(name), Obj(custom), categoryMap, slug) == categoryMap[name]
    ensures name !in Keys(custom) && (name !in categoryMap || categoryMap[name] == "") ==>
      CategorySegment(Str(name), Obj(custom), categoryMap, slug) == slug(name)
    ensures forall i :: 0 <= i < |custom| && custom[i].0 == name && custom[i].1 == Str("") ==>
      CategorySegment(Str(name), Obj(custom), categoryMap, slug) == CategorySegment(Str(name), Obj([]), categoryMap, slug)
  {
    forall i | 0 <= i < |custom| && custom[i].0 == name {
      OwnSegment(name, custom, categoryMap, slug, i);
    }
    if name !in Keys(custom) {
      NoOwnSegment(name, custom, categoryMap, slug);
    }
  }

  lemma OwnSegment(name: string, custom: Entries, categoryMap: map<string, string>, slug: string -> string, i: int)
    requires DistinctKeys(custom) && 0 <= i < |custom| && custom[i].0 == name
    ensures custom[i].1.Str? && custom[i].1.s != "" ==> CategorySegment(Str(name), Obj(custom), categoryMap, slug) == custom[i].1.s
    ensures custom[i].1 == Str("") ==>
      CategorySegment(Str(name), Obj(custom), categoryMap, slug) == CategorySegment(Str(name), Obj([]), categoryMap, slug)
  {
    LookupAt(custom, i);
  }

  lemma NoOwnSegment(name: string, custom: Entries, categoryMap: map<string, string>, slug: string -> string)
    requires name !in Keys(custom)
    ensures CategorySegment(Str(name), Obj(custom), categoryMap, slug) == CategorySegment(Str(name), Obj([]), categoryMap, slug)
  {
  }

  function CategorySegments(cats: seq<Value>, custom: Value, categoryMap: map<string, string>,
                            slug: string -> string): (r: seq<string>)
    ensures |r| == |cats| && forall i :: 0 <= i < |cats| ==> r[i] == CategorySegment(cats[i], custom, categoryMap, slug)
  {
    seq(|cats|, i requires 0 <= i < |cats| => CategorySegment(cats[i], custom, categoryMap, slug))
  }

  /**
   * `generateFilePath`: the title's slug with `.md`, under one directory
   * per category in order; at the top level when there are none.
   */
  function GenerateFilePath(title: string, categories: Option<seq<Value>>, custom: Value,
                            categoryMap: map<string, string>, slug: string -> string): string {
    if categories.None? || categories.value == [] then slug(title) + ".md"
    else Join(CategorySegments(categories.value, custom, categoryMap, slug), "/") + "/" + slug(title) + ".md"
  }

  /**
   * When no slug contains `/`, the path splits into exactly one directory
   * per category, in order, and the file name `<slug>.md`.
   */
  lemma FilePathParts(title: string, categories: Option<seq<Value>>, custom: Value,
                      categoryMap: map<string, string>, slug: string -> string)
    requires NoSlash(slug(title))
    requires categories.Some? ==> forall i :: 0 <= i < |categories.value| ==>
      NoSlash(CategorySegment(categories.value[i], custom, categoryMap, slug))
    ensures var path := GenerateFilePath(title, categories, custom, categoryMap, slug);
      var dirs := if categories.None? then [] else CategorySegments(categories.value, custom, categoryMap, slug);
      Split(path, "/") == dirs + [slug(title) + ".md"] && EndsWith(path, ".md")
  {
    var file := slug(title) + ".md";
    assert NoSlash(file) by {
      assert forall i :: |slug(title)| <= i < |file| ==> file[i] == ".md"[i - |slug(title)|];
    }
    var path := GenerateFilePath(title, categories, custom, categoryMap, slug);
    if categories.None? || categories.value == [] {
      assert categories.Some? ==> CategorySegments(categories.value, custom, categoryMap, slug) == [];
      SplitSlashPath([], file);
    } else {
      var dirs := CategorySegments(categories.value, custom, categoryMap, slug);
      assert forall i :: 0 <= i < |dirs| ==> NoSlash(dirs[i]);
      SplitSlashPath(dirs, file);
      assert path == Join(dirs, "/") + "/" + file;
    }
    assert path[|path| - 3..] == ".md";
  }

  /** Directories and a file name without slashes, joined into a path, split back into the same pieces. */
  lemma SplitSlashPath(dirs: seq<string>, file: string)
    requires forall i :: 0 <= i < |dirs| ==> NoSlash(dirs[i])
    requires NoSlash(file)
    ensures Split(if dirs == [] then file else Join(dirs, "/") + "/" + file, "/") == dirs + [file]
  {
    var parts := dirs + [file];
    forall i | 0 <= i < |parts| ensures SafeBeforeSep(parts[i], "/") {
      assert !HasChar(parts[i], '/');
      SingleCharSafe(parts[i], '/');
    }
    if dirs != [] {
      JoinLast(dirs, file, "/");
    }
    SplitJoin(parts, "/");
  }

  /** Joining with one more piece at the end. */
  lemma {:induction false} JoinLast(parts: seq<string>, last: string, sep: string)
    requires parts != []
    ensures Join(parts + [last], sep) == Join(parts, sep) + sep + last
    decreases |parts|
  {
    if |parts| == 1 {
      assert (parts + [last])[1..] == [last];
    } else {
      assert (parts + [last])[1..] == parts[1..] + [last];
      JoinLast(parts[1..], last, sep);
    }
  }

  /**
   * The lines of `generateFrontmatter`: the title, both dates, the
   * categories as one nested list, the tags, `draft: true` unless the
   * post is published, `catalog: true`, then the closing fence and an
   * empty body.
   */
  function FrontmatterLines(title: string, categories: seq<string>, tags: seq<string>, draft: bool,
                            dateStr: string): seq<string> {
    ["---", "title: " + title, "date: " + dateStr, "updated: " + dateStr]
    + (if categories != [] then ["categories:", "  - [" + Join(categories, ", ") + "]"] else [])
    + (if tags != [] then ["tags: [" + Join(tags, ", ") + "]"] else [])
    + (if draft then ["draft: true"] else [])
    + ["catalog: true", "---", "", ""]
  }

  function GenerateFrontmatter(title: string, categories: seq<string>, tags: seq<string>, draft: bool,
                               dateStr: string): string {
    Join(FrontmatterLines(title, categories, tags, draft, dateStr), "\n")
  }

  /**
   * The shape of the initial front matter: it opens with the fence, the
   * title and the two dates, and closes with `catalog: true`, the fence
   * and an empty body; `draft: true` is present exactly for drafts and the
   * categories block exactly when there are categories.
   */
  lemma FrontmatterShape(title: string, categories: seq<string>, tags: seq<string>, draft: bool, dateStr: string)
    ensures var ls := FrontmatterLines(title, categories, tags, draft, dateStr);
      ls[..4] == ["---", "title: " + title, "date: " + dateStr, "updated: " + dateStr] &&
      ls[|ls| - 4..] == ["catalog: true", "---", "", ""] &&
      |ls| == 8 + (if categories != [] then 2 else 0) + (if tags != [] then 1 else 0) + (if draft then 1 else 0) &&
      (("draft: true" in ls) <==> draft) &&
      (("categories:" in ls) <==> categories != [])
  {
    var ls := FrontmatterLines(title, categories, tags, draft, dateStr);
    var cats: seq<string> := if categories != [] then ["categories:", "  - [" + Join(categories, ", ") + "]"] else [];
    var tg: seq<string> := if tags != [] then ["tags: [" + Join(tags, ", ") + "]"] else [];
    var dr: seq<string> := if draft then ["draft: true"] else [];
    var head := ["---", "title: " + title, "date: " + dateStr, "updated: " + dateStr];
    var tail := ["catalog: true", "---", "", ""];
    assert ls == head + cats + tg + dr + tail;
    DistinctLines(title, categories, tags, dateStr);
  }

  /** The fixed lines differ from the lines carrying values. */
  lemma DistinctLines(title: string, categories: seq<string>, tags: seq<string>, dateStr: string)
    ensures "draft: true" != "---" && "draft: true" != "catalog: true" && "draft: true" != ""
    ensures "draft: true" != "title: " + title && "draft: true" != "date: " + dateStr
    ensures "draft: true" != "updated: " + dateStr && "draft: true" != "categories:"
    ensures "draft: true" != "  - [" + Join(categories, ", ") + "]" && "draft: true" != "tags: [" + Join(tags, ", ") + "]"
    ensures "categories:" != "---" && "categories:" != "catalog: true" && "categories:" != ""
    ensures "categories:" != "title: " + title && "categories:" != "date: " + dateStr
    ensures "categories:" != "updated: " + dateStr && "categories:" != "draft: true"
    ensures "categories:" != "  - [" + Join(categories, ", ") + "]" && "categories:" != "tags: [" + Join(tags, ", ") + "]"
  {
    assert ("title: " + title)[0] == 't';
    assert ("date: " + dateStr)[0] == 'd' && ("date: " + dateStr)[1] == 'a';
    assert ("updated: " + dateStr)[0] == 'u';
    assert ("  - [" + Join(categories, ", ") + "]")[0] == ' ';
    assert ("tags: [" + Join(tags, ", ") + "]")[0] == 't';
    assert "draft: true"[1] == 'r';
  }

  /** The dates go in unquoted, as text the timestamp pattern matches. */
  lemma FrontmatterDates(title: string, categories: seq<string>, tags: seq<string>, draft: bool, now: DateTime)
    requires FourDigitYear(now)
    ensures FormatDate(now).Ok?
    ensures var ls := FrontmatterLines(title, categories, tags, draft, FormatDate(now).value);
      ls[2] == "date: " + FormatDate(now).value && ls[3] == "updated: " + FormatDate(now).value &&
      IsStamp(FormatDate(now).value)
  {
    FormattedIsStamp(now);
  }

  // ---------------------------------------------------------------------
  // The endpoint

  /** A body property that is an array, as its items; `None` for anything else. */
  function ArrayField(body: Value, k: string): (r: Option<seq<Value>>)
    ensures r.Some? <==> CmsWrite.Field(body, k).Arr?
    ensures r.Some? ==> r.value == CmsWrite.Field(body, k).items
  {
    var v := CmsWrite.Field(body, k);
    if v.Arr? then Some(v.items) else None
  }

  /** The mappings handed to `addCategoryMappings`: an object's properties in order, each value as text. */
  function NewMappings(custom: Value): (r: seq<(string, string)>)
    ensures |r| == (if custom.Obj? then |custom.entries| else 0)
    ensures custom.Obj? ==> forall i :: 0 <= i < |r| ==> r[i] == (custom.entries[i].0, Text(custom.entries[i].1))
  {
    if custom.Obj? then seq(|custom.entries|, i requires 0 <= i < |custom.entries| =>
      (custom.entries[i].0, Text(custom.entries[i].1)))
    else []
  }

  function Texts(items: Option<seq<Value>>): seq<string> {
    if items.Some? then ItemTexts(items.value) else []
  }

  function CreatedBody(postId: string): Value {
    Obj([("success", Bool(true)), ("postId", Str(postId))])
  }

  /**
   * `POST /api/cms/create`. The clock reading `now` formats the dates;
   * `categoryMap` is the site's category map, `slug` is `generateSlug`,
   * `configLoads` whether the configuration parses as YAML; `fault` and
   * `configWriteFails` are failing file operations.
   */
  method Post(disk: Disk, dev: bool, enabled: bool, cwd: string, request: Option<Value>, checks: PathChecks,
              categoryMap: map<string, string>, slug: string -> string, configLoads: string -> bool,
              now: DateTime, fault: CmsWrite.IoFault, configWriteFails: bool) returns (resp: Response)
    requires now.Instant?
    modifies disk
    ensures ValidateCmsAccess(dev, enabled).Some? ==>
      resp == JsonErrorResponse(ValidateCmsAccess(dev, enabled).value.error, 403) && unchanged(disk)
    ensures resp.status != 201 && resp.status != 500 ==> unchanged(disk)
    ensures dev && enabled && (request.None? || request.value.Null? || request.value.Undefined?) ==>
      resp == CmsWrite.InternalError && unchanged(disk)
    ensures dev && enabled && request.Some? && !request.value.Null? && !request.value.Undefined? ==> (
      var body := request.value;
      var t := CmsWrite.Field(body, "title");
      (!(t.Str? && Trim(t.s) != "") ==> resp == JsonErrorResponse("Title is required", 400)) &&
      (t.Str? && Trim(t.s) != "" ==> (
        var title := Trim(t.s);
        var custom := CmsWrite.Field(body, "categoryMappings");
        var postId := GenerateFilePath(title, ArrayField(body, "categories"), custom, categoryMap, slug);
        var path := ContentPath(cwd, postId);
        (!checks.isPathSafe(postId) ==> resp == JsonErrorResponse("Invalid file path", 400)) &&
        (checks.isPathSafe(postId) && path in old(disk.files) ==>
          resp == JsonErrorResponse("File already exists: " + postId, 409)) &&
        (checks.isPathSafe(postId) && path !in old(disk.files) ==> (
          (fault.MkdirFails? ==> resp == CmsWrite.InternalError && unchanged(disk)) &&
          (!fault.MkdirFails? ==> (
            var mappings := NewMappings(custom);
            var config := ConfigPath(cwd);
            var configOk := config in old(disk.files) && configLoads(old(disk.files)[config]) && !configWriteFails;
            var files := if mappings != [] && configOk then
              old(disk.files)[config := Join(WithMappings(Split(old(disk.files)[config], "\n"), mappings), "\n")]
              else old(disk.files);
            disk.dirs == old(disk.dirs) + {Dirname(path)} &&
            (mappings != [] && !configOk ==> resp == CmsWrite.InternalError && disk.files == old(disk.files)) &&
            (mappings == [] || configOk ==> (
              (fault.WriteFails? ==> resp == CmsWrite.InternalError && disk.files == files) &&
              (!fault.WriteFails? ==> (resp == JsonResponse(CreatedBody(postId), 201) &&
                disk.files == files[path := GenerateFrontmatter(title, Texts(ArrayField(body, "categories")),
                  Texts(ArrayField(body, "tags")), CmsWrite.Field(body, "draft") != Bool(false), FormatDate(now).value)])))))))))))
  {
    var guardError := ValidateCmsAccess(dev, enabled);
    if guardError.Some? {
      return JsonErrorResponse(guardError.value.error, guardError.value.status);
    }
    if request.None? || request.value.Null? || request.value.Undefined? {
      return CmsWrite.InternalError;
    }
    var body := request.value;
    var t := CmsWrite.Field(body, "title");
    if !t.Str? || Trim(t.s) == "" {
      return JsonErrorResponse("Title is required", 400);
    }
    var title := Trim(t.s);
    var categories := ArrayField(body, "categories");
    var tags := ArrayField(body, "tags");
    var draft := CmsWrite.Field(body, "draft") != Bool(false);
    var custom := CmsWrite.Field(body, "categoryMappings");
    var postId := GenerateFilePath(title, categories, custom, categoryMap, slug);
    if !checks.isPathSafe(postId) {
      return JsonErrorResponse("Invalid file path", 400);
    }
    var filePath := ContentPath(cwd, postId);
    if filePath in disk.files {
      return JsonErrorResponse("File already exists: " + postId, 409);
    }
    if fault.MkdirFails? {
      return CmsWrite.InternalError;
    }
    disk.MakeDir(Dirname(filePath));
    var mappings := NewMappings(custom);
    assert mappings != [] ==> Truthy(custom);
    ghost var before := disk.files;
    if Truthy(custom) && mappings != [] {
      var added := AddCategoryMappings(disk, cwd, mappings, configLoads, configWriteFails);
      if !added {
        return CmsWrite.InternalError;
      }
    }
    ghost var config := ConfigPath(cwd);
    assert disk.files == if mappings != [] then
      before[config := Join(WithMappings(Split(before[config], "\n"), mappings), "\n")] else before;
    var content := GenerateFrontmatter(title, Texts(categories), Texts(tags), draft, FormatDate(now).value);
    if fault.WriteFails? {
      return CmsWrite.InternalError;
    }
    disk.WriteFile(filePath, content);
    return JsonResponse(CreatedBody(postId), 201);
  }
}
