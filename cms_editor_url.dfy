/**
 * Opening a post in a local editor: the editor URL built from a template
 * with `{path}`, `{line}` and `{column}` placeholders, the absolute file
 * path of a post, and the choice of the default editor.
 */
module CmsEditorUrl {
  import opened Common
  import opened CmsJson

  /** A configured local editor; `isDefault` is its `default` flag (absent reads as false). */
  datatype EditorConfig = EditorConfig(id: string, name: string, urlTemplate: string, isDefault: bool)

  const PathMark := "{path}"
  const LineMark := "{line}"
  const ColumnMark := "{column}"

  /**
   * `buildEditorUrl`: the first `{path}`, then the first `{line}`, then the
   * first `{column}` of the string built so far are replaced. Line and
   * column are 1 when not given.
   */
  function BuildEditorUrl(urlTemplate: string, filePath: string, line: int := 1, column: int := 1): string {
    ReplaceFirst(ReplaceFirst(ReplaceFirst(urlTemplate, PathMark, filePath), LineMark, IntText(line)),
      ColumnMark, IntText(column))
  }

  /** A piece of text without `{` holds no placeholder, and nothing that could start one before a following placeholder. */
  lemma NoBraceSafe(a: string, placeholder: string)
    requires !HasChar(a, '{') && placeholder != [] && placeholder[0] == '{'
    ensures SafeBeforeSep(a, placeholder) && !Contains(a, placeholder)
  {
    forall j | 0 < j < |placeholder| && j <= |a| ensures a[|a| - j..] != placeholder[..j] {
      assert a[|a| - j..][0] == a[|a| - j];
    }
  }

  /** Replacing a placeholder that follows brace-free text. */
  lemma ReplaceAfterPlain(a: string, placeholder: string, rest: string, rep: string)
    requires !HasChar(a, '{') && placeholder != [] && placeholder[0] == '{'
    ensures ReplaceFirst(a + placeholder + rest, placeholder, rep) == a + rep + rest
  {
    NoBraceSafe(a, placeholder);
    FirstSepAtJoint(a, placeholder, rest);
    var s := a + placeholder + rest;
    assert s[..|a|] == a && s[|a| + |placeholder|..] == rest;
  }

  /** Brace-free text is left alone. */
  lemma ReplaceInPlain(a: string, placeholder: string, rep: string)
    requires !HasChar(a, '{') && placeholder != [] && placeholder[0] == '{'
    ensures ReplaceFirst(a, placeholder, rep) == a
  {
    NoBraceSafe(a, placeholder);
  }

  lemma IntTextPlain(n: int)
    ensures !HasChar(IntText(n), '{')
  {
  }

  /** A template without placeholders comes back unchanged, whatever the path. */
  lemma NoPlaceholdersUnchanged(urlTemplate: string, filePath: string, line: int, column: int)
    requires !Contains(urlTemplate, PathMark) && !Contains(urlTemplate, LineMark) && !Contains(urlTemplate, ColumnMark)
    ensures BuildEditorUrl(urlTemplate, filePath, line, column) == urlTemplate
  {
  }

  lemma PlainConcat(x: string, y: string)
    requires !HasChar(x, '{') && !HasChar(y, '{')
    ensures !HasChar(x + y, '{')
  {
    forall i | 0 <= i < |x + y| ensures (x + y)[i] != '{' {
      if i < |x| { assert (x + y)[i] == x[i]; } else { assert (x + y)[i] == y[i - |x|]; }
    }
  }

  /**
   * A template `a{path}b{line}c{column}d` with brace-free text between the
   * placeholders, and a brace-free path, gives the path, line and column
   * in their places.
   */
  lemma FilledTemplate(a: string, b: string, c: string, d: string, filePath: string, line: int, column: int)
    requires !HasChar(a, '{') && !HasChar(b, '{') && !HasChar(c, '{') && !HasChar(d, '{') && !HasChar(filePath, '{')
    ensures BuildEditorUrl(a + PathMark + (b + LineMark + (c + ColumnMark + d)), filePath, line, column)
      == a + filePath + b + IntText(line) + c + IntText(column) + d
  {
    var x1 := a + filePath + b;
    var lt := IntText(line);
    FillPath(a, b, c, d, filePath);
    PlainConcat(a, filePath);
    PlainConcat(a + filePath, b);
    FillLine(x1, c, d, lt);
    IntTextPlain(line);
    PlainConcat(x1, lt);
    PlainConcat(x1 + lt, c);
    ReplaceAfterPlain(x1 + lt + c, ColumnMark, d, IntText(column));
  }

  lemma FillPath(a: string, b: string, c: string, d: string, filePath: string)
    requires !HasChar(a, '{')
    ensures ReplaceFirst(a + PathMark + (b + LineMark + (c + ColumnMark + d)), PathMark, filePath)
      == (a + filePath + b) + LineMark + (c + ColumnMark + d)
  {
    var tail := c + ColumnMark + d;
    ReplaceAfterPlain(a, PathMark, b + LineMark + tail, filePath);
    assert a + filePath + (b + LineMark + tail) == (a + filePath + b) + LineMark + tail;
  }

  lemma FillLine(x: string, c: string, d: string, lt: string)
    requires !HasChar(x, '{')
    ensures ReplaceFirst(x + LineMark + (c + ColumnMark + d), LineMark, lt) == (x + lt + c) + ColumnMark + d
  {
    ReplaceAfterPlain(x, LineMark, c + ColumnMark + d, lt);
  }

  /**
   * The later replacements act on the string built so far: a `{line}`
   * inside the file path is filled when the template has none of its own.
   */
  lemma LinePlaceholderInPath(a: string, filePath: string, rest: string, line: int, column: int)
    requires !HasChar(a, '{') && !HasChar(filePath, '{') && !HasChar(rest, '{')
    ensures BuildEditorUrl(a + PathMark, filePath + LineMark + rest, line, column) == a + filePath + IntText(line) + rest
  {
    ReplaceAfterPlain(a, PathMark, "", filePath + LineMark + rest);
    assert a + PathMark == a + PathMark + "";
    PlainConcat(a, filePath);
    ReplaceAfterPlain(a + filePath, LineMark, rest, IntText(line));
    assert a + (filePath + LineMark + rest) + "" == (a + filePath) + LineMark + rest;
    IntTextPlain(line);
    PlainConcat(a + filePath, IntText(line));
    PlainConcat(a + filePath + IntText(line), rest);
    ReplaceInPlain(a + filePath + IntText(line) + rest, ColumnMark, IntText(column));
  }

  /** `s.replace(/\/+$/, '')`: drops the trailing run of slashes. */
  function DropTrailingSlashes(s: string): (r: string)
    ensures r <= s
    ensures r == [] || r[|r| - 1] != '/'
  {
    if s != [] && s[|s| - 1] == '/' then DropTrailingSlashes(s[..|s| - 1]) else s
  }

  /** `s.replace(/^\/+/, '')`: drops the leading run of slashes. */
  function DropLeadingSlashes(s: string): (r: string)
    ensures |r| <= |s|
    ensures r == [] || r[0] != '/'
  {
    if s != [] && s[0] == '/' then DropLeadingSlashes(s[1..]) else s
  }

  /** What is left after the leading slashes is the end of the text. */
  lemma {:induction false} LeadingDroppedSuffix(s: string)
    ensures DropLeadingSlashes(s) == s[|s| - |DropLeadingSlashes(s)|..]
  {
    if s != [] && s[0] == '/' {
      LeadingDroppedSuffix(s[1..]);
      assert s[1..][|s| - 1 - |DropLeadingSlashes(s)|..] == s[|s| - |DropLeadingSlashes(s)|..];
    }
  }

  /** Only slashes are dropped, from the end and from the start. */
  lemma {:induction false} OnlySlashesDropped(s: string)
    ensures forall i :: |DropTrailingSlashes(s)| <= i < |s| ==> s[i] == '/'
    ensures forall i :: 0 <= i < |s| - |DropLeadingSlashes(s)| ==> s[i] == '/'
  {
    if s != [] {
      OnlySlashesDropped(s[..|s| - 1]);
      OnlySlashesDropped(s[1..]);
      assert forall i :: 0 <= i < |s| - 1 ==> s[..|s| - 1][i] == s[i];
      assert forall i :: 1 <= i < |s| ==> s[1..][i - 1] == s[i];
    }
  }

  /**
   * `getFullFilePath`: the project path without trailing slashes, the
   * content path without slashes at either end and the post id without
   * leading slashes, joined by single slashes.
   */
  function GetFullFilePath(localProjectPath: string, contentRelativePath: string, postId: string): string {
    DropTrailingSlashes(localProjectPath) + "/" + DropLeadingSlashes(DropTrailingSlashes(contentRelativePath)) + "/"
      + DropLeadingSlashes(postId)
  }

  /** Stripping a run of slashes does nothing when there is none. */
  lemma DropNothing(s: string)
    ensures (s == [] || s[|s| - 1] != '/') ==> DropTrailingSlashes(s) == s
    ensures (s == [] || s[0] != '/') ==> DropLeadingSlashes(s) == s
  {
  }

  /**
   * The three parts meet at exactly one slash each, and paths already in
   * that form are joined as they are.
   */
  lemma FullFilePathParts(localProjectPath: string, contentRelativePath: string, postId: string)
    ensures var p := DropTrailingSlashes(localProjectPath);
      var c := DropLeadingSlashes(DropTrailingSlashes(contentRelativePath));
      var id := DropLeadingSlashes(postId);
      GetFullFilePath(localProjectPath, contentRelativePath, postId) == p + "/" + c + "/" + id &&
      (p == [] || p[|p| - 1] != '/') && (c == [] || (c[0] != '/' && c[|c| - 1] != '/')) && (id == [] || id[0] != '/')
    ensures (localProjectPath == [] || localProjectPath[|localProjectPath| - 1] != '/') &&
      (contentRelativePath == [] || (contentRelativePath[0] != '/' && contentRelativePath[|contentRelativePath| - 1] != '/')) &&
      (postId == [] || postId[0] != '/')
      ==> GetFullFilePath(localProjectPath, contentRelativePath, postId) == localProjectPath + "/" + contentRelativePath + "/" + postId
  {
    var t := DropTrailingSlashes(contentRelativePath);
    var c := DropLeadingSlashes(t);
    LeadingDroppedSuffix(t);
    if c != [] {
      assert c[|c| - 1] == t[|t| - 1];
    }
    DropNothing(localProjectPath);
    DropNothing(contentRelativePath);
    DropNothing(postId);
  }

  const ExampleProject := "/Users/me/astro-koharu"
  const ExampleContent := "src/content/blog"
  const ExamplePost := "note/theme.md"

  /** The documented example. */
  lemma FullFilePathExample()
    ensures GetFullFilePath(ExampleProject, ExampleContent, ExamplePost)
      == "/Users/me/astro-koharu/src/content/blog/note/theme.md"
  {
    assert ExampleProject[|ExampleProject| - 1] == 'u';
    assert ExampleContent[0] == 's' && ExampleContent[|ExampleContent| - 1] == 'g';
    assert ExamplePost[0] == 'n';
    FullFilePathParts(ExampleProject, ExampleContent, ExamplePost);
    ExampleJoined();
  }

  lemma ExampleJoined()
    ensures ExampleProject + "/" + ExampleContent + "/" + ExamplePost == "/Users/me/astro-koharu/src/content/blog/note/theme.md"
  {
  }

  /** The first editor flagged as default, if any. */
  function FindDefault(editors: seq<EditorConfig>): (r: Option<nat>)
    ensures r.Some? ==> (r.value < |editors| && editors[r.value].isDefault &&
      forall j :: 0 <= j < r.value ==> !editors[j].isDefault)
    ensures r.None? ==> forall j :: 0 <= j < |editors| ==> !editors[j].isDefault
  {
    if editors == [] then None
    else if editors[0].isDefault then Some(0)
    else match FindDefault(editors[1..])
      case None => None
      case Some(k) => Some(k + 1)
  }

  /** `getDefaultEditor`: nothing for no editors, else the first default one, else the first. */
  function GetDefaultEditor(editors: seq<EditorConfig>): Option<EditorConfig> {
    if |editors| == 0 then None
    else match FindDefault(editors)
      case Some(k) => Some(editors[k])
      case None => Some(editors[0])
  }

  /** The default editor is one of the configured ones, chosen by the rule the source documents. */
  lemma DefaultEditorChoice(editors: seq<EditorConfig>)
    ensures GetDefaultEditor(editors).None? <==> editors == []
    ensures GetDefaultEditor(editors).Some? ==> GetDefaultEditor(editors).value in editors
    ensures (exists i :: 0 <= i < |editors| && editors[i].isDefault) ==>
      GetDefaultEditor(editors).Some? && GetDefaultEditor(editors).value.isDefault
    ensures forall i :: 0 <= i < |editors| && editors[i].isDefault && (forall j :: 0 <= j < i ==> !editors[j].isDefault) ==>
      GetDefaultEditor(editors) == Some(editors[i])
    ensures editors != [] && (forall i :: 0 <= i < |editors| ==> !editors[i].isDefault) ==>
      GetDefaultEditor(editors) == Some(editors[0])
  {
    if editors != [] {
      var k := FindDefault(editors);
      forall i | 0 <= i < |editors| && editors[i].isDefault && (forall j :: 0 <= j < i ==> !editors[j].isDefault)
        ensures k == Some(i)
      {
      }
    }
  }
}
