/**
 * The POSIX path functions of Node's `path` module that the CMS write
 * endpoint relies on (`normalize`, `isAbsolute`, `join`, `extname`), and
 * the endpoint's own `isPathSafe`, with the guarantee it gives: a post id
 * it accepts names a file inside the content directory.
 */
module CmsPath {
  import opened Common

  /** The directory, relative to the project root, that holds the posts. */
  const ContentDir := "src/content/blog"

  predicate NoSlash(s: string) {
    forall i :: 0 <= i < |s| ==> s[i] != '/'
  }

  /** `p.split('/')`. */
  function Segments(p: string): (r: seq<string>)
    ensures |r| >= 1
    ensures forall i :: 0 <= i < |r| ==> NoSlash(r[i])
  {
    if p == [] then [""]
    else
      var rest := Segments(p[1..]);
      if p[0] == '/' then [""] + rest else [[p[0]] + rest[0]] + rest[1..]
  }

  lemma {:induction false} NoSlashSegments(p: string)
    requires NoSlash(p)
    ensures Segments(p) == [p]
  {
    if p != [] {
      NoSlashSegments(p[1..]);
      assert [p[0]] + p[1..] == p;
    }
  }

  /** Splitting around a slash splits each side. */
  lemma {:induction false} SegmentsConcat(a: string, b: string)
    ensures Segments(a + "/" + b) == Segments(a) + Segments(b)
  {
    if a == [] {
      assert a + "/" + b == "/" + b;
      assert ("/" + b)[1..] == b;
    } else {
      assert (a + "/" + b)[1..] == a[1..] + "/" + b;
      SegmentsConcat(a[1..], b);
    }
  }

  /**
   * One segment of Node's `normalizeString`: empty and `.` segments are
   * skipped, `..` drops the last kept name, and when there is none to
   * drop it is kept in a relative path and ignored in an absolute one.
   */
  function Step(stack: seq<string>, seg: string, allowAboveRoot: bool): seq<string> {
    if seg == "" || seg == "." then stack
    else if seg == ".." then
      if |stack| > 0 && stack[|stack| - 1] != ".." then stack[..|stack| - 1]
      else if allowAboveRoot then stack + [".."]
      else stack
    else stack + [seg]
  }

  function Resolve(stack: seq<string>, segs: seq<string>, allowAboveRoot: bool): seq<string>
    decreases |segs|
  {
    if segs == [] then stack else Resolve(Step(stack, segs[0], allowAboveRoot), segs[1..], allowAboveRoot)
  }

  /** `path.isAbsolute(p)`. */
  predicate IsAbsolute(p: string) {
    p != [] && p[0] == '/'
  }

  /** The names `path.normalize(p)` keeps, in order. */
  function Kept(p: string): seq<string> {
    Resolve([], Segments(p), !IsAbsolute(p))
  }

  /** `path.normalize(p)`. */
  function Normalize(p: string): (r: string)
    ensures r != []
  {
    if p == "" then "."
    else
      var trailing := p[|p| - 1] == '/';
      var body := Join(Kept(p), "/");
      if body == "" then (if IsAbsolute(p) then "/" else if trailing then "./" else ".")
      else (if IsAbsolute(p) then "/" else "") + body + (if trailing then "/" else "")
  }

  /**
   * The file a post id names: `path.join(process.cwd(), CONTENT_DIR,
   * postId)`, which for non-empty parts normalises them joined by `/`.
   */
  function ContentPath(cwd: string, postId: string): string {
    Normalize(cwd + "/" + ContentDir + "/" + postId)
  }

  /** `isPathSafe`: the normalised id neither contains `..` nor is absolute. */
  predicate IsPathSafe(postId: string) {
    !Contains(Normalize(postId), "..") && !IsAbsolute(Normalize(postId))
  }

  /**
   * `path.dirname(p)` for a normalised path: the names before its last
   * one, under the root for an absolute path and `.` for a bare name.
   */
  function Dirname(p: string): string {
    var names := NonEmpty(Segments(p));
    var parent := if names == [] then [] else names[..|names| - 1];
    if IsAbsolute(p) then "/" + Join(parent, "/")
    else if parent == [] then "."
    else Join(parent, "/")
  }

  /** The last non-empty name of `p`, ignoring trailing slashes. */
  function Basename(p: string): (r: string)
    ensures NoSlash(r)
  {
    var segs := NonEmpty(Segments(p));
    if segs == [] then ""
    else
      assert segs[|segs| - 1] in Segments(p);
      segs[|segs| - 1]
  }

  /** The index of the last `.` in `s`, or -1. */
  function LastDot(s: string): (r: int)
    ensures -1 <= r < |s|
    ensures r >= 0 ==> s[r] == '.'
    ensures forall i :: r < i < |s| ==> s[i] != '.'
  {
    if s == [] then -1
    else if s[|s| - 1] == '.' then |s| - 1
    else LastDot(s[..|s| - 1])
  }

  /**
   * `path.extname(p)`: from the last `.` of the base name, unless there is
   * none, it is the first character, or the name is `..`.
   */
  function Extname(p: string): string {
    var b := Basename(p);
    var d := LastDot(b);
    if d <= 0 || b == ".." then "" else b[d..]
  }

  predicate EndsWith(s: string, suffix: string) {
    |suffix| <= |s| && s[|s| - |suffix|..] == suffix
  }

  /** The extension check passes exactly for base names with something before a final `.md` or `.mdx`. */
  lemma MarkdownExtension(p: string)
    ensures Extname(p) == ".md" <==> EndsWith(Basename(p), ".md") && |Basename(p)| > 3
    ensures Extname(p) == ".mdx" <==> EndsWith(Basename(p), ".mdx") && |Basename(p)| > 4
  {
    var b := Basename(p);
    var d := LastDot(b);
    if EndsWith(b, ".md") && |b| > 3 {
      assert b[|b| - 3] == '.' && b[|b| - 2] == 'm' && b[|b| - 1] == 'd';
      assert d == |b| - 3;
    }
    if EndsWith(b, ".mdx") && |b| > 4 {
      assert b[|b| - 4] == '.' && b[|b| - 3] == 'm' && b[|b| - 2] == 'd' && b[|b| - 1] == 'x';
      assert d == |b| - 4;
    }
  }

  /** Splitting after a prefix of segments gives the same result as resolving in two goes. */
  lemma {:induction false} ResolveAppend(stack: seq<string>, a: seq<string>, b: seq<string>, allow: bool)
    ensures Resolve(stack, a + b, allow) == Resolve(Resolve(stack, a, allow), b, allow)
    decreases |a|
  {
    if a != [] {
      assert (a + b)[0] == a[0] && (a + b)[1..] == a[1..] + b;
      var next := Step(stack, a[0], allow);
      assert Resolve(stack, a + b, allow) == Resolve(next, a[1..] + b, allow);
      assert Resolve(stack, a, allow) == Resolve(next, a[1..], allow);
      ResolveAppend(next, a[1..], b, allow);
    } else {
      assert a + b == b;
    }
  }

  /** An absolute path never keeps a `..`. */
  lemma {:induction false} AbsoluteNoDots(stack: seq<string>, segs: seq<string>)
    requires ".." !in stack
    ensures ".." !in Resolve(stack, segs, false)
    decreases |segs|
  {
    if segs != [] {
      var next := Step(stack, segs[0], false);
      assert ".." !in next by {
        if segs[0] == ".." && |stack| > 0 {
          assert forall x :: x in stack[..|stack| - 1] ==> x in stack;
        }
      }
      AbsoluteNoDots(next, segs[1..]);
    }
  }

  /** In a relative path a kept `..` is never dropped again. */
  lemma {:induction false} DotsStay(stack: seq<string>, segs: seq<string>)
    requires ".." in stack
    ensures ".." in Resolve(stack, segs, true)
    decreases |segs|
  {
    if segs != [] {
      var next := Step(stack, segs[0], true);
      assert ".." in next by {
        if segs[0] == ".." && |stack| > 0 && stack[|stack| - 1] != ".." {
          var i :| 0 <= i < |stack| && stack[i] == "..";
          assert stack[..|stack| - 1][i] == "..";
        }
      }
      DotsStay(next, segs[1..]);
    }
  }

  /**
   * Segments that never climb above their start resolve the same way on
   * top of any directory: the directory stays and their names follow it.
   */
  lemma {:induction false} ResolveOnTop(dir: seq<string>, stack: seq<string>, segs: seq<string>, allow: bool)
    requires ".." !in stack && ".." !in Resolve(stack, segs, true)
    ensures Resolve(dir + stack, segs, allow) == dir + Resolve(stack, segs, true)
    decreases |segs|
  {
    if segs != [] {
      var seg := segs[0];
      var next := Step(stack, seg, true);
      if ".." in next {
        DotsStay(next, segs[1..]);
      }
      if seg == ".." {
        assert |stack| > 0;
        assert (dir + stack)[..|dir + stack| - 1] == dir + stack[..|stack| - 1];
      } else if seg != "" && seg != "." {
        assert dir + stack + [seg] == dir + (stack + [seg]);
      }
      assert Step(dir + stack, seg, allow) == dir + next;
      ResolveOnTop(dir, next, segs[1..], allow);
    }
  }

  /** A string occurs in `Join(xs, "/")` wherever one of the parts is. */
  lemma {:induction false} JoinHasPart(xs: seq<string>, i: nat)
    requires i < |xs|
    ensures exists k :: MatchAt(Join(xs, "/"), xs[i], k)
  {
    var s := Join(xs, "/");
    if |xs| == 1 {
      assert MatchAt(s, xs[i], 0);
    } else if i == 0 {
      assert s == xs[0] + "/" + Join(xs[1..], "/");
      assert s[..|xs[0]|] == xs[0];
      assert MatchAt(s, xs[i], 0);
    } else {
      var t := Join(xs[1..], "/");
      JoinHasPart(xs[1..], i - 1);
      var k :| MatchAt(t, xs[1..][i - 1], k);
      var off := |xs[0]| + 1;
      assert s == xs[0] + "/" + t;
      assert s[off + k..off + k + |xs[i]|] == t[k..k + |xs[i]|];
      assert MatchAt(s, xs[i], off + k);
    }
  }

  /** A normalised path with names: the names joined by `/`, between the leading and trailing slashes. */
  lemma NormalizeShape(p: string)
    requires Join(Kept(p), "/") != ""
    ensures Normalize(p) == (if IsAbsolute(p) then "/" else "") + Join(Kept(p), "/") + (if p[|p| - 1] == '/' then "/" else "")
  {
  }

  lemma MatchInside(pre: string, s: string, post: string, pat: string, k: int)
    requires MatchAt(s, pat, k)
    ensures MatchAt(pre + s + post, pat, |pre| + k)
  {
    var t := pre + s + post;
    forall j | 0 <= j < |pat| ensures t[|pre| + k + j] == pat[j] {
      assert t[|pre| + k + j] == s[k + j] == s[k..k + |pat|][j];
    }
    assert t[|pre| + k..|pre| + k + |pat|] == pat;
  }

  /** A kept `..` shows in the normalised text. */
  lemma KeptDotsShow(p: string)
    ensures ".." in Kept(p) ==> Contains(Normalize(p), "..")
  {
    var kept := Kept(p);
    var body := Join(kept, "/");
    if ".." in kept {
      var i :| 0 <= i < |kept| && kept[i] == "..";
      JoinHasPart(kept, i);
      var k :| MatchAt(body, "..", k);
      NormalizeShape(p);
      var pre := if IsAbsolute(p) then "/" else "";
      var post := if p[|p| - 1] == '/' then "/" else "";
      var n := pre + body + post;
      MatchInside(pre, body, post, "..", k);
      ContainsIff(n, "..");
    }
  }

  /** A post id `isPathSafe` accepts is relative and keeps no `..`. */
  lemma SafeIsRelative(postId: string)
    requires IsPathSafe(postId)
    ensures !IsAbsolute(postId)
    ensures ".." !in Kept(postId)
  {
    KeptDotsShow(postId);
  }

  /** The segments of the content file's path: the project root's, the content directory's, the post id's. */
  lemma ContentSegments(cwd: string, postId: string)
    ensures Segments(cwd + "/" + ContentDir + "/" + postId) == Segments(cwd) + ["src", "content", "blog"] + Segments(postId)
  {
    assert cwd + "/" + ContentDir + "/" + postId == cwd + "/" + (ContentDir + "/" + postId);
    SegmentsConcat(cwd, ContentDir + "/" + postId);
    ContentDirSegments(postId);
  }

  lemma ContentDirSegments(postId: string)
    ensures Segments(ContentDir + "/" + postId) == ["src", "content", "blog"] + Segments(postId)
  {
    var tail := "blog" + "/" + postId;
    assert ContentDir + "/" + postId == "src" + "/" + ("content" + "/" + tail);
    NameSegment("src", "content" + "/" + tail);
    ContentTailSegments(postId);
  }

  lemma ContentTailSegments(postId: string)
    ensures Segments("content" + "/" + ("blog" + "/" + postId)) == ["content", "blog"] + Segments(postId)
  {
    NameSegment("content", "blog" + "/" + postId);
    NameSegment("blog", postId);
  }

  /** A name without a slash, then a slash, is one segment before the rest's. */
  lemma NameSegment(name: string, rest: string)
    requires NoSlash(name)
    ensures Segments(name + "/" + rest) == [name] + Segments(rest)
  {
    SegmentsConcat(name, rest);
    NoSlashSegments(name);
  }

  /**
   * The guarantee `isPathSafe` gives the write endpoint: for an accepted
   * post id, the file it writes lies in the content directory under the
   * project root, followed by the id's own names (none of them `..`).
   */
  lemma SafePathStaysInContentDir(cwd: string, postId: string)
    requires IsAbsolute(cwd)
    requires postId != [] && IsPathSafe(postId)
    ensures ".." !in Kept(postId) && ".." !in Kept(cwd)
    ensures IsAbsolute(cwd + "/" + ContentDir + "/" + postId)
    ensures Kept(cwd + "/" + ContentDir + "/" + postId) == Kept(cwd) + ["src", "content", "blog"] + Kept(postId)
  {
    SafeIsRelative(postId);
    AbsoluteNoDots([], Segments(cwd));
    var full := cwd + "/" + ContentDir + "/" + postId;
    ContentSegments(cwd, postId);
    var dirSegs := Segments(cwd) + ["src", "content", "blog"];
    assert Segments(full) == dirSegs + Segments(postId);
    ResolveAppend([], dirSegs, Segments(postId), false);
    ResolveAppend([], Segments(cwd), ["src", "content", "blog"], false);
    var dir := Kept(cwd) + ["src", "content", "blog"];
    assert Resolve([], dirSegs, false) == dir;
    ResolveOnTop(dir, [], Segments(postId), false);
    assert dir + [] == dir;
  }

  /** A single name with `..` inside it is rejected too, not only a `..` segment. */
  lemma DotsInsideNameRejected()
    ensures !IsPathSafe("a..b.md")
  {
    var p := "a..b.md";
    NoSlashSegments(p);
    assert Kept(p) == [p];
    assert Normalize(p) == p;
    assert MatchAt(p, "..", 1);
    ContainsIff(p, "..");
  }
}
