/**
 * `POST /api/cms/toggle-draft`: flips the `draft` flag in a post's front
 * matter and writes the file back.
 */
module CmsToggleDraft {
  import opened Common
  import opened CmsJson
  import opened CmsPath
  import opened CmsFrontmatter
  import opened CmsGuard
  import opened CmsDisk

  /** `frontmatter.draft === true`. */
  predicate IsDraft(fm: Entries) {
    Lookup(fm, "draft") == Some(Bool(true))
  }

  /** The front matter with `draft` flipped, and the new flag: anything but `true` counts as not a draft. */
  function Toggled(fm: Entries): (r: (Entries, bool))
    ensures r.1 == !IsDraft(fm)
  {
    var newDraft := !IsDraft(fm);
    (Assign(fm, "draft", Bool(newDraft)), newDraft)
  }

  /** The new flag is stored under `draft`; every other property is kept. */
  lemma ToggledLookup(fm: Entries)
    requires DistinctKeys(fm)
    ensures DistinctKeys(Toggled(fm).0)
    ensures Lookup(Toggled(fm).0, "draft") == Some(Bool(!IsDraft(fm)))
    ensures forall k :: k != "draft" ==> Lookup(Toggled(fm).0, k) == Lookup(fm, k)
  {
    AssignLookup(fm, "draft", Bool(!IsDraft(fm)));
  }

  /**
   * Toggling twice gives back the draft state: a post that was a draft is
   * one again, and any other post ends with an explicit `draft: false`.
   */
  lemma ToggleTwice(fm: Entries)
    requires DistinctKeys(fm)
    ensures Toggled(Toggled(fm).0).1 == IsDraft(fm)
    ensures Lookup(Toggled(Toggled(fm).0).0, "draft") == Some(Bool(IsDraft(fm)))
    ensures forall k :: k != "draft" ==> Lookup(Toggled(Toggled(fm).0).0, k) == Lookup(fm, k)
  {
    ToggledLookup(fm);
    ToggledLookup(Toggled(fm).0);
  }

  /** The success body `{ success: true, draft }`. */
  function ToggleBody(draft: bool): Value {
    Obj([("success", Bool(true)), ("draft", Bool(draft))])
  }

  /**
   * `POST`. After the access guard, a missing or non-text id, an unsafe id
   * and a bad extension answer 400 in that order; a file that does not
   * exist answers 404; a file gray-matter cannot parse or a failed write
   * answers 500. Only a successful run writes, and only the post file.
   */
  method Post(disk: Disk, dev: bool, enabled: bool, cwd: string, request: Option<Value>,
              checks: PathChecks, m: Matter, writeFails: bool) returns (resp: Response)
    modifies disk
    ensures ValidateCmsAccess(dev, enabled).Some? ==>
      resp == JsonErrorResponse(ValidateCmsAccess(dev, enabled).value.error, 403) && unchanged(disk)
    ensures disk.dirs == old(disk.dirs)
    ensures resp.status != 200 ==> unchanged(disk)
    ensures dev && enabled && (request.None? || request.value.Null?) ==> resp == JsonErrorResponse("Internal server error", 500)
    ensures dev && enabled && request.Some? && !request.value.Null? ==> (
      var postId := if request.value.Obj? && Lookup(request.value.entries, "postId").Some?
        then Lookup(request.value.entries, "postId").value else Undefined;
      (!(postId.Str? && postId.s != "") ==> resp == JsonErrorResponse("Missing postId", 400)) &&
      (postId.Str? && postId.s != "" ==> (
        (!checks.isPathSafe(postId.s) ==> resp == JsonErrorResponse("Invalid postId", 400)) &&
        (checks.isPathSafe(postId.s) && !checks.hasValidMarkdownExtension(postId.s) ==>
          resp == JsonErrorResponse("Invalid file extension", 400)) &&
        (checks.isPathSafe(postId.s) && checks.hasValidMarkdownExtension(postId.s) ==> (
          var path := ContentPath(cwd, postId.s);
          (path !in old(disk.files) ==> resp == JsonErrorResponse("File not found", 404)) &&
          (path in old(disk.files) ==>
            match m.parse(old(disk.files)[path])
            case None => resp == JsonErrorResponse("Internal server error", 500)
            case Some((fm, content)) =>
              (writeFails ==> resp == JsonErrorResponse("Internal server error", 500)) &&
              (!writeFails ==> (resp == JsonResponse(ToggleBody(!IsDraft(fm))) &&
                disk.files == old(disk.files)[path := FileText(m, Toggled(fm).0, content)]))))))))
  {
    var guardError := ValidateCmsAccess(dev, enabled);
    if guardError.Some? {
      return JsonErrorResponse(guardError.value.error, guardError.value.status);
    }
    if request.None? || request.value.Null? {
      return JsonErrorResponse("Internal server error", 500);
    }
    var body := request.value;
    var postId := if body.Obj? && Lookup(body.entries, "postId").Some? then Lookup(body.entries, "postId").value else Undefined;
    if !postId.Str? || postId.s == "" {
      return JsonErrorResponse("Missing postId", 400);
    }
    if !checks.isPathSafe(postId.s) {
      return JsonErrorResponse("Invalid postId", 400);
    }
    if !checks.hasValidMarkdownExtension(postId.s) {
      return JsonErrorResponse("Invalid file extension", 400);
    }
    var filePath := ContentPath(cwd, postId.s);
    if filePath !in disk.files {
      return JsonErrorResponse("File not found", 404);
    }
    var parsed := m.parse(disk.files[filePath]);
    if parsed.None? {
      return JsonErrorResponse("Internal server error", 500);
    }
    var (frontmatter, content) := parsed.value;
    var (toggled, newDraft) := Toggled(frontmatter);
    var newContent := FileText(m, toggled, content);
    if writeFails {
      return JsonErrorResponse("Internal server error", 500);
    }
    disk.WriteFile(filePath, newContent);
    return JsonResponse(ToggleBody(newDraft));
  }
}
