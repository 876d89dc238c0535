/**
 * The standalone CMS server's write handler (`writeHandler`): the request
 * is validated against a schema, dates sent as text are parsed as ISO
 * instants or as local `yyyy-MM-dd HH:mm:ss` times, new category mappings
 * are registered, and the post file is written.
 */
module CmsServerWrite {
  import opened Common
  import opened CmsJson
  import opened CmsPath
  import opened CmsFrontmatter
  import opened CmsGuard
  import opened CmsDisk
  import CmsWrite

  /** The name the schema library gives a value's type in its messages. */
  function TypeName(v: Value): string {
    match v
    case Undefined => "undefined"
    case Null => "null"
    case Bool(_) => "boolean"
    case Num(_) => "number"
    case Str(_) => "string"
    case Arr(_) => "array"
    case Obj(_) => "object"
    case Date(_) => "date"
  }

  /** The message for a value of the wrong type: a missing value is "Required". */
  function Expected(expected: string, v: Value): string {
    if v.Undefined? then "Required" else "Expected " + expected + ", received " + TypeName(v)
  }

  function StringIssues(v: Value): (r: seq<string>)
    ensures r == [] <==> v.Str?
  {
    if v.Str? then [] else [Expected("string", v)]
  }

  /** `z.string().min(1, 'postId is required')`. */
  function PostIdIssues(v: Value): (r: seq<string>)
    ensures r == [] <==> v.Str? && v.s != ""
    ensures |r| <= 1
  {
    if !v.Str? then [Expected("string", v)]
    else if v.s == "" then ["postId is required"]
    else []
  }

  /** `z.record(...)`: a plain object; arrays and `null` are refused. */
  function RecordIssues(v: Value): (r: seq<string>)
    ensures r == [] <==> v.Obj?
  {
    if v.Obj? then [] else [Expected("object", v)]
  }

  /** One message per mapping whose value is not text, in property order. */
  function ValueIssues(e: Entries): (r: seq<string>)
    ensures r == [] <==> forall i :: 0 <= i < |e| ==> e[i].1.Str?
  {
    if e == [] then [] else StringIssues(e[0].1) + ValueIssues(e[1..])
  }

  /** `z.record(z.string(), z.string()).optional()`. */
  function MappingIssues(v: Value): (r: seq<string>)
    ensures r == [] <==> v.Undefined? || (v.Obj? && forall i :: 0 <= i < |v.entries| ==> v.entries[i].1.Str?)
  {
    if v.Undefined? then []
    else if v.Obj? then ValueIssues(v.entries)
    else [Expected("object", v)]
  }

  /** The schema's messages for a body, field by field in the schema's order. */
  function SchemaIssues(body: Value): seq<string> {
    if !body.Obj? then [Expected("object", body)]
    else
      PostIdIssues(CmsWrite.Field(body, "postId")) + RecordIssues(CmsWrite.Field(body, "frontmatter")) +
      StringIssues(CmsWrite.Field(body, "content")) + MappingIssues(CmsWrite.Field(body, "categoryMappings"))
  }

  /** What the schema accepts, stated field by field. */
  predicate SchemaAccepts(body: Value) {
    body.Obj? &&
    CmsWrite.Field(body, "postId").Str? && CmsWrite.Field(body, "postId").s != "" &&
    CmsWrite.Field(body, "frontmatter").Obj? &&
    CmsWrite.Field(body, "content").Str? &&
    (CmsWrite.Field(body, "categoryMappings").Undefined? ||
     (CmsWrite.Field(body, "categoryMappings").Obj? &&
      forall i :: 0 <= i < |CmsWrite.Field(body, "categoryMappings").entries| ==>
        CmsWrite.Field(body, "categoryMappings").entries[i].1.Str?))
  }

  /** The schema reports nothing exactly for the bodies it accepts; otherwise at least one message. */
  lemma SchemaIssuesIff(body: Value)
    ensures SchemaIssues(body) == [] <==> SchemaAccepts(body)
  {
  }

  /** A body that is not an object gets the one message naming its type. */
  lemma NotAnObject(body: Value)
    requires !body.Obj? && !body.Undefined?
    ensures Join(SchemaIssues(body), ", ") == "Expected object, received " + TypeName(body)
  {
  }

  /** The date parse this handler uses: ISO when the text has a `T`, the local format otherwise. */
  function ServerDateParse(parseIso: CmsWrite.DateParse, parseLocal: CmsWrite.DateParse): (r: CmsWrite.DateParse)
    ensures forall s :: Contains(s, "T") ==> r(s) == parseIso(s)
    ensures forall s :: !Contains(s, "T") ==> r(s) == parseLocal(s)
  {
    (s: string) => if Contains(s, "T") then parseIso(s) else parseLocal(s)
  }

  /** The mappings passed on, as name and slug pairs. */
  function MappingPairs(e: Entries): (r: seq<(string, string)>)
    requires forall i :: 0 <= i < |e| ==> e[i].1.Str?
    ensures |r| == |e| && forall i :: 0 <= i < |e| ==> r[i] == (e[i].0, e[i].1.s)
  {
    if e == [] then [] else [(e[0].0, e[0].1.s)] + MappingPairs(e[1..])
  }

  /** Where the handler throws, if it does. */
  datatype ServerFault = NoServerFault | MappingsFail | MkdirFails | WriteFails

  /**
   * `writeHandler`. `request` is the parsed JSON body (`None` when it is
   * not JSON). A body the schema refuses answers 400 with the messages
   * joined by ", "; then an unsafe id and a bad extension answer 400.
   * Non-empty category mappings are handed to the configuration module
   * (`mappingsCall`) before the directory is created and the file
   * written. Nothing is written unless every check passes.
   */
  method WriteHandler(disk: Disk, projectRoot: string, request: Option<Value>, checks: PathChecks,
                      parseIso: CmsWrite.DateParse, parseLocal: CmsWrite.DateParse, m: Matter,
                      fault: ServerFault) returns (resp: Response, mappingsCall: Option<seq<(string, string)>>)
    modifies disk
    ensures request.None? ==> resp == CmsWrite.InternalError && mappingsCall.None? && unchanged(disk)
    ensures request.Some? && !SchemaAccepts(request.value) ==> (
      resp == JsonErrorResponse(Join(SchemaIssues(request.value), ", "), 400) &&
      mappingsCall.None? && unchanged(disk))
    ensures request.Some? && SchemaAccepts(request.value) ==> (
      var b := request.value;
      var postId := CmsWrite.Field(b, "postId").s;
      var mappings := CmsWrite.Field(b, "categoryMappings");
      (!checks.isPathSafe(postId) ==> resp == JsonErrorResponse("Invalid postId", 400)) &&
      (checks.isPathSafe(postId) && !checks.hasValidMarkdownExtension(postId) ==>
        resp == JsonErrorResponse("Invalid file extension", 400)) &&
      (!(checks.isPathSafe(postId) && checks.hasValidMarkdownExtension(postId)) ==>
        mappingsCall.None? && unchanged(disk)) &&
      (checks.isPathSafe(postId) && checks.hasValidMarkdownExtension(postId) ==> (
        var path := ContentPath(projectRoot, postId);
        var processed := CmsWrite.Processed(CmsWrite.Field(b, "frontmatter"), ServerDateParse(parseIso, parseLocal));
        (Serialized(processed).Err? ==> resp == CmsWrite.InternalError && mappingsCall.None? && unchanged(disk)) &&
        (Serialized(processed).Ok? ==> (
          mappingsCall == (if mappings.Obj? && mappings.entries != [] then Some(MappingPairs(mappings.entries)) else None) &&
          (fault.MappingsFail? && mappingsCall.Some? ==> resp == CmsWrite.InternalError && unchanged(disk)) &&
          (fault.MkdirFails? ==> resp == CmsWrite.InternalError && unchanged(disk)) &&
          (fault.WriteFails? ==> (resp == CmsWrite.InternalError &&
            disk.files == old(disk.files) && disk.dirs == old(disk.dirs) + {Dirname(path)})) &&
          ((fault.NoServerFault? || (fault.MappingsFail? && mappingsCall.None?)) ==> (
            resp == JsonResponse(SuccessBody) &&
            disk.dirs == old(disk.dirs) + {Dirname(path)} &&
            disk.files == old(disk.files)[path := FileText(m, Serialized(processed).value, CmsWrite.Field(b, "content").s)])))))))
  {
    mappingsCall := None;
    if request.None? {
      return CmsWrite.InternalError, None;
    }
    var rawBody := request.value;
    var issues := SchemaIssues(rawBody);
    if issues != [] {
      SchemaIssuesIff(rawBody);
      return JsonErrorResponse(Join(issues, ", "), 400), None;
    }
    SchemaIssuesIff(rawBody);
    var postId := CmsWrite.Field(rawBody, "postId").s;
    var frontmatter := CmsWrite.Field(rawBody, "frontmatter");
    var content := CmsWrite.Field(rawBody, "content").s;
    var categoryMappings := CmsWrite.Field(rawBody, "categoryMappings");
    if !checks.isPathSafe(postId) {
      return JsonErrorResponse("Invalid postId", 400), None;
    }
    if !checks.hasValidMarkdownExtension(postId) {
      return JsonErrorResponse("Invalid file extension", 400), None;
    }
    var filePath := ContentPath(projectRoot, postId);
    var processed := CmsWrite.Processed(frontmatter, ServerDateParse(parseIso, parseLocal));
    var serialized := SerializeFrontmatter(processed);
    if serialized.Err? {
      return CmsWrite.InternalError, None;
    }
    var fileContent := FileText(m, serialized.value, content);
    if categoryMappings.Obj? && categoryMappings.entries != [] {
      mappingsCall := Some(MappingPairs(categoryMappings.entries));
      if fault.MappingsFail? {
        return CmsWrite.InternalError, mappingsCall;
      }
    }
    if fault.MkdirFails? {
      return CmsWrite.InternalError, mappingsCall;
    }
    disk.MakeDir(Dirname(filePath));
    if fault.WriteFails? {
      return CmsWrite.InternalError, mappingsCall;
    }
    disk.WriteFile(filePath, fileContent);
    return JsonResponse(SuccessBody), mappingsCall;
  }

  /** Text with a `T` is read as an ISO instant, and that instant is what the file's date is formatted from. */
  lemma IsoDateWritten(frontmatter: Value, parseIso: CmsWrite.DateParse, parseLocal: CmsWrite.DateParse, s: string)
    requires frontmatter.Obj? && DistinctKeys(frontmatter.entries)
    requires Lookup(frontmatter.entries, "date") == Some(Str(s)) && Contains(s, "T")
    requires Serialized(CmsWrite.Processed(frontmatter, ServerDateParse(parseIso, parseLocal))).Ok?
    ensures parseIso(s) != InvalidDate
    ensures Lookup(Serialized(CmsWrite.Processed(frontmatter, ServerDateParse(parseIso, parseLocal))).value, "date")
      == Some(Str(FormatDate(parseIso(s)).value))
  {
    var parse := ServerDateParse(parseIso, parseLocal);
    CmsWrite.WrittenDateText(frontmatter, parse, "date", s);
    assert parse(s) == parseIso(s);
  }
}
