/**
 * The site's own write endpoint (`POST /api/cms/write`): it checks the
 * request, parses front matter dates sent as text, serialises the front
 * matter and writes the post file under the content directory.
 */
module CmsWrite {
  import opened Common
  import opened CmsJson
  import opened CmsPath
  import opened CmsFrontmatter
  import opened CmsGuard
  import opened CmsDisk

  /** `new Date(text)`, a library parse. */
  type DateParse = string -> DateTime

  /** Where the file system throws, if it does. */
  datatype IoFault = NoIoFault | MkdirFails | WriteFails

  const InternalError := JsonErrorResponse("Internal server error", 500)

  /** A property of the parsed body; `undefined` when it has none. */
  function Field(body: Value, k: string): (r: Value)
    ensures body.Obj? && Lookup(body.entries, k).Some? ==> r == Lookup(body.entries, k).value
    ensures !body.Obj? || k !in Keys(body.entries) ==> r == Undefined
  {
    if body.Obj? && Lookup(body.entries, k).Some? then Lookup(body.entries, k).value else Undefined
  }

  /** A front matter property sent as text becomes the date it parses to. */
  function ParseDateField(e: Entries, k: string, parse: DateParse): Entries {
    match Lookup(e, k)
    case Some(Str(s)) => Assign(e, k, Date(parse(s)))
    case _ => e
  }

  /** `processedFrontmatter`: a copy of the front matter with `date` and `updated` parsed. */
  function Processed(frontmatter: Value, parse: DateParse): Entries {
    ParseDateField(ParseDateField(Spread(frontmatter), "date", parse), "updated", parse)
  }

  /** What `date` or `updated` turns into before serialisation. */
  function ProcessedValue(v: Option<Value>, parse: DateParse): Option<Value> {
    match v
    case Some(Str(s)) => Some(Date(parse(s)))
    case _ => v
  }

  lemma ParseDateFieldLookup(e: Entries, k: string, parse: DateParse)
    requires DistinctKeys(e)
    ensures DistinctKeys(ParseDateField(e, k, parse))
    ensures Lookup(ParseDateField(e, k, parse), k) == ProcessedValue(Lookup(e, k), parse)
    ensures forall j :: j != k ==> Lookup(ParseDateField(e, k, parse), j) == Lookup(e, j)
  {
    if Lookup(e, k).Some? && Lookup(e, k).value.Str? {
      AssignLookup(e, k, Date(parse(Lookup(e, k).value.s)));
    }
  }

  /**
   * For an object, `date` and `updated` sent as text are parsed and every
   * other property is copied as it came.
   */
  lemma ProcessedLookup(frontmatter: Value, parse: DateParse)
    requires frontmatter.Obj? && DistinctKeys(frontmatter.entries)
    ensures DistinctKeys(Processed(frontmatter, parse))
    ensures forall k :: (Lookup(Processed(frontmatter, parse), k) ==
      if k == "date" || k == "updated" then ProcessedValue(Lookup(frontmatter.entries, k), parse)
      else Lookup(frontmatter.entries, k))
  {
    var e := frontmatter.entries;
    ParseDateFieldLookup(e, "date", parse);
    ParseDateFieldLookup(ParseDateField(e, "date", parse), "updated", parse);
  }

  /**
   * What the written front matter holds for `date`: the text of the date
   * it was sent as (or was), and nothing when it was absent or null.
   */
  lemma WrittenDate(frontmatter: Value, parse: DateParse, k: string)
    requires frontmatter.Obj? && DistinctKeys(frontmatter.entries)
    requires k == "date" || k == "updated"
    requires Serialized(Processed(frontmatter, parse)).Ok?
    ensures Lookup(Serialized(Processed(frontmatter, parse)).value, k) == SerializedValue(ProcessedValue(Lookup(frontmatter.entries, k), parse))
  {
    ProcessedLookup(frontmatter, parse);
    SerializedLookup(Processed(frontmatter, parse));
  }

  /** A date sent as text that does not parse makes serialisation throw. */
  lemma UnparsableDateFails(frontmatter: Value, parse: DateParse, k: string, s: string)
    requires frontmatter.Obj? && DistinctKeys(frontmatter.entries)
    requires k == "date" || k == "updated"
    requires Lookup(frontmatter.entries, k) == Some(Str(s))
    ensures parse(s) == InvalidDate ==> Serialized(Processed(frontmatter, parse)).Err?
  {
    if parse(s) == InvalidDate {
      var p := Processed(frontmatter, parse);
      ProcessedText(frontmatter, parse, k, s);
      var i :| 0 <= i < |p| && p[i] == (k, Date(InvalidDate));
      SerializedFails(p);
    }
  }

  /** A date sent as text is, after processing, the date it parses to. */
  lemma ProcessedText(frontmatter: Value, parse: DateParse, k: string, s: string)
    requires frontmatter.Obj? && DistinctKeys(frontmatter.entries)
    requires k == "date" || k == "updated"
    requires Lookup(frontmatter.entries, k) == Some(Str(s))
    ensures Lookup(Processed(frontmatter, parse), k) == Some(Date(parse(s)))
  {
    ProcessedLookup(frontmatter, parse);
    assert ProcessedValue(Lookup(frontmatter.entries, k), parse) == Some(Date(parse(s)));
  }

  /** When the write goes ahead, a date sent as text is written as the text of the date it parses to. */
  lemma WrittenDateText(frontmatter: Value, parse: DateParse, k: string, s: string)
    requires frontmatter.Obj? && DistinctKeys(frontmatter.entries)
    requires k == "date" || k == "updated"
    requires Lookup(frontmatter.entries, k) == Some(Str(s))
    requires Serialized(Processed(frontmatter, parse)).Ok?
    ensures parse(s) != InvalidDate
    ensures Lookup(Serialized(Processed(frontmatter, parse)).value, k) == Some(Str(FormatDate(parse(s)).value))
  {
    UnparsableDateFails(frontmatter, parse, k, s);
    ProcessedLookup(frontmatter, parse);
    ProcessedText(frontmatter, parse, k, s);
    SerializedDateAt(Processed(frontmatter, parse), k, parse(s));
  }

  /** A valid date in entries that serialise is written as its text. */
  lemma SerializedDateAt(p: Entries, k: string, d: DateTime)
    requires DistinctKeys(p) && Serialized(p).Ok? && Lookup(p, k) == Some(Date(d)) && !d.InvalidDate?
    ensures Lookup(Serialized(p).value, k) == Some(Str(FormatDate(d).value))
  {
    SerializedLookup(p);
    DateSerialized(d);
  }

  lemma DateSerialized(d: DateTime)
    requires !d.InvalidDate?
    ensures SerializedValue(Some(Date(d))) == Some(Str(FormatDate(d).value))
  {
  }

  /** The request passes every check the handler makes before writing. */
  predicate Accepted(body: Value, cwd: string) {
    var postId := Field(body, "postId");
    var frontmatter := Field(body, "frontmatter");
    !body.Null? && postId.Str? && postId.s != "" &&
    Truthy(frontmatter) && IsObjectType(frontmatter) &&
    Field(body, "content").Str? &&
    IsPathSafe(postId.s) &&
    (Extname(ContentPath(cwd, postId.s)) == ".md" || Extname(ContentPath(cwd, postId.s)) == ".mdx")
  }

  /**
   * `POST`. `request` is the parsed JSON body, `None` when it is not
   * JSON. Outside development mode or with the CMS disabled the request
   * is refused; then the checks run in order and the first that fails
   * answers 400, except that destructuring `null` and normalising an id
   * that is not text throw and answer 500. Nothing is created or written
   * unless every check passes; then the directory is created and the file
   * written with the serialised front matter and the content.
   */
  method Post(disk: Disk, dev: bool, enabled: bool, cwd: string, request: Option<Value>,
              parse: DateParse, m: Matter, fault: IoFault) returns (resp: Response)
    modifies disk
    ensures !dev ==> resp == JsonErrorResponse(DevOnlyMessage, 403)
    ensures dev && !enabled ==> resp == JsonErrorResponse(DisabledMessage, 403)
    ensures !(dev && enabled && request.Some? && Accepted(request.value, cwd)) ==> unchanged(disk)
    ensures dev && enabled && (request.None? || request.value.Null?) ==> resp == InternalError
    ensures dev && enabled && request.Some? && !request.value.Null? ==> (
      var b := request.value;
      var postId := Field(b, "postId");
      var frontmatter := Field(b, "frontmatter");
      (!Truthy(postId) ==> resp == JsonErrorResponse("Missing postId", 400)) &&
      (Truthy(postId) && !(Truthy(frontmatter) && IsObjectType(frontmatter)) ==>
        resp == JsonErrorResponse("Missing frontmatter", 400)) &&
      (Truthy(postId) && Truthy(frontmatter) && IsObjectType(frontmatter) && !Field(b, "content").Str? ==>
        resp == JsonErrorResponse("Missing content", 400)) &&
      (Truthy(postId) && Truthy(frontmatter) && IsObjectType(frontmatter) && Field(b, "content").Str? ==> (
        (!postId.Str? ==> resp == InternalError) &&
        (postId.Str? && !IsPathSafe(postId.s) ==> resp == JsonErrorResponse("Invalid postId", 400)) &&
        (postId.Str? && IsPathSafe(postId.s) && !Accepted(b, cwd) ==>
          resp == JsonErrorResponse("Invalid file extension", 400)))))
    ensures dev && enabled && request.Some? && Accepted(request.value, cwd) ==> (
      var b := request.value;
      var path := ContentPath(cwd, Field(b, "postId").s);
      match Serialized(Processed(Field(b, "frontmatter"), parse))
      case Err(_) => resp == InternalError && unchanged(disk)
      case Ok(data) =>
        (fault.MkdirFails? ==> resp == InternalError && unchanged(disk)) &&
        (fault.WriteFails? ==> (resp == InternalError &&
          disk.dirs == old(disk.dirs) + {Dirname(path)} && disk.files == old(disk.files))) &&
        (fault.NoIoFault? ==> (resp == JsonResponse(SuccessBody) &&
          disk.dirs == old(disk.dirs) + {Dirname(path)} &&
          disk.files == old(disk.files)[path := FileText(m, data, Field(b, "content").s)])))
  {
    if !dev {
      return JsonErrorResponse(DevOnlyMessage, 403);
    }
    if !enabled {
      return JsonErrorResponse(DisabledMessage, 403);
    }
    if request.None? || request.value.Null? {
      return InternalError;
    }
    var body := request.value;
    var postId := Field(body, "postId");
    var frontmatter := Field(body, "frontmatter");
    var content := Field(body, "content");
    if !Truthy(postId) {
      return JsonErrorResponse("Missing postId", 400);
    }
    if !Truthy(frontmatter) || !IsObjectType(frontmatter) {
      return JsonErrorResponse("Missing frontmatter", 400);
    }
    if !content.Str? {
      return JsonErrorResponse("Missing content", 400);
    }
    if !postId.Str? {
      return InternalError;
    }
    if !IsPathSafe(postId.s) {
      return JsonErrorResponse("Invalid postId", 400);
    }
    var filePath := ContentPath(cwd, postId.s);
    var ext := Extname(filePath);
    if ext != ".md" && ext != ".mdx" {
      return JsonErrorResponse("Invalid file extension", 400);
    }
    var serialized := SerializeFrontmatter(Processed(frontmatter, parse));
    if serialized.Err? {
      return InternalError;
    }
    var fileContent := FileText(m, serialized.value, content.s);
    if fault.MkdirFails? {
      return InternalError;
    }
    disk.MakeDir(Dirname(filePath));
    if fault.WriteFails? {
      return InternalError;
    }
    disk.WriteFile(filePath, fileContent);
    return JsonResponse(SuccessBody);
  }

  /**
   * Together with the path check: a file the endpoint writes lies in the
   * content directory under the project root.
   */
  lemma WrittenInsideContentDir(cwd: string, body: Value)
    requires IsAbsolute(cwd) && Accepted(body, cwd)
    ensures var postId := Field(body, "postId").s;
      Kept(cwd + "/" + ContentDir + "/" + postId) == Kept(cwd) + ["src", "content", "blog"] + Kept(postId) &&
      ".." !in Kept(postId)
  {
    SafePathStaysInContentDir(cwd, Field(body, "postId").s);
  }
}
