/**
 * Writing front matter back to a post: `serializeFrontmatter` (dates become
 * `yyyy-MM-dd HH:mm:ss` text, `undefined` and `null` values are dropped),
 * the post-processing of the YAML text that removes the quotes around such
 * timestamps on `date:` and `updated:` lines, and the YAML and gray-matter
 * library calls, which stay uninterpreted.
 */
module CmsFrontmatter {
  import opened Common
  import opened CmsJson

  /** `s` left-padded with zeros to at least `width` characters. */
  function Pad(s: string, width: nat): (r: string)
    ensures |r| == if |s| < width then width else |s|
    ensures forall i :: 0 <= i < |s| ==> r[|r| - |s| + i] == s[i]
    ensures forall i :: 0 <= i < |r| - |s| ==> r[i] == '0'
  {
    if |s| < width then seq(width - |s|, _ => '0') + s else s
  }

  /**
   * `format(d, 'yyyy-MM-dd HH:mm:ss')` from date-fns; an invalid date makes
   * it throw.
   */
  function FormatDate(d: DateTime): (r: Result<string>)
    ensures r.Err? <==> d.InvalidDate?
  {
    match d
    case InvalidDate => Err("Invalid time value")
    case Instant(year, month, day, hour, minute, second) =>
      Ok(Pad(Decimal(year), 4) + "-" + Pad(Decimal(month), 2) + "-" + Pad(Decimal(day), 2) + " "
        + Pad(Decimal(hour), 2) + ":" + Pad(Decimal(minute), 2) + ":" + Pad(Decimal(second), 2))
  }

  /** The text the pattern `\d{4}-\d{2}-\d{2} \d{2}:\d{2}:\d{2}` matches. */
  predicate IsStamp(s: string) {
    |s| == 19
    && forall i :: 0 <= i < 19 ==>
      if i == 4 || i == 7 then s[i] == '-'
      else if i == 10 then s[i] == ' '
      else if i == 13 || i == 16 then s[i] == ':'
      else IsDigit(s[i])
  }

  /** A calendar instant with a four-digit year. */
  predicate FourDigitYear(d: DateTime) {
    d.Instant? && d.year <= 9999 && 1 <= d.month <= 12 && 1 <= d.day <= 31
    && d.hour <= 23 && d.minute <= 59 && d.second <= 59
  }

  function Pow10(k: nat): nat {
    if k == 0 then 1 else 10 * Pow10(k - 1)
  }

  lemma {:induction false} DecimalLength(n: nat, k: nat)
    requires 1 <= k && n < Pow10(k)
    ensures |Decimal(n)| <= k
  {
    if n >= 10 {
      DecimalLength(n / 10, k - 1);
    }
  }

  lemma PaddedDigits(n: nat, k: nat)
    requires 1 <= k && n < Pow10(k)
    ensures |Pad(Decimal(n), k)| == k
    ensures forall i :: 0 <= i < k ==> IsDigit(Pad(Decimal(n), k)[i])
  {
    DecimalLength(n, k);
    var d := Decimal(n);
    var p := Pad(d, k);
    forall i | 0 <= i < k ensures IsDigit(p[i]) {
      if i >= k - |d| {
        assert p[i] == d[i - (k - |d|)];
      }
    }
  }

  /** Six zero-padded fields with their separators make a timestamp. */
  lemma StampOf(y: string, mo: string, da: string, h: string, mi: string, se: string)
    requires |y| == 4 && |mo| == 2 && |da| == 2 && |h| == 2 && |mi| == 2 && |se| == 2
    requires forall i :: 0 <= i < 4 ==> IsDigit(y[i])
    requires forall i :: 0 <= i < 2 ==> IsDigit(mo[i]) && IsDigit(da[i]) && IsDigit(h[i]) && IsDigit(mi[i]) && IsDigit(se[i])
    ensures IsStamp(y + "-" + mo + "-" + da + " " + h + ":" + mi + ":" + se)
  {
    var s := y + "-" + mo + "-" + da + " " + h + ":" + mi + ":" + se;
    assert s[..4] == y && s[5..7] == mo && s[8..10] == da;
    assert s[11..13] == h && s[14..16] == mi && s[17..19] == se;
    forall i | 0 <= i < 19
      ensures if i == 4 || i == 7 then s[i] == '-'
        else if i == 10 then s[i] == ' '
        else if i == 13 || i == 16 then s[i] == ':'
        else IsDigit(s[i])
    {
      if i < 4 { assert s[i] == s[..4][i]; }
      else if 5 <= i < 7 { assert s[i] == s[5..7][i - 5]; }
      else if 8 <= i < 10 { assert s[i] == s[8..10][i - 8]; }
      else if 11 <= i < 13 { assert s[i] == s[11..13][i - 11]; }
      else if 14 <= i < 16 { assert s[i] == s[14..16][i - 14]; }
      else if 17 <= i < 19 { assert s[i] == s[17..19][i - 17]; }
    }
  }

  /** Every instant with a four-digit year formats to text the timestamp pattern matches. */
  lemma FormattedIsStamp(d: DateTime)
    requires FourDigitYear(d)
    ensures FormatDate(d).Ok? && IsStamp(FormatDate(d).value)
  {
    PaddedDigits(d.year, 4);
    PaddedDigits(d.month, 2);
    PaddedDigits(d.day, 2);
    PaddedDigits(d.hour, 2);
    PaddedDigits(d.minute, 2);
    PaddedDigits(d.second, 2);
    StampOf(Pad(Decimal(d.year), 4), Pad(Decimal(d.month), 2), Pad(Decimal(d.day), 2),
      Pad(Decimal(d.hour), 2), Pad(Decimal(d.minute), 2), Pad(Decimal(d.second), 2));
  }

  /** What `serializeFrontmatter` returns, or the error the first invalid date throws. */
  function Serialized(fm: Entries): (r: Result<Entries>)
    decreases |fm|
  {
    if fm == [] then Ok([])
    else
      match Serialized(fm[..|fm| - 1])
      case Err(m) => Err(m)
      case Ok(prev) =>
        var (k, v) := fm[|fm| - 1];
        if v.Date? then
          match FormatDate(v.d)
          case Err(m) => Err(m)
          case Ok(s) => Ok(Assign(prev, k, Str(s)))
        else if v.Undefined? || v.Null? then Ok(prev)
        else Ok(Assign(prev, k, v))
  }

  /** What happens to one value: dates become their text, `undefined` and `null` go, the rest stays. */
  function SerializedValue(v: Option<Value>): Option<Value> {
    if v.None? || v.value.Undefined? || v.value.Null? then None
    else if v.value.Date? then DateText(FormatDate(v.value.d))
    else v
  }

  /** A formatted date as a string value; none when formatting threw. */
  function DateText(f: Result<string>): Option<Value> {
    if f.Ok? then Some(Str(f.value)) else None
  }

  /** Serialising throws exactly when some value is an invalid date. */
  lemma {:induction false} SerializedFails(fm: Entries)
    ensures Serialized(fm).Err? <==> exists i :: 0 <= i < |fm| && fm[i].1 == Date(InvalidDate)
  {
    if fm != [] {
      var init := fm[..|fm| - 1];
      SerializedFails(init);
      assert forall i :: 0 <= i < |init| ==> init[i] == fm[i];
      if exists i :: 0 <= i < |init| && init[i].1 == Date(InvalidDate) {
        var i :| 0 <= i < |init| && init[i].1 == Date(InvalidDate);
        assert fm[i].1 == Date(InvalidDate);
      }
    }
  }

  /**
   * Over distinct keys, serialising keeps the keys distinct, drops every
   * `undefined` and `null` value, formats every date and copies every
   * other value unchanged under its key.
   */
  lemma {:induction false} SerializedLookup(fm: Entries)
    requires DistinctKeys(fm) && Serialized(fm).Ok?
    ensures DistinctKeys(Serialized(fm).value)
    ensures forall k :: Lookup(Serialized(fm).value, k) == SerializedValue(Lookup(fm, k))
  {
    if fm != [] {
      var init := fm[..|fm| - 1];
      assert fm == init + [fm[|fm| - 1]];
      assert DistinctKeys(init);
      SerializedLookup(init);
      SerializedStep(init, fm[|fm| - 1].0, fm[|fm| - 1].1);
    }
  }

  /** One more entry, under a new key, in `SerializedLookup`. */
  lemma SerializedStep(init: Entries, k: string, v: Value)
    requires Serialized(init).Ok? && Serialized(init + [(k, v)]).Ok?
    requires k !in Keys(init)
    requires DistinctKeys(Serialized(init).value)
    requires forall j :: Lookup(Serialized(init).value, j) == SerializedValue(Lookup(init, j))
    ensures DistinctKeys(Serialized(init + [(k, v)]).value)
    ensures forall j :: Lookup(Serialized(init + [(k, v)]).value, j) == SerializedValue(Lookup(init + [(k, v)], j))
  {
    var fm := init + [(k, v)];
    assert fm[..|fm| - 1] == init;
    var prev := Serialized(init).value;
    var r := Serialized(fm).value;
    var t := if v.Date? then Str(FormatDate(v.d).value) else v;
    if v.Undefined? || v.Null? {
      assert r == prev;
    } else {
      assert r == Assign(prev, k, t);
      AssignLookup(prev, k, t);
    }
    forall j ensures Lookup(r, j) == SerializedValue(Lookup(fm, j)) {
      LookupAppend(init, k, v, j);
    }
  }

  /** `serializeFrontmatter`: one pass over the entries, filling the result record. */
  method SerializeFrontmatter(frontmatter: Entries) returns (r: Result<Entries>)
    ensures r == Serialized(frontmatter)
  {
    var result: Entries := [];
    for i := 0 to |frontmatter|
      invariant Serialized(frontmatter[..i]) == Ok(result)
    {
      var (key, value) := frontmatter[i];
      assert frontmatter[..i + 1][..i] == frontmatter[..i];
      if value.Date? {
        var formatted := FormatDate(value.d);
        if formatted.Err? {
          ErrSticks(frontmatter, i + 1);
          return Err(formatted.message);
        }
        result := Assign(result, key, Str(formatted.value));
      } else if !value.Undefined? && !value.Null? {
        result := Assign(result, key, value);
      }
    }
    assert frontmatter[..|frontmatter|] == frontmatter;
    return Ok(result);
  }

  /** Once a prefix has thrown, the whole list throws the same error. */
  lemma {:induction false} ErrSticks(fm: Entries, i: nat)
    requires i <= |fm| && Serialized(fm[..i]).Err?
    ensures Serialized(fm) == Serialized(fm[..i])
    decreases |fm| - i
  {
    if i == |fm| {
      assert fm[..i] == fm;
    } else {
      var init := fm[..|fm| - 1];
      assert init[..i] == fm[..i];
      ErrSticks(init, i);
    }
  }

  /** The line ends the `m` flag of a regular expression recognises. */
  predicate IsLineTerminator(c: char) {
    c == '\n' || c == '\r' || c == '\U{2028}' || c == '\U{2029}'
  }

  /** A whole line `key: '<timestamp>'`. */
  predicate QuotedStamp(line: string, key: string) {
    |line| == |key| + 23 && line[..|key| + 3] == key + ": '"
    && IsStamp(line[|key| + 3..|key| + 22]) && line[|key| + 22] == '\''
  }

  /** One line of the YAML text after the rewrite: a quoted `date` or `updated` timestamp loses its quotes. */
  function UnquoteLine(line: string): (r: string)
    ensures r != line <==> QuotedStamp(line, "date") || QuotedStamp(line, "updated")
    ensures r != line ==> |r| == |line| - 2 && r[..|r| - 19] == line[..|r| - 19] && r[|r| - 19..] == line[|r| - 18..|line| - 1]
  {
    if QuotedStamp(line, "date") then "date: " + line[7..26]
    else if QuotedStamp(line, "updated") then "updated: " + line[10..29]
    else line
  }

  /** A `key: '<timestamp>'` line starts `s` and ends at a line end or the end of the text. */
  predicate QuotedStampLineAt(s: string, key: string) {
    |s| >= |key| + 23 && QuotedStamp(s[..|key| + 23], key)
    && (|s| == |key| + 23 || IsLineTerminator(s[|key| + 23]))
  }

  /**
   * `replace(/^(date|updated): '(<timestamp>)'$/gm, '$1: $2')` scanning
   * `s`; `lineStart` says whether `s` begins a line.
   */
  function UnquoteFrom(s: string, lineStart: bool): string
    decreases |s|
  {
    if s == [] then []
    else if lineStart && QuotedStampLineAt(s, "date") then "date: " + s[7..26] + UnquoteFrom(s[27..], false)
    else if lineStart && QuotedStampLineAt(s, "updated") then "updated: " + s[10..29] + UnquoteFrom(s[30..], false)
    else [s[0]] + UnquoteFrom(s[1..], IsLineTerminator(s[0]))
  }

  /** The rewrite applied to the whole YAML text. */
  function UnquoteDates(yaml: string): string {
    UnquoteFrom(yaml, true)
  }

  predicate NoLineEnds(line: string) {
    forall i :: 0 <= i < |line| ==> !IsLineTerminator(line[i])
  }

  function UnquoteEach(lines: seq<string>): (r: seq<string>)
    ensures |r| == |lines| && forall i :: 0 <= i < |lines| ==> r[i] == UnquoteLine(lines[i])
  {
    seq(|lines|, i requires 0 <= i < |lines| => UnquoteLine(lines[i]))
  }

  /** Inside a line, past its start, nothing is rewritten. */
  lemma {:induction false} InsideLine(line: string, rest: string)
    requires NoLineEnds(line)
    ensures UnquoteFrom(line + rest, false) == line + UnquoteFrom(rest, false)
  {
    if line != [] {
      var s := line + rest;
      assert s[0] == line[0] && !IsLineTerminator(s[0]);
      assert s[1..] == line[1..] + rest;
      assert UnquoteFrom(s, false) == [s[0]] + UnquoteFrom(s[1..], false);
      InsideLine(line[1..], rest);
      assert line == [line[0]] + line[1..];
      assert [s[0]] + (line[1..] + UnquoteFrom(rest, false)) == line + UnquoteFrom(rest, false);
    } else {
      assert line + rest == rest;
    }
  }

  /** A line followed by a line end (or nothing) is rewritten as `UnquoteLine` says. */
  lemma LineThrough(line: string, rest: string)
    requires NoLineEnds(line)
    requires rest == [] || IsLineTerminator(rest[0])
    ensures UnquoteFrom(line + rest, true) == UnquoteLine(line) + UnquoteFrom(rest, false)
  {
    var s := line + rest;
    if QuotedStampLineAt(s, "date") {
      LineThroughStamp(line, rest, "date");
    } else if QuotedStampLineAt(s, "updated") {
      LineThroughStamp(line, rest, "updated");
    } else {
      LineThroughPlain(line, rest);
    }
  }

  /** A timestamp line found at the start of `line + rest` is all of `line`. */
  lemma LineThroughStamp(line: string, rest: string, key: string)
    requires NoLineEnds(line)
    requires rest == [] || IsLineTerminator(rest[0])
    requires key == "date" || key == "updated"
    requires QuotedStampLineAt(line + rest, key)
    ensures line == (line + rest)[..|key| + 23] && rest == (line + rest)[|key| + 23..]
    ensures QuotedStamp(line, key)
  {
    var s := line + rest;
    var m := |key| + 23;
    StampNoLineEnds(s[..m], key);
    assert forall i :: 0 <= i < m ==> !IsLineTerminator(s[i]) by {
      forall i | 0 <= i < m ensures !IsLineTerminator(s[i]) {
        assert s[i] == s[..m][i];
      }
    }
    assert rest != [] ==> IsLineTerminator(s[|line|]);
    assert |line| >= m;
    assert |line| <= m;
    assert s[..m] == line;
  }

  /** A timestamp line holds no line end. */
  lemma StampNoLineEnds(t: string, key: string)
    requires key == "date" || key == "updated"
    requires QuotedStamp(t, key)
    ensures NoLineEnds(t)
  {
    var k := |key|;
    forall i | 0 <= i < |t| ensures !IsLineTerminator(t[i]) {
      if i < k + 3 {
        assert t[i] == t[..k + 3][i];
      } else if i < k + 22 {
        assert t[i] == t[k + 3..k + 22][i - k - 3];
      }
    }
  }

  /** A timestamp line followed by a line end (or nothing) is found at the start of the text. */
  lemma StampLineAt(line: string, rest: string, key: string)
    requires rest == [] || IsLineTerminator(rest[0])
    ensures QuotedStamp(line, key) ==> QuotedStampLineAt(line + rest, key)
  {
    if QuotedStamp(line, key) {
      assert (line + rest)[..|key| + 23] == line;
    }
  }

  /** A line that is no quoted timestamp passes through unchanged. */
  lemma LineThroughPlain(line: string, rest: string)
    requires NoLineEnds(line)
    requires rest == [] || IsLineTerminator(rest[0])
    requires !QuotedStampLineAt(line + rest, "date") && !QuotedStampLineAt(line + rest, "updated")
    ensures UnquoteFrom(line + rest, true) == line + UnquoteFrom(rest, false)
    ensures UnquoteLine(line) == line
  {
    StampLineAt(line, rest, "date");
    StampLineAt(line, rest, "updated");
    if line != [] {
      PlainLineStep(line, rest);
    } else if rest != [] {
      assert line + rest == rest;
      EmptyLineStep(rest);
    }
  }

  lemma PlainLineStep(line: string, rest: string)
    requires line != [] && NoLineEnds(line)
    requires !QuotedStampLineAt(line + rest, "date") && !QuotedStampLineAt(line + rest, "updated")
    ensures UnquoteFrom(line + rest, true) == line + UnquoteFrom(rest, false)
  {
    var s := line + rest;
    assert s[0] == line[0] && s[1..] == line[1..] + rest;
    InsideLine(line[1..], rest);
    assert line == [line[0]] + line[1..];
    assert [s[0]] + (line[1..] + UnquoteFrom(rest, false)) == line + UnquoteFrom(rest, false);
  }

  lemma EmptyLineStep(rest: string)
    requires rest != [] && IsLineTerminator(rest[0])
    requires !QuotedStampLineAt(rest, "date") && !QuotedStampLineAt(rest, "updated")
    ensures UnquoteFrom(rest, true) == UnquoteFrom(rest, false)
  {
    assert UnquoteFrom(rest, true) == [rest[0]] + UnquoteFrom(rest[1..], true);
  }

  /**
   * For YAML text made of lines joined by `\n`, the rewrite works line by
   * line: exactly the whole-line quoted `date` and `updated` timestamps
   * change, and every other line is left as it was.
   */
  lemma {:induction false} UnquoteDatesLines(lines: seq<string>)
    requires forall i :: 0 <= i < |lines| ==> NoLineEnds(lines[i])
    ensures UnquoteDates(Join(lines, "\n")) == Join(UnquoteEach(lines), "\n")
  {
    if |lines| == 1 {
      LineThrough(lines[0], []);
      assert lines[0] + [] == lines[0];
    } else if |lines| > 1 {
      var rest := Join(lines[1..], "\n");
      assert Join(lines, "\n") == lines[0] + ("\n" + rest);
      LineThrough(lines[0], "\n" + rest);
      assert ("\n" + rest)[1..] == rest;
      UnquoteDatesLines(lines[1..]);
      assert UnquoteEach(lines[1..]) == UnquoteEach(lines)[1..];
    }
  }

  /** A `key: '<timestamp>'` line. */
  lemma QuotedStampOf(key: string, stamp: string)
    requires IsStamp(stamp)
    ensures QuotedStamp(key + ": '" + stamp + "'", key)
  {
    var line := key + ": '" + stamp + "'";
    assert line[..|key| + 3] == key + ": '";
    assert line[|key| + 3..|key| + 22] == stamp;
  }

  /** A formatted `date` or `updated` value that the YAML dump quoted comes out unquoted. */
  lemma FormattedDateUnquoted(key: string, d: DateTime)
    requires key == "date" || key == "updated"
    requires FourDigitYear(d)
    ensures FormatDate(d).Ok?
    ensures UnquoteLine(key + ": '" + FormatDate(d).value + "'") == key + ": " + FormatDate(d).value
  {
    FormattedIsStamp(d);
    StampUnquoted(key, FormatDate(d).value);
  }

  /** A quoted timestamp on a `date` or `updated` line loses exactly its quotes. */
  lemma StampUnquoted(key: string, stamp: string)
    requires key == "date" || key == "updated"
    requires IsStamp(stamp)
    ensures UnquoteLine(key + ": '" + stamp + "'") == key + ": " + stamp
  {
    var line := key + ": '" + stamp + "'";
    QuotedStampOf(key, stamp);
    if key == "date" {
      assert line[7..26] == stamp;
    } else {
      assert |line| == 30;
      assert line[10..29] == stamp;
    }
  }

  /**
   * The library calls around the rewrite: `yaml.dump` of a record,
   * gray-matter's `stringify` wrapping the YAML text and the body, and
   * gray-matter's parse, which gives the record and the body or throws.
   */
  datatype Matter = Matter(
    dump: Entries -> string,
    wrap: (string, string) -> string,
    parse: string -> Option<(Entries, string)>)

  /** The file text written for a serialised record and a body. */
  function FileText(m: Matter, data: Entries, body: string): string {
    m.wrap(UnquoteDates(m.dump(data)), body)
  }
}
