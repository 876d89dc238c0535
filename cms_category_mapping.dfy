/**
 * The review dialog for new category mappings: slugs are cleaned to the
 * characters a URL segment may use before the mappings are confirmed.
 */
module CmsCategoryMapping {
  /** The characters a cleaned slug may hold: `[a-z0-9-]`. */
  predicate SlugChar(c: char) {
    'a' <= c <= 'z' || '0' <= c <= '9' || c == '-'
  }

  predicate IsSlug(s: string) {
    forall i :: 0 <= i < |s| ==> SlugChar(s[i])
  }

  /**
   * `toLowerCase` on one character, as far as the cleaning can tell:
   * ASCII capitals, the capital I with dot above (which lowercases to `i`
   * and a combining dot) and the Kelvin sign (which lowercases to `k`).
   * Every other character is left as it is: its lower-case form is a
   * slug character exactly when the character already is one.
   */
  function Lower(c: char): string {
    if 'A' <= c <= 'Z' then [AsciiLowerChar(c)]
    else if c == '\U{130}' then "i\U{307}"
    else if c == '\U{212A}' then "k"
    else [c]
  }

  /** The slug characters of `t`, in order. */
  function KeepSlugChars(t: string): (r: string)
    ensures IsSlug(r) && |r| <= |t|
    ensures IsSlug(t) ==> r == t
  {
    if t == [] then []
    else (if SlugChar(t[0]) then [t[0]] else []) + KeepSlugChars(t[1..])
  }

  /** `sanitizeSlug`: lower-case the text, then delete everything outside `[a-z0-9-]`. */
  function SanitizeSlug(s: string): (r: string)
    ensures IsSlug(r)
  {
    if s == [] then [] else KeepSlugChars(Lower(s[0])) + SanitizeSlug(s[1..])
  }

  /** Text that is already a slug is left as it is. */
  lemma {:induction false} SanitizeSlugFixed(s: string)
    requires IsSlug(s)
    ensures SanitizeSlug(s) == s
  {
    if s != [] {
      assert SlugChar(s[0]);
      assert Lower(s[0]) == [s[0]];
      SanitizeSlugFixed(s[1..]);
      assert s == [s[0]] + s[1..];
    }
  }

  /** Cleaning twice is cleaning once, and text is unchanged exactly when it is already a slug. */
  lemma SanitizeSlugIdempotent(s: string)
    ensures SanitizeSlug(SanitizeSlug(s)) == SanitizeSlug(s)
    ensures SanitizeSlug(s) == s <==> IsSlug(s)
  {
    SanitizeSlugFixed(SanitizeSlug(s));
    if IsSlug(s) {
      SanitizeSlugFixed(s);
    }
  }

  predicate IsAscii(s: string) {
    forall i :: 0 <= i < |s| ==> s[i] < '\U{80}'
  }

  /** An ASCII capital's lower-case letter; any other character as it is. */
  function AsciiLowerChar(c: char): char {
    if 'A' <= c <= 'Z' then (c as int + 32) as char else c
  }

  /** Lower-casing ASCII text, letter by letter. */
  function AsciiLower(s: string): (r: string)
    ensures |r| == |s|
    ensures forall i :: 0 <= i < |s| ==> r[i] == AsciiLowerChar(s[i])
  {
    seq(|s|, i requires 0 <= i < |s| => AsciiLowerChar(s[i]))
  }

  /** On ASCII text, cleaning lower-cases the letters and deletes every other disallowed character, keeping order. */
  lemma {:induction false} SanitizeAscii(s: string)
    requires IsAscii(s)
    ensures SanitizeSlug(s) == KeepSlugChars(AsciiLower(s))
  {
    if s != [] {
      var tail := s[1..];
      assert IsAscii(tail);
      SanitizeAscii(tail);
      assert s[0] < '\U{80}';
      assert Lower(s[0]) == [AsciiLowerChar(s[0])];
      AsciiLowerCons(s);
      KeepAppend([AsciiLowerChar(s[0])], AsciiLower(tail));
    }
  }

  lemma AsciiLowerCons(s: string)
    requires s != []
    ensures AsciiLower(s) == [AsciiLowerChar(s[0])] + AsciiLower(s[1..])
  {
    var low := AsciiLower(s);
    var rest := AsciiLower(s[1..]);
    assert forall i :: 0 <= i < |rest| ==> rest[i] == low[i + 1];
  }

  lemma {:induction false} KeepAppend(a: string, b: string)
    ensures KeepSlugChars(a + b) == KeepSlugChars(a) + KeepSlugChars(b)
  {
    if a == [] {
      assert a + b == b;
    } else {
      var head := if SlugChar(a[0]) then [a[0]] else [];
      assert (a + b)[0] == a[0];
      assert (a + b)[1..] == a[1..] + b;
      KeepAppend(a[1..], b);
      calc {
        KeepSlugChars(a + b);
        head + KeepSlugChars(a[1..] + b);
        head + (KeepSlugChars(a[1..]) + KeepSlugChars(b));
        (head + KeepSlugChars(a[1..])) + KeepSlugChars(b);
      }
    }
  }

  /** Two non-ASCII characters do survive: the Kelvin sign becomes `k` and the dotted capital I becomes `i`. */
  lemma NonAsciiLetters()
    ensures SanitizeSlug("\U{212A}") == "k"
    ensures SanitizeSlug("\U{130}") == "i"
    ensures SanitizeSlug("\U{C9}") == ""
  {
    SanitizeOne('\U{212A}');
    SanitizeOne('\U{130}');
    SanitizeOne('\U{C9}');
    assert KeepSlugChars("i\U{307}") == "i" by {
      assert "i\U{307}"[1..] == "\U{307}";
    }
  }

  lemma SanitizeOne(c: char)
    ensures SanitizeSlug([c]) == KeepSlugChars(Lower(c))
  {
    assert [c][1..] == [];
  }

  /** `onSubmit`: every slug cleaned, every category name kept, in order. */
  function SanitizeMappings(data: seq<(string, string)>): (r: seq<(string, string)>)
    ensures |r| == |data|
    ensures forall i :: 0 <= i < |data| ==> r[i].0 == data[i].0 && r[i].1 == SanitizeSlug(data[i].1)
  {
    seq(|data|, i requires 0 <= i < |data| => (data[i].0, SanitizeSlug(data[i].1)))
  }

  /** Submitting keeps the category names, confirms only slugs, and submitting the result again changes nothing. */
  lemma SubmitKeepsNames(data: seq<(string, string)>)
    ensures forall i :: 0 <= i < |data| ==> IsSlug(SanitizeMappings(data)[i].1)
    ensures SanitizeMappings(SanitizeMappings(data)) == SanitizeMappings(data)
    ensures (set i | 0 <= i < |data| :: data[i].0) == (set i | 0 <= i < |data| :: SanitizeMappings(data)[i].0)
  {
    forall i | 0 <= i < |data| ensures SanitizeSlug(SanitizeSlug(data[i].1)) == SanitizeSlug(data[i].1) {
      SanitizeSlugIdempotent(data[i].1);
    }
  }
}
