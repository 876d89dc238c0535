/**
 * JavaScript string and array behaviour that several parts of the blog
 * rely on: `trim`, `indexOf`/`includes`, `split` with a string separator,
 * `join`, `replace` with a string pattern (first occurrence only),
 * `replaceAll`, `filter(Boolean)` on strings and the decimal `parseInt`.
 * Strings are sequences of characters; replacement strings are taken
 * literally (`$` patterns are not interpreted).
 */
module Common {

  datatype Option<T> = None | Some(value: T)

  /** The outcome of a step that can throw: a value, or the thrown error's message. */
  datatype Result<T> = Ok(value: T) | Err(message: string)

  /** The characters JavaScript's `trim` and the regex class `\s` treat as white space. */
  predicate IsSpace(c: char) {
    c == ' ' || c == '\t' || c == '\n' || c == '\r' || c == '\U{B}' || c == '\U{C}'
    || c == '\U{A0}' || c == '\U{1680}' || ('\U{2000}' <= c <= '\U{200A}')
    || c == '\U{2028}' || c == '\U{2029}' || c == '\U{202F}' || c == '\U{205F}'
    || c == '\U{3000}' || c == '\U{FEFF}'
  }

  predicate IsDigit(c: char) { '0' <= c <= '9' }

  predicate AllSpace(s: string) { forall i :: 0 <= i < |s| ==> IsSpace(s[i]) }

  /** No white space at either end. */
  predicate IsTrimmed(s: string) {
    s == [] || (!IsSpace(s[0]) && !IsSpace(s[|s| - 1]))
  }

  /** `s.trimStart()`: the suffix left after dropping leading white space. */
  function TrimStart(s: string): (r: string)
    ensures |r| <= |s|
    ensures r == [] || !IsSpace(r[0])
    decreases |s|
  {
    if |s| > 0 && IsSpace(s[0]) then TrimStart(s[1..]) else s
  }

  /** `s.trimEnd()`: the prefix left after dropping trailing white space. */
  function TrimEnd(s: string): (r: string)
    ensures |r| <= |s|
    ensures r == [] || !IsSpace(r[|r| - 1])
    decreases |s|
  {
    if |s| > 0 && IsSpace(s[|s| - 1]) then TrimEnd(s[..|s| - 1]) else s
  }

  /** What `trimStart` leaves is the end of the text, and only white space went. */
  lemma {:induction false} TrimStartShape(s: string)
    ensures TrimStart(s) == s[|s| - |TrimStart(s)|..]
    ensures forall i :: 0 <= i < |s| - |TrimStart(s)| ==> IsSpace(s[i])
    decreases |s|
  {
    if |s| > 0 && IsSpace(s[0]) {
      var tail := s[1..];
      TrimStartShape(tail);
      assert tail[|tail| - |TrimStart(tail)|..] == s[|s| - |TrimStart(s)|..];
      forall i | 1 <= i < |s| - |TrimStart(s)| ensures IsSpace(s[i]) {
        assert s[i] == tail[i - 1];
      }
    }
  }

  /** What `trimEnd` leaves is the start of the text, and only white space went. */
  lemma {:induction false} TrimEndShape(s: string)
    ensures TrimEnd(s) == s[..|TrimEnd(s)|]
    ensures forall i :: |TrimEnd(s)| <= i < |s| ==> IsSpace(s[i])
    decreases |s|
  {
    if |s| > 0 && IsSpace(s[|s| - 1]) {
      var init := s[..|s| - 1];
      TrimEndShape(init);
      assert init[..|TrimEnd(init)|] == s[..|TrimEnd(s)|];
      forall i | |TrimEnd(s)| <= i < |s| - 1 ensures IsSpace(s[i]) {
        assert s[i] == init[i];
      }
    }
  }

  /** `s.trim()`. */
  function Trim(s: string): (r: string)
    ensures IsTrimmed(r)
  {
    TrimEndShape(TrimStart(s));
    TrimEnd(TrimStart(s))
  }

  /** Trimming a string with no white space at its ends leaves it as it is. */
  lemma TrimTrimmed(s: string)
    requires IsTrimmed(s)
    ensures Trim(s) == s
  {
  }

  /** `trim` is the empty string exactly when the input is all white space. */
  lemma TrimEmptyIff(s: string)
    ensures Trim(s) == [] <==> AllSpace(s)
  {
    var t := TrimStart(s);
    TrimStartShape(s);
    if t == [] {
      assert s[..|s|] == s;
    } else {
      assert s[|s| - |t|] == t[0];
      TrimEndKeepsFirst(t);
    }
  }

  /** Trimming the end of a string that starts with a non-space leaves that character. */
  lemma {:induction false} TrimEndKeepsFirst(s: string)
    requires s != [] && !IsSpace(s[0])
    ensures TrimEnd(s) != [] && !AllSpace(s)
    decreases |s|
  {
    if |s| > 1 && IsSpace(s[|s| - 1]) {
      TrimEndKeepsFirst(s[..|s| - 1]);
    }
  }

  lemma TrimmedNonEmptyNotAllSpace(s: string)
    requires IsTrimmed(s) && s != []
    ensures !AllSpace(s)
  {
  }

  /** `pat` occurs in `s` at index `k`. */
  predicate MatchAt(s: string, pat: string, k: int) {
    0 <= k && k + |pat| <= |s| && s[k..k + |pat|] == pat
  }

  /** `s.indexOf(pat, from)`, with `None` for -1. */
  function IndexFrom(s: string, pat: string, from: nat): (r: Option<nat>)
    requires from <= |s|
    ensures r.Some? ==> from <= r.value && MatchAt(s, pat, r.value)
    ensures r.Some? ==> forall k :: from <= k < r.value ==> !MatchAt(s, pat, k)
    ensures r.None? ==> forall k :: from <= k ==> !MatchAt(s, pat, k)
    decreases |s| - from
  {
    if from + |pat| > |s| then None
    else if s[from..from + |pat|] == pat then Some(from)
    else if from == |s| then None
    else IndexFrom(s, pat, from + 1)
  }

  /** The first position at or after `from` that holds `c`. */
  function FindChar(s: string, c: char, from: nat): (r: Option<nat>)
    requires from <= |s|
    ensures r.Some? ==> from <= r.value < |s| && s[r.value] == c
    decreases |s| - from
  {
    if from == |s| then None
    else if s[from] == c then Some(from)
    else FindChar(s, c, from + 1)
  }

  /** Nothing before the position found holds `c`; when none is found, nothing does. */
  lemma {:induction false} FindCharFirst(s: string, c: char, from: nat)
    requires from <= |s|
    ensures FindChar(s, c, from).Some? ==> forall k :: from <= k < FindChar(s, c, from).value ==> s[k] != c
    ensures FindChar(s, c, from).None? ==> forall k :: from <= k < |s| ==> s[k] != c
    decreases |s| - from
  {
    if from < |s| && s[from] != c {
      FindCharFirst(s, c, from + 1);
    }
  }

  /** `s.indexOf(pat)`. */
  function IndexOf(s: string, pat: string): (r: Option<nat>)
    ensures r.Some? ==> MatchAt(s, pat, r.value) && forall k :: 0 <= k < r.value ==> !MatchAt(s, pat, k)
    ensures r.None? ==> forall k :: !MatchAt(s, pat, k)
  {
    IndexFrom(s, pat, 0)
  }

  /** `s.includes(pat)`. */
  predicate Contains(s: string, pat: string) {
    IndexOf(s, pat).Some?
  }

  lemma ContainsIff(s: string, pat: string)
    ensures Contains(s, pat) <==> exists k :: MatchAt(s, pat, k)
  {
  }

  /** A string containing the character `c`. */
  predicate HasChar(s: string, c: char) { exists i :: 0 <= i < |s| && s[i] == c }

  /** A slice of a string without `c` is without `c`. */
  lemma SliceNoChar(s: string, c: char, a: nat, b: nat)
    requires a <= b <= |s| && !HasChar(s, c)
    ensures !HasChar(s[a..b], c)
  {
    forall i | 0 <= i < b - a ensures s[a..b][i] != c {
      assert s[a..b][i] == s[a + i];
    }
  }

  /** `includes` of a one-character string is a search for that character. */
  lemma ContainsChar(s: string, c: char)
    ensures Contains(s, [c]) <==> HasChar(s, c)
  {
    if HasChar(s, c) {
      var k :| 0 <= k < |s| && s[k] == c;
      assert s[k..k + 1] == [c];
      assert MatchAt(s, [c], k);
    }
    if Contains(s, [c]) {
      var k := IndexOf(s, [c]).value;
      assert s[k] == s[k..k + 1][0];
    }
  }

  /** `s.replace(pat, rep)` for a string pattern: only the first occurrence is replaced. */
  function ReplaceFirst(s: string, pat: string, rep: string): (r: string)
    ensures IndexOf(s, pat).None? ==> r == s
    ensures IndexOf(s, pat).Some? ==>
      var k := IndexOf(s, pat).value; r == s[..k] + rep + s[k + |pat|..]
  {
    match IndexOf(s, pat)
    case None => s
    case Some(k) => s[..k] + rep + s[k + |pat|..]
  }

  /** When `s` starts with `pat`, replacing its first occurrence swaps that prefix. */
  lemma ReplaceFirstPrefix(s: string, pat: string, rep: string)
    requires pat <= s
    ensures ReplaceFirst(s, pat, rep) == rep + s[|pat|..]
  {
    assert MatchAt(s, pat, 0);
  }

  /** `s.replaceAll(pat, rep)` for a non-empty string pattern, scanning left to right. */
  function ReplaceAll(s: string, pat: string, rep: string): (r: string)
    requires pat != []
    ensures IndexOf(s, pat).None? ==> r == s
    decreases |s|
  {
    match IndexOf(s, pat)
    case None => s
    case Some(k) => s[..k] + rep + ReplaceAll(s[k + |pat|..], pat, rep)
  }

  /** After `replaceAll`, the pattern is gone whenever the replacement cannot rebuild it. */
  lemma {:induction false} ReplaceAllRemoves(s: string, c: char, rep: string)
    requires !HasChar(rep, c)
    ensures !HasChar(ReplaceAll(s, [c], rep), c)
    decreases |s|
  {
    match IndexOf(s, [c])
    case None =>
      if HasChar(s, c) {
        var i :| 0 <= i < |s| && s[i] == c;
        assert MatchAt(s, [c], i);
      }
    case Some(k) =>
      ReplaceAllRemoves(s[k + 1..], c, rep);
      var r := ReplaceAll(s[k + 1..], [c], rep);
      assert ReplaceAll(s, [c], rep) == s[..k] + rep + r;
      var whole := s[..k] + rep + r;
      forall i | 0 <= i < |whole| ensures whole[i] != c {
        if i < k {
          assert s[i..i + 1] == [s[i]];
          assert !MatchAt(s, [c], i);
        } else if i < k + |rep| {
          assert whole[i] == rep[i - k];
        } else {
          assert whole[i] == r[i - k - |rep|];
        }
      }
  }

  /** `s.split(sep)` for a non-empty separator: empty pieces are kept. */
  function Split(s: string, sep: string): (r: seq<string>)
    requires sep != []
    ensures |r| >= 1
    ensures forall i :: 0 <= i < |r| ==> !Contains(r[i], sep)
    decreases |s|
  {
    match IndexOf(s, sep)
    case None => [s]
    case Some(k) =>
      NoMatchBefore(s, sep, k);
      [s[..k]] + Split(s[k + |sep|..], sep)
  }

  /** A prefix of `s` that ends before the first occurrence of `pat` does not contain it. */
  lemma NoMatchBefore(s: string, pat: string, k: nat)
    requires pat != [] && k <= |s|
    requires forall j :: 0 <= j < k ==> !MatchAt(s, pat, j)
    ensures !Contains(s[..k], pat)
  {
    if Contains(s[..k], pat) {
      var j := IndexOf(s[..k], pat).value;
      assert s[..k][j..j + |pat|] == s[j..j + |pat|];
      assert MatchAt(s, pat, j);
    }
  }

  /** `parts.join(sep)`. */
  function Join(parts: seq<string>, sep: string): (r: string)
    ensures |parts| == 1 ==> r == parts[0]
    decreases |parts|
  {
    if |parts| == 0 then ""
    else if |parts| == 1 then parts[0]
    else parts[0] + sep + Join(parts[1..], sep)
  }

  /** Splitting and joining again with the same separator gives back the input. */
  lemma {:induction false} JoinSplit(s: string, sep: string)
    requires sep != []
    ensures Join(Split(s, sep), sep) == s
    decreases |s|
  {
    match IndexOf(s, sep)
    case None =>
    case Some(k) =>
      var rest := Split(s[k + |sep|..], sep);
      JoinSplit(s[k + |sep|..], sep);
      assert Split(s, sep) == [s[..k]] + rest;
      assert Join([s[..k]] + rest, sep) == s[..k] + sep + Join(rest, sep);
      assert s == s[..k] + s[k..k + |sep|] + s[k + |sep|..];
  }

  /**
   * The first occurrence of `sep` in `a + sep + b` is the one between them
   * when `a` neither contains `sep` nor ends with a proper prefix of it.
   */
  predicate SafeBeforeSep(a: string, sep: string) {
    !Contains(a, sep) && forall j :: 0 < j < |sep| && j <= |a| ==> a[|a| - j..] != sep[..j]
  }

  lemma FirstSepAtJoint(a: string, sep: string, b: string)
    requires sep != [] && SafeBeforeSep(a, sep)
    ensures IndexOf(a + sep + b, sep) == Some(|a|)
  {
    var s := a + sep + b;
    assert MatchAt(s, sep, |a|) by { assert s[|a|..|a| + |sep|] == sep; }
    forall k | 0 <= k < |a| ensures !MatchAt(s, sep, k) {
      if k + |sep| <= |a| {
        assert !MatchAt(a, sep, k);
        assert a[k..k + |sep|] == s[k..k + |sep|];
      } else {
        var j := |a| - k;
        assert a[|a| - j..] == s[k..|a|];
        assert s[k..k + |sep|][..j] == s[k..|a|];
      }
    }
  }

  /** Joining pieces that are safe before the separator and splitting gives back the pieces. */
  lemma {:induction false} SplitJoin(parts: seq<string>, sep: string)
    requires sep != [] && |parts| >= 1
    requires forall i :: 0 <= i < |parts| - 1 ==> SafeBeforeSep(parts[i], sep)
    requires !Contains(parts[|parts| - 1], sep)
    ensures Split(Join(parts, sep), sep) == parts
    decreases |parts|
  {
    if |parts| == 1 {
      assert Join(parts, sep) == parts[0];
    } else {
      var a := parts[0];
      var rest := Join(parts[1..], sep);
      assert Join(parts, sep) == a + sep + rest;
      SplitAtJoint(a, sep, rest);
      var tail := parts[1..];
      forall i | 0 <= i < |tail| - 1 ensures SafeBeforeSep(tail[i], sep) {
        assert tail[i] == parts[i + 1];
      }
      assert tail[|tail| - 1] == parts[|parts| - 1];
      SplitJoin(tail, sep);
      assert [a] + parts[1..] == parts;
    }
  }

  /** Splitting `a + sep + rest` cuts at the joint when `a` is safe before the separator. */
  lemma SplitAtJoint(a: string, sep: string, rest: string)
    requires sep != [] && SafeBeforeSep(a, sep)
    ensures Split(a + sep + rest, sep) == [a] + Split(rest, sep)
  {
    FirstSepAtJoint(a, sep, rest);
    var s := a + sep + rest;
    assert s[..|a|] == a;
    assert s[|a| + |sep|..] == rest;
  }

  /** With a one-character separator, every piece without that character is safe. */
  lemma SingleCharSafe(a: string, c: char)
    requires !HasChar(a, c)
    ensures SafeBeforeSep(a, [c])
  {
    ContainsChar(a, c);
  }

  /** `parts.filter(Boolean)` on strings: drops the empty ones. */
  function NonEmpty(parts: seq<string>): (r: seq<string>)
    ensures |r| <= |parts|
    ensures forall i :: 0 <= i < |r| ==> r[i] != []
    ensures forall x :: x in r <==> x in parts && x != []
  {
    if |parts| == 0 then []
    else if parts[0] == [] then NonEmpty(parts[1..])
    else [parts[0]] + NonEmpty(parts[1..])
  }

  /** `arr.map(s => s.trim())`. */
  function TrimAll(parts: seq<string>): (r: seq<string>)
    ensures |r| == |parts|
    ensures forall i :: 0 <= i < |r| ==> r[i] == Trim(parts[i])
  {
    seq(|parts|, i requires 0 <= i < |parts| => Trim(parts[i]))
  }

  function DigitValue(c: char): nat
    requires IsDigit(c)
  {
    (c as int - '0' as int) as nat
  }

  /** The number written by a run of decimal digits. */
  function DigitsValue(ds: string): nat
    requires forall i :: 0 <= i < |ds| ==> IsDigit(ds[i])
  {
    if |ds| == 0 then 0 else DigitsValue(ds[..|ds| - 1]) * 10 + DigitValue(ds[|ds| - 1])
  }

  /** The longest prefix of `s` made of decimal digits. */
  function DigitPrefix(s: string): (r: string)
    ensures r <= s
    ensures forall i :: 0 <= i < |r| ==> IsDigit(r[i])
    ensures |r| == |s| || !IsDigit(s[|r|])
  {
    if |s| > 0 && IsDigit(s[0]) then [s[0]] + DigitPrefix(s[1..]) else []
  }

  /**
   * `parseInt(s, 10)` for decimal input: leading white space and one sign
   * are skipped, then digits are read up to the first non-digit; `None`
   * stands for `NaN` (no digit at all).
   */
  function ParseInt(s: string): (r: Option<int>)
  {
    var t := TrimStart(s);
    var neg := |t| > 0 && t[0] == '-';
    var body := if |t| > 0 && (t[0] == '-' || t[0] == '+') then t[1..] else t;
    var ds := DigitPrefix(body);
    if ds == [] then None
    else if neg then Some(-(DigitsValue(ds) as int))
    else Some(DigitsValue(ds) as int)
  }

  lemma DigitsValueOfDigitString(ds: string)
    requires ds != [] && forall i :: 0 <= i < |ds| ==> IsDigit(ds[i])
    ensures DigitPrefix(ds) == ds
  {
    if |ds| > 1 { DigitsValueOfDigitString(ds[1..]); }
  }

  /** `parseInt` reads a plain run of digits as the number it writes. */
  lemma ParseIntDigits(ds: string)
    requires ds != [] && forall i :: 0 <= i < |ds| ==> IsDigit(ds[i])
    ensures ParseInt(ds) == Some(DigitsValue(ds) as int)
  {
    assert IsDigit(ds[0]);
    ParseIntUnsigned(ds);
    DigitsValueOfDigitString(ds);
  }

  /** Without white space or a sign in front, `parseInt` reads the leading digits. */
  lemma ParseIntUnsigned(s: string)
    requires s != [] && '0' <= s[0] <= '9'
    ensures var ds := DigitPrefix(s); ds != [] && ParseInt(s) == Some(DigitsValue(ds) as int)
  {
    assert !IsSpace(s[0]);
    assert TrimStart(s) == s;
    assert s[0] != '-' && s[0] != '+';
    assert DigitPrefix(s) != [];
  }

  /** `parseInt` is `NaN` for a string that starts with neither a sign, a digit nor white space. */
  lemma ParseIntNaN(s: string)
    requires s != [] && !IsDigit(s[0]) && !IsSpace(s[0]) && s[0] != '-' && s[0] != '+'
    ensures ParseInt(s) == None
  {
  }

  /**
   * `String.fromCharCode`: the code is taken modulo 2^16. A lone surrogate
   * code, which a character here cannot hold, becomes U+FFFD.
   */
  function FromCharCode(code: int): (c: char)
    ensures 0 <= code < 0xD800 ==> c as int == code
    ensures 0x1_0000 <= code < 0x1_0000 + 0xD800 ==> c as int == code - 0x1_0000
    ensures -0x1_0000 <= code < 0 && code + 0x1_0000 < 0xD800 ==> c as int == code + 0x1_0000
  {
    var u := code % 0x1_0000;
    if u < 0xD800 || 0xE000 <= u then u as char else '\U{FFFD}'
  }

  /** The decimal digit for 0 to 9. */
  function DigitChar(d: nat): (c: char)
    requires d < 10
    ensures IsDigit(c) && DigitValue(c) == d
  {
    ('0' as int + d) as char
  }

  /** A natural number written in decimal, as template literals and `String(n)` write it. */
  function NatToString(n: nat): (r: string)
    ensures r != [] && forall i :: 0 <= i < |r| ==> IsDigit(r[i])
    ensures DigitsValue(r) == n
  {
    if n < 10 then [DigitChar(n)]
    else
      var r := NatToString(n / 10) + [DigitChar(n % 10)];
      assert r[..|r| - 1] == NatToString(n / 10);
      r
  }

  /** `parseInt` reads back the number written. */
  lemma ParseIntNatToString(n: nat)
    ensures ParseInt(NatToString(n)) == Some(n as int)
  {
    ParseIntDigits(NatToString(n));
  }
}
