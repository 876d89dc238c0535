/**
 * The JavaScript values the CMS endpoints receive and write: parsed JSON
 * request bodies, front matter records (as entry lists in property order)
 * and `Date` objects, together with the object operations the handlers
 * use (`obj[k]`, `obj[k] = v`, `{...obj}`, `Object.entries`).
 */
module CmsJson {
  import opened Common

  /**
   * A `Date`: a local calendar instant, or the invalid date that
   * `new Date('garbage')` yields.
   */
  datatype DateTime =
    | InvalidDate
    | Instant(year: nat, month: nat, day: nat, hour: nat, minute: nat, second: nat)

  /** A JavaScript value (numbers are integers here; `NaN` is outside the model). */
  datatype Value =
    | Undefined
    | Null
    | Bool(b: bool)
    | Num(n: int)
    | Str(s: string)
    | Arr(items: seq<Value>)
    | Obj(entries: seq<(string, Value)>)
    | Date(d: DateTime)

  /** An object's own enumerable properties, in property order. */
  type Entries = seq<(string, Value)>

  /** JavaScript truthiness. */
  predicate Truthy(v: Value) {
    match v
    case Undefined => false
    case Null => false
    case Bool(b) => b
    case Num(n) => n != 0
    case Str(s) => s != ""
    case _ => true
  }

  /** `typeof v === 'object'`: `null`, arrays, plain objects and dates. */
  predicate IsObjectType(v: Value) {
    v.Null? || v.Arr? || v.Obj? || v.Date?
  }

  function Keys(e: Entries): (r: seq<string>)
    ensures |r| == |e| && forall i :: 0 <= i < |e| ==> r[i] == e[i].0
  {
    if e == [] then [] else Keys(e[..|e| - 1]) + [e[|e| - 1].0]
  }

  predicate DistinctKeys(e: Entries) {
    forall i, j :: 0 <= i < j < |e| ==> e[i].0 != e[j].0
  }

  /** `obj[k]` for an own property, `None` when there is none. */
  function Lookup(e: Entries, k: string): (r: Option<Value>)
    ensures r.None? <==> k !in Keys(e)
    ensures r.Some? ==> exists i :: 0 <= i < |e| && e[i] == (k, r.value)
  {
    if e == [] then None
    else if e[0].0 == k then Some(e[0].1)
    else
      assert Keys(e) == [e[0].0] + Keys(e[1..]);
      Lookup(e[1..], k)
  }

  /** With distinct keys, the lookup finds the one entry with that key. */
  lemma {:induction false} LookupAt(e: Entries, i: nat)
    requires DistinctKeys(e) && i < |e|
    ensures Lookup(e, e[i].0) == Some(e[i].1)
  {
    if i > 0 {
      assert e[0].0 != e[i].0;
      assert e[1..][i - 1] == e[i];
      LookupAt(e[1..], i - 1);
    }
  }

  /** Looking up a key in a list with one more entry at the end. */
  lemma {:induction false} LookupAppend(e: Entries, k: string, v: Value, j: string)
    ensures Lookup(e + [(k, v)], j) == if j in Keys(e) then Lookup(e, j) else if j == k then Some(v) else None
  {
    if e != [] {
      assert (e + [(k, v)])[1..] == e[1..] + [(k, v)];
      assert Keys(e) == [e[0].0] + Keys(e[1..]);
      LookupAppend(e[1..], k, v, j);
    }
  }

  /**
   * `obj[k] = v`: an existing property keeps its place and takes the new
   * value; a new one is added last.
   */
  function Assign(e: Entries, k: string, v: Value): (r: Entries)
    ensures Keys(r) == if k in Keys(e) then Keys(e) else Keys(e) + [k]
    ensures forall i :: 0 <= i < |e| && e[i].0 != k ==> r[i] == e[i]
  {
    if k in Keys(e) then
      seq(|e|, i requires 0 <= i < |e| => if e[i].0 == k then (k, v) else e[i])
    else e + [(k, v)]
  }

  /** The assigned property reads back; every other property reads as before, and keys stay distinct. */
  lemma AssignLookup(e: Entries, k: string, v: Value)
    requires DistinctKeys(e)
    ensures DistinctKeys(Assign(e, k, v))
    ensures Lookup(Assign(e, k, v), k) == Some(v)
    ensures forall j :: j != k ==> Lookup(Assign(e, k, v), j) == Lookup(e, j)
  {
    var r := Assign(e, k, v);
    assert Keys(r) == Keys(e) || Keys(r) == Keys(e) + [k];
    assert DistinctKeys(r) by {
      forall i, j | 0 <= i < j < |r| ensures r[i].0 != r[j].0 {
        assert r[i].0 == Keys(r)[i] && r[j].0 == Keys(r)[j];
      }
    }
    var ik :| 0 <= ik < |r| && r[ik].0 == k by {
      assert k in Keys(r);
    }
    LookupAt(r, ik);
    forall j | j != k ensures Lookup(r, j) == Lookup(e, j) {
      if j in Keys(e) {
        var ij :| 0 <= ij < |e| && e[ij].0 == j;
        LookupAt(e, ij);
        LookupAt(r, ij);
      } else {
        assert j !in Keys(r);
      }
    }
  }

  /** The decimal form of a natural number, as `String(n)` gives it. */
  function Decimal(n: nat): (r: string)
    ensures r != [] && forall i :: 0 <= i < |r| ==> IsDigit(r[i])
  {
    var d := ['0' + (n % 10) as char];
    if n < 10 then d else Decimal(n / 10) + d
  }

  /** `String(n)` for an integer. */
  function IntText(n: int): (r: string)
    ensures r != [] && forall i :: 0 <= i < |r| ==> IsDigit(r[i]) || (i == 0 && r[i] == '-')
    ensures n >= 0 ==> r == Decimal(n)
  {
    if n < 0 then "-" + Decimal(-n) else Decimal(n)
  }

  /** `{...v}` for a value that is an object: a plain object copies its entries, an array gives its indices as keys. */
  function Spread(v: Value): (r: Entries)
    ensures v.Obj? ==> r == v.entries
    ensures v.Arr? ==> |r| == |v.items| && forall i :: 0 <= i < |r| ==> r[i] == (Decimal(i), v.items[i])
    ensures !v.Obj? && !v.Arr? ==> r == []
  {
    match v
    case Obj(e) => e
    case Arr(items) => seq(|items|, i requires 0 <= i < |items| => (Decimal(i), items[i]))
    case _ => []
  }
}
