/**
 * JSON values as Python's `json` module hands them to the client (objects become
 * dicts, arrays lists), the three Python operations the response classifier
 * applies to them (`in`, `dict.get`, `str()`), and the mutable dict that the
 * transport fills in before a POST.
 */
module Json {
  import opened Wrappers
  import opened Decimal

  datatype Json =
    | JNull
    | JBool(b: bool)
    | JNum(n: int)
    | JStr(s: string)
    | JArr(items: seq<Json>)
    | JObj(fields: map<string, Json>)

  /** Python's `needle in s` for two strings, by scanning `s` from the left. */
  predicate IsSubstring(needle: string, s: string)
  {
    (|needle| <= |s| && s[..|needle|] == needle) || (|s| > 0 && IsSubstring(needle, s[1..]))
  }

  /** `needle` occurs in `s` starting at index `i`. */
  predicate OccursAt(needle: string, s: string, i: int)
  {
    0 <= i && i + |needle| <= |s| && s[i..i + |needle|] == needle
  }

  lemma OccursAtShift(needle: string, s: string, i: int)
    requires |s| > 0 && 0 <= i
    ensures OccursAt(needle, s[1..], i) <==> OccursAt(needle, s, i + 1)
  {
    if i + |needle| <= |s[1..]| {
      assert s[1..][i..i + |needle|] == s[i + 1..i + 1 + |needle|];
    }
  }

  /** The left-to-right scan finds `needle` exactly when it occurs at some index of `s`. */
  lemma {:induction false} IsSubstringOccurs(needle: string, s: string)
    ensures IsSubstring(needle, s) <==> exists i :: OccursAt(needle, s, i)
    decreases |s|
  {
    if |needle| <= |s| && s[..|needle|] == needle {
      assert OccursAt(needle, s, 0);
    } else if |s| == 0 {
    } else {
      IsSubstringOccurs(needle, s[1..]);
      if IsSubstring(needle, s[1..]) {
        var j :| OccursAt(needle, s[1..], j);
        OccursAtShift(needle, s, j);
      }
      forall i | OccursAt(needle, s, i)
        ensures IsSubstring(needle, s[1..])
      {
        OccursAtShift(needle, s, i - 1);
      }
    }
  }

  /**
   * Python's `needle in container` for a string needle: a key test on a dict,
   * an element test on a list, a substring test on a string.  None stands for
   * the TypeError Python raises for numbers, booleans and None.
   */
  function Contains(container: Json, needle: string): (r: Option<bool>)
    ensures r.None? <==> (container.JNull? || container.JBool? || container.JNum?)
    ensures container.JObj? ==> r == Some(needle in container.fields)
    ensures container.JArr? ==> r == Some(JStr(needle) in container.items)
    ensures container.JStr? ==> (r == Some(true) <==> exists i :: OccursAt(needle, container.s, i))
  {
    match container
    case JObj(fields) => Some(needle in fields)
    case JArr(items) => Some(JStr(needle) in items)
    case JStr(s) => IsSubstringOccurs(needle, s); Some(IsSubstring(needle, s))
    case _ => None
  }

  /** Python's `d.get(key, default)`. */
  function DictGet(d: map<string, Json>, key: string, default: Json): (v: Json)
    ensures key in d ==> v == d[key]
    ensures key !in d ==> v == default
  {
    if key in d then d[key] else default
  }

  /**
   * Python's `str()` of a decoded JSON scalar: a string is itself, an integer
   * its decimal digits, booleans and null are "True", "False" and "None".
   * Python prints a list or dict with `repr` of its elements; this model does
   * not render those and gives a fixed marker instead.
   */
  function Str(j: Json): (t: string)
    ensures j.JStr? ==> t == j.s
    ensures j.JNum? ==> ParseInt(t) == Some(j.n)
    ensures j.JBool? ==> t == (if j.b then "True" else "False")
    ensures j.JNull? ==> t == "None"
  {
    match j
    case JStr(s) => s
    case JNum(n) => ParseIntToString(n); IntToString(n)
    case JBool(b) => if b then "True" else "False"
    case JNull => "None"
    case JArr(_) => "[...]"
    case JObj(_) => "{...}"
  }

  /** A Python dict from strings to JSON values, shared by reference. */
  class Dict {
    var items: map<string, Json>

    constructor(items: map<string, Json>)
      ensures this.items == items
    {
      this.items := items;
    }
  }
}
