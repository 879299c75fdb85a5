/**
 * Decoded JSON values as the Python code sees them (after json.loads or
 * request.get_json()), with Python's truthiness and its `in` operator.
 * Floating-point numbers are not modelled: numbers are integers.
 */
module PyValues {
  import opened Outcomes

  datatype Json =
    | JNull
    | JBool(b: bool)
    | JNum(n: int)
    | JStr(s: string)
    | JArr(items: seq<Json>)
    | JObj(fields: map<string, Json>)

  /** Python's `bool(v)`: None, False, 0 and empty strings, lists and dicts are falsy. */
  predicate Truthy(v: Json) {
    match v
    case JNull => false
    case JBool(b) => b
    case JNum(n) => n != 0
    case JStr(s) => |s| > 0
    case JArr(items) => |items| > 0
    case JObj(fields) => |fields| > 0
  }

  /** `needle in hay` for two Python strings: a contiguous occurrence. */
  predicate IsSubstring(needle: string, hay: string)
    decreases |hay|
  {
    needle <= hay || (|hay| > 0 && IsSubstring(needle, hay[1..]))
  }

  /** An occurrence of `needle` starts at offset `i` of `hay`. */
  predicate OccursAt(needle: string, hay: string, i: int) {
    0 <= i && i + |needle| <= |hay| && hay[i..i + |needle|] == needle
  }

  lemma {:induction false} SubstringIffOccurrence(needle: string, hay: string)
    ensures IsSubstring(needle, hay) <==> exists i :: OccursAt(needle, hay, i)
    decreases |hay|
  {
    if needle <= hay {
      assert hay[0..|needle|] == needle;
      assert OccursAt(needle, hay, 0);
    } else if |hay| == 0 {
      assert |needle| > 0;
    } else {
      SubstringIffOccurrence(needle, hay[1..]);
      if IsSubstring(needle, hay[1..]) {
        var i :| OccursAt(needle, hay[1..], i);
        assert hay[1..][i..i + |needle|] == hay[i + 1..i + 1 + |needle|];
        assert OccursAt(needle, hay, i + 1);
      } else {
        forall i | 0 < i
          ensures OccursAt(needle, hay, i) ==> OccursAt(needle, hay[1..], i - 1)
        {
          if i + |needle| <= |hay| {
            var tail, a, b := hay[1..], hay[1..][i - 1..i - 1 + |needle|], hay[i..i + |needle|];
            assert forall k :: 0 <= k < |needle| ==> a[k] == tail[i - 1 + k] == b[k];
            assert a == b;
          }
        }
        assert !OccursAt(needle, hay, 0) by {
          if |needle| <= |hay| {
            assert hay[..|needle|] != needle;
          }
        }
      }
    }
  }

  /**
   * Python's `item in container` for a string item: element equality for a
   * list, substring for a string, key membership for a dict; any other
   * container raises TypeError.
   */
  function Contains(container: Json, item: string): (r: Result<bool, string>)
    ensures r.Failure? <==> container.JNull? || container.JBool? || container.JNum?
    ensures container.JArr? ==> r == Success(JStr(item) in container.items)
    ensures container.JStr? ==> (r == Success(true) <==> exists i :: OccursAt(item, container.s, i))
    ensures container.JObj? ==> r == Success(item in container.fields)
  {
    match container
    case JArr(items) => Success(JStr(item) in items)
    case JStr(s) => SubstringIffOccurrence(item, s); Success(IsSubstring(item, s))
    case JObj(fields) => Success(item in fields)
    case _ => Failure("TypeError")
  }
}
