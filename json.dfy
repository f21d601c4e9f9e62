/** JSON values as Python's `json` decoding returns them, and the handful of Python behaviours the
    pipelines apply to them: truthiness, `dict.get`, item assignment, iteration and `str()`. */
module JsonValue {
  import opened Wrappers
  import PyText

  /** A decoded value. Objects keep their keys in insertion order, as Python dicts do; a number carries
      its value and the text Python's `str()` prints for it ("1", "1000.5"). */
  datatype Json =
    | JNull
    | JBool(b: bool)
    | JNum(value: real, text: string)
    | JStr(s: string)
    | JArr(items: seq<Json>)
    | JObj(entries: Entries)

  /** The key/value pairs of a dict, in insertion order. */
  type Entries = seq<(string, Json)>

  /** Python's truth value: None, False, zero and empty containers are false. */
  predicate Truthy(v: Json) {
    match v
    case JNull => false
    case JBool(b) => b
    case JNum(x, _) => x != 0.0
    case JStr(s) => |s| > 0
    case JArr(a) => |a| > 0
    case JObj(e) => |e| > 0
  }

  /** The integer `n` as Python holds it after `tx['transaction_id'] = n`. */
  function IntValue(n: nat): Json {
    JNum(n as real, PyText.NatToString(n))
  }

  function Keys(e: Entries): (ks: seq<string>)
    ensures |ks| == |e| && forall i :: 0 <= i < |e| ==> ks[i] == e[i].0
  {
    if |e| == 0 then [] else [e[0].0] + Keys(e[1..])
  }

  /** `d[k]` when `k in d`, None otherwise. */
  function Lookup(e: Entries, k: string): (r: Option<Json>)
    ensures r.None? <==> k !in Keys(e)
    ensures r.Some? ==> (k, r.value) in e
  {
    if |e| == 0 then None
    else if e[0].0 == k then Some(e[0].1)
    else
      assert Keys(e) == [e[0].0] + Keys(e[1..]);
      Lookup(e[1..], k)
  }

  /** `d.get(k, default)`. */
  function Get(e: Entries, k: string, default: Json): Json {
    Lookup(e, k).GetOr(default)
  }

  /** `d[k] = v`: an existing key keeps its place, a new key goes last. */
  function Put(e: Entries, k: string, v: Json): (r: Entries)
    ensures Keys(r) == if k in Keys(e) then Keys(e) else Keys(e) + [k]
  {
    if |e| == 0 then [(k, v)]
    else if e[0].0 == k then
      assert Keys(e) == [k] + Keys(e[1..]);
      [(k, v)] + e[1..]
    else
      var r := [e[0]] + Put(e[1..], k, v);
      assert Keys(e) == [e[0].0] + Keys(e[1..]);
      assert Keys(r) == [e[0].0] + Keys(Put(e[1..], k, v));
      r
  }

  /** After `d[k] = v`, `d[k]` is `v`. */
  lemma {:induction false} PutThenLookup(e: Entries, k: string, v: Json)
    ensures Lookup(Put(e, k, v), k) == Some(v)
  {
    if |e| > 0 && e[0].0 != k {
      PutThenLookup(e[1..], k, v);
    }
  }

  /** `d[k] = v` leaves every other key's value as it was. */
  lemma {:induction false} PutKeepsOthers(e: Entries, k: string, v: Json, k': string)
    requires k' != k
    ensures Lookup(Put(e, k, v), k') == Lookup(e, k')
  {
    if |e| > 0 && e[0].0 != k {
      PutKeepsOthers(e[1..], k, v, k');
    }
  }

  /** What `for x in v` (and `lst.extend(v)`) takes from `v`: a list's items, a string's characters,
      a dict's keys; None where Python raises TypeError because `v` is not iterable. */
  function IterItems(v: Json): (r: Option<seq<Json>>)
    ensures r.Some? <==> v.JArr? || v.JStr? || v.JObj?
    ensures r.Some? ==> (|r.value| == 0 <==> !Truthy(v))
    ensures v.JArr? ==> r == Some(v.items)
  {
    match v
    case JArr(a) => Some(a)
    case JStr(s) => Some(seq(|s|, i requires 0 <= i < |s| => JStr([s[i]])))
    case JObj(e) => Some(seq(|e|, i requires 0 <= i < |e| => JStr(e[i].0)))
    case _ => None
  }

  /** Python's `str(v)`, as an f-string renders `v`. */
  function Show(v: Json): string
    decreases v, 0
  {
    match v
    case JNull => "None"
    case JBool(b) => if b then "True" else "False"
    case JNum(_, t) => t
    case JStr(s) => s
    case JArr(a) => "[" + PyText.Join(seq(|a|, i requires 0 <= i < |a| => ReprOf(a[i])), ", ") + "]"
    case JObj(e) =>
      "{" + PyText.Join(seq(|e|, i requires 0 <= i < |e| => PyText.Repr(e[i].0) + ": " + ReprOf(e[i].1)), ", ") + "}"
  }

  /** Python's `repr(v)` for a value nested inside a list or dict. */
  function ReprOf(v: Json): string
    decreases v, 1
  {
    if v.JStr? then PyText.Repr(v.s) else Show(v)
  }

  /** Setting a key twice is setting it once to the second value. */
  lemma {:induction false} PutTwice(e: Entries, k: string, v: Json, w: Json)
    ensures Put(Put(e, k, v), k, w) == Put(e, k, w)
  {
    if |e| > 0 && e[0].0 != k {
      PutTwice(e[1..], k, v, w);
    }
  }
}
