/** JavaScript values as the frontend code handles them: the primitives,
    arrays and plain objects (property maps). Numbers are integers; objects
    compare by contents. */
module JsValues {
  import opened Wrappers
  import opened Text
  import opened SeqLaws

  datatype JsValue =
    | Undefined
    | Null
    | Bool(b: bool)
    | Num(n: int)
    | Str(s: string)
    | Arr(items: seq<JsValue>)
    | Obj(fields: map<string, JsValue>)

  /** A value `if (v)` takes: everything but undefined, null, false, 0 and
      the empty string. */
  predicate Truthy(v: JsValue) {
    match v
    case Undefined => false
    case Null => false
    case Bool(b) => b
    case Num(n) => n != 0
    case Str(s) => s != ""
    case _ => true
  }

  /** `v === null || v === undefined`. */
  predicate Nullish(v: JsValue) {
    v.Undefined? || v.Null?
  }

  /** `a || b`. */
  function Or(a: JsValue, b: JsValue): (r: JsValue)
    ensures Truthy(a) ==> r == a
    ensures !Truthy(a) ==> r == b
  {
    if Truthy(a) then a else b
  }

  /** A property read `o[key]` on a plain object; a missing key reads as
      undefined. */
  function Get(o: map<string, JsValue>, key: string): (r: JsValue)
    ensures key in o ==> r == o[key]
    ensures key !in o ==> r == Undefined
  {
    if key in o then o[key] else Undefined
  }

  /** `v?.[key]` and, on a value that is not an object, a read that finds
      nothing. */
  function Prop(v: JsValue, key: string): (r: JsValue)
    ensures v.Obj? ==> r == Get(v.fields, key)
    ensures !v.Obj? ==> r == Undefined
  {
    if v.Obj? then Get(v.fields, key) else Undefined
  }

  /** The own properties `{...v}` copies: those of an object, none of
      null, undefined, a boolean or a number. Arrays and strings, whose
      indexed entries a spread would copy, are treated as copying none. */
  function Fields(v: JsValue): map<string, JsValue> {
    if v.Obj? then v.fields else map[]
  }

  /** `{...a, ...b}`: every key of either, the later object's value
      winning. */
  function Spread(a: map<string, JsValue>, b: map<string, JsValue>): (r: map<string, JsValue>)
    ensures r.Keys == a.Keys + b.Keys
    ensures forall k :: k in b ==> r[k] == b[k]
    ensures forall k :: k in a && k !in b ==> r[k] == a[k]
  {
    a + b
  }

  /** Spreading is associative, and spreading the same object again changes
      nothing. */
  lemma SpreadLaws(a: map<string, JsValue>, b: map<string, JsValue>, c: map<string, JsValue>)
    ensures Spread(Spread(a, b), c) == Spread(a, Spread(b, c))
    ensures Spread(Spread(a, b), b) == Spread(a, b)
  {
  }

  /** `String(v)`. */
  function ToJsString(v: JsValue): string
    decreases v, 1
  {
    match v
    case Undefined => "undefined"
    case Null => "null"
    case Bool(b) => if b then "true" else "false"
    case Num(n) => IntToString(n)
    case Str(s) => s
    case Arr(items) => JoinItems(v, items)
    case Obj(_) => "[object Object]"
  }

  /** `Array.prototype.join(",")` over the items of array `whole`: null and
      undefined items print as nothing. */
  function JoinItems(whole: JsValue, items: seq<JsValue>): string
    requires forall i :: 0 <= i < |items| ==> items[i] < whole
    decreases whole, 0, |items|
  {
    if |items| == 0 then ""
    else
      (if Nullish(items[0]) then "" else ToJsString(items[0])) +
      (if |items| > 1 then "," else "") + JoinItems(whole, items[1..])
  }

  // ---------------------------------------------------------------------------
  // Local storage
  // ---------------------------------------------------------------------------

  /** `localStorage`: keys to the strings stored under them. */
  type Storage = map<string, string>

  /** `localStorage.getItem(key)`; `None` for null. */
  function Load(st: Storage, key: string): (r: Option<string>)
    ensures r.Some? <==> key in st
    ensures r.Some? ==> r.value == st[key]
  {
    if key in st then Some(st[key]) else None
  }

  // ---------------------------------------------------------------------------
  // Completions of calls and actions
  // ---------------------------------------------------------------------------

  /** Why a call threw: an awaited promise rejected with `reason`, or a
      property was read from null or undefined (or a missing method was
      called), which throws a `TypeError`. */
  datatype Failure = Rejected(reason: JsValue) | TypeError

  /** How a call or an async action ends. */
  datatype Completion = Returned(value: JsValue) | Threw(failure: Failure)

  // ---------------------------------------------------------------------------
  // Array searches whose callback reads a property of every item
  // ---------------------------------------------------------------------------

  /** The outcome of `findIndex`: an index, -1, or a throw. */
  datatype FindOutcome = Found(index: nat) | Missing | Throws

  /** `items.findIndex(x => x[key] === v)`. The callback reads a property of
      each item it visits, so it throws at the first null or undefined item
      it reaches. */
  function FindIndex(items: seq<JsValue>, key: string, v: JsValue): (r: FindOutcome)
    ensures r.Found? ==> r.index < |items| && !Nullish(items[r.index]) && Prop(items[r.index], key) == v
    ensures !r.Throws? ==>
      forall j :: 0 <= j < (if r.Found? then r.index else |items|) ==> !Nullish(items[j]) && Prop(items[j], key) != v
    ensures r.Throws? ==> exists j :: 0 <= j < |items| && Nullish(items[j])
    decreases |items|
  {
    if |items| == 0 then Missing
    else if Nullish(items[0]) then Throws
    else if Prop(items[0], key) == v then Found(0)
    else
      match FindIndex(items[1..], key, v)
      case Found(i) => Found(i + 1)
      case Missing => Missing
      case Throws => Throws
  }

  /** `items.filter(x => (x[key] === v) === keep)`: the callback runs on
      every item, so any null or undefined item makes it throw (None). */
  function Select(items: seq<JsValue>, key: string, v: JsValue, keep: bool): (r: Option<seq<JsValue>>)
    ensures r.Some? <==> forall i :: 0 <= i < |items| ==> !Nullish(items[i])
    ensures r.Some? ==> |r.value| <= |items|
    decreases |items|
  {
    if |items| == 0 then Some([])
    else if Nullish(items[0]) then None
    else
      match Select(items[1..], key, v, keep)
      case None => None
      case Some(rest) =>
        Some(if (Prop(items[0], key) == v) == keep then [items[0]] + rest else rest)
  }

  /** An item is kept iff it is in the array and passes the test. */
  lemma {:induction false} SelectMembers(items: seq<JsValue>, key: string, v: JsValue, keep: bool, x: JsValue)
    requires Select(items, key, v, keep).Some?
    ensures x in Select(items, key, v, keep).value <==> x in items && (Prop(x, key) == v) == keep
    decreases |items|
  {
    if |items| > 0 {
      SelectMembers(items[1..], key, v, keep, x);
      assert x in items <==> x == items[0] || x in items[1..] by {
        assert items == [items[0]] + items[1..];
      }
    }
  }

  /** Two filter results joined: a throw in either is a throw. */
  function Join(x: Option<seq<JsValue>>, y: Option<seq<JsValue>>): Option<seq<JsValue>> {
    if x.Some? && y.Some? then Some(x.value + y.value) else None
  }

  /** Filtering keeps the order: it distributes over concatenation. */
  lemma {:induction false} SelectConcat(a: seq<JsValue>, b: seq<JsValue>, key: string, v: JsValue, keep: bool)
    ensures Select(a + b, key, v, keep) == Join(Select(a, key, v, keep), Select(b, key, v, keep))
    decreases |a|
  {
    if |a| == 0 {
      assert a + b == b;
      var rb := Select(b, key, v, keep);
      if rb.Some? {
        assert [] + rb.value == rb.value;
      }
    } else {
      SelectConcat(a[1..], b, key, v, keep);
      SelectConcatStep(a, b, key, v, keep);
    }
  }

  /** One step of `SelectConcat`: from the tail of `a` to all of `a`. */
  lemma SelectConcatStep(a: seq<JsValue>, b: seq<JsValue>, key: string, v: JsValue, keep: bool)
    requires |a| > 0
    requires Select(a[1..] + b, key, v, keep) == Join(Select(a[1..], key, v, keep), Select(b, key, v, keep))
    ensures Select(a + b, key, v, keep) == Join(Select(a, key, v, keep), Select(b, key, v, keep))
  {
    var x := a[0];
    ConcatCons(a, b);
    ConcatCons(a, []);
    assert a[1..] + [] == a[1..];
    SelectCons(x, a[1..], key, v, keep);
    SelectCons(x, a[1..] + b, key, v, keep);
    if !Nullish(x) {
      var head := Some(if (Prop(x, key) == v) == keep then [x] else []);
      JoinAssociative(head, Select(a[1..], key, v, keep), Select(b, key, v, keep));
    }
  }

  /** Filtering an array with a first item. */
  lemma SelectCons(x: JsValue, rest: seq<JsValue>, key: string, v: JsValue, keep: bool)
    ensures Select([x] + rest, key, v, keep) ==
      if Nullish(x) then None
      else Join(Some(if (Prop(x, key) == v) == keep then [x] else []), Select(rest, key, v, keep))
  {
    var s := [x] + rest;
    assert s[0] == x && s[1..] == rest;
    var r := Select(rest, key, v, keep);
    if !Nullish(x) && r.Some? {
      assert [] + r.value == r.value;
    }
  }

  lemma JoinAssociative(x: Option<seq<JsValue>>, y: Option<seq<JsValue>>, z: Option<seq<JsValue>>)
    ensures Join(Join(x, y), z) == Join(x, Join(y, z))
  {
    if x.Some? && y.Some? && z.Some? {
      assert (x.value + y.value) + z.value == x.value + (y.value + z.value);
    }
  }

  /** Keeping the matching items and keeping the others split the array. */
  lemma {:induction false} SelectPartitions(items: seq<JsValue>, key: string, v: JsValue)
    requires Select(items, key, v, true).Some?
    ensures |Select(items, key, v, true).value| + |Select(items, key, v, false).value| == |items|
    decreases |items|
  {
    if |items| > 0 {
      SelectPartitions(items[1..], key, v);
    }
  }
}
