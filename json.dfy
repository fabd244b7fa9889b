/**
 * JavaScript values as `JSON.parse` produces them, plus `Date` objects, and the two host
 * behaviours the attendance records pass through: the reviver walk of `JSON.parse`
 * (section 25.5.1.1, InternalizeJSONProperty, of ECMA-262) and the conversion of a `Date`
 * to its ISO-8601 text by `JSON.stringify` (`Date.prototype.toJSON`).
 * An instant is represented by its canonical ISO-8601 text, so `new Date(d.toISOString())`
 * is the same instant as `d`.
 */
module Json {
  import opened Strings

  datatype JsValue =
    | Null
    | Bool(b: bool)
    | Number(n: int)
    | Str(s: string)
    | Arr(elements: seq<JsValue>)
    | Obj(members: seq<Member>)
    | Date(iso: string)

  /** One property of an object, in source order. */
  datatype Member = Member(key: string, value: JsValue)

  /** No `Date` anywhere: what `JSON.parse` yields before a reviver runs. */
  predicate PlainJson(v: JsValue)
    decreases v, 1
  {
    match v
    case Date(_) => false
    case Arr(es) => PlainElements(es)
    case Obj(ms) => PlainMembers(ms)
    case _ => true
  }

  predicate PlainElements(es: seq<JsValue>)
    decreases es, 0
  {
    es == [] || (PlainJson(es[0]) && PlainElements(es[1..]))
  }

  predicate PlainMembers(ms: seq<Member>)
    decreases ms, 0
  {
    ms == [] || (PlainJson(ms[0].value) && PlainMembers(ms[1..]))
  }

  /** The reviver walk: children first (array elements keyed by their decimal index, object members
      by their key), then the reviver applied to the holder's key and the rebuilt value. */
  function Internalize(reviver: (string, JsValue) -> JsValue, key: string, v: JsValue): (r: JsValue)
    ensures !v.Arr? && !v.Obj? ==> r == reviver(key, v)
    ensures v.Arr? ==> exists es :: r == reviver(key, Arr(es)) && |es| == |v.elements|
    decreases v, 1
  {
    match v
    case Arr(es) => reviver(key, Arr(InternalizeElements(reviver, es, 0)))
    case Obj(ms) => reviver(key, Obj(InternalizeMembers(reviver, ms)))
    case _ => reviver(key, v)
  }

  function InternalizeElements(reviver: (string, JsValue) -> JsValue, es: seq<JsValue>, index: nat): (r: seq<JsValue>)
    ensures |r| == |es|
    decreases es, 0
  {
    if es == [] then []
    else [Internalize(reviver, NatToString(index), es[0])] + InternalizeElements(reviver, es[1..], index + 1)
  }

  function InternalizeMembers(reviver: (string, JsValue) -> JsValue, ms: seq<Member>): (r: seq<Member>)
    ensures |r| == |ms|
    ensures forall i :: 0 <= i < |ms| ==> r[i].key == ms[i].key
    decreases ms, 0
  {
    if ms == [] then []
    else [Member(ms[0].key, Internalize(reviver, ms[0].key, ms[0].value))] + InternalizeMembers(reviver, ms[1..])
  }

  /** What `JSON.stringify` writes for a value: every `Date` becomes its ISO-8601 string. */
  function Stringify(v: JsValue): (r: JsValue)
    ensures !r.Date?
    ensures v.Date? ==> r == Str(v.iso)
    ensures v.Arr? ==> r.Arr? && |r.elements| == |v.elements|
    ensures v.Obj? ==> r.Obj? && |r.members| == |v.members|
    decreases v, 1
  {
    match v
    case Date(iso) => Str(iso)
    case Arr(es) => Arr(StringifyElements(es))
    case Obj(ms) => Obj(StringifyMembers(ms))
    case _ => v
  }

  function StringifyElements(es: seq<JsValue>): (r: seq<JsValue>)
    ensures |r| == |es|
    decreases es, 0
  {
    if es == [] then [] else [Stringify(es[0])] + StringifyElements(es[1..])
  }

  function StringifyMembers(ms: seq<Member>): (r: seq<Member>)
    ensures |r| == |ms|
    decreases ms, 0
  {
    if ms == [] then [] else [Member(ms[0].key, Stringify(ms[0].value))] + StringifyMembers(ms[1..])
  }

  /** The result of `JSON.stringify` never holds a `Date`. */
  lemma {:induction false} StringifyIsPlain(v: JsValue)
    ensures PlainJson(Stringify(v))
    decreases v, 1
  {
    match v
    case Arr(es) => StringifyElementsArePlain(es);
    case Obj(ms) => StringifyMembersArePlain(ms);
    case _ =>
  }

  lemma {:induction false} StringifyElementsArePlain(es: seq<JsValue>)
    ensures PlainElements(StringifyElements(es))
    decreases es, 0
  {
    if es != [] {
      StringifyIsPlain(es[0]);
      StringifyElementsArePlain(es[1..]);
    }
  }

  lemma {:induction false} StringifyMembersArePlain(ms: seq<Member>)
    ensures PlainMembers(StringifyMembers(ms))
    decreases ms, 0
  {
    if ms != [] {
      StringifyIsPlain(ms[0].value);
      StringifyMembersArePlain(ms[1..]);
    }
  }
}
