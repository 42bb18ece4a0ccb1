/** The dynamically typed values the console reads out of JSON bodies and
    decoded token claims, with the JavaScript operations applied to them:
    truthiness, `a || b`, property access, `String(v)`, `Array.isArray`
    and `Object.entries`. Numbers are integers here. */
module Js {
  import opened Text

  /** A JavaScript value as produced by `JSON.parse`, plus `undefined`.
      `Obj` lists an object's own properties in enumeration order. */
  datatype Value =
    | Undefined
    | Null
    | Bool(b: bool)
    | Num(n: int)
    | Str(s: string)
    | Arr(items: seq<Value>)
    | Obj(entries: seq<(string, Value)>)

  /** The value counts as true in a condition (`!!v`). */
  predicate Truthy(v: Value) {
    match v
    case Undefined => false
    case Null => false
    case Bool(b) => b
    case Num(n) => n != 0
    case Str(s) => s != ""
    case Arr(_) => true
    case Obj(_) => true
  }

  /** `a || b` */
  function Or(a: Value, b: Value): (r: Value)
    ensures Truthy(r) <==> Truthy(a) || Truthy(b)
    ensures r == a || r == b
  {
    if Truthy(a) then a else b
  }

  /** `a || b || ... || fallback`: the first truthy alternative, else the fallback. */
  function FirstTruthy(alternatives: seq<Value>, fallback: Value): Value {
    if alternatives == [] then fallback else Or(alternatives[0], FirstTruthy(alternatives[1..], fallback))
  }

  /** The chain picks the earliest truthy alternative. */
  lemma {:induction false} FirstTruthyPicksEarliest(alternatives: seq<Value>, fallback: Value, k: nat)
    requires k < |alternatives| && Truthy(alternatives[k])
    requires forall i :: 0 <= i < k ==> !Truthy(alternatives[i])
    ensures FirstTruthy(alternatives, fallback) == alternatives[k]
  {
    if k > 0 {
      FirstTruthyPicksEarliest(alternatives[1..], fallback, k - 1);
    }
  }

  /** With no truthy alternative the chain yields the fallback. */
  lemma {:induction false} FirstTruthyFallsBack(alternatives: seq<Value>, fallback: Value)
    requires forall i :: 0 <= i < |alternatives| ==> !Truthy(alternatives[i])
    ensures FirstTruthy(alternatives, fallback) == fallback
  {
    if alternatives != [] {
      FirstTruthyFallsBack(alternatives[1..], fallback);
    }
  }

  /** The value stored under `key` in a list of properties. */
  function Lookup(entries: seq<(string, Value)>, key: string): Value {
    if entries == [] then Undefined
    else if entries[0].0 == key then entries[0].1
    else Lookup(entries[1..], key)
  }

  /** A lookup finds the first property with the key. */
  lemma {:induction false} LookupFirst(entries: seq<(string, Value)>, key: string, i: nat)
    requires i < |entries| && entries[i].0 == key
    requires forall j :: 0 <= j < i ==> entries[j].0 != key
    ensures Lookup(entries, key) == entries[i].1
  {
    if i > 0 {
      LookupFirst(entries[1..], key, i - 1);
    }
  }

  /** A key no property has reads as `undefined`. */
  lemma {:induction false} LookupMissing(entries: seq<(string, Value)>, key: string)
    requires forall j :: 0 <= j < |entries| ==> entries[j].0 != key
    ensures Lookup(entries, key) == Undefined
  {
    if entries != [] {
      LookupMissing(entries[1..], key);
    }
  }

  /** `v[key]` for a value known not to be `null` or `undefined`: an object's
      own property, `undefined` for a missing one. */
  function Get(v: Value, key: string): Value {
    if v.Obj? then Lookup(v.entries, key) else Undefined
  }

  /** How `Array.prototype.join` shows one element: `null` and `undefined` as "". */
  function ElementText(v: Value): string
    decreases v, 2
  {
    if v.Undefined? || v.Null? then "" else ToText(v)
  }

  /** `String(v)` */
  function ToText(v: Value): string
    decreases v, 1
  {
    match v
    case Undefined => "undefined"
    case Null => "null"
    case Bool(b) => if b then "true" else "false"
    case Num(n) => IntToString(n)
    case Str(s) => s
    case Arr(items) => Join(seq(|items|, i requires 0 <= i < |items| => ElementText(items[i])), ",")
    case Obj(_) => "[object Object]"
  }

  /** `Object.entries(v)` for a value that is neither `null` nor `undefined`. */
  function Entries(v: Value): (r: seq<(string, Value)>)
    ensures v.Obj? ==> r == v.entries
    ensures v.Arr? ==> |r| == |v.items| && forall i :: 0 <= i < |r| ==> r[i] == (IntToString(i), v.items[i])
    ensures v.Str? ==> |r| == |v.s| && forall i :: 0 <= i < |r| ==> r[i] == (IntToString(i), Str([v.s[i]]))
    ensures !v.Obj? && !v.Arr? && !v.Str? ==> r == []
  {
    match v
    case Obj(es) => es
    case Arr(items) => seq(|items|, i requires 0 <= i < |items| => (IntToString(i), items[i]))
    case Str(s) => seq(|s|, i requires 0 <= i < |s| => (IntToString(i), Str([s[i]])))
    case _ => []
  }
}
