/** JavaScript values as the app's screens and API layer see them (decoded JSON, route params,
    form state), with the coercions the source relies on. */
module Js {
  import opened Wrappers
  import opened Text
  import opened Numbers

  datatype Value =
    | Undefined
    | Null
    | Bool(b: bool)
    | Number(n: Num)
    | Str(s: string)
    | Arr(elems: seq<Value>)
    | Obj(fields: seq<(string, Value)>)

  /** `v == null` (loose): null or undefined. */
  predicate Nullish(v: Value) {
    v.Undefined? || v.Null?
  }

  /** JavaScript truthiness. */
  predicate Truthy(v: Value) {
    match v
    case Undefined => false
    case Null => false
    case Bool(b) => b
    case Number(n) => NumTruthy(n)
    case Str(s) => s != []
    case Arr(_) => true
    case Obj(_) => true
  }

  /** `a ?? b`. */
  function Coalesce(a: Value, b: Value): (r: Value)
    ensures !Nullish(a) ==> r == a
    ensures Nullish(a) ==> r == b
  {
    if Nullish(a) then b else a
  }

  /** `a || b`. */
  function Or(a: Value, b: Value): (r: Value)
    ensures Truthy(a) ==> r == a
    ensures !Truthy(a) ==> r == b
  {
    if Truthy(a) then a else b
  }

  /** The value of the last field named `key` (a decoded JSON object keeps the last duplicate). */
  function Field(fields: seq<(string, Value)>, key: string): (r: Value)
    ensures r != Undefined ==> exists i :: 0 <= i < |fields| && fields[i] == (key, r)
  {
    if fields == [] then Undefined
    else if fields[|fields| - 1].0 == key then fields[|fields| - 1].1
    else Field(fields[..|fields| - 1], key)
  }

  /** `v?.key`: a property of an object; undefined for anything else the app reads it from. */
  function Prop(v: Value, key: string): (r: Value)
    ensures !v.Obj? ==> r == Undefined
  {
    if v.Obj? then Field(v.fields, key) else Undefined
  }

  /** The object literal `{k1, k2, ...}` built from a destructured argument: one field per key, in
      the order written, each holding the argument's property of that name. */
  function Pick(v: Value, keys: seq<string>): (fs: seq<(string, Value)>)
    ensures |fs| == |keys|
    ensures forall i :: 0 <= i < |keys| ==> fs[i] == (keys[i], Prop(v, keys[i]))
  {
    if keys == [] then []
    else Pick(v, keys[..|keys| - 1]) + [(keys[|keys| - 1], Prop(v, keys[|keys| - 1]))]
  }

  /** Reading a picked object gives the argument's property for a listed key and nothing for
      any other key. */
  lemma {:induction false} FieldOfPick(v: Value, keys: seq<string>, k: string)
    ensures Field(Pick(v, keys), k) == if k in keys then Prop(v, k) else Undefined
  {
    if keys != [] {
      var init := keys[..|keys| - 1];
      assert Pick(v, keys)[..|keys| - 1] == Pick(v, init);
      assert keys == init + [keys[|keys| - 1]];
      FieldOfPick(v, init, k);
    }
  }

  /** `String(v)` / a template `${v}`; how a finite number prints is supplied by `show`. */
  function ToStr(v: Value, show: real -> string): string
    decreases v, 1
  {
    match v
    case Undefined => "undefined"
    case Null => "null"
    case Bool(b) => if b then "true" else "false"
    case Number(n) => if n.NaN? then "NaN" else show(n.r)
    case Str(s) => s
    case Arr(es) => Join(",", ElementStrings(v, es, show))
    case Obj(_) => "[object Object]"
  }

  /** The strings `Array.prototype.join` uses for the elements `es` of `parent`: empty for null and undefined. */
  function ElementStrings(ghost parent: Value, es: seq<Value>, show: real -> string): (r: seq<string>)
    requires forall e | e in es :: e < parent
    ensures |r| == |es|
    decreases parent, 0, |es|
  {
    if es == [] then []
    else
      assert es[0] in es;
      assert forall e | e in es[1..] :: e in es;
      [if Nullish(es[0]) then "" else ToStr(es[0], show)] + ElementStrings(parent, es[1..], show)
  }

  /** `Number(v)`. */
  function ToNumber(v: Value, show: real -> string): (n: Num)
    ensures v.Null? ==> n == Fin(0.0)
    ensures v.Undefined? ==> n == NaN
    ensures v.Number? ==> n == v.n
    ensures v.Str? ==> n == StringToNumber(v.s)
  {
    match v
    case Undefined => NaN
    case Null => Fin(0.0)
    case Bool(b) => Fin(if b then 1.0 else 0.0)
    case Number(n) => n
    case Str(s) => StringToNumber(s)
    case _ => StringToNumber(ToStr(v, show))
  }

  /** `x` is an integer that indexes a list of length `len` (any other number reads `undefined`). */
  predicate IsIndex(x: real, len: nat) {
    x == x.Floor as real && 0 <= x.Floor < len
  }
}
