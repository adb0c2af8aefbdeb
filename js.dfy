/**
 * The JavaScript values the widget handles: decoded JSON plus `undefined`,
 * with the language's truthiness, `||`, property access, optional chaining
 * and string conversion written out.
 */
module Js {
  import opened Base

  /** A JavaScript value as it can occur in configuration, responses and state. Numbers are integers here. */
  datatype Value =
    | Undefined
    | Null
    | Bool(b: bool)
    | Num(n: int)
    | Str(s: string)
    | Arr(items: seq<Value>)
    | Obj(props: map<string, Value>)

  /** `undefined` or `null`: the values on which `?.` stops and `.` throws. */
  predicate Nullish(v: Value) {
    v.Undefined? || v.Null?
  }

  /** The truthiness test of `if (v)`, `v && ...` and `v || ...` (no NaN: numbers are integers). */
  predicate Truthy(v: Value) {
    match v
    case Undefined => false
    case Null => false
    case Bool(b) => b
    case Num(n) => n != 0
    case Str(s) => s != ""
    case Arr(_) => true
    case Obj(_) => true
  }

  /** `a || b`: the first operand when it is truthy, otherwise the second, whatever it is. */
  function Or(a: Value, b: Value): (r: Value)
    ensures Truthy(a) ==> r == a
    ensures !Truthy(a) ==> r == b
    ensures Truthy(r) <==> Truthy(a) || Truthy(b)
  {
    if Truthy(a) then a else b
  }

  /** `a || b || ... || z` over a non-empty list of operands. */
  function OrAll(vs: seq<Value>): (r: Value)
    requires |vs| > 0
    ensures r in vs
    ensures Truthy(r) <==> exists k | 0 <= k < |vs| :: Truthy(vs[k])
  {
    if |vs| == 1 then vs[0] else Or(vs[0], OrAll(vs[1..]))
  }

  /** The chain `||` picks the first truthy operand, and the last operand when none is truthy. */
  lemma {:induction false} OrAllPicksFirstTruthy(vs: seq<Value>, k: nat)
    requires k < |vs|
    requires forall j | 0 <= j < k :: !Truthy(vs[j])
    requires Truthy(vs[k]) || k == |vs| - 1
    ensures OrAll(vs) == vs[k]
  {
    if k > 0 {
      OrAllPicksFirstTruthy(vs[1..], k - 1);
    }
  }

  /** `v.key` on a value that is not nullish: own properties of objects; any other value has none of the keys used here. */
  function Get(v: Value, key: string): (r: Value)
    requires !Nullish(v)
    ensures v.Obj? && key in v.props ==> r == v.props[key]
    ensures !(v.Obj? && key in v.props) ==> r == Undefined
  {
    if v.Obj? && key in v.props then v.props[key] else Undefined
  }

  /** `v?.key`: `undefined` on a nullish value, otherwise `v.key`. */
  function OptGet(v: Value, key: string): (r: Value)
    ensures Nullish(v) ==> r == Undefined
    ensures !Nullish(v) ==> r == Get(v, key)
  {
    if Nullish(v) then Undefined else Get(v, key)
  }

  /** `v?.k1?.k2?...`: optional chaining along a path of keys. */
  function Path(v: Value, keys: seq<string>): (r: Value)
    ensures keys == [] ==> r == v
    decreases |keys|
  {
    if keys == [] then v else Path(OptGet(v, keys[0]), keys[1..])
  }

  /** A path through a nullish value ends in `undefined`, whatever follows. */
  lemma {:induction false} PathThroughNullish(v: Value, keys: seq<string>)
    requires Nullish(v) && keys != []
    ensures Path(v, keys) == Undefined
    decreases |keys|
  {
    if |keys| > 1 {
      PathThroughNullish(Undefined, keys[1..]);
    }
  }

  /** `String(v)`, and so also `${v}` in a template literal. */
  function ToStr(v: Value): string
    decreases v, 1, 0
  {
    match v
    case Undefined => "undefined"
    case Null => "null"
    case Bool(b) => if b then "true" else "false"
    case Num(n) => IntToDecimal(n)
    case Str(s) => s
    case Arr(items) => JoinItems(items, 0)
    case Obj(_) => "[object Object]"
  }

  /** `Array.prototype.toString` from index `from` on: elements joined with commas, `null` and `undefined` printed empty. */
  function JoinItems(items: seq<Value>, from: nat): string
    requires from <= |items|
    decreases Arr(items), 0, |items| - from
  {
    if from == |items| then ""
    else
      var head := if Nullish(items[from]) then "" else ToStr(items[from]);
      if from == |items| - 1 then head else head + "," + JoinItems(items, from + 1)
  }
}
