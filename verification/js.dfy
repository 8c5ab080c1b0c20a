/** JavaScript values as the handlers see them after JSON parsing, together
    with the truthiness rules behind `||`, `??` and `!== false`. */
module Js {
  import opened Text

  datatype Option<+T> = None | Some(value: T)

  /** A JSON-shaped JavaScript value. `Undefined` stands for a property that
      is not present; JSON itself never produces it. Numbers are reals, so
      NaN and the infinities are not values here. */
  datatype Value =
    | Undefined
    | Null
    | Bool(b: bool)
    | Num(n: real)
    | Str(s: string)
    | Obj(fields: map<string, Value>)
    | Arr(items: seq<Value>)

  /** ToBoolean: what `if (v)`, `!v` and `v || w` test. */
  predicate Truthy(v: Value)
  {
    match v
    case Undefined => false
    case Null => false
    case Bool(b) => b
    case Num(n) => n != 0.0
    case Str(s) => |s| > 0
    case Obj(_) => true
    case Arr(_) => true
  }

  predicate Nullish(v: Value) { v.Undefined? || v.Null? }

  /** The position of the first row whose key is `k`, or -1: the row a
      lookup by one column returns when its first result is taken. */
  function FirstWith<T>(rows: seq<T>, key: T -> string, k: string): (i: int)
    ensures -1 <= i < |rows|
    ensures i == -1 <==> forall j :: 0 <= j < |rows| ==> key(rows[j]) != k
    ensures i >= 0 ==> key(rows[i]) == k && forall j :: 0 <= j < i ==> key(rows[j]) != k
  {
    if |rows| == 0 then -1
    else if key(rows[0]) == k then 0
    else
      var i := FirstWith(rows[1..], key, k);
      if i < 0 then -1 else i + 1
  }

  /** Property read `o.k` on a plain object (no prototype chain). */
  function Get(o: map<string, Value>, k: string): (v: Value)
    ensures k !in o ==> v == Undefined
    ensures k in o ==> v == o[k]
  {
    if k in o then o[k] else Undefined
  }

  /** Property read `v.k` or `v?.k` on a parsed value. Only objects carry
      the keys read here; on null the plain form throws, which every caller
      turns into the same outcome as a missing property. */
  function Prop(v: Value, k: string): Value
  {
    if v.Obj? then Get(v.fields, k) else Undefined
  }

  /** Number(v); None stands for NaN. `parse` stands for the grammar that
      turns a string into a number (blank strings give zero). An object
      converts through its text `[object Object]`, which is NaN. An array
      converts through its text, its items' texts joined by commas: no item
      gives "" and zero; one item gives that item's text (empty for null
      and undefined, `true` or `false` for a boolean, the number's own
      digits for a number); two or more give a comma, which no number
      contains. */
  function ToNumber(v: Value, parse: string -> Option<real>): Option<real>
  {
    match v
    case Undefined => None
    case Null => Some(0.0)
    case Bool(b) => Some(if b then 1.0 else 0.0)
    case Num(n) => Some(n)
    case Str(s) => parse(s)
    case Obj(_) => None
    case Arr(items) =>
      if |items| == 0 then Some(0.0)
      else if |items| > 1 then None
      else
        var item := items[0];
        if item.Undefined? || item.Null? then Some(0.0)
        else if item.Bool? then None
        else ToNumber(item, parse)
  }

  /** One item in brackets converts as the item itself, except that null
      and undefined give zero and a boolean gives NaN: `Number([4])` and
      `Number(["4"])` are 4, `Number([[4]])` too. */
  lemma SingletonNumber(item: Value, parse: string -> Option<real>)
    ensures ToNumber(Arr([item]), parse) ==
              if item.Undefined? || item.Null? then Some(0.0)
              else if item.Bool? then None
              else ToNumber(item, parse)
  {
  }

  /** `Number([a, b, ...])` is NaN whatever the items. */
  lemma LongArrayNaN(items: seq<Value>, parse: string -> Option<real>)
    requires |items| > 1
    ensures ToNumber(Arr(items), parse).None?
  {
  }

  /** The cases a JSON body can show: `[4]`, `["4"]` and `[[4]]` are 4,
      `[null]` is 0, `[4, 5]` is NaN. */
  lemma ArrayNumbers(parse: string -> Option<real>)
    requires parse("4") == Some(4.0)
    ensures ToNumber(Arr([Num(4.0)]), parse) == Some(4.0)
    ensures ToNumber(Arr([Str("4")]), parse) == Some(4.0)
    ensures ToNumber(Arr([Arr([Num(4.0)])]), parse) == Some(4.0)
    ensures ToNumber(Arr([Null]), parse) == Some(0.0)
    ensures ToNumber(Arr([Num(4.0), Num(5.0)]), parse).None?
  {
  }

  /** `Number(v) || d`: NaN and zero give way to the default. */
  function NumberOr(v: Value, parse: string -> Option<real>, d: real): (r: real)
    ensures ToNumber(v, parse) == None || ToNumber(v, parse) == Some(0.0) ==> r == d
    ensures ToNumber(v, parse).Some? && ToNumber(v, parse).value != 0.0 ==> r == ToNumber(v, parse).value
    ensures d != 0.0 ==> r != 0.0
  {
    match ToNumber(v, parse)
    case None => d
    case Some(n) => if n != 0.0 then n else d
  }

  /** The JavaScript expression `a || b`. */
  function Or(a: Value, b: Value): (r: Value)
    ensures Truthy(a) ==> r == a
    ensures !Truthy(a) ==> r == b
  {
    if Truthy(a) then a else b
  }

  /** The JavaScript expression `a ?? b`. */
  function Coalesce(a: Value, b: Value): (r: Value)
    ensures Nullish(a) ==> r == b
    ensures !Nullish(a) ==> r == a
  {
    if Nullish(a) then b else a
  }

  /** `s || d` on strings, where the empty string is the only falsy one. */
  function OrStr(s: string, d: string): (r: string)
    ensures |s| > 0 ==> r == s
    ensures |s| == 0 ==> r == d
  {
    if |s| > 0 then s else d
  }

  /** m holds items[i] under the key String(i), and no other key. */
  predicate IndexedBy(m: map<string, Value>, items: seq<Value>)
  {
    && m.Keys == (set i | 0 <= i < |items| :: NatToString(i))
    && forall i :: 0 <= i < |items| ==> NatToString(i) in m && m[NatToString(i)] == items[i]
  }

  /** An object keyed "0", "1", ... by the positions of `items`. */
  function Indexed(items: seq<Value>): (m: map<string, Value>)
    ensures IndexedBy(m, items)
  {
    if |items| == 0 then map[]
    else
      var n := |items| - 1;
      var prev := Indexed(items[..n]);
      IndexedStep(items, prev, n);
      prev[NatToString(n) := items[n]]
  }

  /** Adding the last item under its own key extends the indexing. */
  lemma IndexedStep(items: seq<Value>, prev: map<string, Value>, n: nat)
    requires n + 1 == |items| && IndexedBy(prev, items[..n])
    ensures IndexedBy(prev[NatToString(n) := items[n]], items)
  {
    var m := prev[NatToString(n) := items[n]];
    forall i | 0 <= i < |items| ensures NatToString(i) in m && m[NatToString(i)] == items[i] {
      if i < n {
        if NatToString(i) == NatToString(n) {
          NatToStringInjective(i, n);
        }
        assert items[..n][i] == items[i];
      }
    }
    var keys := set i | 0 <= i < |items| :: NatToString(i);
    forall k | k in keys ensures k in m {
      var i :| 0 <= i < |items| && k == NatToString(i);
    }
    forall k | k in m ensures k in keys {
      if k != NatToString(n) {
        var i :| 0 <= i < n && k == NatToString(i);
      }
    }
  }

  /** The one-character strings of s, in order. */
  function Characters(s: string): (cs: seq<Value>)
    ensures |cs| == |s|
    ensures forall i :: 0 <= i < |s| ==> cs[i] == Str([s[i]])
  {
    seq(|s|, i requires 0 <= i < |s| => Str([s[i]]))
  }

  /** The own enumerable properties a spread `{ ...v }` copies: an object's
      fields, an array's elements and a string's one-character strings
      under their index keys, and nothing from any other value. */
  function SpreadKeys(v: Value): (m: map<string, Value>)
    ensures v.Obj? ==> m == v.fields
    ensures v.Arr? ==> IndexedBy(m, v.items)
    ensures v.Str? ==> IndexedBy(m, Characters(v.s))
    ensures !v.Obj? && !v.Arr? && !v.Str? ==> m == map[]
  {
    match v
    case Obj(fields) => fields
    case Arr(items) => Indexed(items)
    case Str(s) => Indexed(Characters(s))
    case _ => map[]
  }

  /** `{ ...a, ...b }`: every key of b wins, keys only in a are kept. */
  function Spread(a: map<string, Value>, b: map<string, Value>): (r: map<string, Value>)
    ensures r.Keys == a.Keys + b.Keys
    ensures forall k :: k in b ==> r[k] == b[k]
    ensures forall k :: k in a && k !in b ==> r[k] == a[k]
  {
    a + b
  }
}
