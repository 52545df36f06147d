/**
 * The slice of JavaScript value semantics the report pipeline relies on:
 * parsed-JSON values (plus `undefined`, which object spreads can store),
 * truthiness, property access that throws on `null`/`undefined`, the
 * `||` operator, `String(v)`, object spread and case-insensitive substring
 * tests.
 */
module Js {

  datatype Option<+T> = None | Some(value: T)

  /** A computation that either yields a value or throws a TypeError. */
  datatype Result<+T> = Ok(value: T) | Thrown {
    predicate IsFailure() { Thrown? }
    function PropagateFailure<U>(): Result<U>
      requires Thrown?
    {
      Thrown
    }
    function Extract(): T
      requires Ok?
    {
      value
    }
  }

  /** A JavaScript value as produced by `JSON.parse` and by spreads over it. */
  datatype Value =
    | Undefined
    | Null
    | Bool(b: bool)
    | Num(n: int)
    | Str(s: string)
    | Arr(items: seq<Value>)
    | Obj(props: map<string, Value>)

  /** A record is the property map of an object. */
  type Record = map<string, Value>

  predicate IsNullish(v: Value) {
    v.Undefined? || v.Null?
  }

  /** JavaScript truthiness: `0`, `""`, `false`, `null` and `undefined` are falsy; every array and object is truthy. */
  predicate Truthy(v: Value) {
    match v
    case Undefined => false
    case Null => false
    case Bool(b) => b
    case Num(n) => n != 0
    case Str(s) => s != ""
    case Arr(_) => true
    case Obj(_) => true
  }

  /** `a || b`: the first operand when it is truthy, otherwise the second. */
  function Or(a: Value, b: Value): Value {
    if Truthy(a) then a else b
  }

  /** Reading property `key` of a value that is not `null` or `undefined`. */
  function Prop(v: Value, key: string): Value {
    if v.Obj? && key in v.props then v.props[key] else Undefined
  }

  /** `v.key`: throws on `null` and `undefined`. */
  function Get(v: Value, key: string): (r: Result<Value>)
    ensures r.Thrown? <==> IsNullish(v)
    ensures r.Ok? ==> r.value == Prop(v, key)
  {
    if IsNullish(v) then Thrown else Ok(Prop(v, key))
  }

  /** `list.includes(v)` for a list of strings: strict equality, so only a string can be found. */
  predicate StringListIncludes(list: seq<string>, v: Value) {
    v.Str? && v.s in list
  }

  function DigitChar(d: nat): char
    requires d < 10
  {
    "0123456789"[d]
  }

  function NatToString(n: nat): (r: string)
    ensures r != []
  {
    if n < 10 then [DigitChar(n)] else NatToString(n / 10) + [DigitChar(n % 10)]
  }

  function IntToString(n: int): string {
    if n < 0 then "-" + NatToString(-n) else NatToString(n)
  }

  function Join(parts: seq<string>, sep: string): string {
    if parts == [] then ""
    else if |parts| == 1 then parts[0]
    else parts[0] + sep + Join(parts[1..], sep)
  }

  /** `String(v)` (also the conversion done by a template literal). */
  function ToStr(v: Value): string
    decreases v
  {
    match v
    case Undefined => "undefined"
    case Null => "null"
    case Bool(b) => if b then "true" else "false"
    case Num(n) => IntToString(n)
    case Str(s) => s
    case Arr(items) =>
      // Array.prototype.join: null and undefined elements become empty strings
      Join(seq(|items|, i requires 0 <= i < |items| =>
             if IsNullish(items[i]) then "" else ToStr(items[i])), ",")
    case Obj(_) => "[object Object]"
  }

  /**
   * Whether `String(v)` returns. Parsed JSON holds no functions, so an object
   * with an own `toString` key has no callable `toString`, and its inherited
   * `valueOf` returns the object itself: the conversion throws a TypeError.
   * `Array.prototype.join` converts every element that is not nullish.
   */
  predicate Converts(v: Value)
    decreases v
  {
    match v
    case Obj(props) => "toString" !in props
    case Arr(items) => forall i :: 0 <= i < |items| ==> Converts(items[i])
    case _ => true
  }

  /** `String(v)` and a template literal's substitution, with the TypeError of an object that cannot be converted. */
  function Convert(v: Value): (r: Result<string>)
    ensures r.Thrown? <==> !Converts(v)
    ensures r.Ok? ==> r.value == ToStr(v)
  {
    if Converts(v) then Ok(ToStr(v)) else Thrown
  }

  /** An object whose own `toString` is data cannot be converted, nor can an array holding one; any other object can. */
  lemma ConvertObjects(props: Record)
    ensures Convert(Obj(props)).Thrown? <==> "toString" in props
    ensures "toString" in props ==> Convert(Arr([Null, Obj(props)])).Thrown?
    ensures "toString" !in props ==> Convert(Obj(props)) == Ok("[object Object]")
  {
    assert Arr([Null, Obj(props)]).items[1] == Obj(props);
  }

  /** The index-keyed properties `{"0": xs[0], ..., "n-1": xs[n-1]}`. */
  function IndexProps(xs: seq<Value>, n: nat): Record
    requires n <= |xs|
  {
    if n == 0 then map[] else IndexProps(xs, n - 1)[NatToString(n - 1) := xs[n - 1]]
  }

  function Chars(s: string): seq<Value> {
    seq(|s|, i requires 0 <= i < |s| => Str([s[i]]))
  }

  /** The own enumerable properties that `{...v}` copies; primitives other than strings contribute none. */
  function Spread(v: Value): Record {
    match v
    case Obj(props) => props
    case Arr(items) => IndexProps(items, |items|)
    case Str(s) => IndexProps(Chars(s), |s|)
    case _ => map[]
  }

  /** `[...v]`: only arrays and strings are iterable among JSON values. */
  function Iterate(v: Value): (r: Result<seq<Value>>)
    ensures v.Arr? ==> r == Ok(v.items)
    ensures v.Str? ==> r.Ok? && |r.value| == |v.s|
    ensures r.Thrown? <==> !v.Arr? && !v.Str?
  {
    match v
    case Arr(items) => Ok(items)
    case Str(s) => Ok(Chars(s))
    case _ => Thrown
  }

  function LowerChar(c: char): char {
    if 'A' <= c <= 'Z' then (c as int + 32) as char else c
  }

  /** `s.toLowerCase()`, restricted to the ASCII letters. */
  function ToLower(s: string): (r: string)
    ensures |r| == |s|
    ensures forall i :: 0 <= i < |s| ==> !('A' <= r[i] <= 'Z')
    ensures forall i :: 0 <= i < |s| && !('A' <= s[i] <= 'Z') ==> r[i] == s[i]
    ensures forall i :: 0 <= i < |s| && 'A' <= s[i] <= 'Z' ==> r[i] as int == s[i] as int + 32
  {
    seq(|s|, i requires 0 <= i < |s| => LowerChar(s[i]))
  }

  /** `s.includes(sub)` on strings. */
  predicate Contains(s: string, sub: string)
    decreases |s|
  {
    |sub| <= |s| && (s[..|sub|] == sub || (s != [] && Contains(s[1..], sub)))
  }

  lemma {:induction false} ContainsAt(s: string, sub: string, i: nat)
    requires i + |sub| <= |s| && s[i..i + |sub|] == sub
    ensures Contains(s, sub)
    decreases i
  {
    if i > 0 {
      assert s[1..][i - 1..i - 1 + |sub|] == s[i..i + |sub|];
      ContainsAt(s[1..], sub, i - 1);
    }
  }

  lemma {:induction false} ContainsWitness(s: string, sub: string) returns (i: nat)
    requires Contains(s, sub)
    ensures i + |sub| <= |s| && s[i..i + |sub|] == sub
    decreases |s|
  {
    if s[..|sub|] == sub {
      i := 0;
    } else {
      var j := ContainsWitness(s[1..], sub);
      assert s[1..][j..j + |sub|] == s[j + 1..j + 1 + |sub|];
      i := j + 1;
    }
  }

  predicate OccursAt(s: string, sub: string, i: nat) {
    i + |sub| <= |s| && s[i..i + |sub|] == sub
  }

  /** `s.includes(sub)` holds exactly when `sub` occurs at some position of `s`. */
  lemma ContainsIff(s: string, sub: string)
    ensures Contains(s, sub) <==> exists i: nat :: OccursAt(s, sub, i)
  {
    if Contains(s, sub) {
      var i := ContainsWitness(s, sub);
      assert OccursAt(s, sub, i);
    }
    if exists i: nat :: OccursAt(s, sub, i) {
      var i: nat :| OccursAt(s, sub, i);
      ContainsAt(s, sub, i);
    }
  }

  /** Lexicographic order on character codes: the stand-in for `localeCompare`'s collation. */
  predicate StrLess(a: string, b: string)
    decreases |a|
  {
    if a == [] then b != []
    else if b == [] then false
    else if a[0] != b[0] then a[0] < b[0]
    else StrLess(a[1..], b[1..])
  }

  /** `a.localeCompare(b)`: negative, zero or positive as `a` collates before, with or after `b`. */
  function LocaleCompare(a: string, b: string): int {
    if a == b then 0 else if StrLess(a, b) then -1 else 1
  }

  lemma {:induction false} StrLessIrreflexive(a: string)
    ensures !StrLess(a, a)
    decreases |a|
  {
    if a != [] {
      StrLessIrreflexive(a[1..]);
    }
  }

  /** Two different strings are ordered one way or the other, never both. */
  lemma {:induction false} StrLessTotal(a: string, b: string)
    ensures a != b ==> (StrLess(a, b) <==> !StrLess(b, a))
    decreases |a|
  {
    if a != [] && b != [] && a[0] == b[0] {
      StrLessTotal(a[1..], b[1..]);
      if a[1..] == b[1..] {
        assert a == [a[0]] + a[1..] && b == [b[0]] + b[1..];
      }
    }
  }

  lemma {:induction false} StrLessTransitive(a: string, b: string, c: string)
    requires StrLess(a, b) && StrLess(b, c)
    ensures StrLess(a, c)
    decreases |a|
  {
    if a != [] && a[0] == b[0] && b[0] == c[0] {
      StrLessTransitive(a[1..], b[1..], c[1..]);
    }
  }

  /** The sign of `LocaleCompare` is antisymmetric and its "not after" relation is transitive. */
  lemma LocaleCompareOrder(a: string, b: string, c: string)
    ensures LocaleCompare(a, b) < 0 <==> LocaleCompare(b, a) > 0
    ensures LocaleCompare(a, b) == 0 <==> a == b
    ensures LocaleCompare(a, b) <= 0 && LocaleCompare(b, c) <= 0 ==> LocaleCompare(a, c) <= 0
  {
    StrLessTotal(a, b);
    StrLessIrreflexive(a);
    if a != b && b != c && StrLess(a, b) && StrLess(b, c) {
      StrLessTransitive(a, b, c);
      StrLessTotal(a, c);
    }
  }
}
