/**
 * The array methods the pipeline calls with callbacks that read properties
 * of their arguments: `filter` with a test that may throw, `sort` with a
 * comparator that reads both operands, and `map` with a mapping that reads
 * its element.
 */
module JsArray {
  import opened Js
  import Seqs
  import StableSort

  /** The elements a throwing test accepts. */
  function Accepts<T>(test: T -> Result<bool>): T -> bool {
    x => test(x) == Ok(true)
  }

  /** `data.filter(test)`: every element is tested, and a throw from any test propagates. */
  function FilterBy<T>(data: seq<T>, test: T -> Result<bool>): (r: Result<seq<T>>)
    ensures r.Thrown? <==> exists i :: 0 <= i < |data| && test(data[i]).Thrown?
    ensures r.Ok? ==> r.value == Seqs.Filter(data, Accepts(test))
  {
    if data == [] then Ok([])
    else
      var keep :- test(data[0]);
      var rest := FilterBy(data[1..], test);
      assert forall i :: 1 <= i < |data| ==> data[i] == data[1..][i - 1];
      if rest.Thrown? then Thrown
      else Ok((if keep then [data[0]] else []) + rest.value)
  }

  /** A test that never throws and accepts everything leaves the data unchanged. */
  lemma FilterByKeepsAll<T>(data: seq<T>, test: T -> Result<bool>)
    requires forall i :: 0 <= i < |data| ==> test(data[i]) == Ok(true)
    ensures FilterBy(data, test) == Ok(data)
  {
    Seqs.FilterKeepsAll(data, Accepts(test));
  }

  /** What a filter keeps is exactly the elements of the input its test accepts. */
  lemma FilterByMembers<T>(data: seq<T>, test: T -> Result<bool>, x: T)
    requires FilterBy(data, test).Ok?
    ensures x in FilterBy(data, test).value <==> x in data && test(x) == Ok(true)
  {
    var r := FilterBy(data, test).value;
    if x in r {
      var i :| 0 <= i < |r| && r[i] == x;
    }
    if x in data && test(x) == Ok(true) {
      var i :| 0 <= i < |data| && data[i] == x;
    }
  }

  predicate HasNullish(data: seq<Value>) {
    exists i :: 0 <= i < |data| && IsNullish(data[i])
  }

  /**
   * `data.sort(cmp)` with a comparator that reads a property of both of its
   * operands: with two or more elements every element meets the comparator,
   * so a `null` or `undefined` element throws; otherwise the result is the
   * stable sort.
   */
  function SortRecords(data: seq<Value>, cmp: (Value, Value) -> int): (r: Result<seq<Value>>)
    ensures r.Thrown? <==> |data| >= 2 && HasNullish(data)
    ensures r.Ok? ==> multiset(r.value) == multiset(data)
    ensures r.Ok? ==> r.value == StableSort.Sort(data, cmp)
  {
    if |data| >= 2 && HasNullish(data) then Thrown
    else
      StableSort.SortPermutes(data, cmp);
      Ok(StableSort.Sort(data, cmp))
  }

  /** The sort as the engine performs it, in place; a throw leaves the array as it was. */
  method SortRecordsInPlace(a: array<Value>, cmp: (Value, Value) -> int) returns (threw: bool)
    modifies a
    ensures threw <==> SortRecords(old(a[..]), cmp).Thrown?
    ensures threw ==> a[..] == old(a[..])
    ensures !threw ==> a[..] == SortRecords(old(a[..]), cmp).value
  {
    var nullish := false;
    var i := 0;
    while i < a.Length
      invariant 0 <= i <= a.Length
      invariant nullish <==> exists j :: 0 <= j < i && IsNullish(a[j])
    {
      nullish := nullish || IsNullish(a[i]);
      i := i + 1;
    }
    if a.Length >= 2 && nullish {
      return true;
    }
    StableSort.SortInPlace(a, cmp);
    return false;
  }

  /** `data.map(f)` where `f` reads a property of its element, so a `null` or `undefined` element throws. */
  function MapRecords(data: seq<Value>, f: Value -> Value): (r: Result<seq<Value>>)
    ensures r.Thrown? <==> HasNullish(data)
    ensures r.Ok? ==> |r.value| == |data| && forall i :: 0 <= i < |data| ==> r.value[i] == f(data[i])
  {
    if HasNullish(data) then Thrown else Ok(seq(|data|, i requires 0 <= i < |data| => f(data[i])))
  }
}
