/**
 * The filter-state logic the three filter panels share: toggling a value in
 * a list-valued filter, reading the sort select's `field-direction` value,
 * and the resource-type options offered for vulnerability reports.
 */
module FilterState {
  import opened Js
  import opened ReportTypes
  import Seqs

  // ---------------------------------------------------------------------
  // Toggling a value of a list-valued filter

  /** A present value is removed wherever it occurs; an absent one is appended. */
  function Toggle(list: seq<string>, v: string): (r: seq<string>)
    ensures v in r <==> v !in list
    ensures forall w :: w != v ==> (w in r <==> w in list)
    ensures v !in list ==> |r| == |list| + 1 && r[..|list|] == list && r[|list|] == v
  {
    if v in list then Seqs.RemoveAll(list, v) else list + [v]
  }

  /** Toggling an absent value twice gives back the original list. */
  lemma ToggleTwiceRestores(list: seq<string>, v: string)
    requires v !in list
    ensures Toggle(Toggle(list, v), v) == list
  {
    Seqs.RemoveAllAppend(list, [v], v);
    Seqs.RemoveAllAbsent(list, v);
    assert Seqs.RemoveAll([v], v) == [];
  }

  /** Toggling a present value twice leaves it once, at the end, after the other values. */
  lemma ToggleTwicePresent(list: seq<string>, v: string)
    requires v in list
    ensures Toggle(Toggle(list, v), v) == Seqs.RemoveAll(list, v) + [v]
  {
  }

  /** The length of a toggled list: one more for an absent value, every occurrence less for a present one. */
  lemma ToggleLength(list: seq<string>, v: string)
    ensures |Toggle(list, v)| == if v in list then |list| - multiset(list)[v] else |list| + 1
  {
    Seqs.RemoveAllCount(list, v);
  }

  /** `setFilters({...filters, [field]: toggled})`. */
  function ToggleField(f: FilterOptions, field: ListField, v: string): (r: FilterOptions)
    ensures v in GetList(r, field) <==> v !in GetList(f, field)
    ensures forall g: ListField :: g != field ==> GetList(r, g) == GetList(f, g)
    ensures r.packageName == f.packageName && r.hideZeroFailedTests == f.hideZeroFailedTests
  {
    SetList(f, field, Toggle(GetList(f, field), v))
  }

  /** Toggling the same absent value twice restores the whole filter state. */
  lemma ToggleFieldTwice(f: FilterOptions, field: ListField, v: string)
    requires v !in GetList(f, field)
    ensures ToggleField(ToggleField(f, field, v), field, v) == f
  {
    ToggleTwiceRestores(GetList(f, field), v);
  }

  // ---------------------------------------------------------------------
  // The sort select

  /** `s.split(sep)` for a one-character separator: at least one part, none containing the separator. */
  function Split(s: string, sep: char): (r: seq<string>)
    ensures |r| >= 1
    ensures forall i :: 0 <= i < |r| ==> sep !in r[i]
  {
    if s == [] then [""]
    else
      var rest := Split(s[1..], sep);
      if s[0] == sep then [""] + rest else [[s[0]] + rest[0]] + rest[1..]
  }

  /** Joining the parts with the separator gives back the string. */
  lemma {:induction false} SplitJoin(s: string, sep: char)
    ensures Join(Split(s, sep), [sep]) == s
  {
    if s != [] {
      var rest := Split(s[1..], sep);
      SplitJoin(s[1..], sep);
      if s[0] == sep {
        assert Split(s, sep)[1..] == rest;
        assert s == [sep] + s[1..];
      } else if |rest| == 1 {
        assert s == [s[0]] + s[1..];
      } else {
        assert Split(s, sep)[1..] == rest[1..];
        assert Join(rest, [sep]) == rest[0] + [sep] + Join(rest[1..], [sep]);
        assert s == [s[0]] + s[1..];
      }
    }
  }

  /** A string without the separator is a single part. */
  lemma {:induction false} SplitWithout(s: string, sep: char)
    requires sep !in s
    ensures Split(s, sep) == [s]
  {
    if s != [] {
      SplitWithout(s[1..], sep);
      assert s == [s[0]] + s[1..];
    }
  }

  /** A leading part without the separator is split off whole. */
  lemma {:induction false} SplitAfter(a: string, sep: char, b: string)
    requires sep !in a
    ensures Split(a + [sep] + b, sep) == [a] + Split(b, sep)
  {
    if a == [] {
      assert (a + [sep] + b)[1..] == b;
    } else {
      assert (a + [sep] + b)[1..] == a[1..] + [sep] + b;
      SplitAfter(a[1..], sep, b);
      assert a == [a[0]] + a[1..];
    }
  }

  /** `const [field, direction] = value.split('-')`: the direction is absent when there is no `-`. */
  function ParseSortValue(value: string): (r: SortOptions)
    ensures '-' !in value ==> r == SortOptions(value, None)
    ensures '-' !in r.field
    ensures r.direction.Some? ==> '-' !in r.direction.value
  {
    var parts := Split(value, '-');
    SplitWithoutLemma(value);
    SortOptions(parts[0], if |parts| >= 2 then Some(parts[1]) else None)
  }

  lemma SplitWithoutLemma(value: string)
    ensures '-' !in value ==> Split(value, '-') == [value]
  {
    if '-' !in value {
      SplitWithout(value, '-');
    }
  }

  /** The select's value for a sort state: `${field}-${direction}`, an absent direction printing as "undefined". */
  function SortValue(o: SortOptions): string {
    o.field + "-" + (if o.direction.Some? then o.direction.value else "undefined")
  }

  /** The value of a configured sort option. */
  function OptionValue(c: SortConfig): string {
    c.field + "-" + c.direction
  }

  /** Reading back a selected value gives the sort state it was printed from, when neither part holds a `-`. */
  lemma SortValueRoundTrip(field: string, direction: string)
    requires '-' !in field && '-' !in direction
    ensures ParseSortValue(field + "-" + direction) == SortOptions(field, Some(direction))
  {
    SplitAfter(field, '-', direction);
    SplitWithout(direction, '-');
  }

  /** The sort state printed into the select and read back unchanged, for a state with a direction. */
  lemma SortStateRoundTrip(o: SortOptions)
    requires '-' !in o.field && o.direction.Some? && '-' !in o.direction.value
    ensures ParseSortValue(SortValue(o)) == o
  {
    SortValueRoundTrip(o.field, o.direction.value);
  }

  // ---------------------------------------------------------------------
  // Resource types

  /** `Results.map(result => result.Type)`: a nullish scan result throws. */
  function TypesOf(results: seq<Value>): (r: Result<seq<Value>>)
    ensures r.Ok? <==> forall i :: 0 <= i < |results| ==> !IsNullish(results[i])
    ensures r.Ok? ==> |r.value| == |results| && forall i :: 0 <= i < |results| ==> r.value[i] == Prop(results[i], "Type")
  {
    if results == [] then Ok([])
    else
      var head :- Get(results[0], "Type");
      var rest :- TypesOf(results[1..]);
      Ok([head] + rest)
  }

  /** `vs.map(String)`: throws on the first value that cannot be converted. */
  function ConvertAll(vs: seq<Value>): (r: Result<seq<string>>)
    ensures r.Ok? <==> forall i :: 0 <= i < |vs| ==> Converts(vs[i])
    ensures r.Ok? ==> |r.value| == |vs| && forall i :: 0 <= i < |vs| ==> r.value[i] == ToStr(vs[i])
  {
    if vs == [] then Ok([])
    else
      var head :- Convert(vs[0]);
      var rest :- ConvertAll(vs[1..]);
      Ok([head] + rest)
  }

  /**
   * `getResourceTypes`: for a vulnerability report, the distinct `Type`
   * values of its scan results in order of first occurrence, each converted
   * with `String`; for every other family, none. The values are made
   * distinct before conversion, so `1` and `"1"` both appear.
   */
  function ResourceTypes(report: Value, t: ReportType): (r: Result<seq<string>>)
    ensures t != TrivyVulnerability ==> r == Ok([])
  {
    if t != TrivyVulnerability then Ok([])
    else
      var results :- Get(report, "Results");
      if !results.Arr? then Thrown
      else
        var types :- TypesOf(results.items);
        ConvertAll(Seqs.Distinct(types))
  }

  /**
   * The resource types of a vulnerability report with no nullish scan result:
   * they are listed exactly when every `Type` converts, and then every type is
   * listed once, converted, in first-occurrence order.
   */
  lemma ResourceTypesDistinct(report: Value, results: seq<Value>)
    requires Prop(report, "Results") == Arr(results) && !IsNullish(report)
    requires forall i :: 0 <= i < |results| ==> !IsNullish(results[i])
    ensures ResourceTypes(report, TrivyVulnerability).Ok? <==>
      forall i :: 0 <= i < |results| ==> Converts(Prop(results[i], "Type"))
    ensures var types := TypesOf(results).value;
      && Seqs.NoDuplicates(Seqs.Distinct(types))
      && (forall i :: 0 <= i < |results| ==> Prop(results[i], "Type") in Seqs.Distinct(types))
      && (forall i, j :: 0 <= i < j < |Seqs.Distinct(types)| ==>
            Seqs.FirstIndex(types, Seqs.Distinct(types)[i]) < Seqs.FirstIndex(types, Seqs.Distinct(types)[j]))
      && (ResourceTypes(report, TrivyVulnerability).Ok? ==>
            |ResourceTypes(report, TrivyVulnerability).value| == |Seqs.Distinct(types)|
            && forall i :: 0 <= i < |Seqs.Distinct(types)| ==>
                 ResourceTypes(report, TrivyVulnerability).value[i] == ToStr(Seqs.Distinct(types)[i]))
  {
    var types := TypesOf(results).value;
    var d := Seqs.Distinct(types);
    Seqs.DistinctOrder(types);
    forall i | 0 <= i < |results| ensures Prop(results[i], "Type") in d {
      assert types[i] == Prop(results[i], "Type");
    }
    ConvertDistinct(types);
  }

  /** The distinct values convert exactly when all the values do. */
  lemma ConvertDistinct(types: seq<Value>)
    ensures ConvertAll(Seqs.Distinct(types)).Ok? <==> forall i :: 0 <= i < |types| ==> Converts(types[i])
  {
    var d := Seqs.Distinct(types);
    if forall i :: 0 <= i < |types| ==> Converts(types[i]) {
      forall i | 0 <= i < |d| ensures Converts(d[i]) {
        var k :| 0 <= k < |types| && types[k] == d[i];
      }
    } else {
      var i :| 0 <= i < |types| && !Converts(types[i]);
      assert types[i] in d;
      var k :| 0 <= k < |d| && d[k] == types[i];
    }
  }

  /** An option of the resource-type control. */
  function TypeOption(v: string): FilterOptionItem {
    FilterOptionItem(v, v, None, None)
  }

  /** `resourceTypes.length > 0 ? resourceTypes : (filter.options || [])`; an empty result hides the control. */
  function ResourceOptions(types: seq<string>, filter: FilterConfig): (r: seq<FilterOptionItem>)
    ensures |types| > 0 ==> |r| == |types| && forall i :: 0 <= i < |r| ==> r[i].value == types[i] && r[i].caption == types[i]
    ensures |types| == 0 ==> r == (if filter.options.Some? then filter.options.value else [])
  {
    if |types| > 0 then seq(|types|, i requires 0 <= i < |types| => TypeOption(types[i]))
    else if filter.options.Some? then filter.options.value
    else []
  }
}
