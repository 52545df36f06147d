/**
 * Order-preserving filtering of sequences (`Array.prototype.filter` with a
 * predicate that cannot throw) and its algebra.
 */
module Seqs {

  function Filter<T>(s: seq<T>, keep: T -> bool): (r: seq<T>)
    ensures |r| <= |s|
    ensures forall i :: 0 <= i < |r| ==> r[i] in s && keep(r[i])
    ensures forall i :: 0 <= i < |s| && keep(s[i]) ==> s[i] in r
  {
    if s == [] then [] else (if keep(s[0]) then [s[0]] else []) + Filter(s[1..], keep)
  }

  /** Filtering distributes over concatenation: kept elements stay in their original order. */
  lemma {:induction false} FilterAppend<T>(a: seq<T>, b: seq<T>, keep: T -> bool)
    ensures Filter(a + b, keep) == Filter(a, keep) + Filter(b, keep)
  {
    if a == [] {
      assert a + b == b;
    } else {
      assert (a + b)[1..] == a[1..] + b;
      FilterAppend(a[1..], b, keep);
    }
  }

  /** Filtering a single element keeps it or drops it. */
  lemma FilterOne<T>(x: T, keep: T -> bool)
    ensures Filter([x], keep) == if keep(x) then [x] else []
  {
    assert [x][1..] == [];
  }

  /** A filter that keeps everything is the identity. */
  lemma {:induction false} FilterKeepsAll<T>(s: seq<T>, keep: T -> bool)
    requires forall i :: 0 <= i < |s| ==> keep(s[i])
    ensures Filter(s, keep) == s
  {
    if s != [] {
      FilterKeepsAll(s[1..], keep);
    }
  }

  /** A filter that rejects everything leaves nothing. */
  lemma {:induction false} FilterNone<T>(s: seq<T>, keep: T -> bool)
    requires forall i :: 0 <= i < |s| ==> !keep(s[i])
    ensures Filter(s, keep) == []
  {
    if s != [] {
      FilterNone(s[1..], keep);
    }
  }

  /** Filtering drops exactly a rejected last element when it keeps all the others. */
  lemma FilterDropsLast<T>(s: seq<T>, keep: T -> bool)
    requires s != [] && !keep(s[|s| - 1])
    requires forall i :: 0 <= i < |s| - 1 ==> keep(s[i])
    ensures Filter(s, keep) == s[..|s| - 1]
  {
    var init := s[..|s| - 1];
    forall i | 0 <= i < |init| ensures keep(init[i]) {
      assert init[i] == s[i];
    }
    var last := [s[|s| - 1]];
    FilterAppend(init, last, keep);
    FilterKeepsAll(init, keep);
    assert last[1..] == [];
    assert Filter(last, keep) == Filter(last[1..], keep);
    assert s == init + last;
  }

  /** The multiset of what is kept plus the multiset of what is dropped is the multiset of the input. */
  lemma {:induction false} FilterSplits<T>(s: seq<T>, keep: T -> bool, drop: T -> bool)
    requires forall i :: 0 <= i < |s| ==> (drop(s[i]) <==> !keep(s[i]))
    ensures multiset(Filter(s, keep)) + multiset(Filter(s, drop)) == multiset(s)
  {
    if s != [] {
      var x, t := s[0], s[1..];
      FilterSplits(t, keep, drop);
      var kt, dt := Filter(t, keep), Filter(t, drop);
      assert multiset(s) == multiset{x} + multiset(t) by {
        assert s == [x] + t;
      }
      if keep(x) {
        assert Filter(s, keep) == [x] + kt;
        assert Filter(s, drop) == dt;
        assert multiset([x] + kt) == multiset{x} + multiset(kt);
      } else {
        assert Filter(s, keep) == kt;
        assert Filter(s, drop) == [x] + dt;
        assert multiset([x] + dt) == multiset{x} + multiset(dt);
      }
    }
  }

  /** Every element except `v`, in order (`list.filter(x => x !== v)`). */
  function RemoveAll<T(==)>(s: seq<T>, v: T): (r: seq<T>)
    ensures v !in r
    ensures forall i :: 0 <= i < |r| ==> r[i] in s
    ensures forall i :: 0 <= i < |s| && s[i] != v ==> s[i] in r
  {
    if s == [] then [] else (if s[0] == v then [] else [s[0]]) + RemoveAll(s[1..], v)
  }

  lemma {:induction false} RemoveAllAbsent<T>(s: seq<T>, v: T)
    requires v !in s
    ensures RemoveAll(s, v) == s
  {
    if s != [] {
      RemoveAllAbsent(s[1..], v);
    }
  }

  lemma {:induction false} RemoveAllAppend<T>(a: seq<T>, b: seq<T>, v: T)
    ensures RemoveAll(a + b, v) == RemoveAll(a, v) + RemoveAll(b, v)
  {
    if a == [] {
      assert a + b == b;
    } else {
      assert (a + b)[1..] == a[1..] + b;
      RemoveAllAppend(a[1..], b, v);
    }
  }

  predicate NoDuplicates<T(==)>(s: seq<T>) {
    forall i, j :: 0 <= i < j < |s| ==> s[i] != s[j]
  }

  /** Removing every occurrence of `v` shortens the sequence by exactly the number of occurrences. */
  lemma {:induction false} RemoveAllCount<T>(s: seq<T>, v: T)
    ensures |RemoveAll(s, v)| == |s| - multiset(s)[v]
    ensures multiset(RemoveAll(s, v))[v] == 0
  {
    if s != [] {
      RemoveAllCount(s[1..], v);
      assert s == [s[0]] + s[1..];
      assert multiset(s)[v] == (if s[0] == v then 1 else 0) + multiset(s[1..])[v];
    }
  }

  /** The position of the first occurrence of `x` in `s`. */
  function FirstIndex<T(==)>(s: seq<T>, x: T): (r: nat)
    requires x in s
    ensures r < |s| && s[r] == x
    ensures forall k :: 0 <= k < r ==> s[k] != x
  {
    if s[0] == x then 0 else FirstIndex(s[1..], x) + 1
  }

  /** The first occurrence of an element of a prefix lies in that prefix. */
  lemma FirstIndexPrefix<T>(s: seq<T>, n: nat, x: T)
    requires n <= |s| && x in s[..n]
    ensures FirstIndex(s, x) == FirstIndex(s[..n], x)
  {
    var a := FirstIndex(s, x);
    var b := FirstIndex(s[..n], x);
    assert s[b] == s[..n][b];
    assert a <= b;
    assert s[..n][a] == s[a];
  }

  /**
   * `Array.from(new Set(s))`: the elements of `s` without repetitions, each
   * kept at its first occurrence.
   */
  function Distinct<T(==)>(s: seq<T>): (r: seq<T>)
    ensures NoDuplicates(r)
    ensures forall i :: 0 <= i < |r| ==> r[i] in s
    ensures forall i :: 0 <= i < |s| ==> s[i] in r
  {
    if s == [] then []
    else
      var d := Distinct(s[..|s| - 1]);
      var x := s[|s| - 1];
      assert s == s[..|s| - 1] + [x];
      if x in d then d else d + [x]
  }

  /** The distinct elements come in the order of their first occurrences. */
  lemma {:induction false} DistinctOrder<T>(s: seq<T>)
    ensures forall i, j :: 0 <= i < j < |Distinct(s)| ==> FirstIndex(s, Distinct(s)[i]) < FirstIndex(s, Distinct(s)[j])
  {
    if s != [] {
      var init := s[..|s| - 1];
      var x := s[|s| - 1];
      var d := Distinct(init);
      DistinctOrder(init);
      assert s[..|s| - 1] == init;
      forall y | y in d ensures FirstIndex(s, y) == FirstIndex(init, y) {
        FirstIndexPrefix(s, |s| - 1, y);
      }
      var r := Distinct(s);
      assert r == if x in d then d else d + [x];
      forall i, j | 0 <= i < j < |r| ensures FirstIndex(s, r[i]) < FirstIndex(s, r[j]) {
        assert r[i] == d[i] && r[i] in d;
        if j < |d| {
          assert r[j] == d[j] && r[j] in d;
        } else {
          assert r[j] == x && x !in init;
          assert FirstIndex(s, x) == |s| - 1;
        }
      }
    }
  }

  /** A sequence without repetitions is its own set of distinct elements. */
  lemma {:induction false} DistinctOfDistinct<T>(s: seq<T>)
    requires NoDuplicates(s)
    ensures Distinct(s) == s
  {
    if s != [] {
      var init := s[..|s| - 1];
      DistinctOfDistinct(init);
      assert s[|s| - 1] !in init;
      assert s == init + [s[|s| - 1]];
    }
  }
}
