/**
 * `Array.prototype.sort(comparefn)`: since ES2019 the sort is stable, so for a
 * consistent comparator its result is the stable sorted permutation of the
 * input. `Sort` is that result, written as an insertion sort that moves an
 * element in front of another only when the comparator returns a negative
 * number; `SortInPlace` computes it in place on an array, as the engine does.
 */
module StableSort {

  /** Inserts `x` behind every trailing element it does not compare below. */
  function Insert<T>(sorted: seq<T>, x: T, cmp: (T, T) -> int): (r: seq<T>)
    ensures |r| == |sorted| + 1
  {
    if sorted == [] then [x]
    else if cmp(x, sorted[|sorted| - 1]) < 0 then
      Insert(sorted[..|sorted| - 1], x, cmp) + [sorted[|sorted| - 1]]
    else sorted + [x]
  }

  /** The stable sort of `s` under `cmp`. */
  function Sort<T>(s: seq<T>, cmp: (T, T) -> int): (r: seq<T>)
    ensures |r| == |s|
  {
    if s == [] then [] else Insert(Sort(s[..|s| - 1], cmp), s[|s| - 1], cmp)
  }

  lemma {:induction false} InsertPermutes<T>(sorted: seq<T>, x: T, cmp: (T, T) -> int)
    ensures multiset(Insert(sorted, x, cmp)) == multiset(sorted) + multiset{x}
  {
    if sorted != [] && cmp(x, sorted[|sorted| - 1]) < 0 {
      InsertPermutes(sorted[..|sorted| - 1], x, cmp);
      assert sorted == sorted[..|sorted| - 1] + [sorted[|sorted| - 1]];
    }
  }

  /** The sort is a permutation of its input. */
  lemma {:induction false} SortPermutes<T>(s: seq<T>, cmp: (T, T) -> int)
    ensures multiset(Sort(s, cmp)) == multiset(s)
  {
    if s != [] {
      SortPermutes(s[..|s| - 1], cmp);
      InsertPermutes(Sort(s[..|s| - 1], cmp), s[|s| - 1], cmp);
      assert s == s[..|s| - 1] + [s[|s| - 1]];
    }
  }

  /** A comparator whose sign is antisymmetric and whose "not after" relation is transitive. */
  ghost predicate Consistent<T(!new)>(cmp: (T, T) -> int) {
    && (forall x, y :: cmp(x, y) < 0 <==> cmp(y, x) > 0)
    && (forall x, y, z :: cmp(x, y) <= 0 && cmp(y, z) <= 0 ==> cmp(x, z) <= 0)
  }

  ghost predicate Sorted<T>(s: seq<T>, cmp: (T, T) -> int) {
    forall i, j :: 0 <= i < j < |s| ==> cmp(s[i], s[j]) <= 0
  }

  /** The elements of `s` that `cmp` ranks equal to `x`, in their order in `s`. */
  function EqualRun<T>(s: seq<T>, x: T, cmp: (T, T) -> int): seq<T> {
    if s == [] then []
    else EqualRun(s[..|s| - 1], x, cmp) + (if cmp(s[|s| - 1], x) == 0 then [s[|s| - 1]] else [])
  }

  lemma {:induction false} InsertSorted<T(!new)>(sorted: seq<T>, x: T, cmp: (T, T) -> int)
    requires Consistent(cmp) && Sorted(sorted, cmp)
    ensures Sorted(Insert(sorted, x, cmp), cmp)
  {
    if sorted != [] {
      var n := |sorted|;
      var last := sorted[n - 1];
      var init := sorted[..n - 1];
      assert init + [last] == sorted;
      if cmp(x, last) < 0 {
        assert Sorted(init, cmp) by {
          forall i, j | 0 <= i < j < |init| ensures cmp(init[i], init[j]) <= 0 {
            assert init[i] == sorted[i] && init[j] == sorted[j];
          }
        }
        InsertSorted(init, x, cmp);
        var ins := Insert(init, x, cmp);
        InsertPermutes(init, x, cmp);
        forall k | 0 <= k < |ins| ensures cmp(ins[k], last) <= 0 {
          assert ins[k] in multiset(ins);
          if ins[k] != x {
            assert ins[k] in multiset(init);
            var m :| 0 <= m < |init| && init[m] == ins[k];
            assert sorted[m] == ins[k];
          }
        }
        var r := ins + [last];
        assert Insert(sorted, x, cmp) == r;
        forall i, j | 0 <= i < j < |r| ensures cmp(r[i], r[j]) <= 0 {
          if j < |ins| {
            assert r[i] == ins[i] && r[j] == ins[j];
          } else {
            assert r[i] == ins[i] && r[j] == last;
          }
        }
      } else {
        assert cmp(last, x) <= 0;
        var r := sorted + [x];
        forall i, j | 0 <= i < j < |r| ensures cmp(r[i], r[j]) <= 0 {
          if j < n {
            assert r[i] == sorted[i] && r[j] == sorted[j];
          } else {
            assert r[i] == sorted[i] && r[j] == x;
            assert cmp(sorted[i], last) <= 0 by {
              if i < n - 1 {
                assert cmp(sorted[i], sorted[n - 1]) <= 0;
              } else {
                assert !(cmp(last, last) < 0);
              }
            }
          }
        }
      }
    }
  }

  /** With a consistent comparator the result is ordered. */
  lemma {:induction false} SortSorted<T(!new)>(s: seq<T>, cmp: (T, T) -> int)
    requires Consistent(cmp)
    ensures Sorted(Sort(s, cmp), cmp)
  {
    if s != [] {
      SortSorted(s[..|s| - 1], cmp);
      InsertSorted(Sort(s[..|s| - 1], cmp), s[|s| - 1], cmp);
    }
  }

  /** The run of a sequence extended by one element. */
  lemma EqualRunSnoc<T>(s: seq<T>, y: T, x: T, cmp: (T, T) -> int)
    ensures EqualRun(s + [y], x, cmp) == EqualRun(s, x, cmp) + (if cmp(y, x) == 0 then [y] else [])
  {
    assert (s + [y])[..|s|] == s;
  }

  lemma {:induction false} InsertEqualRun<T(!new)>(sorted: seq<T>, y: T, x: T, cmp: (T, T) -> int)
    requires Consistent(cmp)
    ensures EqualRun(Insert(sorted, y, cmp), x, cmp)
         == EqualRun(sorted, x, cmp) + (if cmp(y, x) == 0 then [y] else [])
  {
    if sorted != [] {
      var n := |sorted|;
      var last := sorted[n - 1];
      var init := sorted[..n - 1];
      assert sorted == init + [last];
      EqualRunSnoc(init, last, x, cmp);
      if cmp(y, last) < 0 {
        var ins := Insert(init, y, cmp);
        assert Insert(sorted, y, cmp) == ins + [last];
        InsertEqualRun(init, y, x, cmp);
        EqualRunSnoc(ins, last, x, cmp);
        if cmp(y, x) == 0 && cmp(last, x) == 0 {
          // y would rank both equal to and below last
          assert false;
        }
      } else {
        assert Insert(sorted, y, cmp) == sorted + [y];
        EqualRunSnoc(sorted, y, x, cmp);
      }
    }
  }

  /** Stability: the elements that rank equal to any `x` keep their relative order. */
  lemma {:induction false} SortStable<T(!new)>(s: seq<T>, x: T, cmp: (T, T) -> int)
    requires Consistent(cmp)
    ensures EqualRun(Sort(s, cmp), x, cmp) == EqualRun(s, x, cmp)
  {
    if s != [] {
      SortStable(s[..|s| - 1], x, cmp);
      InsertEqualRun(Sort(s[..|s| - 1], cmp), s[|s| - 1], x, cmp);
    }
  }

  /** A sequence that is already in order is returned unchanged (in particular under a comparator that always returns 0). */
  lemma {:induction false} SortOrderedIsIdentity<T>(s: seq<T>, cmp: (T, T) -> int)
    requires forall i, j :: 0 <= i < j < |s| ==> cmp(s[j], s[i]) >= 0
    ensures Sort(s, cmp) == s
  {
    if s != [] {
      var n := |s|;
      var init := s[..n - 1];
      forall i, j | 0 <= i < j < |init| ensures cmp(init[j], init[i]) >= 0 {
        assert init[j] == s[j] && init[i] == s[i];
      }
      SortOrderedIsIdentity(init, cmp);
      assert Sort(s, cmp) == Insert(init, s[n - 1], cmp);
      if n > 1 {
        assert init[n - 2] == s[n - 2];
        assert cmp(s[n - 1], s[n - 2]) >= 0;
      }
      assert Insert(init, s[n - 1], cmp) == init + [s[n - 1]];
      assert init + [s[n - 1]] == s;
    }
  }

  lemma InsertStop<T>(sorted: seq<T>, j: nat, x: T, cmp: (T, T) -> int)
    requires j <= |sorted| && (j == 0 || cmp(x, sorted[j - 1]) >= 0)
    ensures Insert(sorted[..j], x, cmp) == sorted[..j] + [x]
  {
    if j > 0 {
      assert sorted[..j][j - 1] == sorted[j - 1];
    }
  }

  /** `x` lands at `j` when it compares below every element from `j` on and not below the one before. */
  lemma {:induction false} InsertAt<T>(sorted: seq<T>, j: nat, x: T, cmp: (T, T) -> int)
    requires j <= |sorted| && (j == 0 || cmp(x, sorted[j - 1]) >= 0)
    requires forall k :: j <= k < |sorted| ==> cmp(x, sorted[k]) < 0
    ensures Insert(sorted, x, cmp) == sorted[..j] + [x] + sorted[j..]
    decreases |sorted| - j
  {
    var n := |sorted|;
    if j == n {
      InsertStop(sorted, j, x, cmp);
      assert sorted[..j] == sorted;
    } else {
      var init := sorted[..n - 1];
      assert cmp(x, sorted[n - 1]) < 0;
      assert Insert(sorted, x, cmp) == Insert(init, x, cmp) + [sorted[n - 1]];
      assert j > 0 ==> init[j - 1] == sorted[j - 1];
      forall k | j <= k < |init| ensures cmp(x, init[k]) < 0 {
        assert init[k] == sorted[k];
      }
      InsertAt(init, j, x, cmp);
      assert init[..j] == sorted[..j];
      assert init[j..] + [sorted[n - 1]] == sorted[j..];
    }
  }

  /**
   * Shifts the trailing elements of `a[..i]` that `x` compares below one
   * place right, and returns the gap where `x` belongs.
   */
  method ShiftGreater<T>(a: array<T>, i: nat, x: T, cmp: (T, T) -> int, ghost sorted: seq<T>) returns (j: nat)
    requires i < a.Length && a[..i] == sorted
    modifies a
    ensures j <= i
    ensures forall k :: 0 <= k < j ==> a[k] == sorted[k]
    ensures forall k :: j < k <= i ==> a[k] == sorted[k - 1]
    ensures forall k :: i < k < a.Length ==> a[k] == old(a[k])
    ensures Insert(sorted, x, cmp) == sorted[..j] + [x] + sorted[j..]
  {
    j := i;
    while j > 0 && cmp(x, a[j - 1]) < 0
      invariant 0 <= j <= i
      invariant forall k :: 0 <= k < j ==> a[k] == sorted[k]
      invariant forall k :: j < k <= i ==> a[k] == sorted[k - 1]
      invariant forall k :: i < k < a.Length ==> a[k] == old(a[k])
      invariant forall k :: j <= k < i ==> cmp(x, sorted[k]) < 0
    {
      a[j] := a[j - 1];
      j := j - 1;
    }
    InsertAt(sorted, j, x, cmp);
  }

  /** Inserts `a[i]` into the already sorted prefix `a[..i]`, shifting larger elements one place right. */
  method InsertInPlace<T>(a: array<T>, i: nat, cmp: (T, T) -> int)
    requires i < a.Length
    modifies a
    ensures a[..i + 1] == Insert(old(a[..i]), old(a[i]), cmp)
    ensures a[i + 1..] == old(a[i + 1..])
  {
    var x := a[i];
    ghost var sorted := a[..i];
    var j := ShiftGreater(a, i, x, cmp, sorted);
    a[j] := x;
    PlacedAt(sorted, j, x, a[..i + 1]);
    assert a[i + 1..] == old(a[i + 1..]);
  }

  /** A sequence that agrees with `sorted` before `j`, holds `x` at `j` and `sorted` shifted by one after it. */
  lemma PlacedAt<T>(sorted: seq<T>, j: nat, x: T, b: seq<T>)
    requires j <= |sorted| && |b| == |sorted| + 1 && b[j] == x
    requires forall k :: 0 <= k < j ==> b[k] == sorted[k]
    requires forall k :: j < k < |b| ==> b[k] == sorted[k - 1]
    ensures b == sorted[..j] + [x] + sorted[j..]
  {
    var r := sorted[..j] + [x] + sorted[j..];
    forall k | 0 <= k < |b| ensures b[k] == r[k] {
      if k < j {
        assert r[k] == sorted[k];
      } else if k > j {
        assert r[k] == sorted[k - 1];
      }
    }
  }

  /** Sorts `a` in place, inserting each element into the sorted prefix before it. */
  method SortInPlace<T>(a: array<T>, cmp: (T, T) -> int)
    modifies a
    ensures a[..] == Sort(old(a[..]), cmp)
  {
    ghost var input := a[..];
    var i := 0;
    while i < a.Length
      invariant 0 <= i <= a.Length
      invariant a[..i] == Sort(input[..i], cmp)
      invariant a[i..] == input[i..]
    {
      assert input[..i + 1][..i] == input[..i];
      assert input[i] == a[i];
      InsertInPlace(a, i, cmp);
      i := i + 1;
    }
    assert input[..a.Length] == input;
  }
}
