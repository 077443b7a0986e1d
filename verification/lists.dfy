/** List processing the catalog relies on: `Array.prototype.filter` and the
    stable `Array.prototype.sort` (stable since ECMAScript 2019), the latter
    with a comparator given as a "sorts strictly before" relation. */
module Lists {

  /** `a` can be obtained from `b` by deleting elements. */
  predicate IsSubsequence<T(==)>(a: seq<T>, b: seq<T>)
    decreases |b|
  {
    if a == [] then true
    else if b == [] then false
    else (a[0] == b[0] && IsSubsequence(a[1..], b[1..])) || IsSubsequence(a, b[1..])
  }

  lemma {:induction false} SubsequenceOfItself<T>(s: seq<T>)
    ensures IsSubsequence(s, s)
    decreases |s|
  {
    if s != [] {
      SubsequenceOfItself(s[1..]);
    }
  }

  /** `s.filter(p)`: the elements satisfying `p`, in their original order. */
  function Filter<T(==,!new)>(s: seq<T>, p: T -> bool): (r: seq<T>)
    ensures |r| <= |s|
    ensures forall x :: x in r <==> x in s && p(x)
    ensures IsSubsequence(r, s)
    ensures (forall i | 0 <= i < |s| :: p(s[i])) ==> r == s
    ensures forall x :: multiset(r)[x] == if p(x) then multiset(s)[x] else 0
    decreases |s|
  {
    if s == [] then []
    else
      var t := Filter(s[1..], p);
      var r := if p(s[0]) then [s[0]] + t else t;
      FilterStep(s, t, r, p);
      FilterStepCounts(s, t, r, p);
      r
  }

  /** One step of `Filter`: keeping or dropping the head carries the order
      and membership guarantees from the tail `t` over to the result `r`. */
  lemma FilterStep<T(!new)>(s: seq<T>, t: seq<T>, r: seq<T>, p: T -> bool)
    requires s != []
    requires |t| <= |s[1..]|
    requires forall x :: x in t <==> x in s[1..] && p(x)
    requires IsSubsequence(t, s[1..])
    requires (forall i | 0 <= i < |s[1..]| :: p(s[1..][i])) ==> t == s[1..]
    requires r == if p(s[0]) then [s[0]] + t else t
    ensures |r| <= |s|
    ensures forall x :: x in r <==> x in s && p(x)
    ensures IsSubsequence(r, s)
    ensures (forall i | 0 <= i < |s| :: p(s[i])) ==> r == s
  {
    assert s == [s[0]] + s[1..];
    if p(s[0]) {
      assert r[0] == s[0] && r[1..] == t;
    }
    if forall i | 0 <= i < |s| :: p(s[i]) {
      forall i | 0 <= i < |s[1..]|
        ensures p(s[1..][i])
      {
        assert s[1..][i] == s[i + 1];
      }
    }
  }

  /** The same step for the number of copies of each element. */
  lemma FilterStepCounts<T>(s: seq<T>, t: seq<T>, r: seq<T>, p: T -> bool)
    requires s != []
    requires forall x :: multiset(t)[x] == if p(x) then multiset(s[1..])[x] else 0
    requires r == if p(s[0]) then [s[0]] + t else t
    ensures forall x :: multiset(r)[x] == if p(x) then multiset(s)[x] else 0
  {
    assert s == [s[0]] + s[1..];
    assert multiset(s) == multiset{s[0]} + multiset(s[1..]);
    if p(s[0]) {
      assert multiset(r) == multiset{s[0]} + multiset(t);
    }
  }

  /** `lt(a, b)`: the comparator returns a negative number for `(a, b)`. The
      sort is well defined when `lt` is a strict weak order: asymmetric and
      negatively transitive. */
  ghost predicate StrictWeakOrder<T(!new)>(lt: (T, T) -> bool) {
    && (forall a, b :: lt(a, b) ==> !lt(b, a))
    && (forall a, b, c :: lt(a, c) ==> lt(a, b) || lt(b, c))
  }

  /** Neither sorts before the other: the comparator returns 0. */
  predicate Equivalent<T>(lt: (T, T) -> bool, a: T, b: T) {
    !lt(a, b) && !lt(b, a)
  }

  predicate SortedBy<T>(s: seq<T>, lt: (T, T) -> bool) {
    forall i, j | 0 <= i < j < |s| :: !lt(s[j], s[i])
  }

  /** Places `x` in front of the first element that does not sort strictly before it. */
  function Insert<T>(x: T, s: seq<T>, lt: (T, T) -> bool): (r: seq<T>)
    ensures multiset(r) == multiset(s) + multiset{x}
    ensures |r| == |s| + 1
    decreases |s|
  {
    if s == [] then [x]
    else
      assert s == [s[0]] + s[1..];
      if lt(s[0], x) then [s[0]] + Insert(x, s[1..], lt) else [x] + s
  }

  /** Insertion sort. Each element is inserted in front of the elements it
      is equivalent to, and those came later in the input: the sort is stable. */
  function Sort<T>(s: seq<T>, lt: (T, T) -> bool): (r: seq<T>)
    ensures multiset(r) == multiset(s)
    ensures |r| == |s|
    decreases |s|
  {
    if s == [] then []
    else
      assert s == [s[0]] + s[1..];
      Insert(s[0], Sort(s[1..], lt), lt)
  }

  lemma {:induction false} InsertSorted<T(!new)>(x: T, s: seq<T>, lt: (T, T) -> bool)
    requires StrictWeakOrder(lt)
    requires SortedBy(s, lt)
    ensures SortedBy(Insert(x, s, lt), lt)
    decreases |s|
  {
    if s != [] {
      var r := Insert(x, s, lt);
      if lt(s[0], x) {
        var tail := Insert(x, s[1..], lt);
        InsertSorted(x, s[1..], lt);
        assert r == [s[0]] + tail;
        forall j | 0 < j < |r|
          ensures !lt(r[j], s[0])
        {
          assert r[j] == tail[j - 1];
          assert r[j] in multiset(tail);
          if r[j] != x {
            assert r[j] in multiset(s[1..]);
            var k :| 0 <= k < |s[1..]| && s[1..][k] == r[j];
            assert s[k + 1] == r[j];
          }
        }
      } else {
        assert r == [x] + s;
        forall j | 0 < j < |r|
          ensures !lt(r[j], x)
        {
          assert r[j] == s[j - 1];
          if j > 1 {
            assert !lt(s[j - 1], s[0]);
          }
        }
      }
    }
  }

  /** The sort's output is ordered by `lt` whenever `lt` is a strict weak
      order (stated as an implication so that compiled callers, which cannot
      test the ghost condition, can use it directly). */
  lemma {:induction false} SortSorted<T(!new)>(s: seq<T>, lt: (T, T) -> bool)
    ensures StrictWeakOrder(lt) ==> SortedBy(Sort(s, lt), lt)
    decreases |s|
  {
    if s != [] && StrictWeakOrder(lt) {
      SortSorted(s[1..], lt);
      InsertSorted(s[0], Sort(s[1..], lt), lt);
    }
  }

  /** The elements of `s` equivalent to `z`, in order. */
  function ClassOf<T(==,!new)>(s: seq<T>, lt: (T, T) -> bool, z: T): (r: seq<T>)
    ensures forall x :: x in r <==> x in s && Equivalent(lt, x, z)
    decreases |s|
  {
    if s == [] then []
    else if Equivalent(lt, s[0], z) then [s[0]] + ClassOf(s[1..], lt, z)
    else ClassOf(s[1..], lt, z)
  }

  lemma {:induction false} InsertClass<T(!new)>(x: T, t: seq<T>, lt: (T, T) -> bool, z: T)
    requires StrictWeakOrder(lt)
    ensures ClassOf(Insert(x, t, lt), lt, z)
      == (if Equivalent(lt, x, z) then [x] else []) + ClassOf(t, lt, z)
    decreases |t|
  {
    if t == [] {
      assert Insert(x, t, lt) == [x];
      assert [x][1..] == [];
    } else if lt(t[0], x) {
      var r := Insert(x, t, lt);
      assert r[0] == t[0] && r[1..] == Insert(x, t[1..], lt);
      InsertClass(x, t[1..], lt, z);
      if Equivalent(lt, x, z) {
        // t[0] sorts strictly before x, so it is not in x's class
        assert !Equivalent(lt, t[0], z) by {
          assert lt(t[0], x) ==> lt(t[0], z) || lt(z, x);
        }
      } else {
      }
    } else {
      var r := Insert(x, t, lt);
      assert r == [x] + t;
      assert r[0] == x && r[1..] == t;
    }
  }

  /** Stability: the elements of any one equivalence class keep their
      relative order. */
  lemma {:induction false} SortIsStable<T(!new)>(s: seq<T>, lt: (T, T) -> bool, z: T)
    requires StrictWeakOrder(lt)
    ensures ClassOf(Sort(s, lt), lt, z) == ClassOf(s, lt, z)
    decreases |s|
  {
    if s != [] {
      SortIsStable(s[1..], lt, z);
      InsertClass(s[0], Sort(s[1..], lt), lt, z);
    }
  }

  /** A list that is already ordered comes out of the sort unchanged. */
  lemma {:induction false} SortKeepsSorted<T(!new)>(s: seq<T>, lt: (T, T) -> bool)
    requires SortedBy(s, lt)
    ensures Sort(s, lt) == s
    decreases |s|
  {
    if s != [] {
      assert SortedBy(s[1..], lt) by {
        forall i, j | 0 <= i < j < |s[1..]| ensures !lt(s[1..][j], s[1..][i]) {
          assert s[1..][j] == s[j + 1] && s[1..][i] == s[i + 1];
        }
      }
      SortKeepsSorted(s[1..], lt);
      var t := s[1..];
      if t != [] {
        assert !lt(t[0], s[0]) by { assert t[0] == s[1]; }
      }
      assert s == [s[0]] + t;
    }
  }
}
