/** The stable sort behind Kotlin's `sortedWith`, for any comparator that is a
    total preorder: it returns a sorted permutation of its input in which tied
    elements keep their input order, and that sequence is the only one with
    these three properties. */
module StableSort {

  /** `cmp` compares in sign only, is antisymmetric and "not after" is transitive. */
  ghost predicate TotalPreorder<T(!new)>(cmp: (T, T) -> int)
  {
    (forall a, b :: cmp(a, b) == -cmp(b, a)) &&
    (forall a, b, c :: cmp(a, b) <= 0 && cmp(b, c) <= 0 ==> cmp(a, c) <= 0)
  }

  /** No element stands after one it should follow. */
  ghost predicate Sorted<T(!new)>(cmp: (T, T) -> int, s: seq<T>)
  {
    forall i, j :: 0 <= i < j < |s| ==> cmp(s[i], s[j]) <= 0
  }

  /** Insert `x` after every element of `r` that is not after it. */
  function Insert<T>(cmp: (T, T) -> int, r: seq<T>, x: T): (t: seq<T>)
    ensures multiset(t) == multiset(r) + multiset{x}
  {
    if r == [] then [x]
    else if cmp(r[|r| - 1], x) <= 0 then r + [x]
    else
      SplitLast(r);
      Insert(cmp, r[..|r| - 1], x) + [r[|r| - 1]]
  }

  /** Insertion sort, inserting the input's elements from first to last. */
  function Sort<T>(cmp: (T, T) -> int, s: seq<T>): (r: seq<T>)
    ensures multiset(r) == multiset(s)
  {
    if s == [] then []
    else
      SplitLast(s);
      Insert(cmp, Sort(cmp, s[..|s| - 1]), s[|s| - 1])
  }

  // ---------------------------------------------------------------- order

  /** Appending an element that no element of a sorted sequence follows keeps it sorted. */
  lemma SortedAppend<T(!new)>(cmp: (T, T) -> int, r: seq<T>, x: T)
    requires Sorted(cmp, r)
    requires forall i :: 0 <= i < |r| ==> cmp(r[i], x) <= 0
    ensures Sorted(cmp, r + [x])
  {
    var t := r + [x];
    forall i, j | 0 <= i < j < |t| ensures cmp(t[i], t[j]) <= 0 {
      assert t[i] == r[i];
      if j < |r| {
        assert t[j] == r[j];
      }
    }
  }

  lemma {:induction false} InsertSorted<T(!new)>(cmp: (T, T) -> int, r: seq<T>, x: T)
    requires TotalPreorder(cmp)
    requires Sorted(cmp, r)
    ensures Sorted(cmp, Insert(cmp, r, x))
  {
    if r == [] {
    } else if cmp(r[|r| - 1], x) <= 0 {
      var last := r[|r| - 1];
      forall i | 0 <= i < |r| ensures cmp(r[i], x) <= 0 {
        if i < |r| - 1 {
          assert cmp(r[i], last) <= 0;
        }
      }
      SortedAppend(cmp, r, x);
    } else {
      var last := r[|r| - 1];
      var init := r[..|r| - 1];
      var u := Insert(cmp, init, x);
      assert Sorted(cmp, init) by {
        forall i, j | 0 <= i < j < |init| ensures cmp(init[i], init[j]) <= 0 {
          assert init[i] == r[i] && init[j] == r[j];
        }
      }
      InsertSorted(cmp, init, x);
      forall i | 0 <= i < |u| ensures cmp(u[i], last) <= 0 {
        var y := u[i];
        assert y in multiset(u);
        if y != x {
          assert y in multiset(init);
          var k :| 0 <= k < |init| && init[k] == y;
          assert r[k] == y;
        } else {
          assert cmp(last, x) > 0;
        }
      }
      SortedAppend(cmp, u, last);
    }
  }

  lemma {:induction false} SortSorted<T(!new)>(cmp: (T, T) -> int, s: seq<T>)
    requires TotalPreorder(cmp)
    ensures Sorted(cmp, Sort(cmp, s))
  {
    if s != [] {
      SortSorted(cmp, s[..|s| - 1]);
      InsertSorted(cmp, Sort(cmp, s[..|s| - 1]), s[|s| - 1]);
    }
  }

  // ------------------------------------------------------------ stability

  /** The elements of `s` that tie with `x`, in the order of `s`. */
  function Ties<T>(cmp: (T, T) -> int, s: seq<T>, x: T): seq<T>
  {
    if s == [] then []
    else if cmp(x, s[0]) == 0 then [s[0]] + Ties(cmp, s[1..], x)
    else Ties(cmp, s[1..], x)
  }

  lemma {:induction false} TiesAppend<T(!new)>(cmp: (T, T) -> int, a: seq<T>, b: seq<T>, x: T)
    ensures Ties(cmp, a + b, x) == Ties(cmp, a, x) + Ties(cmp, b, x)
  {
    if a == [] {
      assert a + b == b;
    } else {
      assert (a + b)[0] == a[0];
      assert (a + b)[1..] == a[1..] + b;
      TiesAppend(cmp, a[1..], b, x);
    }
  }

  lemma TiesSingle<T>(cmp: (T, T) -> int, y: T, x: T)
    ensures Ties(cmp, [y], x) == if cmp(x, y) == 0 then [y] else []
  {
    assert [y][1..] == [];
  }

  lemma SwapEmpty<T>(p: seq<T>, q: seq<T>, t: seq<T>)
    requires q == [] || t == []
    ensures p + q + t == p + t + q
  {
    if q == [] {
      assert p + q == p;
    } else {
      assert p + t == p;
    }
  }

  /** An element strictly after `y` cannot tie with what `y` ties with. */
  lemma TieExclusive<T(!new)>(cmp: (T, T) -> int, x: T, y: T, z: T)
    requires TotalPreorder(cmp)
    requires cmp(z, y) > 0
    ensures !(cmp(x, y) == 0 && cmp(x, z) == 0)
  {
  }

  lemma {:induction false} InsertStable<T(!new)>(cmp: (T, T) -> int, r: seq<T>, y: T, x: T)
    requires TotalPreorder(cmp)
    ensures Ties(cmp, Insert(cmp, r, y), x) == Ties(cmp, r, x) + Ties(cmp, [y], x)
  {
    if r == [] {
    } else if cmp(r[|r| - 1], y) <= 0 {
      TiesAppend(cmp, r, [y], x);
    } else {
      var last := r[|r| - 1];
      var init := r[..|r| - 1];
      var u := Insert(cmp, init, y);
      SplitLast(r);
      assert Insert(cmp, r, y) == u + [last];
      InsertStable(cmp, init, y, x);
      TiesAppend(cmp, u, [last], x);
      TiesAppend(cmp, init, [last], x);
      TieExclusive(cmp, x, y, last);
      TiesSingle(cmp, y, x);
      TiesSingle(cmp, last, x);
      SwapEmpty(Ties(cmp, init, x), Ties(cmp, [y], x), Ties(cmp, [last], x));
    }
  }

  lemma {:induction false} SortStable<T(!new)>(cmp: (T, T) -> int, s: seq<T>, x: T)
    requires TotalPreorder(cmp)
    ensures Ties(cmp, Sort(cmp, s), x) == Ties(cmp, s, x)
  {
    if s != [] {
      var init, l := s[..|s| - 1], s[|s| - 1];
      assert Sort(cmp, s) == Insert(cmp, Sort(cmp, init), l);
      SortStable(cmp, init, x);
      InsertStable(cmp, Sort(cmp, init), l, x);
      SplitLast(s);
      TiesAppend(cmp, init, [l], x);
    }
  }

  // ----------------------------------------------------------- uniqueness

  /** No member of a sorted sequence comes after its last element. */
  lemma LastIsGreatest<T(!new)>(cmp: (T, T) -> int, s: seq<T>, y: T)
    requires TotalPreorder(cmp)
    requires Sorted(cmp, s) && y in s
    ensures cmp(y, s[|s| - 1]) <= 0
  {
    var i :| 0 <= i < |s| && s[i] == y;
    if i == |s| - 1 {
      assert cmp(y, y) == -cmp(y, y);
    }
  }

  /** The last elements of two sorted permutations of each other tie. */
  lemma LastsTie<T(!new)>(cmp: (T, T) -> int, a: seq<T>, b: seq<T>)
    requires TotalPreorder(cmp)
    requires multiset(a) == multiset(b) && a != []
    requires Sorted(cmp, a) && Sorted(cmp, b)
    ensures |a| == |b| && cmp(a[|a| - 1], b[|b| - 1]) == 0
  {
    assert |a| == |multiset(a)| == |b|;
    var la, lb := a[|a| - 1], b[|b| - 1];
    assert la in multiset(b) && lb in multiset(a);
    LastIsGreatest(cmp, a, lb);
    LastIsGreatest(cmp, b, la);
  }

  lemma SplitLast<T>(s: seq<T>)
    requires s != []
    ensures s == s[..|s| - 1] + [s[|s| - 1]]
  {
  }

  lemma CancelSuffix<T>(p: seq<T>, q: seq<T>, t: seq<T>)
    requires p + t == q + t
    ensures p == q
  {
    assert |p| == |q|;
    assert p == (p + t)[..|p|];
    assert q == (q + t)[..|q|];
  }

  /** Equal tie classes after the same last element are equal before it. */
  lemma TiesDropLast<T(!new)>(cmp: (T, T) -> int, a: seq<T>, b: seq<T>, l: T)
    requires forall x :: Ties(cmp, a + [l], x) == Ties(cmp, b + [l], x)
    ensures forall x :: Ties(cmp, a, x) == Ties(cmp, b, x)
  {
    forall x ensures Ties(cmp, a, x) == Ties(cmp, b, x) {
      TiesAppend(cmp, a, [l], x);
      TiesAppend(cmp, b, [l], x);
      CancelSuffix(Ties(cmp, a, x), Ties(cmp, b, x), Ties(cmp, [l], x));
    }
  }

  /** Tied last elements with equal tie classes are the same element. */
  lemma LastsEqual<T(!new)>(cmp: (T, T) -> int, a: seq<T>, b: seq<T>)
    requires a != [] && b != []
    requires cmp(a[|a| - 1], a[|a| - 1]) == 0 && cmp(a[|a| - 1], b[|b| - 1]) == 0
    requires Ties(cmp, a, a[|a| - 1]) == Ties(cmp, b, a[|a| - 1])
    ensures a[|a| - 1] == b[|b| - 1]
  {
    var la, lb := a[|a| - 1], b[|b| - 1];
    SplitLast(a);
    SplitLast(b);
    TiesAppend(cmp, a[..|a| - 1], [la], la);
    TiesAppend(cmp, b[..|b| - 1], [lb], la);
    var p, q := Ties(cmp, a[..|a| - 1], la), Ties(cmp, b[..|b| - 1], la);
    assert Ties(cmp, [la], la) == [la];
    assert Ties(cmp, [lb], la) == [lb];
    assert p + [la] == q + [lb];
    assert (p + [la])[|p|] == la;
  }

  /** Dropping a common last element keeps two sorted permutations of each
      other with equal tie classes in that relation. */
  lemma PrefixesAgree<T(!new)>(cmp: (T, T) -> int, a: seq<T>, b: seq<T>)
    requires a != [] && b != [] && a[|a| - 1] == b[|b| - 1]
    requires multiset(a) == multiset(b)
    requires Sorted(cmp, a) && Sorted(cmp, b)
    requires forall x :: Ties(cmp, a, x) == Ties(cmp, b, x)
    ensures var a', b' := a[..|a| - 1], b[..|b| - 1];
      multiset(a') == multiset(b') && Sorted(cmp, a') && Sorted(cmp, b') &&
      forall x :: Ties(cmp, a', x) == Ties(cmp, b', x)
  {
    var l := a[|a| - 1];
    var a', b' := a[..|a| - 1], b[..|b| - 1];
    SplitLast(a);
    SplitLast(b);
    forall x ensures Ties(cmp, a' + [l], x) == Ties(cmp, b' + [l], x) {
      assert Ties(cmp, a, x) == Ties(cmp, b, x);
    }
    TiesDropLast(cmp, a', b', l);
    assert multiset(a') == multiset(a) - multiset{l};
    assert multiset(b') == multiset(b) - multiset{l};
  }

  /** Two sorted permutations of each other whose tie classes appear in the
      same order are equal. */
  lemma {:induction false} SortedUnique<T(!new)>(cmp: (T, T) -> int, a: seq<T>, b: seq<T>)
    requires TotalPreorder(cmp)
    requires multiset(a) == multiset(b)
    requires Sorted(cmp, a) && Sorted(cmp, b)
    requires forall x :: Ties(cmp, a, x) == Ties(cmp, b, x)
    ensures a == b
  {
    if a != [] {
      LastsTie(cmp, a, b);
      var l := a[|a| - 1];
      assert cmp(l, l) == 0;
      assert Ties(cmp, a, l) == Ties(cmp, b, l);
      LastsEqual(cmp, a, b);
      PrefixesAgree(cmp, a, b);
      SortedUnique(cmp, a[..|a| - 1], b[..|b| - 1]);
      SplitLast(a);
      SplitLast(b);
    }
  }

  /** `Sort` is the one stable sort: whatever sequence is a sorted permutation of
      `s` keeping ties in input order is `Sort(cmp, s)`. */
  lemma SortCharacterised<T(!new)>(cmp: (T, T) -> int, s: seq<T>, r: seq<T>)
    requires TotalPreorder(cmp)
    requires multiset(r) == multiset(s) && Sorted(cmp, r)
    requires forall x :: Ties(cmp, r, x) == Ties(cmp, s, x)
    ensures r == Sort(cmp, s)
  {
    SortSorted(cmp, s);
    forall x ensures Ties(cmp, r, x) == Ties(cmp, Sort(cmp, s), x) {
      SortStable(cmp, s, x);
    }
    SortedUnique(cmp, r, Sort(cmp, s));
  }
}
