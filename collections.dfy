/** The Kotlin collection operations the view-model uses: `filter`,
    `MutableList.remove(element)` and the stable `sortedWith`. */
module Collections {

  /** `filter`: the elements satisfying `p`, in their original order. */
  function Filter<T>(s: seq<T>, p: T -> bool): (r: seq<T>)
    ensures |r| <= |s|
    ensures forall i :: 0 <= i < |r| ==> p(r[i])
  {
    if s == [] then [] else (if p(s[0]) then [s[0]] else []) + Filter(s[1..], p)
  }

  lemma {:induction false} FilterMember<T>(s: seq<T>, p: T -> bool, x: T)
    ensures x in Filter(s, p) <==> x in s && p(x)
  {
    if s != [] {
      FilterMember(s[1..], p, x);
    }
  }

  /** Filtering keeps every copy of an accepted element and no copy of a rejected one. */
  lemma {:induction false} FilterCount<T>(s: seq<T>, p: T -> bool, x: T)
    ensures multiset(Filter(s, p))[x] == if p(x) then multiset(s)[x] else 0
  {
    if s != [] {
      FilterCount(s[1..], p, x);
      assert s == [s[0]] + s[1..];
    }
  }

  lemma {:induction false} FilterAppend<T>(a: seq<T>, b: seq<T>, p: T -> bool)
    ensures Filter(a + b, p) == Filter(a, p) + Filter(b, p)
  {
    if a != [] {
      assert (a + b)[1..] == a[1..] + b;
      FilterAppend(a[1..], b, p);
    } else {
      assert a + b == b;
    }
  }

  /** Two filters can be applied in either order. */
  lemma {:induction false} FilterCommute<T>(s: seq<T>, p: T -> bool, q: T -> bool)
    ensures Filter(Filter(s, p), q) == Filter(Filter(s, q), p)
  {
    if s != [] {
      var hp := if p(s[0]) then [s[0]] else [];
      var hq := if q(s[0]) then [s[0]] else [];
      FilterCommute(s[1..], p, q);
      FilterAppend(hp, Filter(s[1..], p), q);
      FilterAppend(hq, Filter(s[1..], q), p);
      assert Filter(hp, q) == Filter(hq, p);
    }
  }

  /** Filtering two permutations of each other gives two permutations of each other. */
  lemma FilterPermutation<T(!new)>(a: seq<T>, b: seq<T>, p: T -> bool)
    requires multiset(a) == multiset(b)
    ensures multiset(Filter(a, p)) == multiset(Filter(b, p))
  {
    forall x
      ensures multiset(Filter(a, p))[x] == multiset(Filter(b, p))[x]
    {
      FilterCount(a, p, x);
      FilterCount(b, p, x);
    }
    assert multiset(Filter(a, p)) == multiset(Filter(b, p));
  }

  /** `le(a, b)` reads "a may come before b" (`compare(a, b) <= 0`); a comparator
      that Kotlin's sort accepts is total and transitive. */
  ghost predicate TotalPreorder<T(!new)>(le: (T, T) -> bool)
  {
    (forall a, b :: le(a, b) || le(b, a))
    && (forall a, b, c :: le(a, b) && le(b, c) ==> le(a, c))
  }

  ghost predicate Sorted<T>(s: seq<T>, le: (T, T) -> bool)
  {
    forall i, j :: 0 <= i < j < |s| ==> le(s[i], s[j])
  }

  lemma {:induction false} FilterSorted<T>(s: seq<T>, p: T -> bool, le: (T, T) -> bool)
    requires Sorted(s, le)
    ensures Sorted(Filter(s, p), le)
  {
    if s != [] {
      FilterSorted(s[1..], p, le);
      var rest := Filter(s[1..], p);
      forall j | 0 <= j < |rest|
        ensures le(s[0], rest[j])
      {
        FilterMember(s[1..], p, rest[j]);
        var k :| 0 <= k < |s[1..]| && s[1..][k] == rest[j];
        assert s[k + 1] == rest[j];
      }
    }
  }

  /** Inserts `x` before the first element it may precede, that is after every
      element strictly smaller and before every element equivalent to it. */
  function Insert<T>(x: T, s: seq<T>, le: (T, T) -> bool): seq<T>
  {
    if s == [] then [x]
    else if le(x, s[0]) then [x] + s
    else [s[0]] + Insert(x, s[1..], le)
  }

  /** `sortedWith`: a stable sort (Kotlin delegates to a stable merge sort). */
  function SortedWith<T>(s: seq<T>, le: (T, T) -> bool): seq<T>
  {
    if s == [] then [] else Insert(s[0], SortedWith(s[1..], le), le)
  }

  lemma {:induction false} InsertPermutation<T>(x: T, s: seq<T>, le: (T, T) -> bool)
    ensures multiset(Insert(x, s, le)) == multiset(s) + multiset{x}
  {
    if s != [] && !le(x, s[0]) {
      InsertPermutation(x, s[1..], le);
      assert s == [s[0]] + s[1..];
    }
  }

  /** Sorting only reorders: the result is a permutation of the input. */
  lemma {:induction false} SortedWithPermutation<T>(s: seq<T>, le: (T, T) -> bool)
    ensures multiset(SortedWith(s, le)) == multiset(s)
  {
    if s != [] {
      SortedWithPermutation(s[1..], le);
      InsertPermutation(s[0], SortedWith(s[1..], le), le);
      assert s == [s[0]] + s[1..];
    }
  }

  lemma {:induction false} InsertSorted<T(!new)>(x: T, s: seq<T>, le: (T, T) -> bool)
    requires TotalPreorder(le) && Sorted(s, le)
    ensures Sorted(Insert(x, s, le), le)
  {
    if s != [] && !le(x, s[0]) {
      var rest := Insert(x, s[1..], le);
      InsertSorted(x, s[1..], le);
      InsertPermutation(x, s[1..], le);
      forall j | 0 <= j < |rest|
        ensures le(s[0], rest[j])
      {
        assert rest[j] in multiset(rest);
        if rest[j] != x {
          var k :| 0 <= k < |s[1..]| && s[1..][k] == rest[j];
          assert s[k + 1] == rest[j];
        }
      }
    }
  }

  /** With a total preorder, `sortedWith` returns a sorted sequence. */
  lemma {:induction false} SortedWithSorted<T(!new)>(s: seq<T>, le: (T, T) -> bool)
    requires TotalPreorder(le)
    ensures Sorted(SortedWith(s, le), le)
  {
    if s != [] {
      SortedWithSorted(s[1..], le);
      InsertSorted(s[0], SortedWith(s[1..], le), le);
    }
  }

  /** The elements the comparator ranks equal to `e`. */
  function EquivalentTo<T>(le: (T, T) -> bool, e: T): T -> bool
  {
    z => le(z, e) && le(e, z)
  }

  lemma {:induction false} InsertStable<T(!new)>(x: T, t: seq<T>, le: (T, T) -> bool, e: T)
    requires TotalPreorder(le)
    ensures Filter(Insert(x, t, le), EquivalentTo(le, e))
         == (if EquivalentTo(le, e)(x) then [x] else []) + Filter(t, EquivalentTo(le, e))
  {
    var eq := EquivalentTo(le, e);
    if t == [] {
      assert Insert(x, t, le) == [x];
    } else if le(x, t[0]) {
      assert ([x] + t)[1..] == t;
    } else {
      var rest := Insert(x, t[1..], le);
      InsertStable(x, t[1..], le, e);
      assert Insert(x, t, le) == [t[0]] + rest;
      assert ([t[0]] + rest)[1..] == rest;
      assert Filter(Insert(x, t, le), eq) == (if eq(t[0]) then [t[0]] else []) + Filter(rest, eq);
    }
  }

  /** Stability: the elements of any one class of equivalent elements keep
      their input order. */
  lemma {:induction false} SortedWithStable<T(!new)>(s: seq<T>, le: (T, T) -> bool, e: T)
    requires TotalPreorder(le)
    ensures Filter(SortedWith(s, le), EquivalentTo(le, e)) == Filter(s, EquivalentTo(le, e))
  {
    if s != [] {
      SortedWithStable(s[1..], le, e);
      InsertStable(s[0], SortedWith(s[1..], le), le, e);
    }
  }

  /** A comparator that ranks everything equal leaves the input as it is. */
  lemma {:induction false} SortedWithAllEqual<T(!new)>(s: seq<T>, le: (T, T) -> bool)
    requires forall a, b :: le(a, b)
    ensures SortedWith(s, le) == s
  {
    if s != [] {
      SortedWithAllEqual(s[1..], le);
      assert s == [s[0]] + s[1..];
    }
  }

  lemma {:induction false} InsertByKey<T(!new)>(x: T, front: seq<T>, back: seq<T>, le: (T, T) -> bool, p: T -> bool)
    requires forall a, b :: le(a, b) == (p(a) || !p(b))
    requires forall i :: 0 <= i < |front| ==> p(front[i])
    requires forall i :: 0 <= i < |back| ==> !p(back[i])
    ensures Insert(x, front + back, le) == if p(x) then [x] + front + back else front + [x] + back
  {
    if front == [] {
      assert front + back == back;
    } else {
      assert (front + back)[0] == front[0];
      if !p(x) {
        assert (front + back)[1..] == front[1..] + back;
        InsertByKey(x, front[1..], back, le, p);
        assert front == [front[0]] + front[1..];
      }
    }
  }

  /** A stable sort on a boolean key, `true` first (`sortedByDescending`),
      is a stable partition: the accepted elements, then the others. */
  lemma {:induction false} SortedWithByKey<T(!new)>(s: seq<T>, le: (T, T) -> bool, p: T -> bool, q: T -> bool)
    requires forall a, b :: le(a, b) == (p(a) || !p(b))
    requires forall a :: q(a) <==> !p(a)
    ensures SortedWith(s, le) == Filter(s, p) + Filter(s, q)
  {
    if s != [] {
      SortedWithByKey(s[1..], le, p, q);
      var front, back := Filter(s[1..], p), Filter(s[1..], q);
      forall i | 0 <= i < |back|
        ensures !p(back[i])
      {
        assert q(back[i]);
      }
      InsertByKey(s[0], front, back, le, p);
    }
  }

  /** `MutableList.remove(element)`: drops the first occurrence, if any. */
  function RemoveFirst<T(==)>(s: seq<T>, x: T): (r: seq<T>)
    ensures x !in s ==> r == s
    ensures x in s ==> |r| == |s| - 1
  {
    if s == [] then []
    else if s[0] == x then s[1..]
    else [s[0]] + RemoveFirst(s[1..], x)
  }

  /** Only the first occurrence goes; everything before and after it stays in place. */
  lemma {:induction false} RemoveFirstShape<T>(s: seq<T>, x: T)
    requires x in s
    ensures exists i :: 0 <= i < |s| && s[i] == x && x !in s[..i] && RemoveFirst(s, x) == s[..i] + s[i + 1..]
  {
    var i := FirstIndex(s, x);
    RemoveFirstAt(s, x, i);
  }

  /** The position of the first occurrence of `x`. */
  lemma {:induction false} FirstIndex<T>(s: seq<T>, x: T) returns (i: nat)
    requires x in s
    ensures i < |s| && s[i] == x && x !in s[..i]
  {
    if s[0] == x {
      i := 0;
    } else {
      assert x in s[1..] by { assert s == [s[0]] + s[1..]; }
      var k := FirstIndex(s[1..], x);
      i := k + 1;
      assert s[..i] == [s[0]] + s[1..][..k];
    }
  }

  /** Removing the first occurrence at `i` splices the list around position `i`. */
  lemma {:induction false} RemoveFirstAt<T>(s: seq<T>, x: T, i: nat)
    requires i < |s| && s[i] == x && x !in s[..i]
    ensures RemoveFirst(s, x) == s[..i] + s[i + 1..]
  {
    if i == 0 {
      assert s[..0] == [];
    } else {
      assert s[0] in s[..i];
      assert s[1..][..i - 1] == s[1..i];
      assert x !in s[1..][..i - 1] by { assert forall y :: y in s[1..i] ==> y in s[..i]; }
      RemoveFirstAt(s[1..], x, i - 1);
      assert s[..i] == [s[0]] + s[1..][..i - 1];
      assert s[i + 1..] == s[1..][i - 1 + 1..];
    }
  }

  /** Exactly one copy of `x` goes, if there was one; every other element keeps its count. */
  lemma {:induction false} RemoveFirstMultiset<T>(s: seq<T>, x: T)
    ensures multiset(RemoveFirst(s, x)) == multiset(s) - multiset{x}
  {
    if s != [] {
      var t := s[1..];
      assert s == [s[0]] + t;
      if s[0] == x {
        assert RemoveFirst(s, x) == t;
        assert multiset(s) == multiset{x} + multiset(t);
      } else {
        RemoveFirstMultiset(t, x);
        assert RemoveFirst(s, x) == [s[0]] + RemoveFirst(t, x);
        assert multiset(s) == multiset{s[0]} + multiset(t);
      }
    }
  }

  /** A removal empties the list only when `x` was its one element (or it was empty). */
  lemma RemoveFirstEmpty<T>(s: seq<T>, x: T)
    ensures RemoveFirst(s, x) == [] <==> s == [] || s == [x]
  {
    if s != [] && s[0] != x {
      assert RemoveFirst(s, x)[0] == s[0];
    }
  }
}
