/** `Array.prototype.sort` with a comparator, as the status page uses it:
    the comparator answers negative when its first argument goes first,
    zero for a tie, and the sort is stable (ties keep their order). The
    sort is modelled as an insertion sort, which is one stable sort; by
    `StableSortUnique` every stable sort by the same consistent comparator
    gives the same order. */
module StableSorting {

  /** What `sort` asks of a comparator: swapping the arguments flips the
      sign, and "not after" is transitive. */
  ghost predicate Consistent<T(!new)>(cmp: (T, T) -> int)
  {
    (forall a, b :: cmp(a, b) == -cmp(b, a)) &&
    (forall a, b, c {:trigger cmp(a, b), cmp(b, c), cmp(a, c)} :: cmp(a, b) <= 0 && cmp(b, c) <= 0 ==> cmp(a, c) <= 0)
  }

  /** Inserts `x` behind every element that does not go strictly after it. */
  function Insert<T>(x: T, s: seq<T>, cmp: (T, T) -> int): (r: seq<T>)
    ensures |r| == |s| + 1
  {
    if s == [] then [x]
    else if cmp(x, s[|s| - 1]) < 0 then Insert(x, s[..|s| - 1], cmp) + [s[|s| - 1]]
    else s + [x]
  }

  /** The order `sort` gives: each element in turn inserted into the
      already sorted ones before it. */
  function Sort<T>(s: seq<T>, cmp: (T, T) -> int): (r: seq<T>)
    ensures |r| == |s|
  {
    if s == [] then [] else Insert(s[|s| - 1], Sort(s[..|s| - 1], cmp), cmp)
  }

  /** No element goes strictly before one in front of it. */
  ghost predicate Sorted<T>(s: seq<T>, cmp: (T, T) -> int)
  {
    forall i, j :: 0 <= i < j < |s| ==> cmp(s[i], s[j]) <= 0
  }

  /** The elements tied with `w`, in their order. */
  function Ties<T>(s: seq<T>, cmp: (T, T) -> int, w: T): seq<T>
  {
    if s == [] then []
    else Ties(s[..|s| - 1], cmp, w) + (if cmp(s[|s| - 1], w) == 0 then [s[|s| - 1]] else [])
  }

  // ---------------------------------------------------------------- a permutation

  lemma {:induction false} InsertPermutation<T>(x: T, s: seq<T>, cmp: (T, T) -> int)
    ensures multiset(Insert(x, s, cmp)) == multiset(s) + multiset{x}
  {
    if s != [] && cmp(x, s[|s| - 1]) < 0 {
      var front, last := s[..|s| - 1], s[|s| - 1];
      calc {
        multiset(Insert(x, s, cmp));
        multiset(Insert(x, front, cmp) + [last]);
        multiset(Insert(x, front, cmp)) + multiset{last};
        { InsertPermutation(x, front, cmp); }
        multiset(front) + multiset{x} + multiset{last};
        { assert s == front + [last]; }
        multiset(s) + multiset{x};
      }
    }
  }

  /** Sorting keeps every element, as often as it occurs. */
  lemma {:induction false} SortPermutation<T>(s: seq<T>, cmp: (T, T) -> int)
    ensures multiset(Sort(s, cmp)) == multiset(s)
  {
    if s != [] {
      var front, x := s[..|s| - 1], s[|s| - 1];
      calc {
        multiset(Sort(s, cmp));
        multiset(Insert(x, Sort(front, cmp), cmp));
        { InsertPermutation(x, Sort(front, cmp), cmp); }
        multiset(Sort(front, cmp)) + multiset{x};
        { SortPermutation(front, cmp); }
        multiset(front) + multiset{x};
        { assert s == front + [x]; }
        multiset(s);
      }
    }
  }

  // ---------------------------------------------------------------- in order

  lemma SortedAppend<T>(s: seq<T>, y: T, cmp: (T, T) -> int)
    requires Sorted(s, cmp)
    requires forall e :: e in s ==> cmp(e, y) <= 0
    ensures Sorted(s + [y], cmp)
  {
    var t := s + [y];
    forall i, j | 0 <= i < j < |t|
      ensures cmp(t[i], t[j]) <= 0
    {
      if j == |s| {
        assert t[i] in s;
      }
    }
  }

  lemma SortedFront<T>(front: seq<T>, last: T, cmp: (T, T) -> int)
    requires Sorted(front + [last], cmp)
    ensures Sorted(front, cmp)
    ensures forall e :: e in front ==> cmp(e, last) <= 0
  {
    var s := front + [last];
    forall i, j | 0 <= i < j < |front|
      ensures cmp(front[i], front[j]) <= 0
    {
      assert front[i] == s[i] && front[j] == s[j];
    }
    forall e | e in front
      ensures cmp(e, last) <= 0
    {
      var i :| 0 <= i < |front| && front[i] == e;
      assert s[i] == e && s[|front|] == last;
    }
  }

  lemma InsertMembers<T>(x: T, s: seq<T>, cmp: (T, T) -> int)
    ensures forall e :: e in Insert(x, s, cmp) ==> e == x || e in s
  {
    InsertPermutation(x, s, cmp);
    forall e | e in Insert(x, s, cmp)
      ensures e == x || e in s
    {
      assert e in multiset(Insert(x, s, cmp));
    }
  }

  lemma {:induction false} InsertSorted<T(!new)>(x: T, s: seq<T>, cmp: (T, T) -> int)
    requires Consistent(cmp) && Sorted(s, cmp)
    ensures Sorted(Insert(x, s, cmp), cmp)
  {
    if s != [] {
      var front, last := s[..|s| - 1], s[|s| - 1];
      assert s == front + [last];
      SortedFront(front, last, cmp);
      if cmp(x, last) < 0 {
        var ins := Insert(x, front, cmp);
        InsertSorted(x, front, cmp);
        InsertMembers(x, front, cmp);
        SortedAppend(ins, last, cmp);
      } else {
        assert cmp(last, x) <= 0;
        forall e | e in s
          ensures cmp(e, x) <= 0
        {
          if e != last {
            assert e in front;
            assert cmp(e, last) <= 0;
          }
        }
        SortedAppend(s, x, cmp);
      }
    }
  }

  /** The sorted elements are in the comparator's order. */
  lemma {:induction false} SortSorted<T(!new)>(s: seq<T>, cmp: (T, T) -> int)
    requires Consistent(cmp)
    ensures Sorted(Sort(s, cmp), cmp)
  {
    if s != [] {
      SortSorted(s[..|s| - 1], cmp);
      InsertSorted(s[|s| - 1], Sort(s[..|s| - 1], cmp), cmp);
    }
  }

  // ---------------------------------------------------------------- stable

  lemma TiesSnoc<T>(s: seq<T>, y: T, cmp: (T, T) -> int, w: T)
    ensures Ties(s + [y], cmp, w) == Ties(s, cmp, w) + (if cmp(y, w) == 0 then [y] else [])
  {
    assert (s + [y])[..|s + [y]| - 1] == s;
  }

  lemma {:induction false} InsertStable<T(!new)>(x: T, s: seq<T>, cmp: (T, T) -> int, w: T)
    requires Consistent(cmp)
    ensures Ties(Insert(x, s, cmp), cmp, w) == Ties(s, cmp, w) + (if cmp(x, w) == 0 then [x] else [])
  {
    var mine := if cmp(x, w) == 0 then [x] else [];
    if s == [] {
      TiesSnoc([], x, cmp, w);
    } else {
      var front, last := s[..|s| - 1], s[|s| - 1];
      var theirs := if cmp(last, w) == 0 then [last] else [];
      if cmp(x, last) < 0 {
        var ins := Insert(x, front, cmp);
        assert Ties(ins, cmp, w) == Ties(front, cmp, w) + mine by {
          InsertStable(x, front, cmp, w);
        }
        assert Ties(ins + [last], cmp, w) == Ties(ins, cmp, w) + theirs by {
          TiesSnoc(ins, last, cmp, w);
        }
        assert Ties(s, cmp, w) == Ties(front, cmp, w) + theirs by {
          TiesSnoc(front, last, cmp, w);
          assert front + [last] == s;
        }
        assert mine == [] || theirs == [] by {
          TiedApart(x, last, w, cmp);
        }
      } else {
        TiesSnoc(s, x, cmp, w);
      }
    }
  }

  /** Two elements one of which goes strictly before the other are not
      both tied with the same element. */
  lemma TiedApart<T(!new)>(x: T, y: T, w: T, cmp: (T, T) -> int)
    requires Consistent(cmp) && cmp(x, y) < 0
    ensures !(cmp(x, w) == 0 && cmp(y, w) == 0)
  {
    assert cmp(w, x) == -cmp(x, w) && cmp(y, x) == -cmp(x, y);
    assert cmp(x, w) == 0 && cmp(y, w) == 0 ==> cmp(y, x) <= 0;
  }

  /** The sort is stable: the elements tied with any `w` keep the order
      they had. */
  lemma {:induction false} SortStable<T(!new)>(s: seq<T>, cmp: (T, T) -> int, w: T)
    requires Consistent(cmp)
    ensures Ties(Sort(s, cmp), cmp, w) == Ties(s, cmp, w)
  {
    if s != [] {
      var front, x := s[..|s| - 1], s[|s| - 1];
      var mine := if cmp(x, w) == 0 then [x] else [];
      calc {
        Ties(Sort(s, cmp), cmp, w);
        Ties(Insert(x, Sort(front, cmp), cmp), cmp, w);
        { InsertStable(x, Sort(front, cmp), cmp, w); }
        Ties(Sort(front, cmp), cmp, w) + mine;
        { SortStable(front, cmp, w); }
        Ties(front, cmp, w) + mine;
        { TiesSnoc(front, x, cmp, w); assert front + [x] == s; }
        Ties(s, cmp, w);
      }
    }
  }

  /** Elements already in order are left as they are, so sorting twice is
      sorting once. */
  lemma {:induction false} SortOfSorted<T(!new)>(s: seq<T>, cmp: (T, T) -> int)
    requires Consistent(cmp) && Sorted(s, cmp)
    ensures Sort(s, cmp) == s
  {
    if s != [] {
      var front, x := s[..|s| - 1], s[|s| - 1];
      assert Sorted(front, cmp) by {
        forall i, j | 0 <= i < j < |front|
          ensures cmp(front[i], front[j]) <= 0
        {
          assert front[i] == s[i] && front[j] == s[j];
        }
      }
      SortOfSorted(front, cmp);
      if front != [] {
        assert cmp(s[|s| - 2], s[|s| - 1]) <= 0;
        assert cmp(x, front[|front| - 1]) >= 0;
      }
      assert front + [x] == s;
    }
  }

  lemma SortTwice<T(!new)>(s: seq<T>, cmp: (T, T) -> int)
    requires Consistent(cmp)
    ensures Sort(Sort(s, cmp), cmp) == Sort(s, cmp)
  {
    SortSorted(s, cmp);
    SortOfSorted(Sort(s, cmp), cmp);
  }

  // ---------------------------------------------------------------- one stable order

  lemma {:induction false} TiesMembers<T>(s: seq<T>, cmp: (T, T) -> int, w: T, e: T)
    requires e in Ties(s, cmp, w)
    ensures e in s && cmp(e, w) == 0
  {
    var front := s[..|s| - 1];
    if e in Ties(front, cmp, w) {
      TiesMembers(front, cmp, w, e);
      assert front + [s[|s| - 1]] == s;
    }
  }

  /** The last element of a non-empty list is the last of those tied with
      it. */
  lemma LastTie<T>(s: seq<T>, cmp: (T, T) -> int)
    requires s != [] && cmp(s[|s| - 1], s[|s| - 1]) == 0
    ensures Ties(s, cmp, s[|s| - 1]) != []
    ensures Ties(s, cmp, s[|s| - 1])[|Ties(s, cmp, s[|s| - 1])| - 1] == s[|s| - 1]
  {
  }

  lemma BelowLast<T(!new)>(v: seq<T>, cmp: (T, T) -> int, e: T)
    requires Consistent(cmp) && Sorted(v, cmp) && e in v
    ensures cmp(e, v[|v| - 1]) <= 0
  {
    var j :| 0 <= j < |v| && v[j] == e;
    assert cmp(e, e) == -cmp(e, e);
    assert j == |v| - 1 || cmp(v[j], v[|v| - 1]) <= 0;
  }

  /** The last of `u` goes no later than the last of `v` when `v` is
      ordered and has the same ties with it. */
  lemma LastNotAfter<T(!new)>(u: seq<T>, v: seq<T>, cmp: (T, T) -> int)
    requires Consistent(cmp) && Sorted(v, cmp) && u != [] && v != []
    requires Ties(v, cmp, u[|u| - 1]) == Ties(u, cmp, u[|u| - 1])
    ensures cmp(u[|u| - 1], v[|v| - 1]) <= 0
  {
    var x, y := u[|u| - 1], v[|v| - 1];
    SelfTie(x, cmp);
    LastTie(u, cmp);
    var e := Ties(v, cmp, x)[0];
    TiesMembers(v, cmp, x, e);
    BelowLast(v, cmp, e);
    TieThenNotAfter(x, e, y, cmp);
  }

  lemma SelfTie<T(!new)>(x: T, cmp: (T, T) -> int)
    requires Consistent(cmp)
    ensures cmp(x, x) == 0
  {
    assert cmp(x, x) == -cmp(x, x);
  }

  lemma TieThenNotAfter<T(!new)>(x: T, e: T, y: T, cmp: (T, T) -> int)
    requires Consistent(cmp) && cmp(e, x) == 0 && cmp(e, y) <= 0
    ensures cmp(x, y) <= 0
  {
    assert cmp(x, e) == -cmp(e, x);
  }

  /** In two ordered lists with the same ties for every element, the last
      elements go neither before nor after each other. */
  lemma LastsTie<T(!new)>(u: seq<T>, v: seq<T>, cmp: (T, T) -> int)
    requires Consistent(cmp) && Sorted(u, cmp) && Sorted(v, cmp) && u != [] && v != []
    requires forall w :: Ties(u, cmp, w) == Ties(v, cmp, w)
    ensures cmp(u[|u| - 1], v[|v| - 1]) == 0
  {
    var x, y := u[|u| - 1], v[|v| - 1];
    assert Ties(u, cmp, x) == Ties(v, cmp, x);
    LastNotAfter(u, v, cmp);
    assert Ties(u, cmp, y) == Ties(v, cmp, y);
    LastNotAfter(v, u, cmp);
    assert cmp(y, x) == -cmp(x, y);
  }

  /** A stable sort's result is determined: two ordered lists with the same
      ties for every element are equal. */
  lemma {:induction false} SortedTiesUnique<T(!new)>(u: seq<T>, v: seq<T>, cmp: (T, T) -> int)
    requires Consistent(cmp) && Sorted(u, cmp) && Sorted(v, cmp)
    requires forall w :: Ties(u, cmp, w) == Ties(v, cmp, w)
    ensures u == v
    decreases |u|
  {
    if u == [] && v != [] {
      assert cmp(v[|v| - 1], v[|v| - 1]) == -cmp(v[|v| - 1], v[|v| - 1]);
      LastTie(v, cmp);
      assert false;
    } else if u != [] && v == [] {
      assert cmp(u[|u| - 1], u[|u| - 1]) == -cmp(u[|u| - 1], u[|u| - 1]);
      LastTie(u, cmp);
      assert false;
    } else if u != [] {
      var x, y := u[|u| - 1], v[|v| - 1];
      LastsTie(u, v, cmp);
      var uf, vf := u[..|u| - 1], v[..|v| - 1];
      assert cmp(x, x) == -cmp(x, x) && cmp(y, x) == -cmp(x, y);
      assert Ties(u, cmp, x) == Ties(uf, cmp, x) + [x];
      assert Ties(v, cmp, x) == Ties(vf, cmp, x) + [y];
      var t := Ties(u, cmp, x);
      assert t == Ties(v, cmp, x);
      assert t[|t| - 1] == x && t[|t| - 1] == y;
      forall w
        ensures Ties(uf, cmp, w) == Ties(vf, cmp, w)
      {
        var m := if cmp(x, w) == 0 then [x] else [];
        assert Ties(u, cmp, w) == Ties(uf, cmp, w) + m;
        assert Ties(v, cmp, w) == Ties(vf, cmp, w) + m;
        assert Ties(u, cmp, w) == Ties(v, cmp, w);
        assert Ties(uf, cmp, w) == Ties(u, cmp, w)[..|Ties(u, cmp, w)| - |m|];
        assert Ties(vf, cmp, w) == Ties(v, cmp, w)[..|Ties(v, cmp, w)| - |m|];
      }
      assert Sorted(uf, cmp) && Sorted(vf, cmp) by {
        assert forall i :: 0 <= i < |uf| ==> uf[i] == u[i];
        assert forall i :: 0 <= i < |vf| ==> vf[i] == v[i];
      }
      SortedTiesUnique(uf, vf, cmp);
      assert u == uf + [x] && v == vf + [y];
    }
  }

  /** Any ordered rearrangement that keeps the order of every tie, which is
      what any stable sort returns, is the insertion sort's result. */
  lemma StableSortUnique<T(!new)>(s: seq<T>, t: seq<T>, cmp: (T, T) -> int)
    requires Consistent(cmp) && Sorted(t, cmp)
    requires forall w :: Ties(t, cmp, w) == Ties(s, cmp, w)
    ensures t == Sort(s, cmp)
  {
    SortSorted(s, cmp);
    forall w
      ensures Ties(t, cmp, w) == Ties(Sort(s, cmp), cmp, w)
    {
      SortStable(s, cmp, w);
    }
    SortedTiesUnique(t, Sort(s, cmp), cmp);
  }

  // ---------------------------------------------------------------- in place

  /** Where `x` lands: behind the first `j` elements when the ones after
      them all go strictly after `x` and the `j`-th does not. */
  lemma {:induction false} InsertPlace<T>(x: T, sorted: seq<T>, j: int, cmp: (T, T) -> int)
    requires 0 <= j <= |sorted| && (j == 0 || cmp(x, sorted[j - 1]) >= 0)
    requires forall k :: j <= k < |sorted| ==> cmp(x, sorted[k]) < 0
    ensures Insert(x, sorted, cmp) == sorted[..j] + [x] + sorted[j..]
  {
    if j < |sorted| {
      var front, last := sorted[..|sorted| - 1], sorted[|sorted| - 1];
      assert Insert(x, sorted, cmp) == Insert(x, front, cmp) + [last] by {
        assert cmp(x, last) < 0;
      }
      assert Insert(x, front, cmp) == front[..j] + [x] + front[j..] by {
        assert j == 0 || front[j - 1] == sorted[j - 1];
        assert forall k :: j <= k < |front| ==> front[k] == sorted[k];
        InsertPlace(x, front, j, cmp);
      }
      assert front[..j] == sorted[..j];
      assert front[j..] + [last] == sorted[j..];
    } else {
      assert sorted[..j] == sorted;
    }
  }

  /** The inner loop: moves the element at `i` left past the sorted
      elements that go strictly after it. */
  method InsertAt<T>(a: array<T>, i: int, cmp: (T, T) -> int)
    requires 0 <= i < a.Length
    modifies a
    ensures a[..i + 1] == Insert(old(a[i]), old(a[..i]), cmp)
    ensures a[i + 1..] == old(a[i + 1..])
  {
    ghost var sorted := a[..i];
    var x := a[i];
    var j := i;
    while j > 0 && cmp(x, a[j - 1]) < 0
      invariant 0 <= j <= i
      invariant forall k :: 0 <= k < j ==> a[k] == sorted[k]
      invariant forall k :: j < k <= i ==> a[k] == sorted[k - 1]
      invariant forall k :: i < k < a.Length ==> a[k] == old(a[k])
      invariant forall k :: j <= k < i ==> cmp(x, sorted[k]) < 0
    {
      a[j] := a[j - 1];
      j := j - 1;
    }
    a[j] := x;
    InsertPlace(x, sorted, j, cmp);
    assert a[..i + 1] == sorted[..j] + [x] + sorted[j..];
  }

  /** `array.sort(cmp)`: insertion sort in place. */
  method SortInPlace<T>(a: array<T>, cmp: (T, T) -> int)
    modifies a
    ensures a[..] == Sort(old(a[..]), cmp)
  {
    ghost var was := a[..];
    var i := 0;
    while i < a.Length
      invariant 0 <= i <= a.Length
      invariant a[..i] == Sort(was[..i], cmp)
      invariant a[i..] == was[i..]
    {
      InsertAt(a, i, cmp);
      assert was[..i + 1][..i] == was[..i];
      i := i + 1;
    }
    assert a[..] == a[..a.Length] && was == was[..a.Length];
  }
}
