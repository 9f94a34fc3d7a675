/**
 * Python's `sorted(xs, key=k)` for a date key: the list is decorated with the
 * key of each element, sorted stably by key, and undecorated. The sort is
 * written as an insertion sort; any stable sort gives the same list.
 */
module StableSort {
  import opened Dates

  /** Ascending by key. */
  predicate KeySorted<T>(s: seq<(Date, T)>) {
    forall i, j :: 0 <= i < j < |s| ==> NotAfter(s[i].0, s[j].0)
  }

  /** The elements of `s` whose key is `d`, in their order in `s`. */
  function KeyOn<T>(s: seq<(Date, T)>, d: Date): seq<(Date, T)> {
    if s == [] then []
    else KeyOn(s[..|s| - 1], d) + (if s[|s| - 1].0 == d then [s[|s| - 1]] else [])
  }

  /** Insert `x` after every element whose key is not later than its own. */
  function KeyInsert<T>(s: seq<(Date, T)>, x: (Date, T)): (r: seq<(Date, T)>)
    ensures |r| == |s| + 1
    ensures multiset(r) == multiset(s) + multiset{x}
  {
    if s == [] then [x]
    else if NotAfter(s[|s| - 1].0, x.0) then s + [x]
    else
      var init := s[..|s| - 1];
      assert s == init + [s[|s| - 1]];
      KeyInsert(init, x) + [s[|s| - 1]]
  }

  /** Insert the elements one by one, from the left. */
  function KeySort<T>(s: seq<(Date, T)>): (r: seq<(Date, T)>)
    ensures |r| == |s|
    ensures multiset(r) == multiset(s)
  {
    if s == [] then []
    else
      var init := s[..|s| - 1];
      assert s == init + [s[|s| - 1]];
      KeyInsert(KeySort(init), s[|s| - 1])
  }

  lemma {:induction false} KeyInsertSorted<T>(s: seq<(Date, T)>, x: (Date, T))
    requires KeySorted(s)
    ensures KeySorted(KeyInsert(s, x))
  {
    if s != [] && !NotAfter(s[|s| - 1].0, x.0) {
      var init, last := s[..|s| - 1], s[|s| - 1];
      assert KeySorted(init);
      KeyInsertSorted(init, x);
      var r := KeyInsert(init, x);
      forall i | 0 <= i < |r| ensures NotAfter(r[i].0, last.0) {
        assert r[i] in multiset(r);
        if r[i] != x {
          assert r[i] in multiset(init);
          var k :| 0 <= k < |init| && init[k] == r[i];
          assert s[k] == r[i];
        }
      }
      assert KeyInsert(s, x) == r + [last];
    }
  }

  /** The result is ascending by key. */
  lemma {:induction false} KeySortSorted<T>(s: seq<(Date, T)>)
    ensures KeySorted(KeySort(s))
  {
    if s != [] {
      KeySortSorted(s[..|s| - 1]);
      KeyInsertSorted(KeySort(s[..|s| - 1]), s[|s| - 1]);
    }
  }

  /** Inserting `x` puts it after the elements of its own key and leaves every key's order. */
  lemma {:induction false} KeyInsertOn<T>(s: seq<(Date, T)>, x: (Date, T), d: Date)
    ensures KeyOn(KeyInsert(s, x), d) == KeyOn(s, d) + (if x.0 == d then [x] else [])
  {
    if s != [] {
      if NotAfter(s[|s| - 1].0, x.0) {
        assert (s + [x])[..|s|] == s;
      } else {
        var init, last := s[..|s| - 1], s[|s| - 1];
        KeyInsertOn(init, x, d);
        var r := KeyInsert(init, x);
        assert (r + [last])[..|r|] == r;
        assert KeyOn(r + [last], d) == KeyOn(r, d) + (if last.0 == d then [last] else []);
        assert last.0 != x.0;
        if x.0 == d {
          assert KeyOn(s, d) == KeyOn(init, d);
        } else {
          assert KeyOn(r, d) == KeyOn(init, d);
        }
      }
    }
  }

  /** The sort is stable: the elements of any one key come out in the order they went in. */
  lemma {:induction false} KeySortStable<T>(s: seq<(Date, T)>, d: Date)
    ensures KeyOn(KeySort(s), d) == KeyOn(s, d)
  {
    if s != [] {
      var init := s[..|s| - 1];
      KeySortStable(init, d);
      KeyInsertOn(KeySort(init), s[|s| - 1], d);
    }
  }

  /** Drop the keys again. */
  function Undecorate<T>(s: seq<(Date, T)>): (r: seq<T>)
    ensures |r| == |s|
  {
    seq(|s|, i requires 0 <= i < |s| => s[i].1)
  }

  lemma UndecorateAppend<T>(a: seq<(Date, T)>, b: seq<(Date, T)>)
    ensures Undecorate(a + b) == Undecorate(a) + Undecorate(b)
  {
    assert forall i :: 0 <= i < |a + b| ==> Undecorate(a + b)[i] == (Undecorate(a) + Undecorate(b))[i];
  }

  /** Undecorating a permutation gives a permutation. */
  lemma {:induction false} UndecoratePerm<T>(a: seq<(Date, T)>, b: seq<(Date, T)>)
    requires multiset(a) == multiset(b)
    ensures multiset(Undecorate(a)) == multiset(Undecorate(b))
    decreases |a|
  {
    if a != [] {
      var x := a[|a| - 1];
      assert x in multiset(b);
      var k :| 0 <= k < |b| && b[k] == x;
      var a', b1, b2 := a[..|a| - 1], b[..k], b[k + 1..];
      assert a == a' + [x];
      assert b == b1 + [x] + b2;
      assert multiset(a') == multiset(a) - multiset{x};
      assert multiset(b1 + b2) == multiset(b) - multiset{x};
      UndecoratePerm(a', b1 + b2);
      assert Undecorate([x]) == [x.1];
      UndecorateAppend(a', [x]);
      UndecorateAppend(b1 + [x], b2);
      UndecorateAppend(b1, [x]);
      UndecorateAppend(b1, b2);
      var ua, u1, u2 := Undecorate(a'), Undecorate(b1), Undecorate(b2);
      assert multiset(Undecorate(a)) == multiset(ua) + multiset{x.1};
      assert multiset(Undecorate(b)) == multiset(u1) + multiset{x.1} + multiset(u2);
      assert multiset(ua) == multiset(u1) + multiset(u2);
      assert multiset(u1) + multiset{x.1} + multiset(u2) == multiset(ua) + multiset{x.1};
    } else {
      assert b == [];
    }
  }

  /** Two elements are swapped exactly when the first one's key is later. */
  lemma KeySortPair<T>(x: (Date, T), y: (Date, T))
    ensures KeySort([x, y]) == if NotAfter(x.0, y.0) then [x, y] else [y, x]
  {
    assert [x, y][..1] == [x];
    assert [x][..0] == [];
    assert KeySort([x]) == [x];
  }
}
