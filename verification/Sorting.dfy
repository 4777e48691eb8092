/** Sorting and folding: the two ways the engine makes a list independent of the order it was given in. */
module Sorting {

  // ----- Sorting by an order -----

  /** `upTo(x, y)`: x may stand before y. */
  ghost predicate LinearOrder<T(!new)>(upTo: (T, T) -> bool) {
    && (forall x, y :: upTo(x, y) || upTo(y, x))
    && forall x, y, z :: upTo(x, y) && upTo(y, z) ==> upTo(x, z)
  }

  ghost predicate Ascending<T>(upTo: (T, T) -> bool, s: seq<T>) {
    forall i, j | 0 <= i < j < |s| :: upTo(s[i], s[j])
  }

  /** No two different elements tie. */
  ghost predicate Untied<T(!new)>(upTo: (T, T) -> bool, s: seq<T>) {
    forall x, y | x in s && y in s && upTo(x, y) && upTo(y, x) :: x == y
  }

  function Insert<T>(upTo: (T, T) -> bool, x: T, s: seq<T>): (r: seq<T>)
    ensures multiset(r) == multiset{x} + multiset(s)
    decreases |s|
  {
    if s == [] then [x]
    else if upTo(x, s[0]) then [x] + s
    else
      assert s == [s[0]] + s[1..];
      [s[0]] + Insert(upTo, x, s[1..])
  }

  function Sorted<T>(upTo: (T, T) -> bool, s: seq<T>): (r: seq<T>)
    ensures multiset(r) == multiset(s)
    decreases |s|
  {
    if s == [] then []
    else
      assert s == [s[0]] + s[1..];
      Insert(upTo, s[0], Sorted(upTo, s[1..]))
  }

  lemma {:induction false} InsertAscends<T(!new)>(upTo: (T, T) -> bool, x: T, s: seq<T>)
    requires LinearOrder(upTo) && Ascending(upTo, s)
    ensures Ascending(upTo, Insert(upTo, x, s))
    decreases |s|
  {
    if s != [] && !upTo(x, s[0]) {
      InsertAscends(upTo, x, s[1..]);
      var rest := Insert(upTo, x, s[1..]);
      forall k | 0 <= k < |rest| ensures upTo(s[0], rest[k]) {
        assert rest[k] in multiset(rest);
        if rest[k] != x {
          assert rest[k] in multiset(s[1..]);
          var j :| 0 <= j < |s[1..]| && s[1..][j] == rest[k];
          assert s[j + 1] == rest[k];
        }
      }
    }
  }

  lemma {:induction false} SortedAscends<T(!new)>(upTo: (T, T) -> bool, s: seq<T>)
    requires LinearOrder(upTo)
    ensures Ascending(upTo, Sorted(upTo, s))
    decreases |s|
  {
    if s != [] {
      SortedAscends(upTo, s[1..]);
      InsertAscends(upTo, s[0], Sorted(upTo, s[1..]));
    }
  }

  lemma HeadsAgree<T(!new)>(upTo: (T, T) -> bool, s: seq<T>, t: seq<T>)
    requires Ascending(upTo, s) && Ascending(upTo, t) && multiset(s) == multiset(t) && Untied(upTo, s) && s != [] && t != []
    ensures s[0] == t[0]
  {
    assert s[0] in multiset(t) && t[0] in multiset(s);
    var j :| 0 <= j < |t| && t[j] == s[0];
    var i :| 0 <= i < |s| && s[i] == t[0];
    if i > 0 && j > 0 {
      assert upTo(s[0], s[i]) && upTo(t[0], t[j]);
    }
  }

  lemma TailsKeep<T(!new)>(upTo: (T, T) -> bool, s: seq<T>)
    requires Ascending(upTo, s) && s != []
    ensures Ascending(upTo, s[1..]) && multiset(s[1..]) == multiset(s) - multiset{s[0]}
    ensures Untied(upTo, s) ==> Untied(upTo, s[1..])
  {
    assert s == [s[0]] + s[1..];
    assert forall x | x in s[1..] :: x in s;
  }

  /** An ascending arrangement without ties is unique. */
  lemma {:induction false} AscendingIsUnique<T(!new)>(upTo: (T, T) -> bool, s: seq<T>, t: seq<T>)
    requires Ascending(upTo, s) && Ascending(upTo, t) && multiset(s) == multiset(t) && Untied(upTo, s)
    ensures s == t
    decreases |s|
  {
    hide Ascending, Untied;
    assert |t| == |multiset(t)| == |multiset(s)| == |s|;
    if s != [] {
      HeadsAgree(upTo, s, t);
      TailsKeep(upTo, s);
      TailsKeep(upTo, t);
      AscendingIsUnique(upTo, s[1..], t[1..]);
      assert s == [s[0]] + s[1..] && t == [t[0]] + t[1..];
    }
  }

  /** Whatever order a list comes in, sorting it without ties gives the same list. */
  lemma SortingForgetsOrder<T(!new)>(upTo: (T, T) -> bool, s: seq<T>, t: seq<T>)
    requires LinearOrder(upTo) && multiset(s) == multiset(t) && Untied(upTo, s)
    ensures Sorted(upTo, s) == Sorted(upTo, t)
  {
    SortedAscends(upTo, s);
    SortedAscends(upTo, t);
    forall x | x in Sorted(upTo, s) ensures x in s {
      assert x in multiset(Sorted(upTo, s));
    }
    AscendingIsUnique(upTo, Sorted(upTo, s), Sorted(upTo, t));
  }

  // ----- Folding in any order -----

  /** One pass over a list, from the first element to the last. */
  function Fold<A, B>(f: (B, A) -> B, b: B, s: seq<A>): B
    decreases |s|
  {
    if s == [] then b else f(Fold(f, b, s[..|s| - 1]), s[|s| - 1])
  }

  /** The order of two elements does not matter. */
  ghost predicate Commutes<A(!new), B(!new)>(f: (B, A) -> B) {
    forall b, x, y :: f(f(b, x), y) == f(f(b, y), x)
  }

  lemma {:induction false} FoldMovesToEnd<A(!new), B(!new)>(f: (B, A) -> B, b: B, s: seq<A>, i: nat)
    requires Commutes(f) && i < |s|
    ensures Fold(f, b, s) == f(Fold(f, b, s[..i] + s[i + 1..]), s[i])
    decreases |s|
  {
    var n := |s| - 1;
    if i == n {
      assert s[..i] + s[i + 1..] == s[..n];
    } else {
      var front := s[..n];
      FoldMovesToEnd(f, b, front, i);
      var without := s[..i] + s[i + 1..];
      assert without[..|without| - 1] == front[..i] + front[i + 1..];
      assert without[|without| - 1] == s[n];
    }
  }

  /** A pass whose steps commute gives the same result on any permutation of the list. */
  lemma {:induction false} FoldForgetsOrder<A(!new), B(!new)>(f: (B, A) -> B, b: B, s: seq<A>, t: seq<A>)
    requires Commutes(f) && multiset(s) == multiset(t)
    ensures Fold(f, b, s) == Fold(f, b, t)
    decreases |s|
  {
    if s == [] {
      assert |t| == |multiset(t)| == 0;
    } else {
      assert |t| == |multiset(t)| == |multiset(s)| == |s|;
      var n := |s| - 1;
      assert s == s[..n] + [s[n]];
      assert s[n] in multiset(t);
      var i :| 0 <= i < |t| && t[i] == s[n];
      FoldMovesToEnd(f, b, t, i);
      assert t == t[..i] + [t[i]] + t[i + 1..];
      assert multiset(t[..i] + t[i + 1..]) == multiset(t) - multiset{t[i]} == multiset(s[..n]);
      FoldForgetsOrder(f, b, s[..n], t[..i] + t[i + 1..]);
    }
  }

  lemma RemoveAt<T>(s: seq<T>, i: nat)
    requires i < |s|
    ensures multiset(s[..i] + s[i + 1..]) == multiset(s) - multiset{s[i]}
  {
    assert s == (s[..i] + [s[i]]) + s[i + 1..];
  }

  // ----- Selecting -----

  function Selected<T(!new)>(p: T -> bool, s: seq<T>): (r: seq<T>)
    ensures forall x :: x in r <==> x in s && p(x)
    decreases |s|
  {
    if s == [] then []
    else
      var n := |s| - 1;
      assert s == s[..n] + [s[n]];
      if p(s[n]) then Selected(p, s[..n]) + [s[n]] else Selected(p, s[..n])
  }

  lemma {:induction false} SelectedCounts<T(!new)>(p: T -> bool, s: seq<T>, x: T)
    ensures multiset(Selected(p, s))[x] == if p(x) then multiset(s)[x] else 0
    decreases |s|
  {
    if s != [] {
      var n := |s| - 1;
      SelectedCounts(p, s[..n], x);
      assert s == s[..n] + [s[n]];
    }
  }

  lemma SelectedForgetsOrder<T(!new)>(p: T -> bool, s: seq<T>, t: seq<T>)
    requires multiset(s) == multiset(t)
    ensures multiset(Selected(p, s)) == multiset(Selected(p, t))
  {
    forall x ensures multiset(Selected(p, s))[x] == multiset(Selected(p, t))[x] {
      SelectedCounts(p, s, x);
      SelectedCounts(p, t, x);
    }
  }
}
