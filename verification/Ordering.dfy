/** Sorting by a strict order. */
module Ordering {

  ghost predicate Strict<T(!new)>(less: (T, T) -> bool) {
    (forall x :: !less(x, x)) && (forall x, y, z | less(x, y) && less(y, z) :: less(x, z))
  }

  ghost predicate Ascending<T>(less: (T, T) -> bool, r: seq<T>) {
    forall i, j | 0 <= i < j < |r| :: less(r[i], r[j])
  }

  ghost predicate Apart<T>(less: (T, T) -> bool, r: seq<T>) {
    forall i, j | 0 <= i < j < |r| :: less(r[i], r[j]) || less(r[j], r[i])
  }

  /** Stable insertion. */
  function Insert<T>(less: (T, T) -> bool, r: seq<T>, x: T): (q: seq<T>)
    ensures multiset(q) == multiset(r) + multiset{x} && |q| == |r| + 1
  {
    if r == [] then [x]
    else if less(x, r[0]) then [x] + r
    else
      assert r == [r[0]] + r[1..];
      [r[0]] + Insert(less, r[1..], x)
  }

  lemma {:induction false} InsertAscending<T(!new)>(less: (T, T) -> bool, r: seq<T>, x: T)
    requires Strict(less) && Ascending(less, r)
    requires forall y | y in r :: less(x, y) || less(y, x)
    ensures Ascending(less, Insert(less, r, x))
  {
    if r != [] && !less(x, r[0]) {
      var tail := Insert(less, r[1..], x);
      InsertAscending(less, r[1..], x);
      forall j | 0 <= j < |tail|
        ensures less(r[0], tail[j])
      {
        assert tail[j] in multiset(tail);
        assert tail[j] == x || tail[j] in r[1..];
      }
    }
  }

  method Sort<T(!new)>(less: (T, T) -> bool, xs: seq<T>) returns (r: seq<T>)
    ensures multiset(r) == multiset(xs)
    ensures Strict(less) && Apart(less, xs) ==> Ascending(less, r)
  {
    r := [];
    for i := 0 to |xs|
      invariant multiset(r) == multiset(xs[..i])
      invariant Strict(less) && Apart(less, xs) ==> Ascending(less, r)
    {
      assert xs[..i + 1] == xs[..i] + [xs[i]];
      if Strict(less) && Apart(less, xs) {
        forall y | y in r
          ensures less(xs[i], y) || less(y, xs[i])
        {
          assert y in multiset(xs[..i]);
        }
        InsertAscending(less, r, xs[i]);
      }
      r := Insert(less, r, xs[i]);
    }
    assert xs[..|xs|] == xs;
  }

  /** A strictly ascending listing is determined by what it lists. */
  lemma {:induction false} AscendingUnique<T(!new)>(less: (T, T) -> bool, a: seq<T>, b: seq<T>)
    requires Strict(less) && Ascending(less, a) && Ascending(less, b)
    requires forall x :: x in a <==> x in b
    ensures a == b
    decreases |a|
  {
    assert (a != [] ==> a[0] in b) && (b != [] ==> b[0] in a);
    if a != [] {
      assert a[0] == b[0];
      SameTails(less, a, b);
      AscendingUnique(less, a[1..], b[1..]);
    }
  }

  lemma SameTails<T(!new)>(less: (T, T) -> bool, a: seq<T>, b: seq<T>)
    requires Strict(less) && Ascending(less, a) && Ascending(less, b)
    requires a != [] && b != [] && a[0] == b[0] && forall x :: x in a <==> x in b
    ensures forall x :: x in a[1..] <==> x in b[1..]
  {
    TailListing(less, a);
    TailListing(less, b);
  }

  lemma TailListing<T(!new)>(less: (T, T) -> bool, a: seq<T>)
    requires Strict(less) && Ascending(less, a) && a != []
    ensures forall x :: x in a[1..] <==> x in a && x != a[0]
  {
  }
}
