/** Lexicographic order, and the ordered listings that sorted containers iterate in. */
module Lex {

  predicate Less(a: seq<int>, b: seq<int>) {
    b != [] && (a == [] || a[0] < b[0] || (a[0] == b[0] && Less(a[1..], b[1..])))
  }

  lemma {:induction false} LessIrreflexive(a: seq<int>)
    ensures !Less(a, a)
  {
    if a != [] {
      LessIrreflexive(a[1..]);
    }
  }

  lemma {:induction false} LessTransitive(a: seq<int>, b: seq<int>, c: seq<int>)
    requires Less(a, b) && Less(b, c)
    ensures Less(a, c)
  {
    if a != [] && a[0] == b[0] == c[0] {
      LessTransitive(a[1..], b[1..], c[1..]);
    }
  }

  lemma {:induction false} LessTotal(a: seq<int>, b: seq<int>)
    ensures Less(a, b) || a == b || Less(b, a)
  {
    if a != [] && b != [] && a[0] == b[0] {
      LessTotal(a[1..], b[1..]);
      assert a == [a[0]] + a[1..] && b == [b[0]] + b[1..];
    }
  }

  function Codes(s: string): (r: seq<int>)
    ensures |r| == |s|
    ensures forall i | 0 <= i < |s| :: r[i] == s[i] as int
  {
    seq(|s|, i requires 0 <= i < |s| => s[i] as int)
  }

  /** Code point order on strings. */
  predicate Before(a: string, b: string) {
    Less(Codes(a), Codes(b))
  }

  lemma BeforeIrreflexive(a: string)
    ensures !Before(a, a)
  {
    LessIrreflexive(Codes(a));
  }

  lemma BeforeTransitive(a: string, b: string, c: string)
    requires Before(a, b) && Before(b, c)
    ensures Before(a, c)
  {
    LessTransitive(Codes(a), Codes(b), Codes(c));
  }

  lemma BeforeTotal(a: string, b: string)
    ensures Before(a, b) || a == b || Before(b, a)
  {
    LessTotal(Codes(a), Codes(b));
    if Codes(a) == Codes(b) {
      forall i | 0 <= i < |a|
        ensures a[i] == b[i]
      {
        assert Codes(a)[i] == Codes(b)[i];
      }
      assert a == b;
    }
  }

  predicate Sorted(r: seq<string>) {
    forall i, j | 0 <= i < j < |r| :: Before(r[i], r[j])
  }

  predicate Distinct(xs: seq<string>) {
    forall i, j | 0 <= i < j < |xs| :: xs[i] != xs[j]
  }

  function Elements(r: seq<string>): set<string> {
    set x | x in r
  }

  /** A set has one strictly ascending listing. */
  lemma {:induction false} SortedUnique(r: seq<string>, q: seq<string>)
    requires Sorted(r) && Sorted(q) && Elements(r) == Elements(q)
    ensures r == q
    decreases |r|
  {
    NoElements(r);
    NoElements(q);
    if r != [] && q != [] {
      FirstIsLeast(r, q);
      FirstIsLeast(q, r);
      assert r[0] == q[0] by {
        if r[0] != q[0] {
          BeforeTransitive(r[0], q[0], r[0]);
          BeforeIrreflexive(r[0]);
        }
      }
      TailElements(r);
      TailElements(q);
      SortedUnique(r[1..], q[1..]);
      assert r == [r[0]] + r[1..] && q == [q[0]] + q[1..];
    }
  }

  lemma NoElements(r: seq<string>)
    ensures Elements(r) == {} <==> r == []
  {
    if r != [] {
      assert r[0] in Elements(r);
    }
  }

  lemma FirstIsLeast(r: seq<string>, q: seq<string>)
    requires Sorted(r) && r != [] && q != [] && Elements(r) == Elements(q)
    ensures r[0] == q[0] || Before(r[0], q[0])
  {
    assert q[0] in Elements(r);
  }

  lemma TailElements(r: seq<string>)
    requires Sorted(r) && r != []
    ensures Elements(r[1..]) == Elements(r) - {r[0]}
  {
    BeforeIrreflexive(r[0]);
    forall x
      ensures x in r[1..] <==> x in r && x != r[0]
    {
      if x in r && x != r[0] {
        var i :| 0 <= i < |r| && r[i] == x;
        assert r[1..][i - 1] == x;
      }
    }
  }

  /** Insertion into an ascending listing, as an ordered set does it. */
  function Insert(r: seq<string>, x: string): (q: seq<string>)
    requires Sorted(r) && x !in r
    ensures Sorted(q) && Elements(q) == Elements(r) + {x}
  {
    if r == [] then [x]
    else
      BeforeTotal(x, r[0]);
      if Before(x, r[0]) then
        AscendingHead(x, r);
        [x] + r
      else
        TailElements(r);
        var q := Insert(r[1..], x);
        InsertedTail(r, x, q);
        [r[0]] + q
  }

  lemma AscendingHead(x: string, r: seq<string>)
    requires Sorted(r) && r != [] && Before(x, r[0])
    ensures Sorted([x] + r)
    ensures Elements([x] + r) == Elements(r) + {x}
  {
    forall j | 0 < j < |r|
      ensures Before(x, r[j])
    {
      BeforeTransitive(x, r[0], r[j]);
    }
  }

  lemma InsertedTail(r: seq<string>, x: string, q: seq<string>)
    requires Sorted(r) && r != [] && Before(r[0], x)
    requires Sorted(q) && Elements(q) == Elements(r[1..]) + {x}
    ensures Sorted([r[0]] + q)
    ensures Elements([r[0]] + q) == Elements(r) + {x}
  {
    forall j | 0 <= j < |q|
      ensures Before(r[0], q[j])
    {
      assert q[j] in Elements(q);
      if q[j] != x {
        var i :| 0 <= i < |r[1..]| && r[1..][i] == q[j];
        assert r[i + 1] == q[j];
      }
    }
    TailElements(r);
    assert Elements([r[0]] + q) == {r[0]} + Elements(q);
  }

  lemma {:induction false} SortedExists(s: set<string>)
    ensures exists r :: Sorted(r) && Elements(r) == s
  {
    if s == {} {
      assert Sorted([]) && Elements([]) == s;
    } else {
      var x :| x in s;
      SortedExists(s - {x});
      var r :| Sorted(r) && Elements(r) == s - {x};
      assert x !in Elements(r);
      var q := Insert(r, x);
      assert Sorted(q) && Elements(q) == s;
    }
  }

  /** The ascending listing of a set. */
  ghost function Listing(s: set<string>): (r: seq<string>)
    ensures Sorted(r) && Elements(r) == s
  {
    SortedExists(s);
    var r :| Sorted(r) && Elements(r) == s;
    r
  }

  method Sort(s: set<string>) returns (r: seq<string>)
    ensures r == Listing(s)
  {
    r := [];
    var left := s;
    while left != {}
      invariant Sorted(r) && left <= s && Elements(r) == s - left
      decreases left
    {
      var x :| x in left;
      assert x !in Elements(r);
      r := Insert(r, x);
      left := left - {x};
    }
    SortedUnique(r, Listing(s));
  }
}
