/** Python's order on strings, and what ``sorted`` returns for a set of them. */
module Ordering {

  /** Strictly before, code point by code point. */
  predicate Before(a: string, b: string) {
    b != "" && (a == "" || a[0] < b[0] || (a[0] == b[0] && Before(a[1..], b[1..])))
  }

  lemma BeforeIrreflexive(a: string)
    ensures !Before(a, a)
  {
  }

  lemma BeforeTransitive(a: string, b: string, c: string)
    requires Before(a, b) && Before(b, c)
    ensures Before(a, c)
  {
    if a != "" && a[0] == b[0] && b[0] == c[0] {
      BeforeTransitive(a[1..], b[1..], c[1..]);
    }
  }

  lemma BeforeConnected(a: string, b: string)
    ensures Before(a, b) || Before(b, a) || a == b
  {
    if a != "" && b != "" && a[0] == b[0] {
      BeforeConnected(a[1..], b[1..]);
      if a[1..] == b[1..] {
        assert a == [a[0]] + a[1..];
        assert b == [b[0]] + b[1..];
      }
    }
  }

  ghost predicate Ascending(s: seq<string>) {
    forall i, j :: 0 <= i < j < |s| ==> Before(s[i], s[j])
  }

  function Elements<T>(s: seq<T>): set<T> {
    set i | 0 <= i < |s| :: s[i]
  }

  ghost predicate IsLeast(m: string, s: set<string>) {
    m in s && forall x :: x in s && x != m ==> Before(m, x)
  }

  lemma LeastExists(s: set<string>) returns (m: string)
    requires s != {}
    ensures IsLeast(m, s)
  {
    var first :| first in s;
    m := first;
    var rest := s - {first};
    assert forall x :: x in s ==> x in rest || x == first;
    if rest != {} {
      var r := LeastExists(rest);
      BeforeConnected(first, r);
      if Before(r, first) {
        m := r;
      }
      forall x | x in s && x != m
        ensures Before(m, x)
      {
        if m == first && x != r {
          BeforeTransitive(first, r, x);
        }
      }
    }
  }

  /** ``sorted(s)`` as a value. */
  ghost function SortedSeq(s: set<string>): (r: seq<string>)
    ensures Ascending(r) && Elements(r) == s
    ensures forall x :: x in r <==> x in s
  {
    if s == {} then []
    else
      assert exists m :: IsLeast(m, s) by { var _ := LeastExists(s); }
      var m :| IsLeast(m, s);
      var r := [m] + SortedSeq(s - {m});
      assert forall x :: x in r <==> x in s;
      r
  }

  lemma {:induction false} AscendingUnique(a: seq<string>, b: seq<string>)
    requires Ascending(a) && Ascending(b)
    requires forall x :: x in a <==> x in b
    ensures a == b
  {
    assert a != [] ==> a[0] in a;
    assert b != [] ==> b[0] in b;
    if a != [] {
      HeadLeast(a, b[0]);
      HeadLeast(b, a[0]);
      if a[0] != b[0] {
        BeforeTransitive(a[0], b[0], a[0]);
        BeforeIrreflexive(a[0]);
      }
      forall x
        ensures x in a[1..] <==> x in b[1..]
      {
        TailOf(a, x);
        TailOf(b, x);
      }
      AscendingUnique(a[1..], b[1..]);
      assert a == [a[0]] + a[1..];
      assert b == [b[0]] + b[1..];
    }
  }

  lemma HeadLeast(a: seq<string>, x: string)
    requires Ascending(a) && x in a
    ensures x == a[0] || Before(a[0], x)
  {
  }

  lemma TailOf(a: seq<string>, x: string)
    requires Ascending(a) && a != []
    ensures x in a[1..] <==> x in a && x != a[0]
  {
    if x in a[1..] {
      var i :| 0 <= i < |a| - 1 && a[1..][i] == x;
      assert Before(a[0], a[i + 1]);
      BeforeIrreflexive(x);
    }
  }

  /** ``sorted``, by taking the least of what is left. */
  method Sorted(s: set<string>) returns (r: seq<string>)
    ensures r == SortedSeq(s)
  {
    r := [];
    var left := s;
    while left != {}
      invariant left <= s
      invariant forall x :: x in s <==> x in left || x in r
      invariant forall x, y :: x in r && y in left ==> Before(x, y)
      invariant Ascending(r)
      decreases left
    {
      var m := Minimum(left);
      left := left - {m};
      r := r + [m];
    }
    AscendingUnique(r, SortedSeq(s));
  }

  method Minimum(s: set<string>) returns (m: string)
    requires s != {}
    ensures IsLeast(m, s)
  {
    m :| m in s;
    var left := s - {m};
    while left != {}
      invariant left <= s && m in s && m !in left
      invariant forall x :: x in s && x !in left && x != m ==> Before(m, x)
      decreases left
    {
      var x :| x in left;
      BeforeConnected(m, x);
      if Before(x, m) {
        forall y | y in s && y !in left && y != m
          ensures Before(x, y)
        {
          BeforeTransitive(x, m, y);
        }
        m := x;
      }
      left := left - {x};
    }
  }
}
