/** Python's ``sorted`` by a total preorder: the one list in order that keeps equal elements as they were. */
module Sorting {

  ghost predicate TotalPreorder<T(!new)>(le: (T, T) -> bool) {
    && (forall a, b :: le(a, b) || le(b, a))
    && (forall a, b, c :: le(a, b) && le(b, c) ==> le(a, c))
  }

  ghost predicate InOrder<T>(le: (T, T) -> bool, s: seq<T>) {
    forall i, j :: 0 <= i < j < |s| ==> le(s[i], s[j])
  }

  /** Before the first element it is not after. */
  function Insert<T>(le: (T, T) -> bool, x: T, s: seq<T>): seq<T> {
    if s == [] || le(x, s[0]) then [x] + s else [s[0]] + Insert(le, x, s[1..])
  }

  function Sort<T>(le: (T, T) -> bool, s: seq<T>): seq<T> {
    if s == [] then [] else Insert(le, s[0], Sort(le, s[1..]))
  }

  lemma {:induction false} InsertMultiset<T>(le: (T, T) -> bool, x: T, s: seq<T>)
    ensures multiset(Insert(le, x, s)) == multiset(s) + multiset{x}
  {
    if s != [] {
      InsertMultiset(le, x, s[1..]);
      assert s == [s[0]] + s[1..];
    }
  }

  lemma {:induction false} InsertInOrder<T(!new)>(le: (T, T) -> bool, x: T, s: seq<T>)
    requires TotalPreorder(le) && InOrder(le, s)
    ensures InOrder(le, Insert(le, x, s))
  {
    if s != [] && !le(x, s[0]) {
      var rest := Insert(le, x, s[1..]);
      InsertInOrder(le, x, s[1..]);
      InsertMultiset(le, x, s[1..]);
      forall j | 0 <= j < |rest|
        ensures le(s[0], rest[j])
      {
        assert rest[j] in multiset(rest);
        if rest[j] != x {
          assert rest[j] in multiset(s[1..]);
          var k :| 0 <= k < |s| - 1 && s[1..][k] == rest[j];
          assert s[k + 1] == rest[j];
        }
      }
    }
  }

  /** The result is in order and holds what it was given. */
  lemma {:induction false} Sorted<T(!new)>(le: (T, T) -> bool, s: seq<T>)
    requires TotalPreorder(le)
    ensures InOrder(le, Sort(le, s)) && multiset(Sort(le, s)) == multiset(s)
  {
    if s != [] {
      Sorted(le, s[1..]);
      InsertInOrder(le, s[0], Sort(le, s[1..]));
      InsertMultiset(le, s[0], Sort(le, s[1..]));
      assert s == [s[0]] + s[1..];
    }
  }

  /** What is in order already stays as it is. */
  lemma {:induction false} SortKeeps<T>(le: (T, T) -> bool, s: seq<T>)
    requires InOrder(le, s)
    ensures Sort(le, s) == s
  {
    if s != [] {
      SortKeeps(le, s[1..]);
    }
  }

  /** The elements sorting cannot tell from ``x``, in order. */
  function Alike<T>(le: (T, T) -> bool, x: T, s: seq<T>): seq<T> {
    if s == [] then [] else (if le(x, s[0]) && le(s[0], x) then [s[0]] else []) + Alike(le, x, s[1..])
  }

  lemma {:induction false} InsertStable<T(!new)>(le: (T, T) -> bool, x: T, y: T, s: seq<T>)
    requires TotalPreorder(le)
    ensures Alike(le, x, Insert(le, y, s)) == Alike(le, x, [y] + s)
  {
    assert ([y] + s)[1..] == s;
    if s != [] && !le(y, s[0]) {
      InsertStable(le, x, y, s[1..]);
      assert ([y] + s[1..])[1..] == s[1..];
      assert ([s[0]] + Insert(le, y, s[1..]))[1..] == Insert(le, y, s[1..]);
    }
  }

  /** Equal elements keep their order. */
  lemma {:induction false} Stable<T(!new)>(le: (T, T) -> bool, x: T, s: seq<T>)
    requires TotalPreorder(le)
    ensures Alike(le, x, Sort(le, s)) == Alike(le, x, s)
  {
    if s != [] {
      Stable(le, x, s[1..]);
      InsertStable(le, x, s[0], Sort(le, s[1..]));
      assert [s[0]] + s[1..] == s;
      assert ([s[0]] + Sort(le, s[1..]))[1..] == Sort(le, s[1..]);
    }
  }

  lemma {:induction false} AlikeIn<T(!new)>(le: (T, T) -> bool, x: T, s: seq<T>)
    ensures forall y :: y in Alike(le, x, s) <==> y in s && le(x, y) && le(y, x)
  {
    if s != [] {
      AlikeIn(le, x, s[1..]);
      assert forall y :: y in s <==> y == s[0] || y in s[1..];
    }
  }

  lemma HeadIsLeast<T(!new)>(le: (T, T) -> bool, s: seq<T>, y: T)
    requires TotalPreorder(le) && InOrder(le, s) && y in s
    ensures le(s[0], y)
  {
    var k :| 0 <= k < |s| && s[k] == y;
  }

  /** Elements sorting cannot tell apart come in the same order. */
  ghost predicate SameTies<T(!new)>(le: (T, T) -> bool, a: seq<T>, b: seq<T>) {
    forall x :: Alike(le, x, a) == Alike(le, x, b)
  }

  lemma HeadThere<T(!new)>(le: (T, T) -> bool, a: seq<T>, b: seq<T>)
    requires TotalPreorder(le) && SameTies(le, a, b) && a != []
    ensures a[0] in b && a[0] == Alike(le, a[0], b)[0]
  {
    assert Alike(le, a[0], a) == Alike(le, a[0], b);
    assert le(a[0], a[0]);
    AlikeIn(le, a[0], b);
    assert a[0] in Alike(le, a[0], b);
  }

  lemma SameHead<T(!new)>(le: (T, T) -> bool, a: seq<T>, b: seq<T>)
    requires TotalPreorder(le) && InOrder(le, a) && InOrder(le, b) && SameTies(le, a, b) && a != [] && b != []
    ensures a[0] == b[0]
  {
    HeadThere(le, a, b);
    HeadThere(le, b, a);
    HeadIsLeast(le, a, b[0]);
    HeadIsLeast(le, b, a[0]);
  }

  lemma {:induction false} OneOrder<T(!new)>(le: (T, T) -> bool, a: seq<T>, b: seq<T>)
    requires TotalPreorder(le) && InOrder(le, a) && InOrder(le, b) && SameTies(le, a, b)
    ensures a == b
  {
    if a == [] {
      if b != [] {
        HeadThere(le, b, a);
      }
    } else {
      HeadThere(le, a, b);
      SameHead(le, a, b);
      assert SameTies(le, a[1..], b[1..]) by {
        TailTies(le, a, b);
      }
      OneOrder(le, a[1..], b[1..]);
      assert a == [a[0]] + a[1..] && b == [b[0]] + b[1..];
    }
  }

  lemma TailTies<T(!new)>(le: (T, T) -> bool, a: seq<T>, b: seq<T>)
    requires SameTies(le, a, b) && a != [] && b != [] && a[0] == b[0]
    ensures SameTies(le, a[1..], b[1..])
  {
    forall x
      ensures Alike(le, x, a[1..]) == Alike(le, x, b[1..])
    {
      var h := if le(x, a[0]) && le(a[0], x) then [a[0]] else [];
      assert Alike(le, x, a) == h + Alike(le, x, a[1..]) && Alike(le, x, b) == h + Alike(le, x, b[1..]);
      assert Alike(le, x, a) == Alike(le, x, b);
      assert Alike(le, x, a[1..]) == (h + Alike(le, x, a[1..]))[|h|..];
      assert Alike(le, x, b[1..]) == (h + Alike(le, x, b[1..]))[|h|..];
    }
  }

  /** In order, with equals as they were given: only ``Sort`` gives that. */
  lemma OnlySort<T(!new)>(le: (T, T) -> bool, s: seq<T>, r: seq<T>)
    requires TotalPreorder(le)
    ensures InOrder(le, r) && SameTies(le, r, s) <==> r == Sort(le, s)
  {
    hide Alike;
    Sorted(le, s);
    forall x
      ensures Alike(le, x, Sort(le, s)) == Alike(le, x, s)
    {
      Stable(le, x, s);
    }
    if InOrder(le, r) && SameTies(le, r, s) {
      forall x
        ensures Alike(le, x, r) == Alike(le, x, Sort(le, s))
      {
        assert Alike(le, x, r) == Alike(le, x, s);
      }
      OneOrder(le, r, Sort(le, s));
    }
  }

  // ----- where each element comes from

  /** ``from`` takes the places of ``r`` to places of ``s``, each once, with the same element there. */
  ghost predicate Places<T>(s: seq<T>, r: seq<T>, from: seq<nat>) {
    && |from| == |r|
    && (forall k :: 0 <= k < |from| ==> from[k] < |s| && r[k] == s[from[k]])
    && (forall i, j :: 0 <= i < j < |from| ==> from[i] != from[j])
  }

  /** Places whose elements are alike come in order. */
  ghost predicate AlikeInOrder<T>(le: (T, T) -> bool, s: seq<T>, from: seq<nat>)
    requires forall k :: 0 <= k < |from| ==> from[k] < |s|
  {
    forall i, j :: 0 <= i < j < |from| && le(s[from[j]], s[from[i]]) ==> from[i] < from[j]
  }

  /** The elements at these places. */
  function Taken<T>(s: seq<T>, from: seq<nat>): (r: seq<T>)
    requires forall k :: 0 <= k < |from| ==> from[k] < |s|
    ensures |r| == |from| && forall k :: 0 <= k < |from| ==> r[k] == s[from[k]]
  {
    seq(|from|, k requires 0 <= k < |from| => s[from[k]])
  }

  lemma PlaceFirst<T(!new)>(le: (T, T) -> bool, s: seq<T>, r: seq<T>, head: nat, from: seq<nat>)
    requires Places(s, r, from) && AlikeInOrder(le, s, from) && head < |s|
    requires forall k :: k in from ==> k != head && (le(s[k], s[head]) ==> head < k)
    ensures Places(s, [s[head]] + r, [head] + from) && AlikeInOrder(le, s, [head] + from)
  {
    assert forall k :: 0 <= k < |from| ==> from[k] in from;
  }

  lemma {:induction false} InsertPlaces<T(!new)>(le: (T, T) -> bool, s: seq<T>, at: nat, from: seq<nat>) returns (into: seq<nat>)
    requires at < |s| && (forall k :: 0 <= k < |from| ==> at < from[k] < |s|)
    requires Places(s, Taken(s, from), from) && AlikeInOrder(le, s, from)
    ensures Places(s, Insert(le, s[at], Taken(s, from)), into) && AlikeInOrder(le, s, into)
    ensures forall x :: x in into <==> x == at || x in from
  {
    var r := Taken(s, from);
    if r == [] || le(s[at], r[0]) {
      PlaceFirst(le, s, r, at, from);
      into := [at] + from;
    } else {
      assert Taken(s, from[1..]) == r[1..];
      assert forall k :: k in from <==> k == from[0] || k in from[1..];
      var tail := InsertPlaces(le, s, at, from[1..]);
      assert from[0] in from;
      forall k | k in tail
        ensures k != from[0] && (le(s[k], s[from[0]]) ==> from[0] < k)
      {
        if k != at {
          var j :| 0 <= j < |from| - 1 && from[1..][j] == k;
          assert from[j + 1] == k;
        }
      }
      PlaceFirst(le, s, Insert(le, s[at], r[1..]), from[0], tail);
      into := [from[0]] + tail;
    }
  }

  function Shifted(from: seq<nat>): (r: seq<nat>)
    ensures |r| == |from| && forall k :: 0 <= k < |r| ==> r[k] == from[k] + 1
  {
    seq(|from|, k requires 0 <= k < |from| => from[k] + 1)
  }

  /** Sorting rearranges the elements, those alike in the order they had. */
  lemma {:induction false} SortPlaces<T(!new)>(le: (T, T) -> bool, s: seq<T>) returns (from: seq<nat>)
    ensures Places(s, Sort(le, s), from) && AlikeInOrder(le, s, from)
    ensures forall k :: 0 <= k < |s| ==> k in from
  {
    from := [];
    if s != [] {
      var rest := SortPlaces(le, s[1..]);
      var later := Shifted(rest);
      assert forall k :: 0 <= k < |rest| ==> s[later[k]] == s[1..][rest[k]];
      assert Taken(s, later) == Sort(le, s[1..]);
      from := InsertPlaces(le, s, 0, later);
      forall k | 0 <= k < |s|
        ensures k in from
      {
        if k > 0 {
          assert k - 1 in rest;
          var j :| 0 <= j < |rest| && rest[j] == k - 1;
          assert later[j] == k;
        }
      }
    }
  }
}
