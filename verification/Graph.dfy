/** Breadth-first distances over a finite directed graph (``_distances`` of the router). */
module Graph {

  type Edges = map<string, set<string>>

  ghost predicate Closed(e: Edges) {
    forall s, t :: s in e && t in e[s] ==> t in e
  }

  /** ``t`` is ``n`` edges away from ``s`` along some walk. */
  ghost predicate Walk(e: Edges, s: string, t: string, n: nat)
    decreases n
  {
    if n == 0 then s == t
    else exists m :: m in e && t in e[m] && Walk(e, s, m, n - 1)
  }

  ghost predicate Connected(e: Edges, s: string, t: string) {
    exists n: nat :: Walk(e, s, t, n)
  }

  ghost predicate IsShortest(e: Edges, s: string, t: string, n: nat) {
    Walk(e, s, t, n) && forall m: nat :: Walk(e, s, t, m) ==> n <= m
  }

  lemma ShortestExists(e: Edges, s: string, t: string, n: nat) returns (k: nat)
    requires Walk(e, s, t, n)
    ensures IsShortest(e, s, t, k)
  {
    if exists m: nat :: m < n && Walk(e, s, t, m) {
      var m: nat :| m < n && Walk(e, s, t, m);
      k := ShortestExists(e, s, t, m);
    } else {
      k := n;
    }
  }

  /** The length of a shortest walk. */
  ghost function Distance(e: Edges, s: string, t: string): (n: nat)
    requires Connected(e, s, t)
    ensures IsShortest(e, s, t, n)
  {
    assert exists n: nat :: IsShortest(e, s, t, n) by {
      var n: nat :| Walk(e, s, t, n);
      var _ := ShortestExists(e, s, t, n);
    }
    var n: nat :| IsShortest(e, s, t, n);
    n
  }

  /** The map holds exactly the vertices some walk reaches, each with its shortest length. */
  ghost predicate AreDistances(e: Edges, s: string, d: map<string, nat>) {
    forall t :: (t in d <==> Connected(e, s, t)) && (t in d ==> d[t] == Distance(e, s, t))
  }

  lemma {:induction false} WalkStaysInside(e: Edges, s: string, t: string, n: nat)
    requires Closed(e) && s in e && Walk(e, s, t, n)
    ensures t in e
  {
  }

  lemma {:induction false} WalkConcat(e: Edges, s: string, m: string, t: string, i: nat, j: nat)
    requires Walk(e, s, m, i) && Walk(e, m, t, j)
    ensures Walk(e, s, t, i + j)
    decreases j
  {
    if j > 0 {
      var u :| u in e && t in e[u] && Walk(e, m, u, j - 1);
      WalkConcat(e, s, m, u, i, j - 1);
    }
  }

  /** A walk of ``n + 1`` edges starts with one edge. */
  lemma {:induction false} WalkFirst(e: Edges, s: string, t: string, n: nat) returns (m: string)
    requires n > 0 && Walk(e, s, t, n)
    ensures s in e && m in e[s] && Walk(e, m, t, n - 1)
    decreases n
  {
    var u :| u in e && t in e[u] && Walk(e, s, u, n - 1);
    if n == 1 {
      m := t;
    } else {
      m := WalkFirst(e, s, u, n - 1);
    }
  }

  lemma EdgeWalk(e: Edges, s: string, t: string)
    requires s in e && t in e[s]
    ensures Walk(e, s, t, 1)
  {
    assert Walk(e, s, s, 0);
  }

  /** One more edge at the front costs at most one. */
  lemma DistanceStep(e: Edges, s: string, m: string, t: string)
    requires s in e && m in e[s] && Connected(e, m, t)
    ensures Connected(e, s, t) && Distance(e, s, t) <= Distance(e, m, t) + 1
  {
    EdgeWalk(e, s, m);
    WalkConcat(e, s, m, t, 1, Distance(e, m, t));
  }

  ghost predicate Symmetric(e: Edges) {
    forall s, t :: s in e && t in e[s] ==> t in e && s in e[t]
  }

  lemma {:induction false} WalkBack(e: Edges, s: string, t: string, n: nat)
    requires Symmetric(e) && Walk(e, s, t, n)
    ensures Walk(e, t, s, n)
    decreases n
  {
    if n > 0 {
      var m := WalkFirst(e, s, t, n);
      WalkBack(e, m, t, n - 1);
      EdgeWalk(e, m, s);
      WalkConcat(e, t, m, s, n - 1, 1);
    }
  }

  // A shortest walk visits as many vertices as it has edges, and one more.

  lemma {:induction false} ShortestVertices(e: Edges, s: string, t: string, n: nat) returns (vs: set<string>)
    requires Closed(e) && s in e && IsShortest(e, s, t, n)
    ensures |vs| == n + 1 && vs <= e.Keys
    ensures forall v :: v in vs ==> Connected(e, s, v) && Distance(e, s, v) <= n
    decreases n
  {
    WalkStaysInside(e, s, t, n);
    if n == 0 {
      vs := {t};
    } else {
      var u :| u in e && t in e[u] && Walk(e, s, u, n - 1);
      forall m: nat | Walk(e, s, u, m)
        ensures n - 1 <= m
      {
        assert Walk(e, s, t, m + 1);
      }
      vs := ShortestVertices(e, s, u, n - 1);
      assert Connected(e, s, t) && Distance(e, s, t) == n;
      assert t !in vs;
      vs := vs + {t};
    }
  }

  lemma SubsetSize<T>(a: set<T>, b: set<T>)
    requires a <= b
    ensures |a| <= |b|
  {
    if a != {} {
      var x :| x in a;
      SubsetSize(a - {x}, b - {x});
    }
  }

  /** Every distance is below the number of vertices. */
  lemma DistanceBound(e: Edges, s: string, t: string)
    requires Closed(e) && s in e && Connected(e, s, t)
    ensures Distance(e, s, t) < |e|
  {
    var vs := ShortestVertices(e, s, t, Distance(e, s, t));
    SubsetSize(vs, e.Keys);
  }

  /** Every vertex already taken from the queue has all its neighbours one step on at most. */
  ghost predicate Settled(e: Edges, seen: map<string, nat>, done: set<string>) {
    forall x, y :: x in done && x in e && x in seen && y in e[x] ==> y in seen && seen[y] <= seen[x] + 1
  }

  lemma {:induction false} SettledIsShortest(e: Edges, s: string, seen: map<string, nat>, t: string, n: nat)
    requires Closed(e) && s in e && s in seen && seen[s] == 0
    requires Settled(e, seen, seen.Keys) && Walk(e, s, t, n)
    ensures t in seen && seen[t] <= n
    decreases n
  {
    if n > 0 {
      var m :| m in e && t in e[m] && Walk(e, s, m, n - 1);
      SettledIsShortest(e, s, seen, m, n - 1);
    }
  }

  /** The queue is in order of distance and spans two levels; nothing seen is further. */
  ghost predicate Frontier(seen: map<string, nat>, queue: seq<string>, level: nat) {
    && (forall i :: 0 <= i < |queue| ==> queue[i] in seen && level <= seen[queue[i]])
    && (forall i, j :: 0 <= i < j < |queue| ==> seen[queue[i]] <= seen[queue[j]])
    && (forall x :: x in seen ==> seen[x] <= level + 1)
  }

  ghost predicate Grounded(e: Edges, start: string, seen: map<string, nat>) {
    && start in seen && seen[start] == 0
    && forall x :: x in seen ==> x in e && Walk(e, start, x, seen[x])
  }

  /** What holds each time the search looks at its queue. */
  ghost predicate Searching(e: Edges, start: string, seen: map<string, nat>, queue: seq<string>, done: set<string>, level: nat) {
    && Grounded(e, start, seen)
    && Frontier(seen, queue, level)
    && done <= seen.Keys
    && (forall x :: x in seen ==> x in done || x in queue)
    && Settled(e, seen, done)
  }

  method Distances(start: string, e: Edges) returns (seen: map<string, nat>)
    requires Closed(e) && start in e
    ensures AreDistances(e, start, seen)
  {
    seen := map[start := 0];
    var queue := [start];
    ghost var level, done := 0, {};
    assert Searching(e, start, seen, queue, done, level);
    hide *;
    while queue != []
      invariant Searching(e, start, seen, queue, done, level)
      decreases Unseen(e, seen), |queue|
    {
      var here := queue[0];
      Dequeue(e, start, seen, queue, done, level);
      level := seen[here];
      seen, queue := Visit(e, start, seen, queue[1..], here, done, level);
      done := done + {here};
    }
    AllSettled(e, start, seen, done, level);
  }

  /** The neighbours of a vertex just taken from the queue: those unseen are one step further, and queue up. */
  method Visit(e: Edges, start: string, before: map<string, nat>, waiting: seq<string>, here: string,
        ghost done: set<string>, ghost level: nat)
    returns (seen: map<string, nat>, queue: seq<string>)
    requires Closed(e) && here in e && e[here] <= e.Keys && here in before && before[here] == level
    requires Pending(e, start, before, waiting, done, level, here)
    ensures Searching(e, start, seen, queue, done + {here}, level)
    ensures Unseen(e, seen) < Unseen(e, before) || (Unseen(e, seen) == Unseen(e, before) && |queue| <= |waiting|)
  {
    hide Searching, Pending, Closed, Unseen;
    seen, queue := before, waiting;
    var todo := e[here];
    while todo != {}
      invariant todo <= e[here]
      invariant here in seen && seen[here] == level
      invariant Pending(e, start, seen, queue, done, level, here)
      invariant forall y :: y in e[here] && y !in todo ==> y in seen
      invariant Nearer(e, before, |waiting|, seen, |queue|)
      decreases todo
    {
      var there :| there in todo;
      todo := todo - {there};
      if there !in seen {
        Discover(e, start, seen, queue, done, level, here, there);
        FewerUnseen(e, before, |waiting|, seen, |queue|, there, seen[here] + 1);
        seen := seen[there := seen[here] + 1];
        queue := queue + [there];
      }
    }
    Finish(e, start, seen, queue, done, level, here);
  }

  ghost function Unseen(e: Edges, seen: map<string, nat>): nat {
    |e.Keys - seen.Keys|
  }

  /** Fewer vertices left to see than before, or as many and a queue no longer. */
  ghost predicate Nearer(e: Edges, was: map<string, nat>, length: nat, seen: map<string, nat>, now: nat) {
    Unseen(e, seen) < Unseen(e, was) || (Unseen(e, seen) == Unseen(e, was) && now <= length)
  }

  lemma FewerUnseen(e: Edges, was: map<string, nat>, length: nat, seen: map<string, nat>, now: nat, x: string, n: nat)
    requires Nearer(e, was, length, seen, now) && x in e && x !in seen
    ensures Nearer(e, was, length, seen[x := n], now + 1)
  {
    assert e.Keys - seen.Keys == (e.Keys - seen[x := n].Keys) + {x};
  }

  /** ``Searching`` while the neighbours of ``here``, off the queue but not done, are visited. */
  ghost predicate Pending(e: Edges, start: string, seen: map<string, nat>, queue: seq<string>, done: set<string>, level: nat,
                          here: string)
  {
    && Grounded(e, start, seen)
    && Frontier(seen, queue, level)
    && done <= seen.Keys
    && (forall x :: x in seen ==> x in done || x in queue || x == here)
    && Settled(e, seen, done)
  }

  lemma Dequeue(e: Edges, start: string, seen: map<string, nat>, queue: seq<string>, done: set<string>, level: nat)
    requires queue != [] && Closed(e) && Searching(e, start, seen, queue, done, level)
    ensures queue[0] in seen && queue[0] in e && e[queue[0]] <= e.Keys
    ensures Pending(e, start, seen, queue[1..], done, seen[queue[0]], queue[0])
  {
    assert forall x :: x in queue ==> x == queue[0] || x in queue[1..];
  }

  lemma Finish(e: Edges, start: string, seen: map<string, nat>, queue: seq<string>, done: set<string>, level: nat, here: string)
    requires here in seen && seen[here] == level && here in e
    requires Pending(e, start, seen, queue, done, level, here)
    requires forall y :: y in e[here] ==> y in seen
    ensures Searching(e, start, seen, queue, done + {here}, level)
  {
  }

  lemma AllSettled(e: Edges, start: string, seen: map<string, nat>, done: set<string>, level: nat)
    requires Closed(e) && start in e && Searching(e, start, seen, [], done, level)
    ensures AreDistances(e, start, seen)
  {
    forall t
      ensures (t in seen <==> Connected(e, start, t)) && (t in seen ==> seen[t] == Distance(e, start, t))
    {
      forall n: nat | Walk(e, start, t, n)
        ensures t in seen && seen[t] <= n
      {
        SettledIsShortest(e, start, seen, t, n);
      }
    }
  }

  lemma Discover(e: Edges, start: string, seen: map<string, nat>, queue: seq<string>, done: set<string>, level: nat, here: string,
                 there: string)
    requires Closed(e) && Pending(e, start, seen, queue, done, level, here)
    requires here in seen && seen[here] == level && here in e && there in e[here] && there !in seen
    ensures Pending(e, start, seen[there := level + 1], queue + [there], done, level, here)
  {
    assert Walk(e, start, there, seen[here] + 1);
    assert forall x :: x in queue ==> x in queue + [there];
    assert there in queue + [there];
  }
}
