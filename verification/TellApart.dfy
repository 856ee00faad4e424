/** When the fit tells a connection's action from every other: exactly, and over everything an action can draw. */
module TellApart {
  import opened Wrappers
  import opened SimLabel

  /** The connection may be this candidate's: it is named by it, or swept by it where no candidate names it. */
  predicate Claims(found: seq<Candidate>, c: Candidate, five: Five) {
    Reaches(c, five) || (Sweeps(c, five) && forall i :: 0 <= i < |found| ==> !Reaches(found[i], five))
  }

  /** Candidate ``m`` may have made the connection, and no other, or no other that allows the paths seen while it does. */
  predicate Told(found: seq<Candidate>, m: nat, five: Five, uris: set<string>)
    requires m < |found|
  {
    && Claims(found, found[m], five)
    && forall i :: 0 <= i < |found| && i != m && Claims(found, found[i], five) ==> Allows(found[m], uris) && !Allows(found[i], uris)
  }

  function ByClaim(found: seq<Candidate>, five: Five): Candidate -> bool {
    c => Claims(found, c, five)
  }

  lemma {:induction false} FilterIs<T>(s: seq<T>, p: T -> bool)
    ensures forall x :: x in Filter(s, p) ==> x in s && p(x)
    ensures forall i :: 0 <= i < |s| && p(s[i]) ==> s[i] in Filter(s, p)
  {
    if s != [] {
      FilterIs(s[..|s| - 1], p);
    }
  }

  lemma {:induction false} FilterSame<T>(s: seq<T>, p: T -> bool, q: T -> bool)
    requires forall i :: 0 <= i < |s| ==> (p(s[i]) <==> q(s[i]))
    ensures Filter(s, p) == Filter(s, q)
  {
    if s != [] {
      FilterSame(s[..|s| - 1], p, q);
    }
  }

  lemma {:induction false} FilterTwo<T>(s: seq<T>, p: T -> bool, i: nat, j: nat)
    requires i < j < |s| && p(s[i]) && p(s[j])
    ensures |Filter(s, p)| >= 2
  {
    var n := |s| - 1;
    if j < n {
      FilterTwo(s[..n], p, i, j);
    } else {
      FilterIs(s[..n], p);
      assert s[..n][i] in Filter(s[..n], p);
    }
  }

  function Both<T>(p: T -> bool, q: T -> bool): T -> bool {
    x => p(x) && q(x)
  }

  lemma {:induction false} FilterBoth<T>(s: seq<T>, p: T -> bool, q: T -> bool)
    ensures Filter(Filter(s, p), q) == Filter(s, Both(p, q))
  {
    if s != [] {
      var n := |s| - 1;
      FilterBoth(s[..n], p, q);
      if p(s[n]) {
        assert (Filter(s[..n], p) + [s[n]])[..|Filter(s[..n], p)|] == Filter(s[..n], p);
      }
    }
  }

  /** What the source calls hits are the candidates that claim the connection. */
  lemma HitsClaim(found: seq<Candidate>, five: Five)
    ensures var named := Filter(found, ByReach(five));
            (if named == [] then Filter(found, BySweep(five)) else named) == Filter(found, ByClaim(found, five))
  {
    var named := Filter(found, ByReach(five));
    FilterIs(found, ByReach(five));
    if named == [] {
      forall i | 0 <= i < |found|
        ensures BySweep(five)(found[i]) <==> ByClaim(found, five)(found[i])
      {
        assert !ByReach(five)(found[i]);
      }
      FilterSame(found, BySweep(five), ByClaim(found, five));
    } else {
      assert named[0] in named;
      var k :| 0 <= k < |found| && found[k] == named[0];
      assert Reaches(found[k], five);
      FilterSame(found, ByReach(five), ByClaim(found, five));
    }
  }

  /** A filter leaves just candidate ``m`` exactly when that alone passes. */
  lemma OneNarrowed(found: seq<Candidate>, m: nat, q: Candidate -> bool)
    requires m < |found|
    ensures Filter(found, q) == [found[m]] <==> q(found[m]) && forall i :: 0 <= i < |found| && i != m ==> !q(found[i])
  {
    FilterIs(found, q);
    if q(found[m]) && forall i :: 0 <= i < |found| && i != m ==> !q(found[i]) {
      FilterOne(found, q, m);
    } else if Filter(found, q) == [found[m]] {
      assert found[m] in Filter(found, q);
      var i :| 0 <= i < |found| && i != m && q(found[i]);
      FilterTwo(found, q, if i < m then i else m, if i < m then m else i);
    }
  }

  /** Of several that claim it, one is chosen exactly when it alone allows the paths seen. */
  lemma ChooseOfSeveral(found: seq<Candidate>, m: nat, i: nat, p: Candidate -> bool, uris: set<string>)
    requires m < |found| && i < |found| && i != m && p(found[m]) && p(found[i])
    ensures Choose(Filter(found, p), uris) == Is(found[m])
      <==> Allows(found[m], uris) && forall j :: 0 <= j < |found| && j != m && p(found[j]) ==> !Allows(found[j], uris)
  {
    hide Allows;
    var q := ByPath(uris);
    FilterTwo(found, p, if i < m then i else m, if i < m then m else i);
    FilterBoth(found, p, q);
    OneNarrowed(found, m, Both(p, q));
    var narrowed := Filter(Filter(found, p), q);
    assert |narrowed| == 1 && narrowed[0] == found[m] <==> narrowed == [found[m]];
  }

  /** ``match`` gives a connection to candidate ``m`` exactly when it is told apart as ``m``'s. */
  lemma MatchExactly(found: seq<Candidate>, m: nat, five: Five, uris: set<string>)
    requires m < |found|
    ensures MatchAmong(found, five, uris) == Is(found[m]) <==> Told(found, m, five, uris)
  {
    hide Claims, Allows, Filter;
    var p := ByClaim(found, five);
    HitsClaim(found, five);
    assert MatchAmong(found, five, uris) == Choose(Filter(found, p), uris);
    if !Claims(found, found[m], five) {
      Unclaimed(found, m, p, uris);
    } else if i :| 0 <= i < |found| && i != m && Claims(found, found[i], five) {
      ChooseOfSeveral(found, m, i, p, uris);
    } else {
      FilterOne(found, p, m);
    }
  }

  lemma Unclaimed(found: seq<Candidate>, m: nat, p: Candidate -> bool, uris: set<string>)
    requires m < |found| && !p(found[m])
    ensures Choose(Filter(found, p), uris) != Is(found[m])
  {
    hide Filter;
    var hits := Filter(found, p);
    FilterIs(found, p);
    ChosenIsHit(hits, uris);
  }

  lemma ChosenIsHit(hits: seq<Candidate>, uris: set<string>)
    ensures Choose(hits, uris).Is? ==> Choose(hits, uris).candidate in hits
  {
    hide Filter;
    FilterIs(hits, ByPath(uris));
    var narrowed := Filter(hits, ByPath(uris));
    if |hits| > 1 && |narrowed| == 1 {
      assert narrowed[0] in narrowed;
    }
  }

  // ----- over everything an action can draw

  predicate SpokenBy(w: World, c: Candidate) {
    c.signature in w.signatures && Spoken(w.signatures[c.signature])
  }

  /** The paths a sensor may see of one connection of an action: one of its own, if it speaks HTTP and fixes any; else none. */
  predicate Shows(w: World, c: Candidate, uris: set<string>) {
    if SpokenBy(w, c) && c.paths.Some? then exists u :: u in c.paths.value && uris == {u} else uris == {}
  }

  /** Whatever ``c`` shows it allows and ``d`` does not. */
  predicate Apart(w: World, c: Candidate, d: Candidate) {
    if SpokenBy(w, c) && c.paths.Some? then d.paths.Some? && c.paths.value !! d.paths.value
    else c.paths.None? && d.paths.Some?
  }

  lemma ApartExactly(w: World, c: Candidate, d: Candidate)
    requires c.paths.Some? ==> c.paths.value != {}
    ensures (forall uris :: Shows(w, c, uris) ==> Allows(c, uris) && !Allows(d, uris)) <==> Apart(w, c, d)
  {
    if SpokenBy(w, c) && c.paths.Some? {
      forall u | u in c.paths.value
        ensures Shows(w, c, {u}) && Allows(c, {u}) && (Allows(d, {u}) <==> d.paths.None? || u in d.paths.value)
      {
        assert u in {u} * c.paths.value;
        assert d.paths.Some? ==> ({u} * d.paths.value != {} <==> u in {u} * d.paths.value);
      }
      if Apart(w, c, d) {
        forall uris | Shows(w, c, uris)
          ensures Allows(c, uris) && !Allows(d, uris)
        {
          var u :| u in c.paths.value && uris == {u};
        }
      } else {
        var some :| some in c.paths.value;
        var u := if d.paths.Some? then var v :| v in c.paths.value && v in d.paths.value; v else some;
        assert Shows(w, c, {u});
      }
    } else {
      assert Shows(w, c, {});
      assert Allows(c, {}) <==> c.paths.None?;
      assert Allows(d, {}) <==> d.paths.None?;
    }
  }

  /**
   * A connection of an action is the action's, whatever path it draws, exactly when it claims it and is
   * apart from every other candidate that does: HTTP with disjoint path sets, or without one where the others have one.
   */
  lemma MatchIs(w: World, found: seq<Candidate>, m: nat, five: Five)
    requires m < |found| && (found[m].paths.Some? ==> found[m].paths.value != {})
    ensures (forall uris :: Shows(w, found[m], uris) ==> MatchAmong(found, five, uris) == Is(found[m]))
      <==> Claims(found, found[m], five)
           && forall i :: 0 <= i < |found| && i != m && Claims(found, found[i], five) ==> Apart(w, found[m], found[i])
  {
    hide Claims, MatchAmong, Apart, Allows, Shows;
    var c := found[m];
    forall uris
      ensures MatchAmong(found, five, uris) == Is(c) <==> Told(found, m, five, uris)
    {
      MatchExactly(found, m, five, uris);
    }
    forall i | 0 <= i < |found|
      ensures (forall uris :: Shows(w, c, uris) ==> Allows(c, uris) && !Allows(found[i], uris)) <==> Apart(w, c, found[i])
    {
      ApartExactly(w, c, found[i]);
    }
    SomeShown(w, c);
    if forall uris :: Shows(w, c, uris) ==> MatchAmong(found, five, uris) == Is(c) {
      forall i | 0 <= i < |found| && i != m && Claims(found, found[i], five)
        ensures Apart(w, c, found[i])
      {
        forall uris | Shows(w, c, uris)
          ensures Allows(c, uris) && !Allows(found[i], uris)
        {
          assert Told(found, m, five, uris);
        }
      }
    } else {
      var uris :| Shows(w, c, uris) && MatchAmong(found, five, uris) != Is(c);
      assert !Told(found, m, five, uris);
    }
  }

  lemma SomeShown(w: World, c: Candidate)
    requires c.paths.Some? ==> c.paths.value != {}
    ensures exists uris :: Shows(w, c, uris)
  {
    if SpokenBy(w, c) && c.paths.Some? {
      var u :| u in c.paths.value;
      assert Shows(w, c, {u});
    } else {
      assert Shows(w, c, {});
    }
  }
}
