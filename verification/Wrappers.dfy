/** Failure-carrying results, lookups in ordered maps and decimal text. */
module Wrappers {

  datatype Option<+T> = None | Some(value: T)

  datatype Result<+T, +E> = Ok(value: T) | Err(error: E)

  /** A Python dict whose iteration order is observed: pairs in insertion order, keys distinct. */
  type OrderedMap<K, V> = seq<(K, V)>

  predicate Has<K(==), V>(m: OrderedMap<K, V>, k: K) {
    exists i :: 0 <= i < |m| && m[i].0 == k
  }

  lemma HasTail<K, V>(m: OrderedMap<K, V>, k: K)
    requires m != []
    ensures Has(m, k) <==> m[0].0 == k || Has(m[1..], k)
  {
    if Has(m[1..], k) {
      var i :| 0 <= i < |m[1..]| && m[1..][i].0 == k;
      assert m[i + 1].0 == k;
    }
    if Has(m, k) && m[0].0 != k {
      var i :| 0 <= i < |m| && m[i].0 == k;
      assert m[1..][i - 1].0 == k;
    }
  }

  function Lookup<K(==), V>(m: OrderedMap<K, V>, k: K): (v: Option<V>)
    ensures v.Some? <==> Has(m, k)
    ensures v.Some? ==> (k, v.value) in m
  {
    if m == [] then None
    else
      HasTail(m, k);
      if m[0].0 == k then assert m[0] == (k, m[0].1); Some(m[0].1)
      else Lookup(m[1..], k)
  }

  ghost predicate DistinctKeys<K, V>(m: OrderedMap<K, V>) {
    forall i, j :: 0 <= i < j < |m| ==> m[i].0 != m[j].0
  }

  lemma LookupAt<K, V>(m: OrderedMap<K, V>, i: nat)
    requires DistinctKeys(m) && i < |m|
    ensures Lookup(m, m[i].0) == Some(m[i].1)
  {
    if i > 0 {
      assert m[1..][i - 1] == m[i];
      LookupAt(m[1..], i - 1);
    }
  }

  ghost predicate Distinct<T(!new)>(s: seq<T>) {
    forall i, j :: 0 <= i < j < |s| ==> s[i] != s[j]
  }

  /** ``str(n)`` for a non-negative integer. */
  function Decimal(n: nat): (s: string)
    ensures s != "" && (|s| == 1 <==> n < 10)
    ensures forall c :: c in s ==> '0' <= c <= '9'
  {
    if n < 10 then [Digit(n)] else Decimal(n / 10) + [Digit(n % 10)]
  }

  function Digit(n: nat): (c: char)
    requires n < 10
    ensures '0' <= c <= '9' && c as int == '0' as int + n
  {
    ('0' as int + n) as char
  }

  lemma {:induction false} DecimalInjective(a: nat, b: nat)
    requires Decimal(a) == Decimal(b)
    ensures a == b
  {
    var s := Decimal(a);
    assert s[|s| - 1] as int - '0' as int == a % 10;
    assert s[|s| - 1] as int - '0' as int == b % 10;
    if a >= 10 {
      assert Decimal(a / 10) == s[..|s| - 1] == Decimal(b / 10);
      DecimalInjective(a / 10, b / 10);
    }
  }
}
