/** Sums of the values of a finite map, independent of any order of its keys. */
module Sums {

  ghost function Sum<K>(m: map<K, real>): real
    decreases |m|
  {
    if m == map[] then 0.0 else var k :| k in m; m[k] + Sum(m - {k})
  }

  /** Any key may be taken out first. */
  lemma {:induction false} Split<K>(m: map<K, real>, k: K)
    requires k in m
    ensures Sum(m) == m[k] + Sum(m - {k})
    decreases |m|
  {
    var first :| first in m && Sum(m) == m[first] + Sum(m - {first});
    if first != k {
      Split(m - {first}, k);
      Split(m - {k}, first);
      assert m - {first} - {k} == m - {k} - {first};
    }
  }

  /** Replacing or adding one entry moves the sum by the difference of the values. */
  lemma {:induction false} Put<K>(m: map<K, real>, k: K, v: real)
    ensures Sum(m[k := v]) == Sum(m) + v - (if k in m then m[k] else 0.0)
  {
    Split(m[k := v], k);
    if k in m {
      Split(m, k);
      assert m[k := v] - {k} == m - {k};
    } else {
      assert m[k := v] - {k} == m;
    }
  }

  lemma {:induction false} AllZero<K>(m: map<K, real>)
    requires forall k | k in m :: m[k] == 0.0
    ensures Sum(m) == 0.0
    decreases |m|
  {
    if m != map[] {
      var k :| k in m;
      Split(m, k);
      AllZero(m - {k});
    }
  }

  /** Sums add pointwise. */
  lemma {:induction false} Pointwise<K>(a: map<K, real>, b: map<K, real>, c: map<K, real>)
    requires a.Keys == b.Keys == c.Keys
    requires forall k | k in c :: c[k] == a[k] + b[k]
    ensures Sum(c) == Sum(a) + Sum(b)
    decreases |c|
  {
    if c == map[] {
      assert a == map[] && b == map[];
    } else {
      var k :| k in c;
      Split(a, k);
      Split(b, k);
      Split(c, k);
      Pointwise(a - {k}, b - {k}, c - {k});
    }
  }
}
