/** Sums of a map's values over a finite set of its keys. */
module Sums {

  ghost function Total(keys: set<nat>, m: map<nat, nat>): nat
    requires keys <= m.Keys
  {
    if keys == {} then 0 else
      var k :| k in keys;
      m[k] + Total(keys - {k}, m)
  }

  lemma {:induction false} TotalRemove(keys: set<nat>, m: map<nat, nat>, k: nat)
    requires keys <= m.Keys && k in keys
    ensures Total(keys, m) == m[k] + Total(keys - {k}, m)
  {
    var first :| first in keys && Total(keys, m) == m[first] + Total(keys - {first}, m);
    if first != k {
      TotalRemove(keys - {first}, m, k);
      TotalRemove(keys - {k}, m, first);
      assert keys - {first} - {k} == keys - {k} - {first};
    }
  }

  lemma TotalAdd(keys: set<nat>, m: map<nat, nat>, k: nat)
    requires keys <= m.Keys && k in m && k !in keys
    ensures Total(keys + {k}, m) == m[k] + Total(keys, m)
  {
    TotalRemove(keys + {k}, m, k);
    assert keys + {k} - {k} == keys;
  }

  lemma {:induction false} TotalUnion(a: set<nat>, b: set<nat>, m: map<nat, nat>)
    requires a <= m.Keys && b <= m.Keys && a !! b
    ensures Total(a + b, m) == Total(a, m) + Total(b, m)
  {
    if a == {} {
      assert a + b == b;
    } else {
      var k :| k in a;
      TotalRemove(a, m, k);
      TotalRemove(a + b, m, k);
      assert a + b - {k} == (a - {k}) + b;
      TotalUnion(a - {k}, b, m);
    }
  }
}
