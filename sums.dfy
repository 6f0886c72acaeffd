/** Sums of a numeric projection over the values of a map.

    Both ledgers keep running totals (the bar's minted-minus-burned supply,
    the reward ledger's total allocation points) that are meant to equal the
    sum of one field over every stored record.  `SumOver` is that sum; the
    lemmas say how it changes when one entry of the map is written. */
module Sums {

  /** Some key of a non-empty map; which one is left unspecified. */
  ghost function AnyKey<K, V>(m: map<K, V>): (k: K)
    requires |m| > 0
    ensures k in m
  {
    assert m.Keys != {};
    var k :| k in m.Keys; k
  }

  /** The sum of `f(v)` over every value `v` stored in `m`. */
  ghost function SumOver<K, V>(m: map<K, V>, f: V -> real): real
    decreases |m|
  {
    if |m| == 0 then 0.0
    else
      var k := AnyKey(m);
      f(m[k]) + SumOver(m - {k}, f)
  }

  /** Any one entry can be split off the sum, whichever entry the definition picked. */
  lemma {:induction false} SumOverRemove<K, V>(m: map<K, V>, f: V -> real, k: K)
    requires k in m
    ensures SumOver(m, f) == f(m[k]) + SumOver(m - {k}, f)
    decreases |m|
  {
    var j := AnyKey(m);
    if j != k {
      var mj, mk := m - {j}, m - {k};
      assert |mj| < |m| && |mk| < |m| by {
        assert mj.Keys < m.Keys && mk.Keys < m.Keys;
      }
      assert k in mj && j in mk;
      SumOverRemove(mj, f, k);
      SumOverRemove(mk, f, j);
      assert mj - {k} == mk - {j};
      assert mj[k] == m[k] && mk[j] == m[j];
    }
  }

  /** Writing `v` at key `k` replaces the old contribution of `k` (none when `k` was absent) by `f(v)`. */
  lemma {:induction false} SumOverUpdate<K, V>(m: map<K, V>, f: V -> real, k: K, v: V)
    ensures SumOver(m[k := v], f) == SumOver(m, f) - (if k in m then f(m[k]) else 0.0) + f(v)
  {
    var m' := m[k := v];
    SumOverRemove(m', f, k);
    assert m' - {k} == m - {k};
    if k in m {
      SumOverRemove(m, f, k);
    } else {
      assert m - {k} == m;
    }
  }

  /** A pointwise sum `f = g + h` carries over to the sums. */
  lemma {:induction false} SumOverAdd<K, V>(m: map<K, V>, f: V -> real, g: V -> real, h: V -> real)
    requires forall v :: f(v) == g(v) + h(v)
    ensures SumOver(m, f) == SumOver(m, g) + SumOver(m, h)
    decreases |m|
  {
    if |m| > 0 {
      var k := AnyKey(m);
      var rest := m - {k};
      assert |rest| < |m| by {
        assert rest.Keys < m.Keys;
      }
      SumOverAdd(rest, f, g, h);
    }
  }

  /** A product written as a named term, so that equal factors are matched by congruence. */
  function Times(c: real, x: real): real
  {
    c * x
  }

  lemma TimesDistributes(c: real, x: real, y: real)
    ensures Times(c, x + y) == Times(c, x) + Times(c, y)
  {
  }

  /** A pointwise constant factor `f = c * g` carries over to the sums. */
  lemma {:induction false} SumOverScale<K, V>(m: map<K, V>, f: V -> real, g: V -> real, c: real)
    requires forall v :: f(v) == Times(c, g(v))
    ensures SumOver(m, f) == Times(c, SumOver(m, g))
    decreases |m|
  {
    if |m| > 0 {
      assert |m - {AnyKey(m)}| < |m| by {
        assert (m - {AnyKey(m)}).Keys < m.Keys;
      }
      SumOverScale(m - {AnyKey(m)}, f, g, c);
      ScaleFirst(m, f, g, c);
    } else {
      assert SumOver(m, g) == 0.0;
      assert Times(c, SumOver(m, g)) == Times(c, 0.0);
    }
  }

  /** The inductive step of `SumOverScale`: the factor holds for the entry the sum splits off
      and for the rest. */
  lemma ScaleFirst<K, V>(m: map<K, V>, f: V -> real, g: V -> real, c: real)
    requires |m| > 0
    requires f(m[AnyKey(m)]) == Times(c, g(m[AnyKey(m)]))
    requires SumOver(m - {AnyKey(m)}, f) == Times(c, SumOver(m - {AnyKey(m)}, g))
    ensures SumOver(m, f) == Times(c, SumOver(m, g))
  {
    assert SumOver(m, g) == g(m[AnyKey(m)]) + SumOver(m - {AnyKey(m)}, g);
    assert Times(c, SumOver(m, g)) == Times(c, g(m[AnyKey(m)]) + SumOver(m - {AnyKey(m)}, g));
    TimesDistributes(c, g(m[AnyKey(m)]), SumOver(m - {AnyKey(m)}, g));
  }

  /** A sum of non-negative terms is non-negative. */
  lemma {:induction false} SumOverNonNegative<K, V>(m: map<K, V>, f: V -> real)
    requires forall k :: k in m ==> f(m[k]) >= 0.0
    ensures SumOver(m, f) >= 0.0
    decreases |m|
  {
    if |m| > 0 {
      var k := AnyKey(m);
      var rest := m - {k};
      assert |rest| < |m| by {
        assert rest.Keys < m.Keys;
      }
      SumOverNonNegative(rest, f);
    }
  }
}
