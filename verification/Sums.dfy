/** Finite sums of reals over a set of keys, independent of the order of summation. */
module Sums {

  ghost function Over<K>(keys: set<K>, f: K -> real): real
  {
    if keys == {} then 0.0
    else
      var k :| k in keys;
      f(k) + Over(keys - {k}, f)
  }

  /** Any key may be taken out first. */
  lemma {:induction false} Pick<K>(keys: set<K>, f: K -> real, k: K)
    requires k in keys
    ensures Over(keys, f) == f(k) + Over(keys - {k}, f)
    decreases |keys|
  {
    var j :| j in keys && Over(keys, f) == f(j) + Over(keys - {j}, f);
    if j != k {
      Pick(keys - {j}, f, k);
      Pick(keys - {k}, f, j);
      assert keys - {j} - {k} == keys - {k} - {j};
    }
  }

  lemma {:induction false} Same<K>(keys: set<K>, f: K -> real, g: K -> real)
    requires forall k :: k in keys ==> f(k) == g(k)
    ensures Over(keys, f) == Over(keys, g)
    decreases |keys|
  {
    if keys != {} {
      var k :| k in keys;
      Pick(keys, f, k);
      Pick(keys, g, k);
      Same(keys - {k}, f, g);
    }
  }

  /** Adding a key that was absent adds its term; the other terms may be written differently. */
  lemma Insert<K>(keys: set<K>, f: K -> real, g: K -> real, k: K)
    requires k !in keys
    requires forall j :: j in keys ==> f(j) == g(j)
    ensures Over(keys + {k}, g) == Over(keys, f) + g(k)
  {
    Pick(keys + {k}, g, k);
    assert keys + {k} - {k} == keys;
    Same(keys, f, g);
  }

  /** Changing the term of one key changes the sum by the same amount. */
  lemma Change<K>(keys: set<K>, f: K -> real, g: K -> real, k: K)
    requires k in keys
    requires forall j :: j in keys && j != k ==> f(j) == g(j)
    ensures Over(keys, g) == Over(keys, f) - f(k) + g(k)
  {
    Pick(keys, f, k);
    Pick(keys, g, k);
    Same(keys - {k}, f, g);
  }

  /** Keys whose term is zero may be dropped. */
  lemma {:induction false} Drop<K>(keys: set<K>, rest: set<K>, f: K -> real)
    requires rest <= keys
    requires forall k :: k in keys - rest ==> f(k) == 0.0
    ensures Over(keys, f) == Over(rest, f)
    decreases |keys|
  {
    if keys <= rest {
      assert keys == rest;
    } else {
      var k :| k in keys && k !in rest;
      Pick(keys, f, k);
      Drop(keys - {k}, rest, f);
    }
  }

  lemma Zeros<K>(keys: set<K>, f: K -> real)
    requires forall k :: k in keys ==> f(k) == 0.0
    ensures Over(keys, f) == 0.0
  {
    Drop(keys, {}, f);
  }

  lemma {:induction false} Divide<K>(keys: set<K>, part: set<K>, f: K -> real)
    ensures Over(keys, f) == Over(keys * part, f) + Over(keys - part, f)
    decreases |keys|
  {
    if keys == {} {
      assert keys * part == {} == keys - part;
    } else {
      var k :| k in keys;
      Pick(keys, f, k);
      Divide(keys - {k}, part, f);
      if k in part {
        Pick(keys * part, f, k);
        assert keys * part - {k} == (keys - {k}) * part && keys - part == (keys - {k}) - part;
      } else {
        Pick(keys - part, f, k);
        assert keys - part - {k} == (keys - {k}) - part && keys * part == (keys - {k}) * part;
      }
    }
  }

  lemma {:induction false} Subtract<K>(keys: set<K>, f: K -> real, g: K -> real, d: K -> real)
    requires forall k :: k in keys ==> f(k) - g(k) == d(k)
    ensures Over(keys, f) - Over(keys, g) == Over(keys, d)
    decreases |keys|
  {
    if keys != {} {
      var k :| k in keys;
      Pick(keys, f, k);
      Pick(keys, g, k);
      Pick(keys, d, k);
      Subtract(keys - {k}, f, g, d);
    }
  }

  lemma {:induction false} NonNegative<K>(keys: set<K>, f: K -> real)
    requires forall k :: k in keys ==> f(k) >= 0.0
    ensures Over(keys, f) >= 0.0
    decreases |keys|
  {
    if keys != {} {
      var k :| k in keys;
      Pick(keys, f, k);
      NonNegative(keys - {k}, f);
    }
  }
}
