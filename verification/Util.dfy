/** Small definitions shared by the other modules. */
module Util {

  datatype Option<+T> = None | Some(value: T)

  function Min(a: nat, b: nat): nat {
    if a <= b then a else b
  }

  /** Concatenation of a sequence of slices. */
  function Flatten<T>(ss: seq<seq<T>>): seq<T> {
    if ss == [] then [] else Flatten(ss[..|ss| - 1]) + ss[|ss| - 1]
  }

  lemma FlattenSnoc<T>(ss: seq<seq<T>>, x: seq<T>)
    ensures Flatten(ss + [x]) == Flatten(ss) + x
  {
    assert (ss + [x])[..|ss|] == ss;
  }

  lemma {:induction false} FlattenPrefix<T>(ss: seq<seq<T>>, i: nat)
    requires i <= |ss|
    ensures Flatten(ss[..i]) <= Flatten(ss)
    decreases |ss| - i
  {
    if i == |ss| {
      assert ss[..i] == ss;
    } else {
      FlattenPrefix(ss, i + 1);
      assert ss[..i + 1] == ss[..i] + [ss[i]];
      FlattenSnoc(ss[..i], ss[i]);
    }
  }

  function Sum(ns: seq<nat>): nat {
    if ns == [] then 0 else Sum(ns[..|ns| - 1]) + ns[|ns| - 1]
  }

  lemma SumSnoc(ns: seq<nat>, n: nat)
    ensures Sum(ns + [n]) == Sum(ns) + n
  {
    assert (ns + [n])[..|ns|] == ns;
  }

  lemma {:induction false} SumPrefix(ns: seq<nat>, i: nat)
    requires i <= |ns|
    ensures Sum(ns[..i]) <= Sum(ns)
    decreases |ns| - i
  {
    if i == |ns| {
      assert ns[..i] == ns;
    } else {
      SumPrefix(ns, i + 1);
      assert ns[..i + 1] == ns[..i] + [ns[i]];
      SumSnoc(ns[..i], ns[i]);
    }
  }

  /** The sum of the values of a finite map. */
  ghost function Total<K>(m: map<K, nat>): nat {
    SumOver(m.Keys, m)
  }

  ghost function SumOver<K>(ks: set<K>, m: map<K, nat>): nat
    requires ks <= m.Keys
  {
    if ks == {} then 0 else
    var k :| k in ks;
    m[k] + SumOver(ks - {k}, m)
  }

  lemma {:induction false} SumOverRemove<K>(ks: set<K>, m: map<K, nat>, k: K)
    requires k in ks && ks <= m.Keys
    ensures SumOver(ks, m) == m[k] + SumOver(ks - {k}, m)
  {
    var j :| j in ks && SumOver(ks, m) == m[j] + SumOver(ks - {j}, m);
    if j != k {
      SumOverRemove(ks - {j}, m, k);
      SumOverRemove(ks - {k}, m, j);
      assert ks - {j} - {k} == ks - {k} - {j};
    }
  }

  lemma {:induction false} SumOverAgree<K>(ks: set<K>, m: map<K, nat>, m': map<K, nat>)
    requires ks <= m.Keys && ks <= m'.Keys
    requires forall k :: k in ks ==> m[k] == m'[k]
    ensures SumOver(ks, m) == SumOver(ks, m')
  {
    if ks != {} {
      var k :| k in ks;
      SumOverRemove(ks, m, k);
      SumOverRemove(ks, m', k);
      SumOverAgree(ks - {k}, m, m');
    }
  }

  lemma TotalUpdate<K>(m: map<K, nat>, k: K, v: nat)
    ensures Total(m[k := v]) == Total(m) + v - (if k in m then m[k] else 0)
  {
    var m' := m[k := v];
    SumOverRemove(m'.Keys, m', k);
    SumOverAgree(m.Keys - {k}, m, m');
    assert m'.Keys - {k} == m.Keys - {k};
    if k in m {
      SumOverRemove(m.Keys, m, k);
    } else {
      assert m.Keys - {k} == m.Keys;
    }
  }

  lemma {:induction false} SumOverZero<K>(ks: set<K>, m: map<K, nat>)
    requires ks <= m.Keys && forall k :: k in ks ==> m[k] == 0
    ensures SumOver(ks, m) == 0
  {
    if ks != {} {
      var k :| k in ks;
      SumOverRemove(ks, m, k);
      SumOverZero(ks - {k}, m);
    }
  }
}
