/** Sums over finite maps, the meaning of "the sum of all user balances". */
module MapSums {

  /** The total of the entries of `m` whose key has second component `t`. */
  ghost function SumFor<U(!new), T(!new)>(m: map<(U, T), nat>, t: T): nat
    decreases |m|
  {
    if |m| == 0 then 0
    else
      var k := Pick(m);
      (if k.1 == t then m[k] else 0) + SumFor(m - {k}, t)
  }

  ghost function Pick<K(!new), V>(m: map<K, V>): (k: K)
    requires |m| != 0
    ensures k in m
  {
    var k :| k in m;
    k
  }

  function Lookup<K>(m: map<K, nat>, k: K): nat {
    if k in m then m[k] else 0
  }

  /** The sum does not depend on the order in which entries are picked. */
  lemma {:induction false} SumRemove<U(!new), T(!new)>(m: map<(U, T), nat>, k: (U, T), t: T)
    requires k in m
    ensures SumFor(m, t) == (if k.1 == t then m[k] else 0) + SumFor(m - {k}, t)
    decreases |m|
  {
    assert |m| != 0;
    var p := Pick(m);
    if p != k {
      SumRemove(m - {p}, k, t);
      SumRemove(m - {k}, p, t);
      assert m - {p} - {k} == m - {k} - {p};
    }
  }

  /** Writing one entry changes the sum of its own token by exactly the difference. */
  lemma SumUpdate<U(!new), T(!new)>(m: map<(U, T), nat>, k: (U, T), x: nat, t: T)
    ensures SumFor(m[k := x], t) == SumFor(m, t) + (if k.1 == t then x - Lookup(m, k) else 0)
  {
    SameRest(m, k, x);
    SumRemove(m[k := x], k, t);
    if k in m { SumRemove(m, k, t); }
  }

  lemma SameRest<K(!new), V>(m: map<K, V>, k: K, x: V)
    ensures m[k := x] - {k} == m - {k} && (k !in m ==> m - {k} == m)
  {
  }

  /** Every entry is covered by the sum of its token. */
  lemma EntryAtMostSum<U(!new), T(!new)>(m: map<(U, T), nat>, k: (U, T))
    ensures Lookup(m, k) <= SumFor(m, k.1)
  {
    if k in m {
      SumRemove(m, k, k.1);
    }
  }

  /** If every entry of token `t` is zero, so is the sum. */
  lemma {:induction false} ZeroSum<U(!new), T(!new)>(m: map<(U, T), nat>, t: T)
    requires forall u :: Lookup(m, (u, t)) == 0
    ensures SumFor(m, t) == 0
    decreases |m|
  {
    if |m| != 0 {
      var k :| k in m;
      SumRemove(m, k, t);
      assert k.1 == t ==> Lookup(m, (k.0, t)) == 0;
      forall u ensures Lookup(m - {k}, (u, t)) == 0 {
        assert Lookup(m, (u, t)) == 0;
      }
      ZeroSum(m - {k}, t);
    }
  }
}
