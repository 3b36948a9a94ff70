/** Balance maps as both contracts keep them: an account missing from the map
    holds zero, a transfer is two successive inserts, and the sum of all
    balances is what a total supply must equal. */
module Ledger {
  import opened Base

  type Balances = map<AccountId, nat>

  /** The `*_or_zero` lookup: the stored amount, or 0 for an absent key. */
  function Get<K>(m: map<K, nat>, k: K): (r: nat)
    ensures k in m ==> r == m[k]
    ensures k !in m ==> r == 0
  {
    if k in m then m[k] else 0
  }

  /** `transfer_from_to` after its balance check: insert the sender's reduced
      balance, then read the receiver again and insert it increased. */
  function Move(m: Balances, from: AccountId, to: AccountId, value: nat): (r: Balances)
    requires value <= Get(m, from)
    ensures from != to ==> Get(r, from) == Get(m, from) - value && Get(r, to) == Get(m, to) + value
    ensures from == to ==> Get(r, from) == Get(m, from)
    ensures forall a :: a != from && a != to ==> Get(r, a) == Get(m, a)
    ensures r.Keys == m.Keys + {from, to}
  {
    var m1 := m[from := Get(m, from) - value];
    m1[to := Get(m1, to) + value]
  }

  /** The sum of every balance in the map. */
  ghost function Sum(m: Balances): nat
    decreases m.Keys
  {
    if m.Keys == {} then 0
    else
      var a :| a in m.Keys;
      m[a] + Sum(m - {a})
  }

  /** Taking any one account out of the sum leaves the sum of the others. */
  lemma {:induction false} SumRemove(m: Balances, a: AccountId)
    requires a in m
    ensures Sum(m) == m[a] + Sum(m - {a})
    decreases m.Keys
  {
    var b :| b in m.Keys && Sum(m) == m[b] + Sum(m - {b});
    if b != a {
      SumRemove(m - {b}, a);
      SumRemove(m - {a}, b);
      assert m - {b} - {a} == m - {a} - {b};
    }
  }

  /** A ledger with a single account sums to that account's balance. */
  lemma SumSingleton(a: AccountId, v: nat)
    ensures Sum(map[a := v]) == v
  {
    SumRemove(map[a := v], a);
    assert map[a := v] - {a} == map[];
  }

  /** No single balance exceeds the sum. */
  lemma GetAtMostSum(m: Balances, a: AccountId)
    ensures Get(m, a) <= Sum(m)
  {
    if a in m {
      SumRemove(m, a);
    }
  }

  /** Overwriting one balance changes the sum by exactly the difference. */
  lemma SumUpdate(m: Balances, a: AccountId, v: nat)
    ensures Sum(m[a := v]) + Get(m, a) == Sum(m) + v
  {
    SumRemove(m[a := v], a);
    assert m[a := v] - {a} == m - {a};
    if a in m {
      SumRemove(m, a);
    } else {
      assert m - {a} == m;
    }
  }

  /** A transfer neither creates nor destroys balance, also when from == to. */
  lemma MovePreservesSum(m: Balances, from: AccountId, to: AccountId, value: nat)
    requires value <= Get(m, from)
    ensures Sum(Move(m, from, to, value)) == Sum(m)
  {
    var m1 := m[from := Get(m, from) - value];
    SumUpdate(m, from, Get(m, from) - value);
    SumUpdate(m1, to, Get(m1, to) + value);
  }
}
