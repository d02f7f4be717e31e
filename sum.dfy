/**
 * The sum of all present balances of a ledger, and how it changes when one
 * entry is written.  This is the quantity that total issuance is meant to
 * track.
 */
module BalanceSum {
  import opened PalletTypes

  /** Some key of a non-empty map; a function, so every use picks the same key. */
  ghost function Pick<AccountId>(m: map<AccountId, Balance>): (k: AccountId)
    requires m.Keys != {}
    ensures k in m
  {
    var k :| k in m; k
  }

  /** Sum of every balance present in `m` (absent accounts contribute nothing). */
  ghost function Sum<AccountId>(m: map<AccountId, Balance>): nat
    decreases m.Keys
  {
    if m.Keys == {} then 0
    else
      var k := Pick(m);
      m[k] + Sum(m - {k})
  }

  /** The sum may be computed by taking out any key first, not only the one `Sum` picks. */
  lemma {:induction false} SumRemove<AccountId>(m: map<AccountId, Balance>, k: AccountId)
    requires k in m
    ensures Sum(m) == m[k] + Sum(m - {k})
    decreases m.Keys
  {
    var j := Pick(m);
    assert Sum(m) == m[j] + Sum(m - {j});
    if j != k {
      var mj, mk := m - {j}, m - {k};
      assert k in mj && j in mk;
      SumRemove(mj, k);
      SumRemove(mk, j);
      assert mj - {k} == mk - {j};
    }
  }

  /** Writing `v` at `k` replaces whatever `k` held by `v` in the sum. */
  lemma SumInsert<AccountId>(m: map<AccountId, Balance>, k: AccountId, v: Balance)
    ensures Sum(m[k := v]) == Sum(m - {k}) + v
    ensures k in m ==> Sum(m[k := v]) + m[k] == Sum(m) + v
    ensures k !in m ==> Sum(m[k := v]) == Sum(m) + v
  {
    var m' := m[k := v];
    SumRemove(m', k);
    assert m' - {k} == m - {k};
    if k in m {
      SumRemove(m, k);
    } else {
      assert m - {k} == m;
    }
  }
}
