/**
 * The currency pallet: a ledger of per-account balances and a total-issuance
 * counter, with the two dispatchable operations `transfer` and `mint_unsafe`.
 *
 * The storage maps of the pallet become two fields of the class `Pallet`;
 * the pure pieces each operation is built from (validating a transfer,
 * crediting an account) are functions, so that lemmas can speak of them.
 */
module PalletCurrency {
  import opened PalletTypes
  import opened BalanceSum

  /** `Balances::<T>::get(k)`: the stored balance, `None` when the account has no entry. */
  function Get<AccountId>(m: map<AccountId, Balance>, k: AccountId): (r: Option<Balance>)
    ensures r.Some? <==> k in m
    ensures r.Some? ==> r.value == m[k]
  {
    if k in m then Some(m[k]) else None
  }

  /** `Balances::<T>::get(k).unwrap_or(0)`. */
  function BalanceOrZero<AccountId>(m: map<AccountId, Balance>, k: AccountId): (b: Balance)
  {
    UnwrapOrZero(Get(m, k))
  }

  /** The unchecked `b.unwrap_or(0) + amount` crediting `dest` stays within `u128`. */
  predicate CreditFits<AccountId>(m: map<AccountId, Balance>, dest: AccountId, amount: Balance)
  {
    BalanceOrZero(m, dest) + amount <= U128_MAX
  }

  /**
   * `Balances::<T>::mutate(dest, |b| *b = Some(b.unwrap_or(0) + amount))`:
   * `dest` gains `amount`, its entry is created if it was absent, and no
   * other entry changes.
   */
  function Credit<AccountId>(m: map<AccountId, Balance>, dest: AccountId, amount: Balance): (m': map<AccountId, Balance>)
    requires CreditFits(m, dest, amount)
    ensures m'.Keys == m.Keys + {dest}
    ensures m'[dest] == BalanceOrZero(m, dest) + amount
    ensures forall k :: k in m && k != dest ==> m'[k] == m[k]
    ensures Sum(m') == Sum(m) + amount
  {
    var v := BalanceOrZero(m, dest) + amount;
    SumInsert(m, dest, v);
    m[dest := v]
  }

  /** Which comparison the sufficiency check of `transfer` makes. */
  datatype SufficiencyGuard =
    | AsWritten  // `ensure!(sender_balance < amount, ...)`, as the pallet has it
    | Reversed   // `ensure!(sender_balance >= amount, ...)`, the evident intent

  /** The `ensure!` on the sender's balance lets the transfer go on. */
  predicate GuardAdmits(guard: SufficiencyGuard, senderBalance: Balance, amount: Balance)
  {
    match guard
    case AsWritten => senderBalance < amount
    case Reversed => senderBalance >= amount
  }

  /** The origin is signed by an account that holds at least `amount`. */
  predicate Funded<AccountId>(m: map<AccountId, Balance>, origin: Origin<AccountId>, amount: Balance)
  {
    origin.Signed? && origin.who in m && amount <= m[origin.who]
  }

  /**
   * The reading half of `transfer`, every step before its first write:
   * resolve the sender, look up its balance, check it and compute the
   * remainder with `checked_sub`. On success, the sender and its remainder.
   */
  function Validate<AccountId>(m: map<AccountId, Balance>, guard: SufficiencyGuard,
                               origin: Origin<AccountId>, amount: Balance): (r: Result<(AccountId, Balance)>)
    ensures origin.Unsigned? ==> r == Failure(BadOrigin)
    ensures origin.Signed? && origin.who !in m ==> r == Failure(NonExistentAccount)
    ensures origin.Signed? && origin.who in m ==> r.Success? || r == Failure(InsufficientBalance)
    ensures r.Success? <==> Funded(m, origin, amount) && GuardAdmits(guard, m[origin.who], amount)
    ensures r.Success? ==> r.value == (origin.who, m[origin.who] - amount)
    ensures guard == AsWritten ==> r.Failure?
    ensures guard == Reversed ==> (r.Success? <==> Funded(m, origin, amount))
  {
    match EnsureSigned(origin)
    case Failure(e) => Failure(e)
    case Success(sender) =>
      match Get(m, sender)
      case None => Failure(NonExistentAccount)
      case Some(senderBalance) =>
        if !GuardAdmits(guard, senderBalance, amount) then Failure(InsufficientBalance)
        else
          match CheckedSub(senderBalance, amount)
          case None => Failure(InsufficientBalance)
          case Some(remainder) => Success((sender, remainder))
  }

  /**
   * With the guard reversed, the source's write order (credit `dest`, then
   * insert the sender's remainder) conserves the sum of balances when `dest`
   * is not the sender.
   */
  lemma CreditThenDebitConserves<AccountId>(m: map<AccountId, Balance>, sender: AccountId,
                                            dest: AccountId, amount: Balance)
    requires sender != dest && sender in m && amount <= m[sender]
    requires CreditFits(m, dest, amount)
    ensures Sum(Credit(m, dest, amount)[sender := m[sender] - amount]) == Sum(m)
  {
    var credited := Credit(m, dest, amount);
    SumInsert(credited, sender, m[sender] - amount);
  }

  /**
   * The source's write order on a self-transfer: the insert of the remainder
   * overwrites the credit, so the account ends at balance - amount and the
   * sum of balances drops by `amount`.
   */
  lemma SelfTransferLosesAmount<AccountId>(m: map<AccountId, Balance>, sender: AccountId, amount: Balance)
    requires sender in m && amount <= m[sender]
    requires CreditFits(m, sender, amount)
    ensures Credit(m, sender, amount)[sender := m[sender] - amount] == m[sender := m[sender] - amount]
    ensures Sum(Credit(m, sender, amount)[sender := m[sender] - amount]) + amount == Sum(m)
  {
    var after := Credit(m, sender, amount)[sender := m[sender] - amount];
    assert after == m[sender := m[sender] - amount];
    SumInsert(m, sender, m[sender] - amount);
  }

  /**
   * Debiting the sender first and then crediting `dest` conserves the sum of
   * balances for every `dest`, the sender included.
   */
  lemma DebitThenCreditConserves<AccountId>(m: map<AccountId, Balance>, sender: AccountId,
                                            dest: AccountId, amount: Balance)
    requires sender in m && amount <= m[sender]
    requires CreditFits(m[sender := m[sender] - amount], dest, amount)
    ensures Sum(Credit(m[sender := m[sender] - amount], dest, amount)) == Sum(m)
  {
    SumInsert(m, sender, m[sender] - amount);
  }

  /**
   * While the issuance equals the sum of balances, an issuance that can take
   * `amount` more without leaving `u128` means the credit to any account can
   * too: of the two unchecked additions of `mint_unsafe`, the second is the
   * one that overflows first.
   */
  lemma MintCreditFitsWhenIssuanceFits<AccountId>(m: map<AccountId, Balance>, issuance: Option<Balance>,
                                                  dest: AccountId, amount: Balance)
    requires Sum(m) == UnwrapOrZero(issuance)
    requires UnwrapOrZero(issuance) + amount <= U128_MAX
    ensures CreditFits(m, dest, amount)
  {
    if dest in m {
      SumRemove(m, dest);
    }
  }

  /** The pallet's storage: `Balances` and `TotalIssuance`. */
  class Pallet<AccountId(==)> {
    /** `StorageMap<_, _, T::AccountId, Balance>`; an absent key is "no account". */
    var balances: map<AccountId, Balance>
    /** `StorageValue<_, Balance>`; `None` until the first mint. */
    var totalIssuance: Option<Balance>

    /** The sum of present balances equals the issuance (0 when never set). */
    ghost predicate IssuanceMatches()
      reads this
    {
      Sum(balances) == UnwrapOrZero(totalIssuance)
    }

    /** Empty storage, as a fresh test externality provides it. */
    constructor ()
      ensures balances == map[] && totalIssuance == None
      ensures IssuanceMatches()
    {
      balances := map[];
      totalIssuance := None;
    }

    /** `Balances::<T>::get(&who)`. */
    method GetBalance(who: AccountId) returns (b: Option<Balance>)
      ensures b.Some? <==> who in balances
      ensures b.Some? ==> b.value == balances[who]
    {
      b := Get(balances, who);
    }

    /** `TotalIssuance::<T>::get()`. */
    method GetTotalIssuance() returns (t: Option<Balance>)
      ensures t == totalIssuance
    {
      t := totalIssuance;
    }

    /**
     * The body of `transfer`, with the comparison of its sufficiency check
     * as a parameter. All checks happen before the first write; then `dest`
     * is credited and the sender's remainder inserted, in that order.
     * `TotalIssuance` is neither read nor written.
     */
    method TransferWith(guard: SufficiencyGuard, origin: Origin<AccountId>, dest: AccountId, amount: Balance)
      returns (r: DispatchResult)
      requires Validate(balances, guard, origin, amount).Success? ==> CreditFits(balances, dest, amount)
      modifies this`balances
      ensures var v := Validate(old(balances), guard, origin, amount);
              if v.Failure? then r == Err(v.error) && balances == old(balances)
              else r == Ok && balances == Credit(old(balances), dest, amount)[v.value.0 := v.value.1]
    {
      var v := Validate(balances, guard, origin, amount);
      if v.Failure? {
        return Err(v.error);
      }
      var (sender, remainder) := v.value;
      balances := Credit(balances, dest, amount);
      balances := balances[sender := remainder];
      return Ok;
    }

    /**
     * `transfer` as the pallet writes it. The check admits only a sender
     * whose balance is below `amount`, and for exactly those `checked_sub`
     * fails: the call never succeeds and never changes storage.
     */
    method Transfer(origin: Origin<AccountId>, dest: AccountId, amount: Balance) returns (r: DispatchResult)
      modifies this`balances
      ensures r.Err?
      ensures origin.Unsigned? ==> r == Err(BadOrigin)
      ensures origin.Signed? && origin.who !in old(balances) ==> r == Err(NonExistentAccount)
      ensures origin.Signed? && origin.who in old(balances) ==> r == Err(InsufficientBalance)
      ensures balances == old(balances)
    {
      r := TransferWith(AsWritten, origin, dest, amount);
    }

    /**
     * `transfer` with the sufficiency check reversed and the source's write
     * order kept. It succeeds exactly when the signed sender holds at least
     * `amount`; it conserves the sum of balances unless the sender pays
     * itself, in which case `amount` is destroyed.
     */
    method TransferFixed(origin: Origin<AccountId>, dest: AccountId, amount: Balance) returns (r: DispatchResult)
      requires Funded(balances, origin, amount) ==> CreditFits(balances, dest, amount)
      modifies this`balances
      ensures r.Ok? <==> Funded(old(balances), origin, amount)
      ensures origin.Unsigned? ==> r == Err(BadOrigin)
      ensures origin.Signed? && origin.who !in old(balances) ==> r == Err(NonExistentAccount)
      ensures origin.Signed? && origin.who in old(balances) && old(balances)[origin.who] < amount ==>
                r == Err(InsufficientBalance)
      ensures r.Err? ==> balances == old(balances)
      ensures Funded(old(balances), origin, amount) && origin.who != dest ==>
                && balances.Keys == old(balances).Keys + {dest}
                && balances[dest] == BalanceOrZero(old(balances), dest) + amount
                && balances[origin.who] == old(balances)[origin.who] - amount
                && (forall k :: k in old(balances) && k != dest && k != origin.who ==> balances[k] == old(balances)[k])
                && Sum(balances) == Sum(old(balances))
      ensures Funded(old(balances), origin, amount) && origin.who == dest ==>
                && balances == old(balances)[dest := old(balances)[dest] - amount]
                && Sum(balances) + amount == Sum(old(balances))
      ensures old(IssuanceMatches()) && (r.Err? || origin.who != dest) ==> IssuanceMatches()
    {
      r := TransferWith(Reversed, origin, dest, amount);
      if r.Ok? {
        var sender := origin.who;
        if sender != dest {
          CreditThenDebitConserves(old(balances), sender, dest, amount);
        } else {
          SelfTransferLosesAmount(old(balances), sender, amount);
        }
      }
    }

    /**
     * `transfer` with both defects corrected: the check is reversed and the
     * sender's remainder is written before `dest` is credited, so a
     * self-transfer leaves the account as it was. Every successful call
     * conserves the sum of balances.
     */
    method TransferConserving(origin: Origin<AccountId>, dest: AccountId, amount: Balance) returns (r: DispatchResult)
      requires Funded(balances, origin, amount) ==>
                 CreditFits(balances[origin.who := balances[origin.who] - amount], dest, amount)
      modifies this`balances
      ensures r.Ok? <==> Funded(old(balances), origin, amount)
      ensures origin.Unsigned? ==> r == Err(BadOrigin)
      ensures origin.Signed? && origin.who !in old(balances) ==> r == Err(NonExistentAccount)
      ensures origin.Signed? && origin.who in old(balances) && old(balances)[origin.who] < amount ==>
                r == Err(InsufficientBalance)
      ensures r.Err? ==> balances == old(balances)
      ensures Funded(old(balances), origin, amount) && origin.who != dest ==>
                && balances.Keys == old(balances).Keys + {dest}
                && balances[dest] == BalanceOrZero(old(balances), dest) + amount
                && balances[origin.who] == old(balances)[origin.who] - amount
                && (forall k :: k in old(balances) && k != dest && k != origin.who ==> balances[k] == old(balances)[k])
      ensures Funded(old(balances), origin, amount) && origin.who == dest ==> balances == old(balances)
      ensures Sum(balances) == Sum(old(balances))
      ensures old(IssuanceMatches()) ==> IssuanceMatches()
    {
      var v := Validate(balances, Reversed, origin, amount);
      if v.Failure? {
        return Err(v.error);
      }
      var (sender, remainder) := v.value;
      DebitThenCreditConserves(balances, sender, dest, amount);
      balances := balances[sender := remainder];
      balances := Credit(balances, dest, amount);
      return Ok;
    }

    /**
     * `mint_unsafe`: the origin is resolved and the result thrown away, so
     * every origin may mint. `dest` gains `amount` (its entry is created if
     * absent) and so does the issuance (set if it was absent). While the
     * issuance equals the sum of balances, the issuance addition fitting in
     * `u128` is enough for the credit to fit too.
     */
    method MintUnsafe(origin: Origin<AccountId>, dest: AccountId, amount: Balance) returns (r: DispatchResult)
      requires CreditFits(balances, dest, amount) || IssuanceMatches()
      requires UnwrapOrZero(totalIssuance) + amount <= U128_MAX
      modifies this
      ensures r == Ok
      ensures balances.Keys == old(balances).Keys + {dest}
      ensures balances[dest] == BalanceOrZero(old(balances), dest) + amount
      ensures forall k :: k in old(balances) && k != dest ==> balances[k] == old(balances)[k]
      ensures totalIssuance == Some(UnwrapOrZero(old(totalIssuance)) + amount)
      ensures Sum(balances) == Sum(old(balances)) + amount
      ensures old(IssuanceMatches()) ==> IssuanceMatches()
    {
      var discarded := EnsureSigned(origin);
      if !CreditFits(balances, dest, amount) {
        MintCreditFitsWhenIssuanceFits(balances, totalIssuance, dest, amount);
      }
      balances := Credit(balances, dest, amount);
      totalIssuance := Some(UnwrapOrZero(totalIssuance) + amount);
      return Ok;
    }
  }
}
