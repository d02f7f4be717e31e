# Currency pallet ledger, modelled in Dafny

The template pallet keeps a minimal currency ledger in two storage items:
`Balances`, a map from account to `u128` balance in which an absent key
(no account) differs from a balance of zero, and `TotalIssuance`, an
optional `u128` that stays unset until the first mint. Two calls change them.
`transfer` resolves the signed sender, looks up and checks its balance, and
then credits the destination and writes the sender's remainder.
`mint_unsafe` credits any account and raises the issuance, whatever the origin.

The model is imperative, like the pallet. Storage is the class
`PalletCurrency.Pallet`, with a `balances: map<AccountId, Balance>` field and a
`totalIssuance: Option<Balance>` field. The calls are methods that modify those
fields. `transfer` never writes the issuance, so the transfer methods may
modify only ``this`balances``. The parts that only read are functions:
validating a transfer (`Validate`) and crediting an account (`Credit`). The
lemmas are stated over those functions and over the ghost sum of balances
(`BalanceSum.Sum`). The central invariant is `Pallet.IssuanceMatches()`: the sum
of present balances equals the issuance, counted as 0 while unset.

Files:

- `types.dfy` (module `PalletTypes`): `Balance` (a subset of `int` bounded by
  2^128 - 1), `Option`, `Origin`, `DispatchError`, `DispatchResult`,
  `ensure_signed` and `checked_sub`.
- `sum.dfy` (module `BalanceSum`): the sum of a balance map, and how one
  write changes it.
- `pallet.dfy` (module `PalletCurrency`): the storage class, its calls and the
  conservation lemmas.
- `first_test.dfy` (module `Runtime`): the test runtime's `AccountId = u64`, the
  `first_test` scenario, and concrete runs that show the two defects below.

`transfer` as written can never succeed (see Findings). The model keeps that
behaviour in `Pallet.Transfer`. It adds two corrected variants:

- `Pallet.TransferFixed` reverses the comparison and keeps the source's write order.
- `Pallet.TransferConserving` also writes the sender's remainder before crediting the destination.

All three run the same validation, `Validate`. `Transfer` and `TransferFixed` share
one body, `Pallet.TransferWith`, which takes the comparison as a parameter.

Facts about the code that the model keeps:

- The comparison at line 37 is `sender_balance < amount`.
- The additions at lines 40, 51 and 52 are unchecked `+` with no error value.
- `mint_unsafe` has no error path.

## Model

| member | source | states |
|---|---|---|
| `BalanceSum.SumRemove` | pallets/template/src/lib.rs:25-26 | the sum of the `Balances` map is the balance of any one present account plus the sum of the others, whichever account is taken first |
| `BalanceSum.SumInsert` | pallets/template/src/lib.rs:25-26 | storing `v` for an account replaces that account's old balance (or nothing, if it had no entry) by `v` in the sum of balances |
| `PalletCurrency.Credit` | pallets/template/src/lib.rs:40 | the `mutate` crediting `dest` creates the entry if absent, sets it to old-or-0 + amount, leaves every other account as it was, and raises the sum of balances by exactly `amount` |
| `PalletCurrency.Validate` | pallets/template/src/lib.rs:34-39 | the checks of `transfer`: unsigned origin gives `BadOrigin`, a sender without an entry gives `NonExistentAccount`, any other failure is `InsufficientBalance`; success means a signed, funded sender that passed the guard, with remainder balance - amount; with the guard as written it never succeeds, with the guard reversed it succeeds exactly when the sender holds at least `amount` |
| `PalletCurrency.CreditThenDebitConserves` | pallets/template/src/lib.rs:40-41 | in the source's write order, crediting `dest` then inserting the remainder of a different sender leaves the sum of balances unchanged |
| `PalletCurrency.SelfTransferLosesAmount` | pallets/template/src/lib.rs:40-41 | when `dest` is the sender, the insert at line 41 overwrites the credit of line 40: the account ends at balance - amount and the sum of balances falls by `amount` |
| `PalletCurrency.DebitThenCreditConserves` | pallets/template/src/lib.rs:40-41 | writing the remainder first and crediting `dest` second leaves the sum of balances unchanged for every `dest`, the sender included |
| `PalletCurrency.MintCreditFitsWhenIssuanceFits` | pallets/template/src/lib.rs:51-52 | while issuance equals the sum of balances, if the issuance addition at line 52 stays within `u128` then so does the balance addition at line 51 |
| `PalletCurrency.Pallet.constructor` | pallets/template/src/lib.rs:90 | empty storage: no balance entries, issuance unset, and the issuance invariant holds |
| `PalletCurrency.Pallet.GetBalance` | pallets/template/src/lib.rs:25-26 | reading `Balances` gives `Some` of the stored balance exactly when the account has an entry, `None` otherwise |
| `PalletCurrency.Pallet.GetTotalIssuance` | pallets/template/src/lib.rs:22-23 | reading `TotalIssuance` gives the stored optional value |
| `PalletCurrency.Pallet.TransferWith` | pallets/template/src/lib.rs:29-43 | every check runs before any write: on failure the result is the check's error and storage is unchanged; on success `dest` is credited and then the sender's remainder is inserted; `TotalIssuance` is outside the frame |
| `PalletCurrency.Pallet.Transfer` | pallets/template/src/lib.rs:29-43 | as written, `transfer` always returns an error (`BadOrigin` for an unsigned origin, `NonExistentAccount` for a sender without an entry, otherwise `InsufficientBalance`) and never changes storage |
| `PalletCurrency.Pallet.TransferFixed` | pallets/template/src/lib.rs:37-41 | with the guard reversed: succeeds exactly when the signed sender holds at least `amount`, errors change nothing; for another `dest` it credits `dest`, debits the sender, leaves other accounts and the sum unchanged, and keeps the issuance invariant; for a self-transfer the account ends at balance - amount and the sum falls by `amount` |
| `PalletCurrency.Pallet.TransferConserving` | pallets/template/src/lib.rs:37-41 | with the guard reversed and the writes reordered: same success and error conditions, same effect for another `dest`, a self-transfer changes nothing, and the sum of balances and the issuance invariant are always kept |
| `PalletCurrency.Pallet.MintUnsafe` | pallets/template/src/lib.rs:45-54 | returns `Ok` for every origin, signed or not; needs the issuance addition to fit in `u128`, and the credit addition to fit unless issuance equals the sum of balances (then it follows); `dest` gets old-or-0 + amount (its entry created if absent), every other account is unchanged, the issuance becomes old-or-0 + amount, and the issuance invariant is kept |
| `Runtime.FirstTest` | pallets/template/src/lib.rs:85-107 | on empty storage account 234 has no entry and the issuance is unset; after minting 100 to it from its own signed origin both read `Some(100)` |
| `Runtime.FundedTransferRejected` | pallets/template/src/lib.rs:37-39 | an account holding 100 that sends 40 to another is refused with `InsufficientBalance`, and nothing moves |
| `Runtime.CorrectedTransfers` | pallets/template/src/lib.rs:29-43 | with the corrected transfer, 40 of 100 moves leaving 60 and 40 with issuance 100; an overdraft then fails with `InsufficientBalance` and an account without an entry fails with `NonExistentAccount`, and afterwards both balances and the issuance still read 60, 40 and 100 |
| `Runtime.SelfTransferRuns` | pallets/template/src/lib.rs:40-41 | a self-transfer of 40 from 100 leaves 60 against an issuance of 100 in the source's write order, and 100 in the corrected order |

## Left out

- The `runtime` module (`construct_runtime!`, the `frame_system::Config` impl, `MockBlock`) is framework wiring. Only its `AccountId = u64` is kept, as `Runtime.AccountId`.
- The pallet macros, the `Config` trait and the imports are framework plumbing. The storage is a plain class.
- `ensure_signed` and `RuntimeOrigin` are framework code. `Origin` is `Signed(who) | Unsigned`, and `Unsigned` stands for every origin that is not a signed account (root or none).
- The string errors `"NonExistentAccount"` and `"InsufficientBalance"` are enumeration values, not strings.
- Overflow of the unchecked `+` at lines 40, 51 and 52 is not modelled. Whether it panics or wraps depends on the Rust build profile. The methods `requires` that each reachable addition stays within `u128` instead. The as-written `Transfer` has no such requirement, because its addition cannot be reached.
- The `TestState` externalities and the execution environment's transactional rollback are left out. The model shows only that every error is returned before the first write.
- `BalanceSum.Sum` is unbounded. The sum of balances is not itself a stored `u128`.

## Findings

| source | as written | input that shows it | evidently intended | confidence | as-written member | corrected member |
|---|---|---|---|---|---|---|
| pallets/template/src/lib.rs:37 | `ensure!(sender_balance < amount, …)` admits only senders whose balance is below `amount`, and `checked_sub` at line 39 then always fails, so `transfer` can never succeed | account 234 holds 100 and transfers 40 to account 235: the result is `InsufficientBalance` | reject when `sender_balance < amount`, i.e. `ensure!(sender_balance >= amount, …)` | high (not executed; proved) | `PalletCurrency.Pallet.Transfer`, `Runtime.FundedTransferRejected` | `PalletCurrency.Pallet.TransferFixed` |
| pallets/template/src/lib.rs:40-41 | the credit to `dest` is written before the sender's remainder is inserted, so when `dest` is the sender the insert overwrites the credit and `amount` disappears while the issuance stays put | with line 37 reversed, account 234 holds 100 and transfers 40 to itself: it ends at 60, the issuance stays 100 | a self-transfer leaves the balance unchanged and the sum of balances always equals the issuance | high (not executed; proved) | `PalletCurrency.SelfTransferLosesAmount`, `PalletCurrency.Pallet.TransferFixed`, `Runtime.SelfTransferRuns` | `PalletCurrency.Pallet.TransferConserving`, `PalletCurrency.DebitThenCreditConserves` |
