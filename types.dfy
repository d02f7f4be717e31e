/**
 * Value types shared by the currency pallet: the `u128` balance, the
 * optional values that storage returns, the caller's origin and the
 * dispatch result of an extrinsic.
 */
module PalletTypes {

  /** Largest value of Rust's `u128`, 2^128 - 1. */
  const U128_MAX: int := 0xffff_ffff_ffff_ffff_ffff_ffff_ffff_ffff

  /** `type Balance = u128`: an unsigned integer of 128 bits. */
  type Balance = b: int | 0 <= b <= U128_MAX

  /** What a storage read returns: an absent key is `None`, distinct from `Some(0)`. */
  datatype Option<T> = None | Some(value: T)

  /**
   * The caller of an extrinsic. `Unsigned` stands for every origin that is
   * not a signed account (root or none); the ledger only asks whether the
   * origin is signed and by whom.
   */
  datatype Origin<AccountId> = Signed(who: AccountId) | Unsigned

  /**
   * Why a dispatch failed. `BadOrigin` is what `ensure_signed` reports; the
   * other two are the string errors the pallet raises.
   */
  datatype DispatchError = BadOrigin | NonExistentAccount | InsufficientBalance

  /** `DispatchResult`, that is `Result<(), DispatchError>`. */
  datatype DispatchResult = Ok | Err(error: DispatchError)

  /** A value or the error that stopped its computation (Rust's `?` operator). */
  datatype Result<T> = Success(value: T) | Failure(error: DispatchError)

  /** `ensure_signed(origin)`: the signing account, or `BadOrigin`. */
  function EnsureSigned<AccountId>(origin: Origin<AccountId>): (r: Result<AccountId>)
    ensures r.Success? <==> origin.Signed?
    ensures r.Success? ==> r.value == origin.who
    ensures r.Failure? ==> r.error == BadOrigin
  {
    match origin
    case Signed(who) => Success(who)
    case Unsigned => Failure(BadOrigin)
  }

  /** `u128::checked_sub`: the difference, or `None` when it would be negative. */
  function CheckedSub(a: Balance, b: Balance): (r: Option<Balance>)
    ensures r.Some? <==> b <= a
    ensures r.Some? ==> r.value + b == a
  {
    if b <= a then Some(a - b) else None
  }

  /** `opt.unwrap_or(0)` on an optional balance. */
  function UnwrapOrZero(opt: Option<Balance>): (b: Balance)
    ensures opt.Some? ==> b == opt.value
    ensures opt.None? ==> b == 0
  {
    match opt
    case Some(v) => v
    case None => 0
  }
}
