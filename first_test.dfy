/**
 * The test runtime (`AccountId = u64`) and concrete runs of the pallet:
 * the `first_test` scenario, and the runs that show each of the two
 * defects of `transfer` next to the corrected behaviour.
 */
module Runtime {
  import opened PalletTypes
  import opened PalletCurrency

  /** `type AccountId = u64` in the test runtime's `frame_system::Config`. */
  type AccountId = a: int | 0 <= a < 0x1_0000_0000_0000_0000

  /**
   * `first_test`: on empty storage Alice (account 234) has no entry and the
   * issuance is unset; after she mints 100 to herself both read `Some(100)`.
   */
  method FirstTest() returns (balanceBefore: Option<Balance>, issuanceBefore: Option<Balance>,
                              minted: DispatchResult,
                              balanceAfter: Option<Balance>, issuanceAfter: Option<Balance>)
    ensures balanceBefore == None && issuanceBefore == None
    ensures minted == Ok
    ensures balanceAfter == Some(100) && issuanceAfter == Some(100)
  {
    var pallet := new Pallet<AccountId>();
    var alice: AccountId := 234;
    balanceBefore := pallet.GetBalance(alice);
    issuanceBefore := pallet.GetTotalIssuance();
    minted := pallet.MintUnsafe(Signed(alice), alice, 100);
    balanceAfter := pallet.GetBalance(alice);
    issuanceAfter := pallet.GetTotalIssuance();
  }

  /**
   * Alice holds 100 and sends 40 to Bob: `transfer` as written refuses with
   * `InsufficientBalance` and nothing moves.
   */
  method FundedTransferRejected() returns (r: DispatchResult, alice: Option<Balance>, bob: Option<Balance>)
    ensures r == Err(InsufficientBalance)
    ensures alice == Some(100) && bob == None
  {
    var pallet := new Pallet<AccountId>();
    var minted := pallet.MintUnsafe(Signed(234), 234, 100);
    r := pallet.Transfer(Signed(234), 235, 40);
    alice := pallet.GetBalance(234);
    bob := pallet.GetBalance(235);
  }

  /**
   * The same run with the corrected transfer: Alice ends at 60 and Bob at
   * 40 with the issuance still 100; then Bob asking to send 1000 and an
   * account without an entry asking to send 1 both fail and change nothing.
   */
  method CorrectedTransfers() returns (first: DispatchResult, alice: Option<Balance>, bob: Option<Balance>,
                                       issuance: Option<Balance>, overdraft: DispatchResult,
                                       unknown: DispatchResult, aliceAfter: Option<Balance>,
                                       bobAfter: Option<Balance>, issuanceAfter: Option<Balance>)
    ensures first == Ok
    ensures alice == Some(60) && bob == Some(40) && issuance == Some(100)
    ensures overdraft == Err(InsufficientBalance)
    ensures unknown == Err(NonExistentAccount)
    ensures aliceAfter == Some(60) && bobAfter == Some(40) && issuanceAfter == Some(100)
  {
    var pallet := new Pallet<AccountId>();
    var minted := pallet.MintUnsafe(Signed(234), 234, 100);
    first := pallet.TransferConserving(Signed(234), 235, 40);
    alice := pallet.GetBalance(234);
    bob := pallet.GetBalance(235);
    issuance := pallet.GetTotalIssuance();
    overdraft := pallet.TransferConserving(Signed(235), 234, 1000);
    unknown := pallet.TransferConserving(Signed(236), 234, 1);
    aliceAfter := pallet.GetBalance(234);
    bobAfter := pallet.GetBalance(235);
    issuanceAfter := pallet.GetTotalIssuance();
  }

  /**
   * Alice holds 100 and pays 40 to herself. With the guard reversed but the
   * source's write order, she ends at 60 while the issuance stays 100; with
   * the corrected order she keeps 100.
   */
  method SelfTransferRuns() returns (fixedResult: DispatchResult, fixedBalance: Option<Balance>,
                                     fixedIssuance: Option<Balance>,
                                     conservingResult: DispatchResult, conservingBalance: Option<Balance>)
    ensures fixedResult == Ok && fixedBalance == Some(60) && fixedIssuance == Some(100)
    ensures conservingResult == Ok && conservingBalance == Some(100)
  {
    var fixed := new Pallet<AccountId>();
    var minted := fixed.MintUnsafe(Signed(234), 234, 100);
    fixedResult := fixed.TransferFixed(Signed(234), 234, 40);
    fixedBalance := fixed.GetBalance(234);
    fixedIssuance := fixed.GetTotalIssuance();

    var conserving := new Pallet<AccountId>();
    minted := conserving.MintUnsafe(Signed(234), 234, 100);
    conservingResult := conserving.TransferConserving(Signed(234), 234, 40);
    conservingBalance := conserving.GetBalance(234);
  }
}
