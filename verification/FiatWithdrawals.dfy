/** Fiat withdrawals: the guards, the rounding, the payout call and what its failure gives back. */
module FiatWithdrawals {
  import opened Options
  import opened Ledger
  import opened Repository
  import opened Decimals
  import Undo

  const MIN_AMOUNT: real := 50000.0
  const ADMIN_FEE: real := 2500.0

  /** The answer of the payout service; the first payout's status in lower case, if there is one. */
  datatype Payout = NotConfigured | Refused | Accepted(status: Option<string>)

  datatype Response = Response(id: TxId, amount: real, adminFee: real, totalDeducted: real, status: Status)

  datatype FiatError = BelowMinimum | WalletNotFound | InsufficientBalance | RepositoryError(error: Error) | ExternalService

  /** Why a request stops before anything is written. */
  function Refusal(db: Database, id: TxId, wallet: Option<Wallet>, requested: real): Option<FiatError> {
    if requested < MIN_AMOUNT then Some(BelowMinimum)
    else if wallet.None? then Some(WalletNotFound)
    else
      var key := Key(wallet.value, IDR);
      if key !in db.balances || db.balances[key] < requested + ADMIN_FEE then Some(InsufficientBalance)
      else if db.balances[key] < Round(requested) + ADMIN_FEE then Some(RepositoryError(Insufficient))
      else if id in db.txs then Some(RepositoryError(UniqueViolation))
      else None
  }

  /** Which requests pass, and which error the first failing check gives; the fee is 2500 rupiah. */
  lemma Requirements(db: Database, id: TxId, wallet: Option<Wallet>, requested: real)
    ensures
      var enough, known := requested >= 50000.0, wallet.Some?;
      var balance := if known && Key(wallet.value, IDR) in db.balances then Some(db.balances[Key(wallet.value, IDR)]) else None;
      var covered := balance.Some? && balance.value >= requested + 2500.0;
      var coversRounded := balance.Some? && balance.value >= Round(requested) + 2500.0;
      var refusal := Refusal(db, id, wallet, requested);
      && (!enough ==> refusal == Some(BelowMinimum))
      && (enough && !known ==> refusal == Some(WalletNotFound))
      && (enough && known && !covered ==> refusal == Some(InsufficientBalance))
      && (enough && covered && !coversRounded ==> refusal == Some(RepositoryError(Insufficient)))
      && (enough && covered && coversRounded ==> refusal == if id in db.txs then Some(RepositoryError(UniqueViolation)) else None)
  {
  }

  function StatusOf(payout: Payout): Status {
    if payout.Accepted? && payout.status.Some? && payout.status.value in {"success", "processed"} then Success else Pending
  }

  /** The columns of a fiat withdrawal. */
  predicate IsWithdrawal(t: Transaction, w: Wallet, amount: real, status: Status) {
    && t.kind == WithdrawFiat && t.status == status && t.source == Some(w) && t.destination.None?
    && t.asset == IDR && t.amount == amount && t.fee == Some(2500.0)
    && t.rate.None? && t.txHash.None? && t.orderId.None?
  }

  /** What a request of this amount asks the repository to do. */
  function Requested(id: TxId, w: Wallet, requested: real): Op {
    ExecuteWithdrawFiat(id, w, Round(requested), ADMIN_FEE, IDR)
  }

  /** What the payout's answer asks it to do. */
  function Finish(id: TxId, payout: Payout): Option<Op> {
    match payout
    case NotConfigured => None
    case Refused => Some(RejectFiat(id))
    case Accepted(first) => if first.Some? then Some(UpdateStatus(id, StatusOf(payout))) else None
  }

  class FiatUsecase {
    const txRepo: TransactionRepository

    constructor (txRepo: TransactionRepository)
      ensures this.txRepo == txRepo
    {
      this.txRepo := txRepo;
    }

    /**
      What the response reports as deducted is what left the balance and what a
      rejection would give back. An error gives everything back: only a refused
      payout leaves a row behind, a failed one.
     */
    method WithdrawFiat(id: TxId, wallet: Option<Wallet>, requested: real, payout: Payout)
      returns (response: Option<Response>, err: Option<FiatError>)
      modifies txRepo
      ensures txRepo.uniqueKeys == old(txRepo.uniqueKeys)
      ensures response.None? <==> err.Some?
      ensures Refusal(old(txRepo.Tables()), id, wallet, requested).None? ==>
        var pending := Atomic(Requested(id, wallet.value, requested), old(txRepo.Tables()));
        pending.Committed? && txRepo.Tables() == Applied(pending.db, Finish(id, payout))
      ensures err == var refusal := Refusal(old(txRepo.Tables()), id, wallet, requested);
        if refusal.Some? then refusal else if payout.Refused? then Some(ExternalService) else None
      ensures err.Some? ==> txRepo.balances == old(txRepo.balances)
      ensures err.Some? && err != Some(ExternalService) ==> txRepo.transactions == old(txRepo.transactions)
      ensures err == Some(ExternalService) ==>
        && wallet.Some? && id in txRepo.transactions
        && txRepo.transactions == old(txRepo.transactions)[id := txRepo.transactions[id]]
        && IsWithdrawal(txRepo.transactions[id], wallet.value, Round(requested), Failed)
      ensures response.Some? ==>
        var r, key := response.value, Key(wallet.value, IDR);
        && r.id == id && r.amount == Round(requested) && r.adminFee == 2500.0 && r.totalDeducted == Round(requested) + 2500.0
        && r.status == (if payout in {Accepted(Some("success")), Accepted(Some("processed"))} then Success else Pending)
        && txRepo.balances == old(txRepo.balances)[key := old(txRepo.balances)[key] - r.totalDeducted]
        && id in txRepo.transactions && txRepo.transactions == old(txRepo.transactions)[id := txRepo.transactions[id]]
        && IsWithdrawal(txRepo.transactions[id], wallet.value, r.amount, r.status)
        && r.totalDeducted == RefundAmount(txRepo.transactions[id], true)
    {
      if requested < MIN_AMOUNT { return None, Some(BelowMinimum); }
      if wallet.None? { return None, Some(WalletNotFound); }
      var key := Key(wallet.value, IDR);
      var amount := requested;
      var adminFee := ADMIN_FEE;
      var totalDeducted := amount + adminFee;
      if key !in txRepo.balances || txRepo.balances[key] < totalDeducted { return None, Some(InsufficientBalance); }

      RoundShift(requested, 2500);
      amount := Round(amount);
      adminFee := Round(adminFee);
      totalDeducted := Round(totalDeducted);
      FeeIsWhole();
      ghost var before := txRepo.Tables();
      var repoErr := txRepo.ExecuteWithdrawFiatTx(id, wallet.value, amount, adminFee, IDR);
      if repoErr.Some? { return None, Some(RepositoryError(repoErr.value)); }

      var status := Pending;
      match payout {
        case NotConfigured =>
        case Refused =>
          var _ := txRepo.RejectWithdrawFiatTx(id);
          assert txRepo.balances == before.balances;
          return None, Some(ExternalService);
        case Accepted(first) =>
          if first.Some? {
            status := if first.value == "success" || first.value == "processed" then Success else Pending;
            var _ := txRepo.UpdateTransactionStatus(id, status);
          }
      }
      return Some(Response(id, amount, adminFee, totalDeducted, status)), None;
    }
  }

  lemma FeeIsWhole()
    ensures Round(ADMIN_FEE) == ADMIN_FEE
  {
    FloorIs(ADMIN_FEE, 2500);
    RoundWhole(ADMIN_FEE);
  }

  /**
    Whatever else commits between the debit and the payout's refusal, rejecting
    returns exactly the reported total, and the ledger is as without the
    withdrawal but for its failed row.
   */
  lemma PayoutFailureRestores(db: Database, id: TxId, w: Wallet, requested: real, between: seq<Op>)
    requires Refusal(db, id, Some(w), requested).None? && forall op | op in between :: !Names(op, id)
    requires Replay(Atomic(Requested(id, w, requested), db).db, between).Some?
    ensures
      var pending := Replay(Atomic(Requested(id, w, requested), db).db, between).value;
      var key := Key(w, IDR);
      && Replay(db, between).Some?
      && var alone := Replay(db, between).value;
      && Atomic(RejectFiat(id), pending)
         == Committed(alone.(txs := alone.txs[id := WithdrawFiatRow(w, Round(requested), ADMIN_FEE, IDR).(status := Failed)]))
      && key in pending.balances && key in alone.balances
      && alone.balances[key] == pending.balances[key] + Round(requested + ADMIN_FEE)
  {
    RoundShift(requested, 2500);
    RoundNear(requested);
    var op := Requested(id, w, requested);
    Undo.RejectUndoes(db, op, between);
    Undo.ReplayKeepsRow(Atomic(op, db).db, between, id);
  }

  /**
    The check on the unrounded total can pass and the debit still be refused:
    exactly when rounding the amount up takes it past the balance.
   */
  lemma RoundingRefuses(db: Database, id: TxId, w: Wallet, requested: real)
    requires Key(w, IDR) in db.balances && requested >= MIN_AMOUNT
    ensures Refusal(db, id, Some(w), requested) == Some(RepositoryError(Insufficient))
      <==> requested + ADMIN_FEE <= db.balances[Key(w, IDR)] < Round(requested + ADMIN_FEE)
  {
    RoundShift(requested, 2500);
  }
}
