/** Top-ups: the pending row, and what a refused charge leaves behind. */
module TopUps {
  import opened Options
  import opened Ledger
  import opened Repository
  import opened Indexes
  import opened Sums
  import Midtrans = MidtransNotifications

  datatype TopUpError = InvalidInput | WalletNotFound | RepositoryError(error: Error) | ExternalService

  class WalletUsecase {
    const txRepo: TransactionRepository

    constructor (txRepo: TransactionRepository)
      ensures this.txRepo == txRepo
    {
      this.txRepo := txRepo;
    }

    /** `charged` is whether the payment service opens a payment page. No balance changes here. */
    method TopUp(id: TxId, wallet: Option<Wallet>, amount: real, asset: Asset, orderID: string, charged: bool)
      returns (err: Option<TopUpError>)
      modifies txRepo
      ensures txRepo.balances == old(txRepo.balances)
      ensures err == var before := old(txRepo.Tables());
        if amount <= 0.0 then Some(InvalidInput)
        else if wallet.None? then Some(WalletNotFound)
        else if id in before.txs || OrderId(orderID) in before.keys then Some(RepositoryError(UniqueViolation))
        else if !charged then Some(ExternalService)
        else None
      ensures err.Some? && !err.value.ExternalService? ==> txRepo.Tables() == old(txRepo.Tables())
      ensures err.None? || err.value.ExternalService? ==>
        var row := TopUpRow(wallet.value, amount, asset, orderID);
        && txRepo.transactions == old(txRepo.transactions)[id := row.(status := if charged then Pending else Failed)]
        && txRepo.uniqueKeys == old(txRepo.uniqueKeys)[OrderId(orderID) := id]
    {
      if amount <= 0.0 { return Some(InvalidInput); }
      if wallet.None? { return Some(WalletNotFound); }
      var repoErr := txRepo.CreatePendingTopUpTx(id, wallet.value, amount, asset, orderID);
      if repoErr.Some? { return Some(RepositoryError(repoErr.value)); }
      if !charged {
        var _ := txRepo.UpdateTransactionStatus(id, Failed);
        return Some(ExternalService);
      }
      return None;
    }
  }

  /** The tables after a top-up whose charge was refused. */
  function Refused(db: Database, id: TxId, w: Wallet, amount: real, asset: Asset, order: string): Database {
    Database(db.balances, db.txs[id := TopUpRow(w, amount, asset, order).(status := Failed)], db.keys[OrderId(order) := id])
  }

  /** Whatever notifications still come, for this order or any other, a refused top-up changes no balance. */
  lemma RefusedTopUpIsNeverCredited(g: Midtrans.Gateway, db: Database, id: TxId, w: Wallet, amount: real, asset: Asset, order: string,
                                    ns: seq<Midtrans.Notification>, k: Key)
    requires OrdersIndexed(db) && id !in db.txs && OrderId(order) !in db.keys && k in db.balances
    ensures
      var refused := Midtrans.AfterAll(g, Refused(db, id, w, amount, asset, order), ns);
      var without := Midtrans.AfterAll(g, db, ns);
      && k in refused.balances && k in without.balances && refused.balances[k] == without.balances[k]
      && id in refused.txs && refused.txs[id].status == Failed
  {
    var with := Refused(db, id, w, amount, asset, order);
    RefusedIsIndexed(db, with, id, w, amount, asset, order);
    Midtrans.CreditedOnce(g, db, ns, k);
    Midtrans.CreditedOnce(g, with, ns, k);
    Midtrans.DecidedOnce(g, with, ns, id);
    RefusedCreditsNothing(g, db, with, id, w, amount, asset, order, ns, k);
    Put(Midtrans.CreditsTo(g, db, ns, k), id, 0.0);
  }

  lemma RefusedIsIndexed(db: Database, with: Database, id: TxId, w: Wallet, amount: real, asset: Asset, order: string)
    requires OrdersIndexed(db) && id !in db.txs && OrderId(order) !in db.keys
    requires with == Refused(db, id, w, amount, asset, order)
    ensures OrdersIndexed(with)
  {
    var created := Atomic(CreatePendingTopUp(id, w, amount, asset, order), db).db;
    OrdersStayIndexed(CreatePendingTopUp(id, w, amount, asset, order), db, created);
    OrdersStayIndexed(UpdateStatus(id, Failed), created, with);
  }

  lemma RefusedCreditsNothing(g: Midtrans.Gateway, db: Database, with: Database, id: TxId, w: Wallet, amount: real, asset: Asset,
                              order: string, ns: seq<Midtrans.Notification>, k: Key)
    requires OrdersIndexed(db) && id !in db.txs && OrderId(order) !in db.keys
    requires with == Refused(db, id, w, amount, asset, order)
    ensures Midtrans.CreditsTo(g, with, ns, k) == Midtrans.CreditsTo(g, db, ns, k)[id := 0.0]
  {
    assert with.txs.Keys == db.txs.Keys + {id} && Midtrans.CreditFor(g, with, ns, id).None?;
    forall other | other in db.txs
      ensures Midtrans.CreditFor(g, with, ns, other) == Midtrans.CreditFor(g, db, ns, other)
      ensures with.txs[other] == db.txs[other]
    {
      SameCredit(g, db, with, ns, other);
    }
  }

  lemma SameCredit(g: Midtrans.Gateway, db: Database, with: Database, ns: seq<Midtrans.Notification>, id: TxId)
    requires id in db.txs && id in with.txs && with.txs[id] == db.txs[id] && with.balances == db.balances
    ensures Midtrans.CreditFor(g, with, ns, id) == Midtrans.CreditFor(g, db, ns, id)
  {
  }
}
