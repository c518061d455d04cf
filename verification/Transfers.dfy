/** Transfers between users: the guards that make ExecuteTransferTx safe. */
module Transfers {
  import opened Options
  import opened Ledger
  import opened Repository
  import opened Sums
  import opened Users
  import Accounting

  datatype TransferError = NonPositiveAmount | SameUser | SenderNotFound | RecipientNotFound | RepositoryError(error: Error)

  function Refusal(wallets: map<User, Wallet>, sender: User, dest: User, amount: real): Option<TransferError> {
    if amount <= 0.0 then Some(NonPositiveAmount)
    else if sender == dest then Some(SameUser)
    else if sender !in wallets then Some(SenderNotFound)
    else if dest !in wallets then Some(RecipientNotFound)
    else None
  }

  /** Which requests pass, and which error the first failing check gives. */
  lemma Requirements(wallets: map<User, Wallet>, sender: User, dest: User, amount: real)
    ensures
      var asked := amount > 0.0 && sender != dest;
      var refusal := Refusal(wallets, sender, dest, amount);
      && (amount <= 0.0 ==> refusal == Some(NonPositiveAmount))
      && (amount > 0.0 && sender == dest ==> refusal == Some(SameUser))
      && (asked && sender !in wallets ==> refusal == Some(SenderNotFound))
      && (asked && sender in wallets && dest !in wallets ==> refusal == Some(RecipientNotFound))
      && (asked && sender in wallets && dest in wallets ==> refusal.None?)
  {
  }

  class TransferUsecase {
    const txRepo: TransactionRepository
    const userRepo: UserRepository

    constructor (txRepo: TransactionRepository, userRepo: UserRepository)
      ensures this.txRepo == txRepo && this.userRepo == userRepo
    {
      this.txRepo, this.userRepo := txRepo, userRepo;
    }

    method Transfer(id: TxId, sender: User, dest: User, amount: real, asset: Asset) returns (err: Option<TransferError>)
      modifies txRepo
      ensures
        var wallets := userRepo.wallets;
        var refusal := Refusal(wallets, sender, dest, amount);
        if refusal.Some? then err == refusal && txRepo.Tables() == old(txRepo.Tables())
        else
          && (err.Some? ==> err.value.RepositoryError?)
          && Answers(Atomic(ExecuteTransfer(id, wallets[sender], wallets[dest], amount, asset), old(txRepo.Tables())),
                     old(txRepo.Tables()), txRepo.Tables(), if err.Some? then Some(err.value.error) else None)
    {
      if amount <= 0.0 { return Some(NonPositiveAmount); }
      if sender == dest { return Some(SameUser); }
      var senderWallet := userRepo.GetWalletByUserID(sender);
      if senderWallet.None? { return Some(SenderNotFound); }
      var recipientWallet := userRepo.GetWalletByUserID(dest);
      if recipientWallet.None? { return Some(RecipientNotFound); }
      var repoErr := txRepo.ExecuteTransferTx(id, senderWallet.value, recipientWallet.value, amount, asset);
      return if repoErr.Some? then Some(RepositoryError(repoErr.value)) else None;
    }
  }

  lemma HeldPut(balances: map<Key, real>, k: Key, v: real, a: Asset)
    ensures Sum(Accounting.Held(balances[k := v], a))
      == Sum(Accounting.Held(balances, a)) + if k.asset == a then v - (if k in balances then balances[k] else 0.0) else 0.0
  {
    if k.asset == a {
      Put(Accounting.Held(balances, a), k, v);
      assert Accounting.Held(balances[k := v], a) == Accounting.Held(balances, a)[k := v];
    } else {
      assert Accounting.Held(balances[k := v], a) == Accounting.Held(balances, a);
    }
  }

  /**
    With its guards passed, a committed transfer takes the amount from the
    sender, gives it to the recipient, changes no other balance and leaves every
    asset's total as it was.
   */
  lemma TransferMoves(db: Database, wallets: map<User, Wallet>, id: TxId, sender: User, dest: User, amount: real, asset: Asset, a: Asset)
    requires OneUserEach(wallets) && Refusal(wallets, sender, dest, amount).None?
    requires Atomic(ExecuteTransfer(id, wallets[sender], wallets[dest], amount, asset), db).Committed?
    ensures
      var after := Atomic(ExecuteTransfer(id, wallets[sender], wallets[dest], amount, asset), db).db;
      var from, to := Key(wallets[sender], asset), Key(wallets[dest], asset);
      && from != to && from in db.balances && to in db.balances && db.balances[from] >= amount
      && after.balances == db.balances[from := db.balances[from] - amount][to := db.balances[to] + amount]
      && Accounting.Total(after, a) == Accounting.Total(db, a)
  {
    assert wallets[sender] != wallets[dest];
    MoveKeepsTotal(db.balances, Key(wallets[sender], asset), Key(wallets[dest], asset), amount, a);
  }

  lemma MoveKeepsTotal(balances: map<Key, real>, from: Key, to: Key, amount: real, a: Asset)
    requires from in balances && to in balances && from != to && from.asset == to.asset
    ensures Sum(Accounting.Held(balances[from := balances[from] - amount][to := balances[to] + amount], a)) == Sum(Accounting.Held(balances, a))
  {
    HeldPut(balances, from, balances[from] - amount, a);
    HeldPut(balances[from := balances[from] - amount], to, balances[to] + amount, a);
  }

  /** Between one wallet and itself the second write would win and the amount would come from nowhere. */
  lemma SameWalletWouldMint(db: Database, id: TxId, w: Wallet, amount: real, asset: Asset)
    requires Atomic(ExecuteTransfer(id, w, w, amount, asset), db).Committed?
    ensures
      var after := Atomic(ExecuteTransfer(id, w, w, amount, asset), db).db;
      Accounting.Total(after, asset) == Accounting.Total(db, asset) + amount
  {
    var key := Key(w, asset);
    HeldPut(db.balances, key, db.balances[key] - amount, asset);
    HeldPut(db.balances[key := db.balances[key] - amount], key, db.balances[key] + amount, asset);
  }
}
