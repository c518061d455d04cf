/**
  What each operation does to balances, rows and indexes, in the terms of its
  caller: when it is refused and why, which balances move by how much, and
  every column of the row it writes.
 */
module OperationEffects {
  import opened Options
  import opened Ledger

  /** The balances outside ks, and which of them exist, are as before. */
  ghost predicate OnlyMoves(db: Database, after: Database, ks: set<Key>) {
    && db.balances.Keys <= after.balances.Keys <= db.balances.Keys + ks
    && forall k | k in db.balances && k !in ks :: after.balances[k] == db.balances[k]
  }

  /** Row id is written, and no other row. */
  ghost predicate OnlyWrites(db: Database, after: Database, id: TxId) {
    && after.txs.Keys == db.txs.Keys + {id}
    && forall other | other in db.txs && other != id :: after.txs[other] == db.txs[other]
  }

  lemma OpeningEffect(db: Database, w: Wallet)
    ensures
      var outcome := Atomic(OpenWallet(w), db);
      if exists a :: a in {IDR, USDT, USDC} && Key(w, a) in db.balances then outcome == RolledBack(UniqueViolation)
      else
        && outcome.Committed? && outcome.db.txs == db.txs && outcome.db.keys == db.keys
        && outcome.db.balances.Keys == db.balances.Keys + {Key(w, IDR), Key(w, USDT), Key(w, USDC)}
        && (forall a | a in {IDR, USDT, USDC} :: outcome.db.balances[Key(w, a)] == 0.0)
        && forall k | k in db.balances :: outcome.db.balances[k] == db.balances[k]
  {
  }

  lemma TransferEffect(db: Database, id: TxId, sender: Wallet, recipient: Wallet, amount: real, asset: Asset)
    ensures
      var outcome := Atomic(ExecuteTransfer(id, sender, recipient, amount, asset), db);
      var from, to := Key(sender, asset), Key(recipient, asset);
      if from !in db.balances || to !in db.balances then outcome == RolledBack(NotFound)
      else if db.balances[from] < amount then outcome == RolledBack(Insufficient)
      else if id in db.txs then outcome == RolledBack(UniqueViolation)
      else
        && outcome.Committed? && OnlyMoves(db, outcome.db, {from, to}) && OnlyWrites(db, outcome.db, id)
        && outcome.db.keys == db.keys
        && (sender != recipient ==> outcome.db.balances[from] == db.balances[from] - amount)
        && outcome.db.balances[to] == db.balances[to] + amount
        && var t := outcome.db.txs[id];
        && t.kind == TransferFiat && t.status == Success && t.source == Some(sender) && t.destination == Some(recipient)
        && t.asset == asset && t.amount == amount
        && t.fee.None? && t.rate.None? && t.txHash.None? && t.orderId.None?
  {
  }

  lemma WithdrawFiatEffect(db: Database, id: TxId, w: Wallet, amount: real, fee: real, asset: Asset)
    ensures
      var outcome := Atomic(ExecuteWithdrawFiat(id, w, amount, fee, asset), db);
      var key := Key(w, asset);
      if key !in db.balances then outcome == RolledBack(NotFound)
      else if db.balances[key] < amount + fee then outcome == RolledBack(Insufficient)
      else if id in db.txs then outcome == RolledBack(UniqueViolation)
      else
        && outcome.Committed? && OnlyMoves(db, outcome.db, {key}) && OnlyWrites(db, outcome.db, id)
        && outcome.db.keys == db.keys
        && outcome.db.balances[key] == db.balances[key] - amount - fee
        && var t := outcome.db.txs[id];
        && t.kind == WithdrawFiat && t.status == Pending && t.source == Some(w) && t.destination.None?
        && t.asset == asset && t.amount == amount && t.fee == Some(fee)
        && t.rate.None? && t.txHash.None? && t.orderId.None?
  {
  }

  lemma CreateTopUpEffect(db: Database, id: TxId, w: Wallet, amount: real, asset: Asset, order: string)
    ensures
      var outcome := Atomic(CreatePendingTopUp(id, w, amount, asset, order), db);
      if id in db.txs || OrderId(order) in db.keys then outcome == RolledBack(UniqueViolation)
      else
        && outcome.Committed? && outcome.db.balances == db.balances && OnlyWrites(db, outcome.db, id)
        && outcome.db.keys == db.keys[OrderId(order) := id]
        && var t := outcome.db.txs[id];
        && t.kind == TopUp && t.status == Pending && t.source.None? && t.destination == Some(w)
        && t.asset == asset && t.amount == amount && t.orderId == Some(order)
        && t.fee.None? && t.rate.None? && t.txHash.None?
  {
  }

  /** Whatever its status was, the row becomes successful, and keeps its other columns; the credit is always rupiah. */
  lemma SettleEffect(db: Database, id: TxId, w: Wallet, amount: real)
    ensures
      var outcome := Atomic(SettleTopUp(id, w, amount), db);
      var key := Key(w, IDR);
      if key !in db.balances then outcome == RolledBack(NotFound)
      else
        && outcome.Committed? && OnlyMoves(db, outcome.db, {key}) && outcome.db.keys == db.keys
        && outcome.db.balances[key] == db.balances[key] + amount
        && (id !in db.txs ==> outcome.db.txs == db.txs)
        && (id in db.txs ==>
              && OnlyWrites(db, outcome.db, id)
              && outcome.db.txs[id] == db.txs[id].(status := Success, credit := outcome.db.txs[id].credit))
  {
  }

  lemma StatusEffect(db: Database, id: TxId, status: Status)
    ensures
      var outcome := Atomic(UpdateStatus(id, status), db);
      && outcome.Committed? && outcome.db.balances == db.balances && outcome.db.keys == db.keys
      && (id !in db.txs ==> outcome.db.txs == db.txs)
      && (id in db.txs ==> OnlyWrites(db, outcome.db, id) && outcome.db.txs[id] == db.txs[id].(status := status))
  {
  }

  lemma DepositEffect(db: Database, id: TxId, w: Wallet, amount: real, asset: Asset, hash: string)
    ensures
      var outcome := Atomic(CreditDeposit(id, w, amount, asset, hash), db);
      var key := Key(w, asset);
      if TxHash(hash) in db.keys then outcome == RolledBack(Duplicate)
      else if id in db.txs then outcome == RolledBack(UniqueViolation)
      else
        && outcome.Committed? && OnlyMoves(db, outcome.db, {key}) && OnlyWrites(db, outcome.db, id)
        && outcome.db.keys == db.keys[TxHash(hash) := id]
        && key in outcome.db.balances
        && outcome.db.balances[key] - amount == (if key in db.balances then db.balances[key] else 0.0)
        && var t := outcome.db.txs[id];
        && t.kind == CryptoDeposit && t.status == Success && t.source.None? && t.destination == Some(w)
        && t.asset == asset && t.amount == amount && t.txHash == Some(hash)
        && t.fee.None? && t.rate.None? && t.orderId.None?
  {
  }

  lemma CreateWithdrawalEffect(db: Database, id: TxId, w: Wallet, amount: real, asset: Asset)
    ensures
      var outcome := Atomic(CreatePendingWithdrawal(id, w, amount, asset), db);
      var key := Key(w, asset);
      if key !in db.balances then outcome == RolledBack(NotFound)
      else if db.balances[key] < amount then outcome == RolledBack(Insufficient)
      else if id in db.txs then outcome == RolledBack(UniqueViolation)
      else
        && outcome.Committed? && OnlyMoves(db, outcome.db, {key}) && OnlyWrites(db, outcome.db, id)
        && outcome.db.keys == db.keys
        && outcome.db.balances[key] == db.balances[key] - amount
        && var t := outcome.db.txs[id];
        && t.kind == CryptoWithdrawal && t.status == Pending && t.source == Some(w) && t.destination.None?
        && t.asset == asset && t.amount == amount
        && t.fee.None? && t.rate.None? && t.txHash.None? && t.orderId.None?
  {
  }

  /** Status and hash are written together; a hash that another row carries refuses both. */
  lemma UpdateWithdrawalEffect(db: Database, id: TxId, hash: string, status: Status)
    requires id in db.txs
    ensures
      var outcome := Atomic(UpdateWithdrawal(id, Some(hash), status), db);
      var t := db.txs[id];
      if t.txHash != Some(hash) && TxHash(hash) in db.keys then outcome == RolledBack(UniqueViolation)
      else
        && outcome.Committed? && outcome.db.balances == db.balances && OnlyWrites(db, outcome.db, id)
        && outcome.db.txs[id] == t.(status := status, txHash := Some(hash))
        && (t.txHash != Some(hash) ==> TxHash(hash) in outcome.db.keys && outcome.db.keys[TxHash(hash)] == id)
        && (t.txHash.Some? && t.txHash != Some(hash) ==> TxHash(t.txHash.value) !in outcome.db.keys)
        && forall u | u in db.keys && u != TxHash(hash) && !(t.txHash.Some? && u == TxHash(t.txHash.value)) ::
             u in outcome.db.keys && outcome.db.keys[u] == db.keys[u]
  {
  }

  /** Without a hash only the status is written, and for a missing row nothing. */
  lemma UpdateWithoutHashEffect(db: Database, id: TxId, hash: Option<string>, status: Status)
    ensures
      var outcome := Atomic(UpdateWithdrawal(id, hash, status), db);
      && (id !in db.txs ==> outcome == Committed(db))
      && (id in db.txs && hash.None? ==>
            && outcome.Committed? && outcome.db.balances == db.balances && outcome.db.keys == db.keys
            && OnlyWrites(db, outcome.db, id) && outcome.db.txs[id] == db.txs[id].(status := status))
  {
  }

  lemma SwapEffect(db: Database, id: TxId, w: Wallet, from: Asset, to: Asset, debit: real, received: real, rate: real, fee: real)
    ensures
      var outcome := Atomic(ExecuteSwap(id, w, from, to, debit, received, rate, fee), db);
      var source, target := Key(w, from), Key(w, to);
      if source !in db.balances then outcome == RolledBack(NotFound)
      else if db.balances[source] < debit then outcome == RolledBack(Insufficient)
      else if target !in db.balances then outcome == RolledBack(NotFound)
      else if id in db.txs then outcome == RolledBack(UniqueViolation)
      else
        && outcome.Committed? && OnlyMoves(db, outcome.db, {source, target}) && OnlyWrites(db, outcome.db, id)
        && outcome.db.keys == db.keys
        && (from != to ==> outcome.db.balances[source] == db.balances[source] - debit)
        && outcome.db.balances[target] == db.balances[target] + received
        && var t := outcome.db.txs[id];
        && t.kind == Swap && t.status == Success && t.source == Some(w) && t.destination.None?
        && t.asset == from && t.amount == debit && t.rate == Some(rate) && t.fee == Some(fee)
        && t.txHash.None? && t.orderId.None?
  {
  }

  /** A rejection of a pending row gives its amount, and a fiat one its fee too, back to its source; others do nothing. */
  lemma RejectEffect(db: Database, id: TxId, fiat: bool)
    ensures
      var outcome := Atomic(if fiat then RejectFiat(id) else RejectCrypto(id), db);
      if id !in db.txs then outcome == RolledBack(NotFound)
      else if db.txs[id].status != Pending then outcome == Committed(db)
      else if db.txs[id].source.None? then outcome == RolledBack(SourceIsNil)
      else
        var t := db.txs[id];
        var key := Key(t.source.value, t.asset);
        if key !in db.balances then outcome == RolledBack(NotFound)
        else
          && outcome.Committed? && OnlyMoves(db, outcome.db, {key}) && OnlyWrites(db, outcome.db, id)
          && outcome.db.keys == db.keys
          && outcome.db.txs[id] == t.(status := Failed)
          && outcome.db.balances[key] ==
               db.balances[key] + t.amount + (if fiat && t.fee.Some? then t.fee.value else 0.0)
  {
  }
}
