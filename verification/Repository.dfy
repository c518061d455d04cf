/**
  The transaction repository: one method per database transaction, run alone.
  Each is proved to do to the tables exactly what Atomic says, or to leave them
  alone and return Atomic's error.
 */
module Repository {
  import opened Options
  import opened Ledger
  import opened Indexes

  /** What a caller sees of an outcome: the tables afterwards, and the returned error. */
  predicate Answers(outcome: Outcome, before: Database, after: Database, err: Option<Error>) {
    match outcome
    case Committed(db) => after == db && err == None
    case RolledBack(e) => after == before && err == Some(e)
  }

  /** The tables after a call whose error the caller drops. */
  function TablesAfter(outcome: Outcome, before: Database): Database {
    if outcome.Committed? then outcome.db else before
  }

  function Applied(db: Database, op: Option<Op>): Database {
    if op.None? then db else TablesAfter(Atomic(op.value, db), db)
  }

  class TransactionRepository {
    var balances: map<Key, real>
    var transactions: map<TxId, Transaction>
    var uniqueKeys: map<UniqueKey, TxId>

    function Tables(): Database
      reads this
    {
      Database(balances, transactions, uniqueKeys)
    }

    constructor ()
      ensures Tables() == EMPTY && OrdersIndexed(Tables()) && HashesIndexed(Tables())
    {
      balances, transactions, uniqueKeys := map[], map[], map[];
    }

    /** SELECT ... FOR UPDATE of one balance row. */
    method LockBalanceForUpdate(key: Key) returns (balance: Option<real>)
      ensures balance == if key in balances then Some(balances[key]) else None
    {
      if key in balances {
        return Some(balances[key]);
      }
      return None;
    }

    /** The balance rows of a new wallet, as CreateUserWithWallet inserts them. */
    method CreateDefaultBalances(wallet: Wallet) returns (err: Option<Error>)
      modifies this
      ensures Answers(Atomic(OpenWallet(wallet), old(Tables())), old(Tables()), Tables(), err)
    {
      var defaultAssets := [IDR, USDT, USDC];
      var written := balances;
      for i := 0 to |defaultAssets|
        invariant forall a :: a in defaultAssets[..i] ==> Key(wallet, a) !in balances
        invariant written.Keys == balances.Keys + set a | a in defaultAssets[..i] :: Key(wallet, a)
        invariant forall k :: k in written ==> written[k] == if k in balances then balances[k] else 0.0
      {
        var key := Key(wallet, defaultAssets[i]);
        if key in written {
          assert defaultAssets[i] !in defaultAssets[..i];
          return Some(UniqueViolation);
        }
        written := written[key := 0.0];
      }
      assert defaultAssets[..|defaultAssets|] == [IDR, USDT, USDC];
      assert IDR in defaultAssets && USDT in defaultAssets && USDC in defaultAssets;
      assert written == balances[Key(wallet, IDR) := 0.0][Key(wallet, USDT) := 0.0][Key(wallet, USDC) := 0.0];
      balances := written;
      return None;
    }

    method ExecuteTransferTx(id: TxId, sender: Wallet, recipient: Wallet, amount: real, asset: Asset) returns (err: Option<Error>)
      modifies this
      ensures Answers(Atomic(ExecuteTransfer(id, sender, recipient, amount, asset), old(Tables())), old(Tables()), Tables(), err)
    {
      var first, second := sender, recipient;
      if sender > recipient {
        first, second := recipient, sender;
      }
      var firstBal := LockBalanceForUpdate(Key(first, asset));
      if firstBal.None? { return Some(NotFound); }
      var secondBal := LockBalanceForUpdate(Key(second, asset));
      if secondBal.None? { return Some(NotFound); }

      var senderBalance, recipientBalance;
      if sender == first {
        senderBalance, recipientBalance := firstBal.value, secondBal.value;
      } else {
        senderBalance, recipientBalance := secondBal.value, firstBal.value;
      }
      if senderBalance < amount { return Some(Insufficient); }

      var written := balances;
      written := written[Key(sender, asset) := senderBalance - amount];
      written := written[Key(recipient, asset) := recipientBalance + amount];
      if id in transactions { return Some(UniqueViolation); }
      balances := written;
      transactions := transactions[id := TransferRow(sender, recipient, amount, asset)];
      return None;
    }

    method ExecuteWithdrawFiatTx(id: TxId, wallet: Wallet, amount: real, adminFee: real, asset: Asset) returns (err: Option<Error>)
      modifies this
      ensures Answers(Atomic(ExecuteWithdrawFiat(id, wallet, amount, adminFee, asset), old(Tables())), old(Tables()), Tables(), err)
    {
      var totalDeduction := amount + adminFee;
      var current := LockBalanceForUpdate(Key(wallet, asset));
      if current.None? { return Some(NotFound); }
      if current.value < totalDeduction { return Some(Insufficient); }
      if id in transactions { return Some(UniqueViolation); }
      balances := balances[Key(wallet, asset) := current.value - totalDeduction];
      transactions := transactions[id := WithdrawFiatRow(wallet, amount, adminFee, asset)];
      return None;
    }

    method CreatePendingTopUpTx(id: TxId, wallet: Wallet, amount: real, asset: Asset, orderID: string) returns (err: Option<Error>)
      modifies this
      ensures Answers(Atomic(CreatePendingTopUp(id, wallet, amount, asset, orderID), old(Tables())), old(Tables()), Tables(), err)
    {
      if id in transactions || OrderId(orderID) in uniqueKeys { return Some(UniqueViolation); }
      transactions := transactions[id := TopUpRow(wallet, amount, asset, orderID)];
      uniqueKeys := uniqueKeys[OrderId(orderID) := id];
      return None;
    }

    /** Credits whatever the status of the row is. */
    method SettleTopUpTx(id: TxId, wallet: Wallet, amount: real) returns (err: Option<Error>)
      modifies this
      ensures Answers(Atomic(SettleTopUp(id, wallet, amount), old(Tables())), old(Tables()), Tables(), err)
    {
      var current := LockBalanceForUpdate(Key(wallet, IDR));
      if current.None? { return Some(NotFound); }
      balances := balances[Key(wallet, IDR) := current.value + amount];
      if id in transactions {
        transactions := transactions[id := SettledRow(transactions[id], amount)];
      }
      return None;
    }

    method GetTransactionByOrderID(orderID: string) returns (found: Option<TxId>)
      ensures found == ByOrder(Tables(), orderID)
      ensures OrdersIndexed(Tables()) ==> forall id: TxId :: found == Some(id) <==> CarriesOrder(Tables(), id, orderID)
    {
      if OrderId(orderID) in uniqueKeys && uniqueKeys[OrderId(orderID)] in transactions {
        return Some(uniqueKeys[OrderId(orderID)]);
      }
      return None;
    }

    method UpdateTransactionStatus(id: TxId, status: Status) returns (err: Option<Error>)
      modifies this
      ensures Answers(Atomic(UpdateStatus(id, status), old(Tables())), old(Tables()), Tables(), err)
    {
      if id in transactions {
        transactions := transactions[id := transactions[id].(status := status)];
      }
      return None;
    }

    method CreditCryptoDeposit(id: TxId, wallet: Wallet, amount: real, asset: Asset, txHash: string) returns (err: Option<Error>)
      modifies this
      ensures Answers(Atomic(CreditDeposit(id, wallet, amount, asset, txHash), old(Tables())), old(Tables()), Tables(), err)
    {
      if TxHash(txHash) in uniqueKeys { return Some(Duplicate); }
      var balance := LockBalanceForUpdate(Key(wallet, asset));
      var written := balances;
      if balance.None? {
        written := written[Key(wallet, asset) := amount];
      } else {
        written := written[Key(wallet, asset) := balance.value + amount];
      }
      if id in transactions { return Some(UniqueViolation); }
      balances := written;
      transactions := transactions[id := DepositRow(wallet, amount, asset, txHash)];
      uniqueKeys := uniqueKeys[TxHash(txHash) := id];
      return None;
    }

    method CreatePendingCryptoWithdrawTx(id: TxId, wallet: Wallet, amount: real, asset: Asset) returns (err: Option<Error>)
      modifies this
      ensures Answers(Atomic(CreatePendingWithdrawal(id, wallet, amount, asset), old(Tables())), old(Tables()), Tables(), err)
    {
      var current := LockBalanceForUpdate(Key(wallet, asset));
      if current.None? { return Some(NotFound); }
      if current.value < amount { return Some(Insufficient); }
      if id in transactions { return Some(UniqueViolation); }
      balances := balances[Key(wallet, asset) := current.value - amount];
      transactions := transactions[id := WithdrawalRow(wallet, amount, asset)];
      return None;
    }

    method UpdateCryptoWithdrawTx(id: TxId, txHash: Option<string>, status: Status) returns (err: Option<Error>)
      modifies this
      ensures Answers(Atomic(UpdateWithdrawal(id, txHash, status), old(Tables())), old(Tables()), Tables(), err)
    {
      if id !in transactions { return None; }
      var row := transactions[id].(status := status);
      if txHash.Some? && txHash != row.txHash {
        if TxHash(txHash.value) in uniqueKeys { return Some(UniqueViolation); }
        uniqueKeys := (uniqueKeys - HashKey(row))[TxHash(txHash.value) := id];
        row := row.(txHash := txHash);
      }
      transactions := transactions[id := row];
      return None;
    }

    method ExecuteSwapTx(id: TxId, wallet: Wallet, fromAsset: Asset, toAsset: Asset, fromAmount: real, toAmount: real,
                         rateUsed: real, feeCharged: real) returns (err: Option<Error>)
      modifies this
      ensures Answers(Atomic(ExecuteSwap(id, wallet, fromAsset, toAsset, fromAmount, toAmount, rateUsed, feeCharged), old(Tables())),
                      old(Tables()), Tables(), err)
    {
      var fromBal := LockBalanceForUpdate(Key(wallet, fromAsset));
      if fromBal.None? { return Some(NotFound); }
      if fromBal.value < fromAmount { return Some(Insufficient); }
      var toBal := LockBalanceForUpdate(Key(wallet, toAsset));
      if toBal.None? { return Some(NotFound); }
      var written := balances;
      written := written[Key(wallet, fromAsset) := fromBal.value - fromAmount];
      written := written[Key(wallet, toAsset) := toBal.value + toAmount];
      if id in transactions { return Some(UniqueViolation); }
      balances := written;
      transactions := transactions[id := SwapRow(wallet, fromAsset, toAsset, fromAmount, toAmount, rateUsed, feeCharged)];
      return None;
    }

    method RejectWithdrawCryptoTx(id: TxId) returns (err: Option<Error>)
      modifies this
      ensures Answers(Atomic(RejectCrypto(id), old(Tables())), old(Tables()), Tables(), err)
    {
      if id !in transactions { return Some(NotFound); }
      var txn := transactions[id];
      if txn.status != Pending { return None; }
      if txn.source.None? { return Some(SourceIsNil); }
      var key := Key(txn.source.value, txn.asset);
      var current := LockBalanceForUpdate(key);
      if current.None? { return Some(NotFound); }
      balances := balances[key := current.value + txn.amount];
      transactions := transactions[id := txn.(status := Failed)];
      return None;
    }

    method RejectWithdrawFiatTx(id: TxId) returns (err: Option<Error>)
      modifies this
      ensures Answers(Atomic(RejectFiat(id), old(Tables())), old(Tables()), Tables(), err)
    {
      if id !in transactions { return Some(NotFound); }
      var txn := transactions[id];
      if txn.status != Pending { return None; }
      if txn.source.None? { return Some(SourceIsNil); }
      var key := Key(txn.source.value, txn.asset);
      var current := LockBalanceForUpdate(key);
      if current.None? { return Some(NotFound); }
      var adminFee := 0.0;
      if txn.fee.Some? {
        adminFee := txn.fee.value;
      }
      var totalRefund := txn.amount + adminFee;
      balances := balances[key := current.value + totalRefund];
      transactions := transactions[id := txn.(status := Failed)];
      return None;
    }
  }
}
