/** Crypto withdrawals: the pending debit, and the broadcast that ends in one send or one refund. */
module CryptoWithdrawals {
  import opened Options
  import opened Ledger
  import opened Repository
  import TokenUnits
  import Undo

  datatype CryptoError =
    | UnsupportedNetwork | UnsupportedAsset | InvalidAddress | InvalidInput | WalletNotFound
    | RepositoryError(error: Error)

  const SUPPORTED_NETWORKS := {"polygon_amoy", "sepolia"}

  predicate IsAddress(text: string) {
    |text| == 42 && text[0] == '0' && (text[1] == 'x' || text[1] == 'X')
  }

  /** The guards, in order; network, symbol and address after case folding and trimming. */
  function Refusal(wallet: Option<Wallet>, network: string, asset: Asset, toAddr: string, amount: real): Option<CryptoError> {
    if network !in SUPPORTED_NETWORKS then Some(UnsupportedNetwork)
    else if asset != USDT && asset != USDC then Some(UnsupportedAsset)
    else if !IsAddress(toAddr) then Some(InvalidAddress)
    else if amount <= 0.0 then Some(InvalidInput)
    else if wallet.None? then Some(WalletNotFound)
    else None
  }

  /** Which requests pass, and which error the first failing check gives. */
  lemma Requirements(wallet: Option<Wallet>, network: string, asset: Asset, toAddr: string, amount: real)
    ensures
      var known := network == "polygon_amoy" || network == "sepolia";
      var stable := asset == USDT || asset == USDC;
      var address := |toAddr| == 42 && (toAddr[..2] == "0x" || toAddr[..2] == "0X");
      var refusal := Refusal(wallet, network, asset, toAddr, amount);
      && (refusal.None? <==> known && stable && address && amount > 0.0 && wallet.Some?)
      && (!known ==> refusal == Some(UnsupportedNetwork))
      && (known && !stable ==> refusal == Some(UnsupportedAsset))
      && (known && stable && !address ==> refusal == Some(InvalidAddress))
      && (known && stable && address && amount <= 0.0 ==> refusal == Some(InvalidInput))
      && (known && stable && address && amount > 0.0 && wallet.None? ==> refusal == Some(WalletNotFound))
  {
    if |toAddr| == 42 {
      assert toAddr[..2] == [toAddr[0], toAddr[1]];
    }
  }

  /** How each call that a broadcast makes to the outside ends. */
  datatype Environment = Environment(
    addressFound: bool, keyDecodes: bool, keyDecrypts: bool, keyParses: bool,
    chainIdKnown: bool, nonceKnown: bool, gasPriceKnown: bool, transferBuilds: bool, sendSucceeds: bool,
    txHash: string)

  datatype TokenTransfer = TokenTransfer(contract: string, to: string, units: int)

  type Contracts = map<(string, Asset), string>

  /** Every call up to and including the send succeeds. */
  predicate Broadcasts(env: Environment, contracts: Contracts, network: string, asset: Asset) {
    && env.addressFound && (network, asset) in contracts
    && env.keyDecodes && env.keyDecrypts && env.keyParses
    && env.chainIdKnown && env.nonceKnown && env.gasPriceKnown && env.transferBuilds && env.sendSucceeds
  }

  class CryptoUsecase {
    const txRepo: TransactionRepository
    const contractAddrs: Contracts
    /** The token transfers that the chain has accepted. */
    var sent: seq<TokenTransfer>

    constructor (txRepo: TransactionRepository, contractAddrs: Contracts)
      ensures this.txRepo == txRepo && this.contractAddrs == contractAddrs && sent == []
    {
      this.txRepo, this.contractAddrs, sent := txRepo, contractAddrs, [];
    }

    method WithdrawCrypto(id: TxId, wallet: Option<Wallet>, network: string, asset: Asset, toAddr: string, amount: real)
      returns (err: Option<CryptoError>)
      modifies txRepo
      ensures var refusal := Refusal(wallet, network, asset, toAddr, amount);
        if refusal.Some? then err == refusal && txRepo.Tables() == old(txRepo.Tables())
        else
          && (err.Some? ==> err.value.RepositoryError?)
          && Answers(Atomic(CreatePendingWithdrawal(id, wallet.value, amount, asset), old(txRepo.Tables())),
                     old(txRepo.Tables()), txRepo.Tables(), if err.Some? then Some(err.value.error) else None)
    {
      if network != "polygon_amoy" && network != "sepolia" { return Some(UnsupportedNetwork); }
      if asset != USDT && asset != USDC { return Some(UnsupportedAsset); }
      if |toAddr| != 42 || !(toAddr[0] == '0' && toAddr[1] in "xX") { return Some(InvalidAddress); }
      if amount <= 0.0 { return Some(InvalidInput); }
      if wallet.None? { return Some(WalletNotFound); }
      var repoErr := txRepo.CreatePendingCryptoWithdrawTx(id, wallet.value, amount, asset);
      return if repoErr.Some? then Some(RepositoryError(repoErr.value)) else None;
    }

    /** Sends exactly when every call succeeds and then reports success; otherwise sends nothing and rejects. */
    method BroadcastWithdrawal(id: TxId, network: string, asset: Asset, toAddr: string, amount: real, env: Environment)
      modifies this`sent, txRepo
      ensures sent == old(sent) + Transfers(env, contractAddrs, network, asset, toAddr, amount)
      ensures sent == old(sent) || |sent| == |old(sent)| + 1
      ensures sent != old(sent) <==>
        && env.addressFound && (network, asset) in contractAddrs && env.keyDecodes && env.keyDecrypts && env.keyParses
        && env.chainIdKnown && env.nonceKnown && env.gasPriceKnown && env.transferBuilds && env.sendSucceeds
      ensures sent != old(sent) ==>
        var last := sent[|sent| - 1];
        && last.contract == contractAddrs[(network, asset)] && last.to == toAddr
        && (amount >= 0.0 ==> last.units as real <= amount * 1000000.0 < last.units as real + 1.0)
        && txRepo.Tables() == Applied(old(txRepo.Tables()), Some(UpdateWithdrawal(id, Some(env.txHash), Success)))
      ensures sent == old(sent) ==> txRepo.Tables() == Applied(old(txRepo.Tables()), Some(RejectCrypto(id)))
      ensures txRepo.Tables() == Applied(old(txRepo.Tables()), Some(Conclusion(id, env, contractAddrs, network, asset)))
    {
      var err;
      if !env.addressFound { err := txRepo.RejectWithdrawCryptoTx(id); return; }
      if (network, asset) !in contractAddrs { err := txRepo.RejectWithdrawCryptoTx(id); return; }
      var contract := contractAddrs[(network, asset)];
      if !env.keyDecodes { err := txRepo.RejectWithdrawCryptoTx(id); return; }
      if !env.keyDecrypts { err := txRepo.RejectWithdrawCryptoTx(id); return; }
      if !env.keyParses { err := txRepo.RejectWithdrawCryptoTx(id); return; }
      if !env.chainIdKnown { err := txRepo.RejectWithdrawCryptoTx(id); return; }
      if !env.nonceKnown { err := txRepo.RejectWithdrawCryptoTx(id); return; }
      if !env.gasPriceKnown { err := txRepo.RejectWithdrawCryptoTx(id); return; }
      var amountBig := TokenUnits.Sent(amount);
      if !env.transferBuilds { err := txRepo.RejectWithdrawCryptoTx(id); return; }
      if !env.sendSucceeds { err := txRepo.RejectWithdrawCryptoTx(id); return; }
      sent := sent + [TokenTransfer(contract, toAddr, amountBig)];
      err := txRepo.UpdateCryptoWithdrawTx(id, Some(env.txHash), Success);
    }
  }

  function Transfers(env: Environment, contracts: Contracts, network: string, asset: Asset, toAddr: string, amount: real)
    : seq<TokenTransfer>
  {
    if Broadcasts(env, contracts, network, asset) then
      [TokenTransfer(contracts[(network, asset)], toAddr, TokenUnits.Sent(amount))]
    else []
  }

  /** The repository call that a broadcast ends with. */
  function Conclusion(id: TxId, env: Environment, contracts: Contracts, network: string, asset: Asset): Op {
    if Broadcasts(env, contracts, network, asset) then UpdateWithdrawal(id, Some(env.txHash), Success) else RejectCrypto(id)
  }

  /** Nothing was sent, and the ledger is as without the withdrawal but for its failed row. */
  ghost predicate FullyRefunded(after: Database, alone: Database, id: TxId, row: Transaction, transfers: seq<TokenTransfer>) {
    transfers == [] && after == alone.(txs := alone.txs[id := row.(status := Failed)])
  }

  /** The amount left the balance for good: one transfer of the token to the address, and a remainder below one unit. */
  ghost predicate PaidOut(after: Database, alone: Database, id: TxId, row: Transaction, key: Key, hash: string,
                          transfers: seq<TokenTransfer>, contract: string, toAddr: string) {
    && |transfers| == 1 && transfers[0].contract == contract && transfers[0].to == toAddr
    && id in after.txs && after.txs[id] == row.(status := Success, txHash := Some(hash))
    && key in after.balances && key in alone.balances
    && after.balances == alone.balances[key := alone.balances[key] - row.amount]
    && 0.0 <= row.amount - transfers[0].units as real / 1000000.0 < 0.000001
  }

  /**
    Whatever else commits between the debit and the end of the broadcast, and
    wherever the broadcast fails, the withdrawal ends either fully refunded
    with nothing sent or paid out with one send. The one exception is a hash
    that another row carries: then the send has happened, the debit stays and
    the row stays pending.
   */
  lemma BroadcastSettles(db: Database, id: TxId, w: Wallet, asset: Asset, amount: real, between: seq<Op>,
                         env: Environment, contracts: Contracts, network: string, toAddr: string)
    requires amount > 0.0 && forall op | op in between :: !Names(op, id)
    requires Atomic(CreatePendingWithdrawal(id, w, amount, asset), db).Committed?
    requires Replay(Atomic(CreatePendingWithdrawal(id, w, amount, asset), db).db, between).Some?
    ensures Replay(db, between).Some?
    ensures
      var alone := Replay(db, between).value;
      var pending := Replay(Atomic(CreatePendingWithdrawal(id, w, amount, asset), db).db, between).value;
      var row := WithdrawalRow(w, amount, asset);
      var transfers := Transfers(env, contracts, network, asset, toAddr, amount);
      var outcome := Atomic(Conclusion(id, env, contracts, network, asset), pending);
      if !Broadcasts(env, contracts, network, asset) then
        outcome.Committed? && FullyRefunded(outcome.db, alone, id, row, transfers)
      else if TxHash(env.txHash) !in pending.keys then
        && outcome.Committed?
        && PaidOut(outcome.db, alone, id, row, Key(w, asset), env.txHash, transfers, contracts[(network, asset)], toAddr)
      else
        outcome == RolledBack(UniqueViolation) && |transfers| == 1 && id in pending.txs && pending.txs[id] == row
  {
    var op := CreatePendingWithdrawal(id, w, amount, asset);
    var before := Atomic(op, db).db;
    Undo.RejectUndoes(db, op, between);
    Undo.ReplayKeepsRow(before, between, id);
    var pending := Replay(before, between).value;
    var alone := Replay(db, between).value;
    var row := WithdrawalRow(w, amount, asset);
    var key := Key(w, asset);
    RefundGivesBack(pending, alone, id, row, key);
    if Broadcasts(env, contracts, network, asset) {
      TokenUnits.Dust(amount);
    }
  }

  /** What the rejection would restore tells what is missing. */
  lemma RefundGivesBack(pending: Database, alone: Database, id: TxId, row: Transaction, key: Key)
    requires id in pending.txs && pending.txs[id] == row && row == WithdrawalRow(key.wallet, row.amount, key.asset)
    requires Atomic(RejectCrypto(id), pending) == Committed(alone.(txs := alone.txs[id := row.(status := Failed)]))
    ensures key in pending.balances && key in alone.balances
    ensures pending.balances == alone.balances[key := alone.balances[key] - row.amount]
  {
    assert alone.balances == pending.balances[key := pending.balances[key] + row.amount];
  }

  /** An amount below one unit is debited whole and sends zero units. */
  lemma AllDust(amount: real)
    requires amount > 0.0
    ensures TokenUnits.Sent(amount) == 0 <==> amount < 0.000001
  {
    TokenUnits.Dust(amount);
  }
}
