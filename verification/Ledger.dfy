/**
  The ledger tables and the atomic meaning of every repository operation.

  Atomic(op, db) is what one database transaction does when it runs alone.
  Repository.dfy proves the imperative methods against it, Locking.dfy proves
  every interleaving of the locked steps against it, and the invariants are
  proved about it.
 */
module Ledger {
  import opened Options

  /** Wallet ids, numbered in the order of their UUID text. */
  type Wallet = nat
  type TxId = nat

  datatype Asset = IDR | USDT | USDC | Other(symbol: string)
  datatype Key = Key(wallet: Wallet, asset: Asset)

  datatype Kind = TransferFiat | TopUp | WithdrawFiat | CryptoDeposit | CryptoWithdrawal | Swap
  datatype Status = Pending | Success | Failed

  /** The columns of `transactions` that carry a unique index besides the primary key. */
  datatype UniqueKey = TxHash(hash: string) | OrderId(order: string)

  /** What a swap or a settled top-up added to a balance. */
  datatype Credit = Credit(asset: Asset, amount: real)

  /**
    One row of `transactions`. `credit` is not a column: the table does not
    record the credit leg of a swap or the settled amount of a top-up, so the
    accounting statement keeps it here. No operation reads it.
   */
  datatype Transaction = Transaction(
    kind: Kind,
    status: Status,
    source: Option<Wallet>,
    destination: Option<Wallet>,
    asset: Asset,
    amount: real,
    fee: Option<real>,
    rate: Option<real>,
    txHash: Option<string>,
    orderId: Option<string>,
    credit: Option<Credit>)

  datatype Database = Database(
    balances: map<Key, real>,
    txs: map<TxId, Transaction>,
    keys: map<UniqueKey, TxId>)

  datatype Error = NotFound | Insufficient | Duplicate | UniqueViolation | SourceIsNil
  datatype Outcome = Committed(db: Database) | RolledBack(error: Error)

  datatype Op =
    | OpenWallet(wallet: Wallet)
    | ExecuteTransfer(id: TxId, sender: Wallet, recipient: Wallet, amount: real, asset: Asset)
    | ExecuteWithdrawFiat(id: TxId, wallet: Wallet, amount: real, fee: real, asset: Asset)
    | CreatePendingTopUp(id: TxId, wallet: Wallet, amount: real, asset: Asset, order: string)
    | SettleTopUp(id: TxId, wallet: Wallet, amount: real)
    | UpdateStatus(id: TxId, status: Status)
    | CreditDeposit(id: TxId, wallet: Wallet, amount: real, asset: Asset, hash: string)
    | CreatePendingWithdrawal(id: TxId, wallet: Wallet, amount: real, asset: Asset)
    | UpdateWithdrawal(id: TxId, newHash: Option<string>, status: Status)
    | ExecuteSwap(id: TxId, wallet: Wallet, from: Asset, to: Asset,
                  debit: real, received: real, rate: real, fee: real)
    | RejectCrypto(id: TxId)
    | RejectFiat(id: TxId)

  const EMPTY := Database(map[], map[], map[])

  // ---- the rows that the operations insert ----

  function TransferRow(sender: Wallet, recipient: Wallet, amount: real, asset: Asset): Transaction {
    Transaction(TransferFiat, Success, Some(sender), Some(recipient), asset, amount, None, None, None, None, None)
  }

  function WithdrawFiatRow(wallet: Wallet, amount: real, fee: real, asset: Asset): Transaction {
    Transaction(WithdrawFiat, Pending, Some(wallet), None, asset, amount, Some(fee), None, None, None, None)
  }

  function TopUpRow(wallet: Wallet, amount: real, asset: Asset, order: string): Transaction {
    Transaction(TopUp, Pending, None, Some(wallet), asset, amount, None, None, None, Some(order), None)
  }

  function DepositRow(wallet: Wallet, amount: real, asset: Asset, hash: string): Transaction {
    Transaction(CryptoDeposit, Success, None, Some(wallet), asset, amount, None, None, Some(hash), None, None)
  }

  function WithdrawalRow(wallet: Wallet, amount: real, asset: Asset): Transaction {
    Transaction(CryptoWithdrawal, Pending, Some(wallet), None, asset, amount, None, None, None, None, None)
  }

  function SwapRow(wallet: Wallet, from: Asset, to: Asset, debit: real, received: real, rate: real, fee: real): Transaction {
    Transaction(Swap, Success, Some(wallet), None, from, debit, Some(fee), Some(rate), None, None, Some(Credit(to, received)))
  }

  function SettledRow(t: Transaction, amount: real): Transaction {
    t.(status := Success, credit := if t.kind.TopUp? then Some(Credit(IDR, amount)) else t.credit)
  }

  function FeeOf(t: Transaction): real {
    if t.fee.Some? then t.fee.value else 0.0
  }

  // ---- the operations ----

  function Atomic(op: Op, db: Database): Outcome {
    match op
    case OpenWallet(w) =>
      if Key(w, IDR) in db.balances || Key(w, USDT) in db.balances || Key(w, USDC) in db.balances then
        RolledBack(UniqueViolation)
      else
        Committed(db.(balances := db.balances[Key(w, IDR) := 0.0][Key(w, USDT) := 0.0][Key(w, USDC) := 0.0]))

    case ExecuteTransfer(id, sender, recipient, amount, asset) =>
      var from, to := Key(sender, asset), Key(recipient, asset);
      if from !in db.balances || to !in db.balances then RolledBack(NotFound)
      else if db.balances[from] < amount then RolledBack(Insufficient)
      else
        Insert(db, db.balances[from := db.balances[from] - amount][to := db.balances[to] + amount],
               id, TransferRow(sender, recipient, amount, asset))

    case ExecuteWithdrawFiat(id, w, amount, fee, asset) =>
      Debit(db, Key(w, asset), amount + fee, id, WithdrawFiatRow(w, amount, fee, asset))

    case CreatePendingTopUp(id, w, amount, asset, order) =>
      if id in db.txs || OrderId(order) in db.keys then RolledBack(UniqueViolation)
      else Committed(Database(db.balances, db.txs[id := TopUpRow(w, amount, asset, order)], db.keys[OrderId(order) := id]))

    case SettleTopUp(id, w, amount) =>
      var key := Key(w, IDR);
      if key !in db.balances then RolledBack(NotFound)
      else
        Committed(db.(
          balances := db.balances[key := db.balances[key] + amount],
          txs := if id in db.txs then db.txs[id := SettledRow(db.txs[id], amount)] else db.txs))

    case UpdateStatus(id, status) =>
      if id in db.txs then Committed(db.(txs := db.txs[id := db.txs[id].(status := status)]))
      else Committed(db)

    case CreditDeposit(id, w, amount, asset, hash) =>
      var key := Key(w, asset);
      if TxHash(hash) in db.keys then RolledBack(Duplicate)
      else if id in db.txs then RolledBack(UniqueViolation)
      else
        Committed(Database(
          db.balances[key := if key in db.balances then db.balances[key] + amount else amount],
          db.txs[id := DepositRow(w, amount, asset, hash)],
          db.keys[TxHash(hash) := id]))

    case CreatePendingWithdrawal(id, w, amount, asset) =>
      Debit(db, Key(w, asset), amount, id, WithdrawalRow(w, amount, asset))

    case UpdateWithdrawal(id, hash, status) =>
      if id !in db.txs then Committed(db)
      else
        var row := db.txs[id].(status := status);
        if hash.None? || hash == row.txHash then Committed(db.(txs := db.txs[id := row]))
        else if TxHash(hash.value) in db.keys then RolledBack(UniqueViolation)
        else
          Committed(db.(
            txs := db.txs[id := row.(txHash := hash)],
            keys := (db.keys - HashKey(row))[TxHash(hash.value) := id]))

    case ExecuteSwap(id, w, from, to, debit, received, rate, fee) =>
      var source, target := Key(w, from), Key(w, to);
      if source !in db.balances then RolledBack(NotFound)
      else if db.balances[source] < debit then RolledBack(Insufficient)
      else if target !in db.balances then RolledBack(NotFound)
      else
        Insert(db, db.balances[source := db.balances[source] - debit][target := db.balances[target] + received],
               id, SwapRow(w, from, to, debit, received, rate, fee))

    case RejectCrypto(id) => Refund(db, id, false)

    case RejectFiat(id) => Refund(db, id, true)
  }

  /** The unique key that a row's tx_hash occupies. */
  function HashKey(t: Transaction): set<UniqueKey> {
    if t.txHash.Some? then {TxHash(t.txHash.value)} else {}
  }

  /** Write the new balances and insert the record, unless its id is taken. */
  function Insert(db: Database, balances: map<Key, real>, id: TxId, row: Transaction): Outcome {
    if id in db.txs then RolledBack(UniqueViolation)
    else Committed(db.(balances := balances, txs := db.txs[id := row]))
  }

  function Debit(db: Database, key: Key, total: real, id: TxId, row: Transaction): Outcome {
    if key !in db.balances then RolledBack(NotFound)
    else if db.balances[key] < total then RolledBack(Insufficient)
    else Insert(db, db.balances[key := db.balances[key] - total], id, row)
  }

  /** Both reject operations; only the fiat one gives the fee back. */
  function Refund(db: Database, id: TxId, withFee: bool): Outcome {
    if id !in db.txs then RolledBack(NotFound)
    else if db.txs[id].status != Pending then Committed(db)
    else if db.txs[id].source.None? then RolledBack(SourceIsNil)
    else
      var t := db.txs[id];
      var key := Key(t.source.value, t.asset);
      if key !in db.balances then RolledBack(NotFound)
      else
        Committed(db.(
          balances := db.balances[key := db.balances[key] + RefundAmount(t, withFee)],
          txs := db.txs[id := t.(status := Failed)]))
  }

  function RefundAmount(t: Transaction, withFee: bool): real {
    t.amount + (if withFee then FeeOf(t) else 0.0)
  }

  // ---- what every operation keeps ----

  predicate Names(op: Op, id: TxId) {
    !op.OpenWallet? && op.id == id
  }

  /** A row keeps its type, its wallets and its order id; one that is not named keeps everything. */
  lemma CommitKeepsRow(op: Op, db: Database, after: Database, id: TxId)
    requires id in db.txs && Atomic(op, db) == Committed(after)
    ensures id in after.txs && after.txs[id].kind == db.txs[id].kind
    ensures after.txs[id].source == db.txs[id].source && after.txs[id].orderId == db.txs[id].orderId
    ensures !Names(op, id) ==> after.txs[id] == db.txs[id]
  {
  }

  /** Rows appear only under ids that the operation names, and no balance row disappears. */
  lemma CommitAddsOnly(op: Op, db: Database, after: Database)
    requires Atomic(op, db) == Committed(after)
    ensures db.balances.Keys <= after.balances.Keys && db.txs.Keys <= after.txs.Keys
    ensures forall id | id in after.txs && !Names(op, id) :: id in db.txs
  {
  }

  // ---- runs ----

  /** Run a log of operations one at a time; None if one of them rolls back. */
  function Replay(db: Database, log: seq<Op>): Option<Database>
    decreases |log|
  {
    if log == [] then Some(db)
    else
      match Replay(db, log[..|log| - 1])
      case None => None
      case Some(before) =>
        match Atomic(log[|log| - 1], before)
        case RolledBack(_) => None
        case Committed(after) => Some(after)
  }
}
