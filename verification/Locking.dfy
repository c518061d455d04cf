/**
  The ledger operations as the database interleaves them.

  Every operation is a program of row accesses. SELECT ... FOR UPDATE, UPDATE
  and INSERT take row or index-key locks that are held until commit; the
  existence check of a deposit takes none. Writes stay invisible until commit.
 */
module Locking {
  import opened Options
  import opened Ledger

  // ---- rows, and what an access sees ----

  datatype Row = Balance(key: Key) | Record(id: TxId) | Index(unique: UniqueKey)
  datatype Cell = Amount(value: real) | Entry(tx: Transaction) | Owner(id: TxId)

  function Look(db: Database, row: Row): Option<Cell> {
    match row
    case Balance(k) => if k in db.balances then Some(Amount(db.balances[k])) else None
    case Record(id) => if id in db.txs then Some(Entry(db.txs[id])) else None
    case Index(u) => if u in db.keys then Some(Owner(db.keys[u])) else None
  }

  datatype Writes = Writes(
    balances: map<Key, real>,
    txs: map<TxId, Transaction>,
    keys: map<UniqueKey, TxId>,
    freed: set<UniqueKey>)

  const NOTHING := Writes(map[], map[], map[], {})

  function Merge(db: Database, w: Writes): Database {
    Database(db.balances + w.balances, db.txs + w.txs, (db.keys - w.freed) + w.keys)
  }

  /**
    Select: SELECT ... FOR UPDATE, locks the row if there is one.
    Insert: locks the key if it is free, fails at once if it is taken.
    Update: UPDATE by primary key, holds the key in either case.
    Peek:   plain SELECT, locks nothing.
   */
  datatype Action =
    | Select(row: Row)
    | Insert(row: Row)
    | Update(row: Row)
    | Peek(row: Row)
    | Commit(writes: Writes)
    | Abort(error: Error)
  {
    predicate Access() { !Commit? && !Abort? }
  }

  /** Whether an access that sees `seen` has to hold the lock of its row. */
  predicate Takes(a: Action, seen: Option<Cell>) {
    (a.Select? && seen.Some?) || (a.Insert? && seen.None?) || a.Update?
  }

  datatype Observation = Observation(row: Row, seen: Option<Cell>, locked: bool)

  predicate Holds(obs: seq<Observation>, row: Row) {
    exists i :: 0 <= i < |obs| && obs[i].locked && obs[i].row == row
  }

  function Money(seen: Option<Cell>): real {
    if seen.Some? && seen.value.Amount? then seen.value.value else 0.0
  }

  // ---- the programs: the next action, given what has been observed so far ----

  function Next(op: Op, obs: seq<Observation>): Action {
    match op
    case OpenWallet(_) => Abort(NotFound)  // runs as one step, see Step
    case ExecuteTransfer(id, sender, recipient, amount, asset) => NextTransfer(id, sender, recipient, amount, asset, obs)
    case ExecuteWithdrawFiat(id, w, amount, fee, asset) =>
      NextDebit(Key(w, asset), amount + fee, id, WithdrawFiatRow(w, amount, fee, asset), obs)
    case CreatePendingTopUp(id, w, amount, asset, order) => NextTopUp(id, order, TopUpRow(w, amount, asset, order), obs)
    case SettleTopUp(id, w, amount) => NextSettle(id, Key(w, IDR), amount, obs)
    case UpdateStatus(id, status) => NextStatus(id, status, obs)
    case CreditDeposit(id, w, amount, asset, hash) => NextDeposit(id, Key(w, asset), amount, hash, DepositRow(w, amount, asset, hash), obs)
    case CreatePendingWithdrawal(id, w, amount, asset) =>
      NextDebit(Key(w, asset), amount, id, WithdrawalRow(w, amount, asset), obs)
    case UpdateWithdrawal(id, hash, status) => NextUpdateWithdrawal(id, hash, status, obs)
    case ExecuteSwap(id, w, from, to, debit, received, rate, fee) =>
      NextSwap(Key(w, from), Key(w, to), debit, received, id, SwapRow(w, from, to, debit, received, rate, fee), obs)
    case RejectCrypto(id) => NextReject(id, false, obs)
    case RejectFiat(id) => NextReject(id, true, obs)
  }

  /** Transfers lock the lower wallet first. */
  function NextTransfer(id: TxId, sender: Wallet, recipient: Wallet, amount: real, asset: Asset, obs: seq<Observation>): Action {
    var first, second := if sender > recipient then recipient else sender, if sender > recipient then sender else recipient;
    if |obs| == 0 then Select(Balance(Key(first, asset)))
    else if obs[0].seen.None? then Abort(NotFound)
    else if |obs| == 1 then Select(Balance(Key(second, asset)))
    else if obs[1].seen.None? then Abort(NotFound)
    else
      var senderBalance := Money(if sender == first then obs[0].seen else obs[1].seen);
      var recipientBalance := Money(if sender == first then obs[1].seen else obs[0].seen);
      if senderBalance < amount then Abort(Insufficient)
      else if |obs| == 2 then Insert(Record(id))
      else if obs[2].seen.Some? then Abort(UniqueViolation)
      else
        Commit(NOTHING.(
          balances := map[Key(sender, asset) := senderBalance - amount][Key(recipient, asset) := recipientBalance + amount],
          txs := map[id := TransferRow(sender, recipient, amount, asset)]))
  }

  function NextDebit(key: Key, total: real, id: TxId, row: Transaction, obs: seq<Observation>): Action {
    if |obs| == 0 then Select(Balance(key))
    else if obs[0].seen.None? then Abort(NotFound)
    else if Money(obs[0].seen) < total then Abort(Insufficient)
    else if |obs| == 1 then Insert(Record(id))
    else if obs[1].seen.Some? then Abort(UniqueViolation)
    else Commit(NOTHING.(balances := map[key := Money(obs[0].seen) - total], txs := map[id := row]))
  }

  function NextTopUp(id: TxId, order: string, row: Transaction, obs: seq<Observation>): Action {
    if |obs| == 0 then Insert(Record(id))
    else if obs[0].seen.Some? then Abort(UniqueViolation)
    else if |obs| == 1 then Insert(Index(OrderId(order)))
    else if obs[1].seen.Some? then Abort(UniqueViolation)
    else Commit(NOTHING.(txs := map[id := row], keys := map[OrderId(order) := id]))
  }

  /** Settlement locks the balance, then the record: the other way round from a reject. */
  function NextSettle(id: TxId, key: Key, amount: real, obs: seq<Observation>): Action {
    if |obs| == 0 then Select(Balance(key))
    else if obs[0].seen.None? then Abort(NotFound)
    else if |obs| == 1 then Update(Record(id))
    else
      Commit(NOTHING.(
        balances := map[key := Money(obs[0].seen) + amount],
        txs := if Tx(obs[1].seen).Some? then map[id := SettledRow(Tx(obs[1].seen).value, amount)] else map[]))
  }

  function Tx(seen: Option<Cell>): Option<Transaction> {
    if seen.Some? && seen.value.Entry? then Some(seen.value.tx) else None
  }

  function NextStatus(id: TxId, status: Status, obs: seq<Observation>): Action {
    if |obs| == 0 then Update(Record(id))
    else
      match Tx(obs[0].seen)
      case None => Commit(NOTHING)
      case Some(t) => Commit(NOTHING.(txs := map[id := t.(status := status)]))
  }

  /** The existence check is unlocked; the insert of the hash key is what decides. */
  function NextDeposit(id: TxId, key: Key, amount: real, hash: string, row: Transaction, obs: seq<Observation>): Action {
    if |obs| == 0 then Peek(Index(TxHash(hash)))
    else if obs[0].seen.Some? then Abort(Duplicate)
    else if |obs| == 1 then Select(Balance(key))
    else if obs[1].seen.Some? then
      NextDepositInsert(id, key, Money(obs[1].seen) + amount, hash, row, obs, 2)
    else if |obs| == 2 then Insert(Balance(key))
    else if obs[2].seen.Some? then Abort(UniqueViolation)
    else NextDepositInsert(id, key, amount, hash, row, obs, 3)
  }

  function NextDepositInsert(id: TxId, key: Key, balance: real, hash: string, row: Transaction,
                             obs: seq<Observation>, at: nat): Action
    requires at <= |obs|
  {
    if |obs| == at then Insert(Record(id))
    else if obs[at].seen.Some? then Abort(UniqueViolation)
    else if |obs| == at + 1 then Insert(Index(TxHash(hash)))
    else if obs[at + 1].seen.Some? then Abort(UniqueViolation)
    else Commit(NOTHING.(balances := map[key := balance], txs := map[id := row], keys := map[TxHash(hash) := id]))
  }

  function NextUpdateWithdrawal(id: TxId, hash: Option<string>, status: Status, obs: seq<Observation>): Action {
    if |obs| == 0 then Update(Record(id))
    else
      match Tx(obs[0].seen)
      case None => Commit(NOTHING)
      case Some(t) =>
        var row := t.(status := status);
        if hash.None? || hash == row.txHash then Commit(NOTHING.(txs := map[id := row]))
        else if |obs| == 1 then Insert(Index(TxHash(hash.value)))
        else if obs[1].seen.Some? then Abort(UniqueViolation)
        else
          Commit(Writes(map[], map[id := row.(txHash := hash)], map[TxHash(hash.value) := id], HashKey(row)))
  }

  /** Swaps lock in the order of the request, whatever the assets are. */
  function NextSwap(source: Key, target: Key, debit: real, received: real, id: TxId, row: Transaction, obs: seq<Observation>): Action {
    if |obs| == 0 then Select(Balance(source))
    else if obs[0].seen.None? then Abort(NotFound)
    else if Money(obs[0].seen) < debit then Abort(Insufficient)
    else if |obs| == 1 then Select(Balance(target))
    else if obs[1].seen.None? then Abort(NotFound)
    else if |obs| == 2 then Insert(Record(id))
    else if obs[2].seen.Some? then Abort(UniqueViolation)
    else
      Commit(NOTHING.(
        balances := map[source := Money(obs[0].seen) - debit][target := Money(obs[1].seen) + received],
        txs := map[id := row]))
  }

  function NextReject(id: TxId, withFee: bool, obs: seq<Observation>): Action {
    if |obs| == 0 then Select(Record(id))
    else
      match Tx(obs[0].seen)
      case None => Abort(NotFound)
      case Some(t) =>
        if t.status != Pending then Commit(NOTHING)
        else if t.source.None? then Abort(SourceIsNil)
        else
          var key := Key(t.source.value, t.asset);
          if |obs| == 1 then Select(Balance(key))
          else if obs[1].seen.None? then Abort(NotFound)
          else
            Commit(NOTHING.(
              balances := map[key := Money(obs[1].seen) + RefundAmount(t, withFee)],
              txs := map[id := t.(status := Failed)]))
  }

  // ---- what a program's observations say ----

  /** The observations are those the program asked for, in its order. */
  ghost predicate Follows(op: Op, obs: seq<Observation>) {
    forall i :: 0 <= i < |obs| ==> Asked(op, obs, i)
  }

  predicate Asked(op: Op, obs: seq<Observation>, i: nat)
    requires i < |obs|
  {
    var a := Next(op, obs[..i]);
    a.Access() && obs[i].row == a.row && obs[i].locked == Takes(a, obs[i].seen)
  }

  /** What was read under a lock is still what the tables hold. */
  predicate Current(db: Database, obs: seq<Observation>) {
    forall i :: 0 <= i < |obs| && obs[i].locked ==> obs[i].seen == Look(db, obs[i].row)
  }

  /** No program makes more than five accesses. */
  lemma ShortPrograms(op: Op, obs: seq<Observation>)
    requires Next(op, obs).Access()
    ensures |obs| < 5
  {
  }

  /** A committing program, whatever happened between its steps, computes the atomic effect on the current tables. */
  lemma CommitIsAtomic(op: Op, obs: seq<Observation>, db: Database)
    requires Follows(op, obs) && Current(db, obs) && Next(op, obs).Commit?
    ensures Atomic(op, db) == Committed(Merge(db, Next(op, obs).writes))
  {
    match op {
      case ExecuteTransfer(_, _, _, _, _) => CommitTransfer(op, obs, db);
      case ExecuteWithdrawFiat(_, _, _, _, _) => CommitDebit(op, obs, db);
      case CreatePendingWithdrawal(_, _, _, _) => CommitDebit(op, obs, db);
      case CreatePendingTopUp(_, _, _, _, _) => CommitTopUp(op, obs, db);
      case SettleTopUp(_, _, _) => CommitSettle(op, obs, db);
      case UpdateStatus(_, _) => CommitStatus(op, obs, db);
      case CreditDeposit(_, _, _, _, _) => CommitDeposit(op, obs, db);
      case UpdateWithdrawal(_, _, _) => CommitUpdateWithdrawal(op, obs, db);
      case ExecuteSwap(_, _, _, _, _, _, _, _) => CommitSwap(op, obs, db);
      case RejectCrypto(_) => CommitReject(op, obs, db);
      case RejectFiat(_) => CommitReject(op, obs, db);
    }
  }

  lemma MergeOne(db: Database, k: Key, v: real, id: TxId, t: Transaction)
    ensures Merge(db, NOTHING.(balances := map[k := v], txs := map[id := t]))
      == db.(balances := db.balances[k := v], txs := db.txs[id := t])
  {
  }

  lemma MergeTwo(db: Database, j: Key, u: real, k: Key, v: real, id: TxId, t: Transaction)
    ensures Merge(db, NOTHING.(balances := map[j := u][k := v], txs := map[id := t]))
      == db.(balances := db.balances[j := u][k := v], txs := db.txs[id := t])
  {
  }

  lemma CommitTransfer(op: Op, obs: seq<Observation>, db: Database)
    requires op.ExecuteTransfer?
    requires Follows(op, obs) && Current(db, obs) && Next(op, obs).Commit?
    ensures Atomic(op, db) == Committed(Merge(db, Next(op, obs).writes))
  {
    assert Asked(op, obs, 0) && Asked(op, obs, 1) && Asked(op, obs, 2);
    var from, to := Key(op.sender, op.asset), Key(op.recipient, op.asset);
    MergeTwo(db, from, db.balances[from] - op.amount, to, db.balances[to] + op.amount,
             op.id, TransferRow(op.sender, op.recipient, op.amount, op.asset));
  }

  lemma CommitDebit(op: Op, obs: seq<Observation>, db: Database)
    requires op.ExecuteWithdrawFiat? || op.CreatePendingWithdrawal?
    requires Follows(op, obs) && Current(db, obs) && Next(op, obs).Commit?
    ensures Atomic(op, db) == Committed(Merge(db, Next(op, obs).writes))
  {
    assert Asked(op, obs, 0) && Asked(op, obs, 1);
    var key := Key(op.wallet, op.asset);
    if op.ExecuteWithdrawFiat? {
      MergeOne(db, key, db.balances[key] - (op.amount + op.fee), op.id, WithdrawFiatRow(op.wallet, op.amount, op.fee, op.asset));
    } else {
      MergeOne(db, key, db.balances[key] - op.amount, op.id, WithdrawalRow(op.wallet, op.amount, op.asset));
    }
  }

  lemma CommitTopUp(op: Op, obs: seq<Observation>, db: Database)
    requires op.CreatePendingTopUp?
    requires Follows(op, obs) && Current(db, obs) && Next(op, obs).Commit?
    ensures Atomic(op, db) == Committed(Merge(db, Next(op, obs).writes))
  {
    assert Asked(op, obs, 0) && Asked(op, obs, 1);
  }

  lemma CommitSettle(op: Op, obs: seq<Observation>, db: Database)
    requires op.SettleTopUp?
    requires Follows(op, obs) && Current(db, obs) && Next(op, obs).Commit?
    ensures Atomic(op, db) == Committed(Merge(db, Next(op, obs).writes))
  {
    assert Asked(op, obs, 0) && Asked(op, obs, 1);
  }

  lemma CommitStatus(op: Op, obs: seq<Observation>, db: Database)
    requires op.UpdateStatus?
    requires Follows(op, obs) && Current(db, obs) && Next(op, obs).Commit?
    ensures Atomic(op, db) == Committed(Merge(db, Next(op, obs).writes))
  {
    assert Asked(op, obs, 0);
  }

  lemma CommitDeposit(op: Op, obs: seq<Observation>, db: Database)
    requires op.CreditDeposit?
    requires Follows(op, obs) && Current(db, obs) && Next(op, obs).Commit?
    ensures Atomic(op, db) == Committed(Merge(db, Next(op, obs).writes))
  {
    var at := DepositRows(op, obs);
    var key := Key(op.wallet, op.asset);
    assert obs[at].seen == Look(db, obs[at].row) && obs[at + 1].seen == Look(db, obs[at + 1].row);
    if at == 3 {
      assert obs[2].seen == Look(db, obs[2].row);
    } else {
      assert obs[1].seen == Look(db, obs[1].row);
    }
  }

  /** The keys a committing deposit has locked: its hash, its record and its balance. */
  lemma DepositRows(op: Op, obs: seq<Observation>) returns (at: nat)
    requires op.CreditDeposit?
    requires Follows(op, obs) && Next(op, obs).Commit?
    ensures (at == 2 || at == 3) && |obs| >= at + 2
    ensures obs[at] == Observation(Record(op.id), None, true)
    ensures obs[at + 1] == Observation(Index(TxHash(op.hash)), None, true)
    ensures obs[at - 1].row == Balance(Key(op.wallet, op.asset)) && obs[at - 1].locked
    ensures at == 3 <==> obs[at - 1].seen.None?
    ensures Next(op, obs) == Commit(NOTHING.(
      balances := map[Key(op.wallet, op.asset) := Money(obs[at - 1].seen) + op.amount],
      txs := map[op.id := DepositRow(op.wallet, op.amount, op.asset, op.hash)],
      keys := map[TxHash(op.hash) := op.id]))
  {
    at := if obs[1].seen.Some? then 2 else 3;
    assert Asked(op, obs, 1);
    assert Asked(op, obs, at - 1);
    assert Asked(op, obs, at);
    assert Asked(op, obs, at + 1);
  }

  lemma CommitUpdateWithdrawal(op: Op, obs: seq<Observation>, db: Database)
    requires op.UpdateWithdrawal?
    requires Follows(op, obs) && Current(db, obs) && Next(op, obs).Commit?
    ensures Atomic(op, db) == Committed(Merge(db, Next(op, obs).writes))
  {
    assert Asked(op, obs, 0);
    if |obs| > 1 {
      assert Asked(op, obs, 1);
    }
  }

  lemma CommitSwap(op: Op, obs: seq<Observation>, db: Database)
    requires op.ExecuteSwap?
    requires Follows(op, obs) && Current(db, obs) && Next(op, obs).Commit?
    ensures Atomic(op, db) == Committed(Merge(db, Next(op, obs).writes))
  {
    assert Asked(op, obs, 0) && Asked(op, obs, 1) && Asked(op, obs, 2);
    var source, target := Key(op.wallet, op.from), Key(op.wallet, op.to);
    MergeTwo(db, source, db.balances[source] - op.debit, target, db.balances[target] + op.received,
             op.id, SwapRow(op.wallet, op.from, op.to, op.debit, op.received, op.rate, op.fee));
  }

  lemma CommitReject(op: Op, obs: seq<Observation>, db: Database)
    requires op.RejectCrypto? || op.RejectFiat?
    requires Follows(op, obs) && Current(db, obs) && Next(op, obs).Commit?
    ensures Atomic(op, db) == Committed(Merge(db, Next(op, obs).writes))
  {
    assert Asked(op, obs, 0);
    assert Next(op, obs) == NextReject(op.id, op.RejectFiat?, obs) && Atomic(op, db) == Refund(db, op.id, op.RejectFiat?);
    if |obs| > 1 {
      assert Asked(op, obs, 1);
      CommitRefund(op.id, op.RejectFiat?, obs, db);
    }
  }

  lemma CommitRefund(id: TxId, withFee: bool, obs: seq<Observation>, db: Database)
    requires |obs| > 1 && NextReject(id, withFee, obs).Commit? && id in db.txs && obs[0].seen == Some(Entry(db.txs[id]))
    requires db.txs[id].status == Pending && db.txs[id].source.Some?
    requires obs[1].seen == Look(db, Balance(Key(db.txs[id].source.value, db.txs[id].asset)))
    ensures Refund(db, id, withFee) == Committed(Merge(db, NextReject(id, withFee, obs).writes))
  {
    var t := db.txs[id];
    var key := Key(t.source.value, t.asset);
    MergeOne(db, key, db.balances[key] + RefundAmount(t, withFee), id, t.(status := Failed));
  }

  /** The last thing read, under a lock or not, is what the tables hold. */
  predicate LastIsCurrent(db: Database, obs: seq<Observation>) {
    obs != [] ==> obs[|obs| - 1].seen == Look(db, obs[|obs| - 1].row)
  }

  /** A deposit that gives up because another one has just taken its hash, or created the balance row it was to create. */
  predicate Overtaken(op: Op, obs: seq<Observation>, db: Database) {
    && op.CreditDeposit? && Next(op, obs) == Abort(UniqueViolation)
    && (Atomic(op, db) == RolledBack(Duplicate) || (|obs| == 3 && Key(op.wallet, op.asset) in db.balances && obs[1].seen.None?))
  }

  /** On the tables of its last read, a program gives up for the reason that Atomic has; only a deposit may be overtaken. */
  lemma AbortIsAtomic(op: Op, obs: seq<Observation>, db: Database)
    requires !op.OpenWallet? && Follows(op, obs) && Current(db, obs) && LastIsCurrent(db, obs) && Next(op, obs).Abort?
    ensures Atomic(op, db) == RolledBack(Next(op, obs).error) || Overtaken(op, obs, db)
  {
    match op {
      case CreditDeposit(_, _, _, _, _) => AbortDeposit(op, obs, db);
      case ExecuteTransfer(_, _, _, _, _) => AbortMove(op, obs, db);
      case ExecuteSwap(_, _, _, _, _, _, _, _) => AbortMove(op, obs, db);
      case _ => AbortShort(op, obs, db);
    }
  }

  lemma AbortMove(op: Op, obs: seq<Observation>, db: Database)
    requires (op.ExecuteTransfer? || op.ExecuteSwap?) && Follows(op, obs) && Next(op, obs).Abort?
    requires Current(db, obs) && LastIsCurrent(db, obs)
    ensures Atomic(op, db) == RolledBack(Next(op, obs).error)
  {
    assert obs != [] && Asked(op, obs, |obs| - 1);
    assert Asked(op, obs, 0);
    if |obs| > 1 { assert Asked(op, obs, 1); }
    if |obs| > 2 { assert Asked(op, obs, 2); }
  }

  lemma AbortDeposit(op: Op, obs: seq<Observation>, db: Database)
    requires op.CreditDeposit? && Follows(op, obs) && Next(op, obs).Abort?
    requires Current(db, obs) && LastIsCurrent(db, obs)
    ensures Atomic(op, db) == RolledBack(Next(op, obs).error) || Overtaken(op, obs, db)
  {
    assert obs != [] && Asked(op, obs, |obs| - 1);
    assert Asked(op, obs, 0);
    if |obs| > 1 { assert Asked(op, obs, 1); }
    if |obs| > 2 { assert Asked(op, obs, 2); }
    if |obs| > 3 { assert Asked(op, obs, 3); }
    if |obs| > 4 { assert Asked(op, obs, 4); }
  }

  lemma AbortShort(op: Op, obs: seq<Observation>, db: Database)
    requires !op.OpenWallet? && !op.CreditDeposit? && !op.ExecuteTransfer? && !op.ExecuteSwap?
    requires Follows(op, obs) && Current(db, obs) && LastIsCurrent(db, obs) && Next(op, obs).Abort?
    ensures Atomic(op, db) == RolledBack(Next(op, obs).error)
  {
    assert obs != [] && Asked(op, obs, |obs| - 1);
    assert Asked(op, obs, 0);
    if |obs| > 1 { assert Asked(op, obs, 1); }
  }

  // ---- locks protect what is written ----

  predicate Written(w: Writes, row: Row) {
    match row
    case Balance(k) => k in w.balances
    case Record(id) => id in w.txs
    case Index(u) => u in w.keys
  }

  /** Every row an operation writes is locked by it. */
  lemma WritesAreLocked(op: Op, obs: seq<Observation>, row: Row)
    requires Follows(op, obs) && Next(op, obs).Commit? && Written(Next(op, obs).writes, row)
    ensures Holds(obs, row)
  {
    assert |obs| > 0 && Asked(op, obs, 0);
    if op.CreditDeposit? {
      var at := DepositRows(op, obs);
      assert obs[at - 1].locked && obs[at].locked && obs[at + 1].locked;
    } else {
      if |obs| > 1 { assert Asked(op, obs, 1); }
      if |obs| > 2 { assert Asked(op, obs, 2); }
    }
  }

  /** Index keys are only ever locked while they are free. */
  lemma IndexLocksAreFree(op: Op, obs: seq<Observation>, i: nat)
    requires Follows(op, obs) && i < |obs| && obs[i].locked && obs[i].row.Index?
    ensures obs[i].seen.None?
  {
    assert Asked(op, obs, i);
  }

  /** A commit leaves every row that another operation has locked as it was. */
  lemma CommitSparesOthers(op: Op, obs: seq<Observation>, other: Op, others: seq<Observation>, db: Database)
    requires Follows(op, obs) && Next(op, obs).Commit?
    requires Follows(other, others) && Current(db, others)
    requires forall row :: !(Holds(obs, row) && Holds(others, row))
    ensures Current(Merge(db, Next(op, obs).writes), others)
  {
    var w := Next(op, obs).writes;
    forall i | 0 <= i < |others| && others[i].locked
      ensures others[i].seen == Look(Merge(db, w), others[i].row)
    {
      var row := others[i].row;
      assert Holds(others, row);
      if Written(w, row) {
        WritesAreLocked(op, obs, row);
      }
      if row.Index? {
        IndexLocksAreFree(other, others, i);
      }
    }
  }

  // ---- the interleaved system ----

  datatype Flight = Flight(op: Op, obs: seq<Observation>)
  datatype State = State(db: Database, active: map<nat, Flight>, log: seq<Op>)

  /**
    Begin starts an operation, Advance performs its next action unless it has to
    wait for a lock, Fail rolls it back at any point (a lost connection, a
    deadlock victim). Register is the insertion of a wallet with its balance
    rows, whose ids no one else can know before it commits.
   */
  datatype Event = Begin(p: nat, op: Op) | Advance(p: nat) | Fail(p: nat) | Register(wallet: Wallet)

  predicate HeldByOther(active: map<nat, Flight>, p: nat, row: Row) {
    exists q :: q in active && q != p && Holds(active[q].obs, row)
  }

  predicate HoldsBalanceOf(obs: seq<Observation>, w: Wallet) {
    exists i :: 0 <= i < |obs| && obs[i].locked && obs[i].row.Balance? && obs[i].row.key.wallet == w
  }

  function Step(s: State, e: Event): State {
    match e
    case Begin(p, op) =>
      if p in s.active || op.OpenWallet? then s else s.(active := s.active[p := Flight(op, [])])
    case Advance(p) =>
      if p !in s.active then s
      else
        var Flight(op, obs) := s.active[p];
        (match Next(op, obs)
         case Commit(w) => State(Merge(s.db, w), s.active - {p}, s.log + [op])
         case Abort(_) => s.(active := s.active - {p})
         case a =>
           var seen := Look(s.db, a.row);
           if Takes(a, seen) && HeldByOther(s.active, p, a.row) then s
           else s.(active := s.active[p := Flight(op, obs + [Observation(a.row, seen, Takes(a, seen))])]))
    case Fail(p) => s.(active := s.active - {p})
    case Register(w) =>
      if exists p :: p in s.active && HoldsBalanceOf(s.active[p].obs, w) then s
      else
        match Atomic(OpenWallet(w), s.db)
        case RolledBack(_) => s
        case Committed(db) => State(db, s.active, s.log + [OpenWallet(w)])
  }

  function Run(db: Database, events: seq<Event>): State
    decreases |events|
  {
    if events == [] then State(db, map[], [])
    else Step(Run(db, events[..|events| - 1]), events[|events| - 1])
  }

  lemma RunOneMore(db: Database, events: seq<Event>, e: Event)
    ensures Run(db, events + [e]) == Step(Run(db, events), e)
  {
    assert (events + [e])[..|events|] == events;
  }

  // ---- the invariant of every interleaving ----

  ghost predicate InFlight(db: Database, f: Flight) {
    Follows(f.op, f.obs) && Current(db, f.obs)
  }

  ghost predicate Exclusive(active: map<nat, Flight>) {
    forall p, q, row | p in active && q in active && p != q ::
      !(Holds(active[p].obs, row) && Holds(active[q].obs, row))
  }

  ghost predicate Inv(init: Database, s: State) {
    && (forall p | p in s.active :: InFlight(s.db, s.active[p]))
    && Exclusive(s.active)
    && Replay(init, s.log) == Some(s.db)
  }

  /** The operation that a step commits, if any. */
  function Committing(s: State, e: Event): Option<Op> {
    match e
    case Advance(p) =>
      if p in s.active && Next(s.active[p].op, s.active[p].obs).Commit? then Some(s.active[p].op) else None
    case Register(w) => if Step(s, e) != s then Some(OpenWallet(w)) else None
    case _ => None
  }

  /** A step changes the tables as the operation it commits does alone, or not at all. */
  lemma StepIsAtomic(init: Database, s: State, e: Event)
    requires Inv(init, s)
    ensures match Committing(s, e)
      case Some(op) => Atomic(op, s.db) == Committed(Step(s, e).db)
      case None => Step(s, e).db == s.db
  {
    if e.Advance? && e.p in s.active && Next(s.active[e.p].op, s.active[e.p].obs).Commit? {
      CommitIsAtomic(s.active[e.p].op, s.active[e.p].obs, s.db);
    }
  }

  lemma ReplayOneMore(init: Database, log: seq<Op>, op: Op)
    requires Replay(init, log).Some? && Atomic(op, Replay(init, log).value).Committed?
    ensures Replay(init, log + [op]) == Some(Atomic(op, Replay(init, log).value).db)
  {
    assert (log + [op])[..|log|] == log;
  }

  lemma FollowsOneMore(op: Op, obs: seq<Observation>, o: Observation)
    requires Follows(op, obs) && Next(op, obs).Access()
    requires o.row == Next(op, obs).row && o.locked == Takes(Next(op, obs), o.seen)
    ensures Follows(op, obs + [o])
  {
    var more := obs + [o];
    forall i | 0 <= i < |more| ensures Asked(op, more, i) {
      if i < |obs| {
        assert Asked(op, obs, i);
        assert more[..i] == obs[..i];
      } else {
        assert more[..i] == obs;
      }
    }
  }

  lemma StepKeepsInv(init: Database, s: State, e: Event)
    requires Inv(init, s)
    ensures Inv(init, Step(s, e))
  {
    match e {
      case Begin(_, _) =>
      case Fail(_) =>
      case Register(w) => RegisterKeepsInv(init, s, w);
      case Advance(p) =>
        if p in s.active {
          var Flight(op, obs) := s.active[p];
          match Next(op, obs) {
            case Abort(_) =>
            case Commit(w) => CommitKeepsInv(init, s, p);
            case a => AccessKeepsInv(init, s, p);
          }
        }
    }
  }

  lemma CommitKeepsInv(init: Database, s: State, p: nat)
    requires Inv(init, s) && p in s.active && Next(s.active[p].op, s.active[p].obs).Commit?
    ensures Inv(init, Step(s, Advance(p)))
  {
    var Flight(op, obs) := s.active[p];
    CommitIsAtomic(op, obs, s.db);
    ReplayOneMore(init, s.log, op);
    forall q | q in s.active && q != p
      ensures InFlight(Step(s, Advance(p)).db, s.active[q])
    {
      CommitSparesOthers(op, obs, s.active[q].op, s.active[q].obs, s.db);
    }
  }

  lemma AccessKeepsInv(init: Database, s: State, p: nat)
    requires Inv(init, s) && p in s.active && Next(s.active[p].op, s.active[p].obs).Access()
    ensures Inv(init, Step(s, Advance(p)))
  {
    var Flight(op, obs) := s.active[p];
    var a := Next(op, obs);
    var o := Observation(a.row, Look(s.db, a.row), Takes(a, Look(s.db, a.row)));
    var s' := Step(s, Advance(p));
    if s' != s {
      FollowsOneMore(op, obs, o);
      forall q, row | q in s.active && q != p
        ensures !(Holds(obs + [o], row) && Holds(s.active[q].obs, row))
      {
        if Holds(obs + [o], row) && !Holds(obs, row) {
          assert row == o.row && o.locked;
        }
      }
    }
  }

  lemma RegisterKeepsInv(init: Database, s: State, w: Wallet)
    requires Inv(init, s)
    ensures Inv(init, Step(s, Register(w)))
  {
    if Step(s, Register(w)) != s {
      ReplayOneMore(init, s.log, OpenWallet(w));
      forall p | p in s.active
        ensures InFlight(Step(s, Register(w)).db, s.active[p])
      {
        assert !HoldsBalanceOf(s.active[p].obs, w);
      }
    }
  }

  lemma {:induction false} RunKeepsInv(db: Database, events: seq<Event>)
    ensures Inv(db, Run(db, events))
    decreases |events|
  {
    if events == [] {
    } else {
      RunKeepsInv(db, events[..|events| - 1]);
      StepKeepsInv(db, Run(db, events[..|events| - 1]), events[|events| - 1]);
    }
  }

  /**
    No lost update: after every interleaving the committed tables are those of
    running the committed operations one at a time in commit order.
   */
  lemma Serializable(db: Database, events: seq<Event>)
    ensures Replay(db, Run(db, events).log) == Some(Run(db, events).db)
  {
    RunKeepsInv(db, events);
  }

  /**
    No spurious failure: when a read makes an operation give up, running it
    alone on the tables of that moment would fail too, unless it is a deposit
    that another one has overtaken.
   */
  lemma AbortsAreJust(db: Database, events: seq<Event>, p: nat)
    requires var s := Run(db, events); p in s.active && p in Step(s, Advance(p)).active
    requires var s := Run(db, events);
      Step(s, Advance(p)) != s && Next(s.active[p].op, Step(s, Advance(p)).active[p].obs).Abort?
    ensures
      var s := Run(db, events);
      var op, obs := s.active[p].op, Step(s, Advance(p)).active[p].obs;
      Atomic(op, s.db) == RolledBack(Next(op, obs).error) || Overtaken(op, obs, s.db)
  {
    var s := Run(db, events);
    RunKeepsInv(db, events);
    StepKeepsInv(db, s, Advance(p));
    var after := Step(s, Advance(p));
    var op, obs := s.active[p].op, after.active[p].obs;
    assert InFlight(after.db, after.active[p]);
    assert after.db == s.db && after.active[p].op == op && |obs| == |s.active[p].obs| + 1;
    AbortIsAtomic(op, obs, s.db);
  }
}
