/** Effects that happen at most once, over every run and every interleaving. */
module ExactlyOnce {
  import opened Options
  import opened Ledger
  import Locking

  // ---- deposits: one credit per transaction hash ----

  predicate Deposits(op: Op, hash: string) {
    op.CreditDeposit? && op.hash == hash
  }

  function DepositCount(log: seq<Op>, hash: string): nat
    decreases |log|
  {
    if log == [] then 0
    else DepositCount(log[..|log| - 1], hash) + if Deposits(log[|log| - 1], hash) then 1 else 0
  }

  /** A broadcast writes its hash onto a row that has none. */
  predicate KeepsHashes(op: Op, db: Database) {
    op.UpdateWithdrawal? && op.id in db.txs && op.newHash.Some? ==>
      db.txs[op.id].txHash.None? || db.txs[op.id].txHash == op.newHash
  }

  ghost predicate KeepsHashesRun(db: Database, log: seq<Op>) {
    forall i | 0 <= i < |log| && Replay(db, log[..i]).Some? :: KeepsHashes(log[i], Replay(db, log[..i]).value)
  }

  lemma DepositTakesItsHash(op: Op, db: Database, after: Database, hash: string)
    requires Atomic(op, db) == Committed(after) && KeepsHashes(op, db)
    ensures TxHash(hash) in db.keys ==> TxHash(hash) in after.keys
    ensures Deposits(op, hash) ==> TxHash(hash) !in db.keys && TxHash(hash) in after.keys
  {
  }

  /** A deposit commits at most once per hash, and never if the hash was there before. */
  lemma {:induction false} RunCreditsOnce(db: Database, log: seq<Op>, hash: string)
    requires Replay(db, log).Some? && KeepsHashesRun(db, log)
    ensures DepositCount(log, hash) <= if TxHash(hash) in db.keys then 0 else 1
    ensures TxHash(hash) in db.keys || DepositCount(log, hash) == 1 ==> TxHash(hash) in Replay(db, log).value.keys
    decreases |log|
  {
    if log == [] {
    } else {
      var n := |log| - 1;
      assert forall i | 0 <= i < n :: log[..n][..i] == log[..i];
      RunCreditsOnce(db, log[..n], hash);
      DepositTakesItsHash(log[n], Replay(db, log[..n]).value, Replay(db, log).value, hash);
    }
  }

  /**
    However deposit attempts with one hash interleave, with each other and with
    anything else, at most one of them commits, although several may pass the
    unlocked existence check.
   */
  lemma DepositCreditsOnce(db: Database, events: seq<Locking.Event>, hash: string)
    requires KeepsHashesRun(db, Locking.Run(db, events).log)
    ensures DepositCount(Locking.Run(db, events).log, hash) <= if TxHash(hash) in db.keys then 0 else 1
  {
    Locking.Serializable(db, events);
    RunCreditsOnce(db, Locking.Run(db, events).log, hash);
  }

  // ---- withdrawals: one refund per row ----

  predicate Rejects(op: Op, id: TxId) {
    (op.RejectFiat? || op.RejectCrypto?) && op.id == id
  }

  /** op gives money back for row id. */
  predicate Refunds(op: Op, db: Database, id: TxId) {
    Rejects(op, id) && id in db.txs && db.txs[id].status == Pending && Atomic(op, db).Committed?
  }

  ghost function RefundCount(db: Database, log: seq<Op>, id: TxId): nat
    decreases |log|
  {
    if log == [] then 0
    else
      var before := Replay(db, log[..|log| - 1]);
      RefundCount(db, log[..|log| - 1], id) + if before.Some? && Refunds(log[|log| - 1], before.value, id) then 1 else 0
  }

  predicate Decided(db: Database, id: TxId) {
    id in db.txs && db.txs[id].status != Pending
  }

  /** A plain status write of `pending` onto row id that is already decided. */
  predicate Reopens(op: Op, db: Database, id: TxId) {
    (op.UpdateStatus? || op.UpdateWithdrawal?) && op.id == id && op.status == Pending && Decided(db, id)
  }

  ghost function ReopenCount(db: Database, log: seq<Op>, id: TxId): nat
    decreases |log|
  {
    if log == [] then 0
    else
      var before := Replay(db, log[..|log| - 1]);
      ReopenCount(db, log[..|log| - 1], id) + if before.Some? && Reopens(log[|log| - 1], before.value, id) then 1 else 0
  }

  lemma RefundDecides(op: Op, db: Database, after: Database, id: TxId)
    requires Atomic(op, db) == Committed(after)
    ensures Refunds(op, db, id) ==> !Decided(db, id) && Decided(after, id)
    ensures Decided(db, id) && !Decided(after, id) ==> Reopens(op, db, id)
  {
  }

  /** What a refund pays: the amount, and from a fiat rejection the fee, goes back to the source. */
  lemma RefundPays(op: Op, db: Database, id: TxId)
    requires Refunds(op, db, id)
    ensures
      var t := db.txs[id];
      && t.source.Some?
      && var key := Key(t.source.value, t.asset);
      && key in db.balances
      && Atomic(op, db).db.balances == db.balances[key := db.balances[key] + RefundAmount(t, op.RejectFiat?)]
  {
  }

  /** In any run whatever, a row is refunded at most once more than it is reopened. */
  lemma {:induction false} RunRefundsAreBounded(db: Database, log: seq<Op>, id: TxId)
    requires Replay(db, log).Some?
    ensures RefundCount(db, log, id) + (if Decided(Replay(db, log).value, id) then 0 else 1)
      <= ReopenCount(db, log, id) + (if Decided(db, id) then 0 else 1)
    decreases |log|
  {
    if log == [] {
    } else {
      var n := |log| - 1;
      RunRefundsAreBounded(db, log[..n], id);
      RefundDecides(log[n], Replay(db, log[..n]).value, Replay(db, log).value, id);
    }
  }

  /** No status write of the run puts row id back to pending once it is decided. */
  ghost predicate NeverReopened(db: Database, log: seq<Op>, id: TxId) {
    forall i | 0 <= i < |log| && Replay(db, log[..i]).Some? :: !Reopens(log[i], Replay(db, log[..i]).value, id)
  }

  lemma {:induction false} NoReopenings(db: Database, log: seq<Op>, id: TxId)
    requires NeverReopened(db, log, id)
    ensures ReopenCount(db, log, id) == 0
    decreases |log|
  {
    if log == [] {
    } else {
      var n := |log| - 1;
      assert forall i | 0 <= i < n :: log[..n][..i] == log[..i];
      NoReopenings(db, log[..n], id);
    }
  }

  /**
    In every interleaving a row is refunded at most once more than it is
    reopened; so at most once unless a status write finds it decided and makes
    it pending again. Writing `pending` onto a pending row does no harm.
   */
  lemma RefundsOnce(db: Database, events: seq<Locking.Event>, id: TxId)
    ensures var log := Locking.Run(db, events).log;
      && RefundCount(db, log, id) <= ReopenCount(db, log, id) + (if Decided(db, id) then 0 else 1)
      && (NeverReopened(db, log, id) ==> RefundCount(db, log, id) <= if Decided(db, id) then 0 else 1)
  {
    var log := Locking.Run(db, events).log;
    Locking.Serializable(db, events);
    RunRefundsAreBounded(db, log, id);
    if NeverReopened(db, log, id) {
      NoReopenings(db, log, id);
    }
  }

  /**
    Reopening happens. A callback that rejects the payout before
    WithdrawFiat writes the payout's status is refunded a second time by the
    next such callback.
   */
  lemma ReopenedIsRefundedTwice(db: Database, id: TxId)
    requires id in db.txs && db.txs[id].status == Pending && db.txs[id].source.Some?
    requires Key(db.txs[id].source.value, db.txs[id].asset) in db.balances
    ensures
      var t := db.txs[id];
      var key := Key(t.source.value, t.asset);
      var end := Replay(db, [RejectFiat(id), UpdateStatus(id, Pending), RejectFiat(id)]);
      end.Some? && end.value.balances == db.balances[key := db.balances[key] + 2.0 * RefundAmount(t, true)]
  {
    var log := [RejectFiat(id), UpdateStatus(id, Pending), RejectFiat(id)];
    assert log[..2] == [RejectFiat(id), UpdateStatus(id, Pending)];
    assert log[..2][..1] == [RejectFiat(id)];
    assert log[..2][..1][..0] == [];
    var t := db.txs[id];
    assert Replay(db, log[..2][..1]) == Some(Refund(db, id, true).db);
    var reopened := Replay(db, log[..2]);
    assert reopened.value.txs[id] == t;
    assert Replay(db, log) == Some(Refund(reopened.value, id, true).db);
  }
}
