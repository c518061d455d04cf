/** No balance is ever negative, in one-at-a-time runs and in every interleaving. */
module Solvency {
  import opened Ledger
  import Locking

  ghost predicate Solvent(db: Database) {
    && (forall k | k in db.balances :: db.balances[k] >= 0.0)
    && (forall id | id in db.txs :: db.txs[id].amount >= 0.0 && FeeOf(db.txs[id]) >= 0.0)
  }

  /** No negative amount, the guard of every usecase. */
  predicate NonNegative(op: Op) {
    match op
    case ExecuteTransfer(_, _, _, amount, _) => amount >= 0.0
    case ExecuteWithdrawFiat(_, _, amount, fee, _) => amount >= 0.0 && fee >= 0.0
    case CreatePendingTopUp(_, _, amount, _, _) => amount >= 0.0
    case SettleTopUp(_, _, amount) => amount >= 0.0
    case CreditDeposit(_, _, amount, _, _) => amount >= 0.0
    case CreatePendingWithdrawal(_, _, amount, _) => amount >= 0.0
    case ExecuteSwap(_, _, _, _, debit, received, _, fee) => debit >= 0.0 && received >= 0.0 && fee >= 0.0
    case _ => true
  }

  lemma StaysSolvent(op: Op, db: Database, after: Database)
    requires Solvent(db) && NonNegative(op) && Atomic(op, db) == Committed(after)
    ensures Solvent(after)
  {
  }

  lemma {:induction false} RunStaysSolvent(db: Database, log: seq<Op>)
    requires Solvent(db) && Replay(db, log).Some? && forall op | op in log :: NonNegative(op)
    ensures Solvent(Replay(db, log).value)
    decreases |log|
  {
    if log == [] {
    } else {
      var n := |log| - 1;
      RunStaysSolvent(db, log[..n]);
      StaysSolvent(log[n], Replay(db, log[..n]).value, Replay(db, log).value);
    }
  }

  /** Only operations that were begun are in flight or in the log. */
  lemma {:induction false} LogIsNonNegative(db: Database, events: seq<Locking.Event>)
    requires forall e | e in events && e.Begin? :: NonNegative(e.op)
    ensures forall op | op in Locking.Run(db, events).log :: NonNegative(op)
    ensures forall p | p in Locking.Run(db, events).active :: NonNegative(Locking.Run(db, events).active[p].op)
    decreases |events|
  {
    if events == [] {
    } else {
      var n := |events| - 1;
      LogIsNonNegative(db, events[..n]);
      assert events[n] in events;
    }
  }

  /** In every interleaving of operations with non-negative amounts, no committed balance is negative. */
  lemma NeverNegative(db: Database, events: seq<Locking.Event>, k: Key)
    requires Solvent(db) && forall e | e in events && e.Begin? :: NonNegative(e.op)
    requires k in Locking.Run(db, events).db.balances
    ensures Locking.Run(db, events).db.balances[k] >= 0.0
  {
    Locking.Serializable(db, events);
    LogIsNonNegative(db, events);
    RunStaysSolvent(db, Locking.Run(db, events).log);
  }
}
