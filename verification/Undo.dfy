/** A rejected withdrawal leaves the ledger as if it had never been made. */
module Undo {
  import opened Options
  import opened Ledger

  /** A pending withdrawal: its row, and the balance and amount it debited. */
  datatype Gap = Gap(id: TxId, row: Transaction, key: Key, total: real)

  /** The ledger `without` the withdrawal, seen from the ledger `with` it. */
  function Without(with: Database, g: Gap): Database
    requires g.key in with.balances
  {
    with.(balances := with.balances[g.key := with.balances[g.key] + g.total], txs := with.txs - {g.id})
  }

  ghost predicate Pends(with: Database, g: Gap) {
    g.total >= 0.0 && g.key in with.balances && g.id in with.txs && with.txs[g.id] == g.row
  }

  /** op commits with the withdrawal and without it, and changes both ledgers alike. */
  ghost predicate Commutes(op: Op, with: Database, after: Database, g: Gap)
    requires g.key in with.balances
  {
    Pends(after, g) && Atomic(op, Without(with, g)) == Committed(Without(after, g))
  }

  lemma PutRow(txs: map<TxId, Transaction>, id: TxId, t: Transaction, gone: TxId)
    requires id != gone
    ensures txs[id := t] - {gone} == (txs - {gone})[id := t]
  {
  }

  lemma TransferCommutes(op: Op, with: Database, after: Database, g: Gap)
    requires op.ExecuteTransfer?
    requires Pends(with, g) && !Names(op, g.id) && Atomic(op, with) == Committed(after)
    ensures Commutes(op, with, after, g)
  {
    PutRow(with.txs, op.id, after.txs[op.id], g.id);
  }

  lemma SwapCommutes(op: Op, with: Database, after: Database, g: Gap)
    requires op.ExecuteSwap?
    requires Pends(with, g) && !Names(op, g.id) && Atomic(op, with) == Committed(after)
    ensures Commutes(op, with, after, g)
  {
    PutRow(with.txs, op.id, after.txs[op.id], g.id);
  }

  lemma DebitCommutes(op: Op, with: Database, after: Database, g: Gap)
    requires op.ExecuteWithdrawFiat? || op.CreatePendingWithdrawal?
    requires Pends(with, g) && !Names(op, g.id) && Atomic(op, with) == Committed(after)
    ensures Commutes(op, with, after, g)
  {
    PutRow(with.txs, op.id, after.txs[op.id], g.id);
  }

  lemma CreditCommutes(op: Op, with: Database, after: Database, g: Gap)
    requires op.CreditDeposit? || op.SettleTopUp?
    requires Pends(with, g) && !Names(op, g.id) && Atomic(op, with) == Committed(after)
    ensures Commutes(op, with, after, g)
  {
    if op.id in after.txs {
      PutRow(with.txs, op.id, after.txs[op.id], g.id);
    }
  }

  lemma RejectCommutes(op: Op, with: Database, after: Database, g: Gap)
    requires op.RejectCrypto? || op.RejectFiat?
    requires Pends(with, g) && !Names(op, g.id) && Atomic(op, with) == Committed(after)
    ensures Commutes(op, with, after, g)
  {
    PutRow(with.txs, op.id, after.txs[op.id], g.id);
  }

  lemma RecordCommutes(op: Op, with: Database, after: Database, g: Gap)
    requires op.CreatePendingTopUp? || op.UpdateStatus? || op.UpdateWithdrawal?
    requires Pends(with, g) && !Names(op, g.id) && Atomic(op, with) == Committed(after)
    ensures Commutes(op, with, after, g)
  {
    if op.id in after.txs {
      PutRow(with.txs, op.id, after.txs[op.id], g.id);
    }
  }

  lemma OpenCommutes(op: Op, with: Database, after: Database, g: Gap)
    requires op.OpenWallet?
    requires Pends(with, g) && Atomic(op, with) == Committed(after)
    ensures Commutes(op, with, after, g)
  {
  }

  lemma StepCommutes(op: Op, with: Database, after: Database, g: Gap)
    requires Pends(with, g) && !Names(op, g.id) && Atomic(op, with) == Committed(after)
    ensures Commutes(op, with, after, g)
  {
    match op {
      case OpenWallet(_) => OpenCommutes(op, with, after, g);
      case ExecuteTransfer(_, _, _, _, _) => TransferCommutes(op, with, after, g);
      case ExecuteSwap(_, _, _, _, _, _, _, _) => SwapCommutes(op, with, after, g);
      case ExecuteWithdrawFiat(_, _, _, _, _) => DebitCommutes(op, with, after, g);
      case CreatePendingWithdrawal(_, _, _, _) => DebitCommutes(op, with, after, g);
      case CreditDeposit(_, _, _, _, _) => CreditCommutes(op, with, after, g);
      case SettleTopUp(_, _, _) => CreditCommutes(op, with, after, g);
      case RejectCrypto(_) => RejectCommutes(op, with, after, g);
      case RejectFiat(_) => RejectCommutes(op, with, after, g);
      case _ => RecordCommutes(op, with, after, g);
    }
  }

  /** Committed operations do not depend on the debit: the whole run commits without it, with the same changes. */
  lemma {:induction false} RunCommutes(log: seq<Op>, with: Database, g: Gap)
    requires Pends(with, g)
    requires Replay(with, log).Some? && forall op | op in log :: !Names(op, g.id)
    ensures Pends(Replay(with, log).value, g)
    ensures Replay(Without(with, g), log) == Some(Without(Replay(with, log).value, g))
    decreases |log|
  {
    if log == [] {
    } else {
      var n := |log| - 1;
      RunCommutes(log[..n], with, g);
      StepCommutes(log[n], Replay(with, log[..n]).value, Replay(with, log).value, g);
    }
  }

  /** Operations that do not name a row leave it alone. */
  lemma {:induction false} ReplayKeepsRow(db: Database, log: seq<Op>, id: TxId)
    requires Replay(db, log).Some? && id in db.txs && forall op | op in log :: !Names(op, id)
    ensures id in Replay(db, log).value.txs && Replay(db, log).value.txs[id] == db.txs[id]
    decreases |log|
  {
    if log == [] {
    } else {
      var n := |log| - 1;
      ReplayKeepsRow(db, log[..n], id);
      CommitKeepsRow(log[n], Replay(db, log[..n]).value, Replay(db, log).value, id);
    }
  }

  predicate IsWithdrawal(op: Op) {
    op.CreatePendingWithdrawal? || op.ExecuteWithdrawFiat?
  }

  function RejectOf(op: Op): Op
    requires IsWithdrawal(op)
  {
    if op.ExecuteWithdrawFiat? then RejectFiat(op.id) else RejectCrypto(op.id)
  }

  /** What a withdrawal takes from its balance. */
  function Debited(op: Op): real
    requires IsWithdrawal(op)
  {
    if op.ExecuteWithdrawFiat? then op.amount + op.fee else op.amount
  }

  /**
    A withdrawal, any operations that do not name it, and its rejection leave
    every balance, every other row and every unique key exactly as those
    operations alone would; all that stays is the failed row.
   */
  lemma RejectUndoes(db: Database, withdrawal: Op, between: seq<Op>)
    requires IsWithdrawal(withdrawal) && Debited(withdrawal) >= 0.0
    requires forall op | op in between :: !Names(op, withdrawal.id)
    requires Atomic(withdrawal, db).Committed?
    requires Replay(Atomic(withdrawal, db).db, between).Some?
    ensures Replay(db, between).Some?
    ensures
      var alone := Replay(db, between).value;
      var row := Atomic(withdrawal, db).db.txs[withdrawal.id];
      Atomic(RejectOf(withdrawal), Replay(Atomic(withdrawal, db).db, between).value)
      == Committed(alone.(txs := alone.txs[withdrawal.id := row.(status := Failed)]))
  {
    var with := Atomic(withdrawal, db).db;
    var g := Gap(withdrawal.id, with.txs[withdrawal.id], Key(withdrawal.wallet, withdrawal.asset), Debited(withdrawal));
    assert with.txs - {g.id} == db.txs;
    assert Without(with, g) == db;
    RunCommutes(between, with, g);
    RejectFillsGap(Replay(with, between).value, g, withdrawal.ExecuteWithdrawFiat?);
  }

  lemma RejectFillsGap(last: Database, g: Gap, fiat: bool)
    requires Pends(last, g) && g.row.status == Pending && g.row.source == Some(g.key.wallet) && g.row.asset == g.key.asset
    requires g.total == RefundAmount(g.row, fiat)
    ensures
      var alone := Without(last, g);
      Atomic(if fiat then RejectFiat(g.id) else RejectCrypto(g.id), last)
      == Committed(alone.(txs := alone.txs[g.id := g.row.(status := Failed)]))
  {
    assert (last.txs - {g.id})[g.id := g.row.(status := Failed)] == last.txs[g.id := g.row.(status := Failed)];
  }
}
