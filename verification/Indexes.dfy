/** The two unique indexes mirror their columns, in both directions, after every operation. */
module Indexes {
  import opened Options
  import opened Ledger

  predicate CarriesOrder(db: Database, id: TxId, order: string) {
    id in db.txs && db.txs[id].orderId == Some(order)
  }

  predicate CarriesHash(db: Database, id: TxId, hash: string) {
    id in db.txs && db.txs[id].txHash == Some(hash)
  }

  /** An order id leads to the row that carries it, and every row that carries one is found. */
  ghost predicate OrdersIndexed(db: Database) {
    && (forall o | OrderId(o) in db.keys :: CarriesOrder(db, db.keys[OrderId(o)], o))
    && (forall id, o | CarriesOrder(db, id, o) :: OrderId(o) in db.keys && db.keys[OrderId(o)] == id)
  }

  /** The same for transaction hashes. */
  ghost predicate HashesIndexed(db: Database) {
    && (forall h | TxHash(h) in db.keys :: CarriesHash(db, db.keys[TxHash(h)], h))
    && (forall id, h | CarriesHash(db, id, h) :: TxHash(h) in db.keys && db.keys[TxHash(h)] == id)
  }

  lemma OrdersStayIndexed(op: Op, db: Database, after: Database)
    requires OrdersIndexed(db) && Atomic(op, db) == Committed(after)
    ensures OrdersIndexed(after)
  {
    forall id, o | CarriesOrder(after, id, o) ensures OrderId(o) in after.keys && after.keys[OrderId(o)] == id {
      assert CarriesOrder(db, id, o) || (op.CreatePendingTopUp? && op.id == id);
    }
    forall o | OrderId(o) in after.keys ensures CarriesOrder(after, after.keys[OrderId(o)], o) {
      assert (OrderId(o) in db.keys && CarriesOrder(db, db.keys[OrderId(o)], o)) || (op.CreatePendingTopUp? && op.order == o);
    }
  }

  lemma HashesStayIndexed(op: Op, db: Database, after: Database)
    requires HashesIndexed(db) && Atomic(op, db) == Committed(after)
    ensures HashesIndexed(after)
  {
    forall id, h | CarriesHash(after, id, h) ensures TxHash(h) in after.keys && after.keys[TxHash(h)] == id {
      if op.UpdateWithdrawal? && op.id != id {
        assert CarriesHash(db, id, h);
        assert op.id in db.txs && db.txs[op.id].txHash.Some? ==> CarriesHash(db, op.id, db.txs[op.id].txHash.value);
      } else {
        assert CarriesHash(db, id, h) || ((op.CreditDeposit? || op.UpdateWithdrawal?) && op.id == id);
      }
    }
    forall h | TxHash(h) in after.keys ensures CarriesHash(after, after.keys[TxHash(h)], h) {
      assert TxHash(h) in db.keys ==> CarriesHash(db, db.keys[TxHash(h)], h);
    }
  }

  function ByOrder(db: Database, orderID: string): Option<TxId> {
    if OrderId(orderID) in db.keys && db.keys[OrderId(orderID)] in db.txs then Some(db.keys[OrderId(orderID)]) else None
  }

  /** The lookup finds a row exactly when that row carries the order id; so at most one row does. */
  lemma ByOrderFinds(db: Database, order: string, id: TxId)
    requires OrdersIndexed(db)
    ensures ByOrder(db, order) == Some(id) <==> CarriesOrder(db, id, order)
  {
  }
}
