/** Payout callbacks: ProcessIrisNotification over batches in any order, with repeats. */
module IrisCallbacks {
  import opened Options
  import opened Ledger
  import opened Repository
  import opened OperationEffects
  import opened Sums

  /** An entry of the payload: the reference unless reference_no is not a UUID, and the status in lower case. */
  datatype Entry = Entry(referenceNo: Option<TxId>, status: string)

  /** What the status says. */
  datatype PayoutStatus = Completed | PayoutFailed | Unhandled

  datatype IrisItem = IrisItem(reference: Option<TxId>, status: PayoutStatus)

  function ItemOf(entry: Entry): IrisItem {
    IrisItem(entry.referenceNo,
             if entry.status == "completed" then Completed else if entry.status == "failed" then PayoutFailed else Unhandled)
  }

  function ItemsOf(payload: seq<Entry>): (items: seq<IrisItem>)
    ensures |items| == |payload| && forall i | 0 <= i < |payload| :: items[i] == ItemOf(payload[i])
  {
    seq(|payload|, i requires 0 <= i < |payload| => ItemOf(payload[i]))
  }

  /** The repository call for an item; None when it is skipped. */
  function CallFor(item: IrisItem): Option<Op> {
    match item
    case IrisItem(Some(id), Completed) => Some(UpdateStatus(id, Success))
    case IrisItem(Some(id), PayoutFailed) => Some(RejectFiat(id))
    case _ => None
  }

  datatype BatchResult = BatchResult(db: Database, err: Option<Error>, reached: nat)

  /** One batch: items in order, until one fails. `reached` counts the items processed, a failing one included. */
  function RunBatch(db: Database, items: seq<IrisItem>): (r: BatchResult)
    ensures r.reached <= |items|
    decreases |items|
  {
    if items == [] then BatchResult(db, None, 0)
    else
      match CallFor(items[0])
      case None => var r := RunBatch(db, items[1..]); r.(reached := r.reached + 1)
      case Some(op) =>
        match Atomic(op, db)
        case RolledBack(e) => BatchResult(db, Some(e), 1)
        case Committed(after) => var r := RunBatch(after, items[1..]); r.(reached := r.reached + 1)
  }

  class IrisWebhook {
    const txRepo: TransactionRepository

    constructor (txRepo: TransactionRepository)
      ensures this.txRepo == txRepo
    {
      this.txRepo := txRepo;
    }

    method ProcessIrisNotification(payload: seq<Entry>) returns (err: Option<Error>)
      modifies txRepo
      ensures txRepo.Tables() == RunBatch(old(txRepo.Tables()), ItemsOf(payload)).db
      ensures err == RunBatch(old(txRepo.Tables()), ItemsOf(payload)).err
    {
      ghost var items := ItemsOf(payload);
      for i := 0 to |payload|
        invariant RunBatch(txRepo.Tables(), items[i..]).db == RunBatch(old(txRepo.Tables()), items).db
        invariant RunBatch(txRepo.Tables(), items[i..]).err == RunBatch(old(txRepo.Tables()), items).err
      {
        var item := payload[i];
        assert items[i..][1..] == items[i + 1..] && items[i..][0] == ItemOf(item);
        if item.referenceNo.None? {
          continue;
        }
        if item.status == "completed" {
          err := txRepo.UpdateTransactionStatus(item.referenceNo.value, Success);
        } else if item.status == "failed" {
          err := txRepo.RejectWithdrawFiatTx(item.referenceNo.value);
        } else {
          continue;
        }
        if err.Some? {
          return err;
        }
      }
      return None;
    }
  }

  // ---- replay ----

  predicate IsCallback(op: Op) {
    (op.UpdateStatus? && op.status == Success) || op.RejectFiat?
  }

  /** The row already shows what this callback would do. */
  predicate Absorbed(op: Op, db: Database)
    requires IsCallback(op)
  {
    if op.UpdateStatus? then op.id in db.txs ==> db.txs[op.id].status == Success
    else op.id in db.txs && db.txs[op.id].status != Pending
  }

  lemma CallbacksAbsorb(op: Op, db: Database, after: Database)
    requires IsCallback(op) && Atomic(op, db) == Committed(after)
    ensures Absorbed(op, after)
  {
  }

  lemma AbsorbedDoesNothing(op: Op, db: Database)
    requires IsCallback(op) && Absorbed(op, db)
    ensures Atomic(op, db) == Committed(db)
  {
    if op.UpdateStatus? && op.id in db.txs {
      assert db.txs[op.id := db.txs[op.id].(status := Success)] == db.txs;
    }
  }

  lemma {:induction false} BatchKeepsAbsorbed(op: Op, db: Database, items: seq<IrisItem>)
    requires IsCallback(op) && Absorbed(op, db)
    ensures Absorbed(op, RunBatch(db, items).db)
    decreases |items|
  {
    if items == [] {
    } else {
      match CallFor(items[0]) {
        case None => BatchKeepsAbsorbed(op, db, items[1..]);
        case Some(next) =>
          match Atomic(next, db) {
            case RolledBack(_) =>
            case Committed(after) => BatchKeepsAbsorbed(op, after, items[1..]);
          }
      }
    }
  }

  /** Processing a batch again leaves the tables as they are, even when it stopped early. */
  lemma {:induction false} BatchTwice(db: Database, items: seq<IrisItem>)
    ensures RunBatch(RunBatch(db, items).db, items).db == RunBatch(db, items).db
    decreases |items|
  {
    if items == [] {
    } else {
      match CallFor(items[0]) {
        case None => BatchTwice(db, items[1..]);
        case Some(op) =>
          match Atomic(op, db) {
            case RolledBack(_) =>
            case Committed(after) =>
              CallbacksAbsorb(op, db, after);
              BatchKeepsAbsorbed(op, after, items[1..]);
              AbsorbedDoesNothing(op, RunBatch(after, items[1..]).db);
              BatchTwice(after, items[1..]);
          }
      }
    }
  }

  // ---- what one entry does, and where a batch stops ----

  /** No effect and no error. */
  predicate Skips(r: BatchResult, db: Database) { r.db == db && r.err.None? }

  /**
    One entry in the payload's own words: `completed` makes the row successful
    whatever it was, `failed` fails a pending row and gives amount and fee back
    to its source, and any other word, or no reference, does nothing.
   */
  lemma EntryEffect(db: Database, entry: Entry)
    ensures
      var r := RunBatch(db, ItemsOf([entry]));
      if entry.referenceNo.None? || entry.status !in {"completed", "failed"} then Skips(r, db)
      else
        var id := entry.referenceNo.value;
        if id !in db.txs then
          r.db == db && r.err == if entry.status == "completed" then None else Some(NotFound)
        else if entry.status == "completed" then
          && r.err.None? && r.db.balances == db.balances && r.db.keys == db.keys
          && OnlyWrites(db, r.db, id) && r.db.txs[id] == db.txs[id].(status := Success)
        else if db.txs[id].status != Pending then Skips(r, db)
        else if db.txs[id].source.None? then r.db == db && r.err == Some(SourceIsNil)
        else
          var t := db.txs[id];
          var key := Key(t.source.value, t.asset);
          if key !in db.balances then r.db == db && r.err == Some(NotFound)
          else
            && r.err.None? && OnlyMoves(db, r.db, {key}) && OnlyWrites(db, r.db, id) && r.db.keys == db.keys
            && r.db.txs[id] == t.(status := Failed)
            && r.db.balances[key] == db.balances[key] + t.amount + (if t.fee.Some? then t.fee.value else 0.0)
  {
    var items := ItemsOf([entry]);
    assert items == [ItemOf(entry)] && items[1..] == [];
    if entry.referenceNo.Some? {
      StatusEffect(db, entry.referenceNo.value, Success);
      RejectEffect(db, entry.referenceNo.value, true);
    }
  }

  /** The item's rejection is refused with this error; status writes never are. */
  predicate StopsWith(db: Database, item: IrisItem, e: Error) {
    item.reference.Some? && item.status == PayoutFailed && Atomic(RejectFiat(item.reference.value), db) == RolledBack(e)
  }

  predicate Passes(db: Database, item: IrisItem) {
    item.reference.Some? && item.status == PayoutFailed ==> Atomic(RejectFiat(item.reference.value), db).Committed?
  }

  /** The part of a batch before its first refused item. */
  ghost predicate AllPass(db: Database, items: seq<IrisItem>) {
    forall i | 0 <= i < |items| :: Passes(DeliverAll(db, items[..i]), items[i])
  }

  ghost predicate EndsThere(db: Database, items: seq<IrisItem>, err: Option<Error>, reached: nat)
    requires reached <= |items|
  {
    if err.None? then reached == |items| && AllPass(db, items)
    else
      && reached > 0 && AllPass(db, items[..reached - 1])
      && StopsWith(DeliverAll(db, items[..reached - 1]), items[reached - 1], err.value)
  }

  /** A batch ends after its last item, or at its first refused one and with that item's error. */
  lemma {:induction false} BatchStops(db: Database, items: seq<IrisItem>)
    ensures EndsThere(db, items, RunBatch(db, items).err, RunBatch(db, items).reached)
    decreases |items|
  {
    if items == [] {
    } else {
      BatchHead(db, items);
      if Passes(db, items[0]) {
        var next := Deliver(db, items[0]);
        BatchStops(next, items[1..]);
        LaterEnd(db, items, RunBatch(next, items[1..]).err, RunBatch(next, items[1..]).reached);
      }
    }
  }

  lemma BatchHead(db: Database, items: seq<IrisItem>)
    requires items != []
    ensures
      var r, rest := RunBatch(db, items), RunBatch(Deliver(db, items[0]), items[1..]);
      if Passes(db, items[0]) then r.err == rest.err && r.reached == rest.reached + 1
      else r.reached == 1 && r.err.Some? && StopsWith(db, items[0], r.err.value)
  {
  }

  lemma LaterEnd(db: Database, items: seq<IrisItem>, err: Option<Error>, reached: nat)
    requires items != [] && reached < |items| && Passes(db, items[0])
    requires EndsThere(Deliver(db, items[0]), items[1..], err, reached)
    ensures EndsThere(db, items, err, reached + 1)
  {
    var rest := if err.None? then items[1..] else items[1..][..reached - 1];
    assert [items[0]] + rest == if err.None? then items else items[..reached];
    PassesFirst(db, items[0], rest);
  }

  lemma PassesFirst(db: Database, first: IrisItem, rest: seq<IrisItem>)
    requires Passes(db, first) && AllPass(Deliver(db, first), rest)
    ensures AllPass(db, [first] + rest) && DeliverAll(db, [first] + rest) == DeliverAll(Deliver(db, first), rest)
  {
    var items := [first] + rest;
    assert items[1..] == rest;
    forall i | 0 <= i < |items| ensures Passes(DeliverAll(db, items[..i]), items[i]) {
      if i > 0 {
        assert items[..i][1..] == rest[..i - 1];
      }
    }
  }

  // ---- the first decisive callback wins ----

  /** One callback on its own: a failing call leaves the tables alone. */
  function Deliver(db: Database, item: IrisItem): Database {
    match CallFor(item)
    case None => db
    case Some(op) =>
      match Atomic(op, db)
      case RolledBack(_) => db
      case Committed(after) => after
  }

  function DeliverAll(db: Database, items: seq<IrisItem>): Database
    decreases |items|
  {
    if items == [] then db else DeliverAll(Deliver(db, items[0]), items[1..])
  }

  function RunBatches(db: Database, batches: seq<seq<IrisItem>>): Database
    decreases |batches|
  {
    if batches == [] then db else RunBatches(RunBatch(db, batches[0]).db, batches[1..])
  }

  /** The callbacks that the batches get to. */
  function Reached(db: Database, batches: seq<seq<IrisItem>>): seq<IrisItem>
    decreases |batches|
  {
    if batches == [] then []
    else
      var r := RunBatch(db, batches[0]);
      batches[0][..r.reached] + Reached(r.db, batches[1..])
  }

  lemma {:induction false} DeliverMore(db: Database, a: seq<IrisItem>, b: seq<IrisItem>)
    ensures DeliverAll(db, a + b) == DeliverAll(DeliverAll(db, a), b)
    decreases |a|
  {
    if a == [] {
      assert a + b == b;
    } else {
      assert (a + b)[1..] == a[1..] + b;
      DeliverMore(Deliver(db, a[0]), a[1..], b);
    }
  }

  lemma {:induction false} BatchDelivers(db: Database, items: seq<IrisItem>)
    ensures RunBatch(db, items).db == DeliverAll(db, items[..RunBatch(db, items).reached])
    decreases |items|
  {
    if items == [] {
    } else {
      var reached := items[..RunBatch(db, items).reached];
      match CallFor(items[0]) {
        case None =>
          BatchDelivers(db, items[1..]);
          assert reached[1..] == items[1..][..RunBatch(db, items[1..]).reached];
        case Some(op) =>
          match Atomic(op, db) {
            case RolledBack(_) =>
            case Committed(after) =>
              BatchDelivers(after, items[1..]);
              assert reached[1..] == items[1..][..RunBatch(after, items[1..]).reached];
          }
      }
    }
  }

  /** However callbacks are batched, the effect is that of delivering the reached ones in order. */
  lemma {:induction false} BatchesDeliver(db: Database, batches: seq<seq<IrisItem>>)
    ensures RunBatches(db, batches) == DeliverAll(db, Reached(db, batches))
    decreases |batches|
  {
    if batches == [] {
    } else {
      var r := RunBatch(db, batches[0]);
      BatchDelivers(db, batches[0]);
      BatchesDeliver(r.db, batches[1..]);
      DeliverMore(db, batches[0][..r.reached], Reached(r.db, batches[1..]));
    }
  }

  /** The first callback that decides about row id. */
  function FirstDecisive(items: seq<IrisItem>, id: TxId): Option<PayoutStatus>
    decreases |items|
  {
    if items == [] then None
    else if items[0].reference == Some(id) && items[0].status != Unhandled then Some(items[0].status)
    else FirstDecisive(items[1..], id)
  }

  /** A row whose money can be given back: pending, with a source balance. */
  predicate Open(db: Database, id: TxId) {
    id in db.txs && db.txs[id].status == Pending && db.txs[id].source.Some? && SourceKey(db.txs[id]) in db.balances
  }

  function SourceKey(t: Transaction): Key
    requires t.source.Some?
  {
    Key(t.source.value, t.asset)
  }

  /** Row id gets its money back from these callbacks: it is pending, and the first decisive one is `failed`. */
  predicate Refunded(db: Database, items: seq<IrisItem>, id: TxId) {
    Open(db, id) && FirstDecisive(items, id) == Some(PayoutFailed)
  }

  /** Amounts given back to balance k. */
  function RefundsTo(db: Database, items: seq<IrisItem>, k: Key): map<TxId, real> {
    map id | id in db.txs ::
      if Refunded(db, items, id) && SourceKey(db.txs[id]) == k then RefundAmount(db.txs[id], true) else 0.0
  }

  /** One callback leaves every other row, and whether it is still to be refunded, as they were. */
  lemma OthersUntouched(db: Database, items: seq<IrisItem>, id: TxId)
    requires items != [] && id in db.txs && items[0].reference != Some(id)
    ensures var next := Deliver(db, items[0]);
      id in next.txs && next.txs[id] == db.txs[id] && Refunded(next, items[1..], id) == Refunded(db, items, id)
  {
  }

  /** The callback's own row is paid back now if ever: `failed` on an open row pays, nothing pays later. */
  lemma OwnRow(db: Database, items: seq<IrisItem>, id: TxId)
    requires items != [] && items[0].reference == Some(id) && items[0].status != Unhandled && id in db.txs
    ensures var next := Deliver(db, items[0]);
      && id in next.txs && !Refunded(next, items[1..], id)
      && next.balances == if Refunded(db, items, id)
           then db.balances[SourceKey(db.txs[id]) := db.balances[SourceKey(db.txs[id])] + RefundAmount(db.txs[id], true)]
           else db.balances
  {
  }

  lemma DeliverRefunds(db: Database, items: seq<IrisItem>, k: Key)
    requires items != [] && k in db.balances
    ensures
      var next := Deliver(db, items[0]);
      k in next.balances &&
      next.balances[k] + Sum(RefundsTo(next, items[1..], k)) == db.balances[k] + Sum(RefundsTo(db, items, k))
  {
    var next := Deliver(db, items[0]);
    var now, later := RefundsTo(db, items, k), RefundsTo(next, items[1..], k);
    assert next.txs.Keys == db.txs.Keys;
    forall id | id in db.txs && items[0].reference != Some(id) ensures now[id] == later[id] {
      OthersUntouched(db, items, id);
    }
    if items[0].reference.Some? && items[0].reference.value in db.txs && items[0].status != Unhandled {
      var id := items[0].reference.value;
      OwnRow(db, items, id);
      Put(now, id, 0.0);
      assert later == now[id := 0.0];
    } else {
      assert next == db && now == later;
    }
  }

  /**
    Over every sequence of callbacks, each balance receives back exactly the
    amount and fee of the rows that were pending and whose first decisive
    callback is `failed`, once each, and nothing else.
   */
  lemma {:induction false} RefundedOnce(db: Database, items: seq<IrisItem>, k: Key)
    requires k in db.balances
    ensures k in DeliverAll(db, items).balances
    ensures DeliverAll(db, items).balances[k] == db.balances[k] + Sum(RefundsTo(db, items, k))
    decreases |items|
  {
    if items == [] {
      AllZero(RefundsTo(db, items, k));
    } else {
      DeliverRefunds(db, items, k);
      RefundedOnce(Deliver(db, items[0]), items[1..], k);
    }
  }

  predicate CompletedIn(items: seq<IrisItem>, id: TxId) {
    IrisItem(Some(id), Completed) in items
  }

  /**
    The status a row ends with. A later `completed` overwrites a refunded row's
    `failed`: the status write checks nothing.
   */
  lemma {:induction false} FinalStatus(db: Database, items: seq<IrisItem>, id: TxId)
    requires id in db.txs
    ensures id in DeliverAll(db, items).txs
    ensures DeliverAll(db, items).txs[id] == db.txs[id].(status :=
      if CompletedIn(items, id) then Success
      else if Open(db, id) && FirstDecisive(items, id).Some? then Failed
      else db.txs[id].status)
    decreases |items|
  {
    if items == [] {
    } else {
      FinalStatus(Deliver(db, items[0]), items[1..], id);
      assert CompletedIn(items, id) <==> items[0] == IrisItem(Some(id), Completed) || CompletedIn(items[1..], id);
    }
  }

  /** The theorem for batches as they arrive, split in any way. */
  lemma BatchesRefundOnce(db: Database, batches: seq<seq<IrisItem>>, k: Key)
    requires k in db.balances
    ensures k in RunBatches(db, batches).balances
    ensures RunBatches(db, batches).balances[k] == db.balances[k] + Sum(RefundsTo(db, Reached(db, batches), k))
  {
    BatchesDeliver(db, batches);
    RefundedOnce(db, Reached(db, batches), k);
  }
}
