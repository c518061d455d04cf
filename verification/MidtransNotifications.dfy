/** Payment notifications: ProcessMidtransNotification in any sequence, and with overlapping handlers. */
module MidtransNotifications {
  import opened Options
  import opened Ledger
  import opened Repository
  import opened Indexes
  import opened Sums

  /** The payload; a field that is missing or not a string is empty. */
  datatype Notification = Notification(
    orderID: string, statusCode: string, grossAmount: string, signatureKey: string,
    transactionStatus: string, fraudStatus: string)

  /** The signature check of the payment client and the decimal parser. */
  datatype Gateway = Gateway(
    verify: (string, string, string, string) -> bool,
    parse: string -> Option<real>)

  datatype Failure = InvalidPayload | InvalidSignature | UnknownOrder | BadAmount | NoDestination | RepositoryError(error: Error)

  datatype Verdict = Settle | Fail | Ignore

  function VerdictOf(n: Notification): Verdict {
    if n.transactionStatus == "capture" then (if n.fraudStatus == "accept" then Settle else Fail)
    else if n.transactionStatus == "settlement" then Settle
    else if n.transactionStatus in {"deny", "cancel", "expire"} then Fail
    else Ignore
  }

  class MidtransWebhook {
    const txRepo: TransactionRepository
    const gateway: Gateway

    constructor (txRepo: TransactionRepository, gateway: Gateway)
      ensures this.txRepo == txRepo && this.gateway == gateway
    {
      this.txRepo := txRepo;
      this.gateway := gateway;
    }

    method ProcessMidtransNotification(n: Notification) returns (err: Option<Failure>)
      modifies txRepo
      ensures Response(txRepo.Tables(), err) == Process(gateway, old(txRepo.Tables()), n)
    {
      if n.orderID == "" || n.statusCode == "" || n.grossAmount == "" || n.signatureKey == "" {
        return Some(InvalidPayload);
      }
      if !gateway.verify(n.orderID, n.statusCode, n.grossAmount, n.signatureKey) {
        return Some(InvalidSignature);
      }
      var found := txRepo.GetTransactionByOrderID(n.orderID);
      if found.None? { return Some(UnknownOrder); }
      var txRecord := txRepo.transactions[found.value];
      if txRecord.status != Pending { return None; }
      var amount := gateway.parse(n.grossAmount);
      if amount.None? { return Some(BadAmount); }

      var repoErr: Option<Error> := None;
      if VerdictOf(n) == Settle {
        if txRecord.destination.None? { return Some(NoDestination); }
        repoErr := txRepo.SettleTopUpTx(found.value, txRecord.destination.value, amount.value);
      } else if VerdictOf(n) == Fail {
        repoErr := txRepo.UpdateTransactionStatus(found.value, Failed);
      }
      return if repoErr.Some? then Some(RepositoryError(repoErr.value)) else None;
    }
  }

  datatype Response = Response(db: Database, err: Option<Failure>)

  /** A pending row of the order is settled with the notified amount, or failed; nothing else is touched. */
  function Process(g: Gateway, db: Database, n: Notification): Response {
    var found := ByOrder(db, n.orderID);
    if n.orderID == "" || n.statusCode == "" || n.grossAmount == "" || n.signatureKey == "" then
      Response(db, Some(InvalidPayload))
    else if !g.verify(n.orderID, n.statusCode, n.grossAmount, n.signatureKey) then Response(db, Some(InvalidSignature))
    else if found.None? then Response(db, Some(UnknownOrder))
    else if db.txs[found.value].status != Pending then Response(db, None)
    else if g.parse(n.grossAmount).None? then Response(db, Some(BadAmount))
    else
      match VerdictOf(n)
      case Ignore => Response(db, None)
      case Fail => Answer(db, Atomic(UpdateStatus(found.value, Failed), db))
      case Settle =>
        var w := db.txs[found.value].destination;
        if w.None? then Response(db, Some(NoDestination))
        else Answer(db, Atomic(SettleTopUp(found.value, w.value, g.parse(n.grossAmount).value), db))
  }

  function Answer(db: Database, outcome: Outcome): Response {
    match outcome
    case Committed(after) => Response(after, None)
    case RolledBack(e) => Response(db, Some(RepositoryError(e)))
  }

  // ---- what the payload's own words do ----

  /** All fields are there and the signature is right. */
  predicate Authentic(g: Gateway, n: Notification) {
    && n.orderID != "" && n.statusCode != "" && n.grossAmount != "" && n.signatureKey != ""
    && g.verify(n.orderID, n.statusCode, n.grossAmount, n.signatureKey)
  }

  predicate SaysPaid(n: Notification) {
    n.transactionStatus == "settlement" || (n.transactionStatus == "capture" && n.fraudStatus == "accept")
  }

  predicate SaysFailed(n: Notification) {
    || n.transactionStatus == "deny" || n.transactionStatus == "cancel" || n.transactionStatus == "expire"
    || (n.transactionStatus == "capture" && n.fraudStatus != "accept")
  }

  /** The row of the order is pending, and the amount can be read. */
  predicate Waits(g: Gateway, db: Database, n: Notification, id: TxId) {
    CarriesOrder(db, id, n.orderID) && db.txs[id].status == Pending && g.parse(n.grossAmount).Some?
  }

  /** `settlement`, and `capture` that was accepted, add the notified amount to the wallet's rupiah and end in success. */
  lemma PaidIsCredited(g: Gateway, db: Database, n: Notification, id: TxId, w: Wallet)
    requires OrdersIndexed(db) && Authentic(g, n) && Waits(g, db, n, id) && SaysPaid(n)
    requires db.txs[id].destination == Some(w) && Key(w, IDR) in db.balances
    ensures
      var r := Process(g, db, n);
      && r.err.None? && r.db.keys == db.keys && r.db.txs.Keys == db.txs.Keys
      && r.db.balances == db.balances[Key(w, IDR) := db.balances[Key(w, IDR)] + g.parse(n.grossAmount).value]
      && r.db.txs[id].status == Success
      && forall other | other in db.txs && other != id :: r.db.txs[other] == db.txs[other]
  {
    ByOrderFinds(db, n.orderID, id);
  }

  /** `deny`, `cancel`, `expire`, and `capture` that was not accepted, fail the row and move no money. */
  lemma FailedIsNotCredited(g: Gateway, db: Database, n: Notification, id: TxId)
    requires OrdersIndexed(db) && Authentic(g, n) && Waits(g, db, n, id) && SaysFailed(n)
    ensures Process(g, db, n) == Response(db.(txs := db.txs[id := db.txs[id].(status := Failed)]), None)
  {
    ByOrderFinds(db, n.orderID, id);
  }

  /** Any other word changes nothing and is no error. */
  lemma OtherWordsAreIgnored(g: Gateway, db: Database, n: Notification, id: TxId)
    requires OrdersIndexed(db) && Authentic(g, n) && Waits(g, db, n, id) && !SaysPaid(n) && !SaysFailed(n)
    ensures Process(g, db, n) == Response(db, None)
  {
    ByOrderFinds(db, n.orderID, id);
  }

  /** Every other notification leaves the tables alone; a decided row is no error, anything else is, in this order. */
  lemma OthersAreRefused(g: Gateway, db: Database, n: Notification)
    requires OrdersIndexed(db)
    ensures
      var r := Process(g, db, n);
      && (n.orderID == "" || n.statusCode == "" || n.grossAmount == "" || n.signatureKey == "" ==>
            r == Response(db, Some(InvalidPayload)))
      && (n.orderID != "" && n.statusCode != "" && n.grossAmount != "" && n.signatureKey != "" && !Authentic(g, n) ==>
            r == Response(db, Some(InvalidSignature)))
      && (Authentic(g, n) && (forall id: TxId :: !CarriesOrder(db, id, n.orderID)) ==> r == Response(db, Some(UnknownOrder)))
      && (forall id | Authentic(g, n) && CarriesOrder(db, id, n.orderID) ::
            && (db.txs[id].status != Pending ==> r == Response(db, None))
            && (db.txs[id].status == Pending && g.parse(n.grossAmount).None? ==> r == Response(db, Some(BadAmount)))
            && (Waits(g, db, n, id) && SaysPaid(n) && db.txs[id].destination.None? ==> r == Response(db, Some(NoDestination)))
            && (Waits(g, db, n, id) && SaysPaid(n) && db.txs[id].destination.Some?
                  && Key(db.txs[id].destination.value, IDR) !in db.balances ==>
                  r == Response(db, Some(RepositoryError(NotFound)))))
  {
    if ByOrder(db, n.orderID).Some? {
      ByOrderFinds(db, n.orderID, ByOrder(db, n.orderID).value);
    }
  }

  /** A verified, parseable notification of this order that settles or fails it. */
  predicate Decisive(g: Gateway, n: Notification, order: string) {
    && n.orderID == order && order != "" && n.statusCode != "" && n.grossAmount != "" && n.signatureKey != ""
    && g.verify(order, n.statusCode, n.grossAmount, n.signatureKey)
    && g.parse(n.grossAmount).Some? && VerdictOf(n) != Ignore
  }

  function After(g: Gateway, db: Database, n: Notification): Database {
    Process(g, db, n).db
  }

  function AfterAll(g: Gateway, db: Database, ns: seq<Notification>): Database
    decreases |ns|
  {
    if ns == [] then db else AfterAll(g, After(g, db, ns[0]), ns[1..])
  }

  // ---- handlers one after the other: the first decisive notification wins ----

  function FirstDecisive(g: Gateway, ns: seq<Notification>, order: string): Option<Notification>
    ensures FirstDecisive(g, ns, order).Some? ==> Decisive(g, FirstDecisive(g, ns, order).value, order)
    decreases |ns|
  {
    if ns == [] then None
    else if Decisive(g, ns[0], order) then Some(ns[0])
    else FirstDecisive(g, ns[1..], order)
  }

  /** A wallet with a rupiah balance is to be credited. */
  predicate Creditable(db: Database, t: Transaction) {
    t.destination.Some? && CreditKey(t) in db.balances
  }

  /** A pending row with an order id, for a wallet with a rupiah balance. */
  predicate Open(db: Database, id: TxId) {
    id in db.txs && db.txs[id].status == Pending && db.txs[id].orderId.Some? && Creditable(db, db.txs[id])
  }

  function CreditKey(t: Transaction): Key
    requires t.destination.Some?
  {
    Key(t.destination.value, IDR)
  }

  /** What the notifications credit for row id. */
  function CreditFor(g: Gateway, db: Database, ns: seq<Notification>, id: TxId): Option<real> {
    if !Open(db, id) then None
    else
      var first := FirstDecisive(g, ns, db.txs[id].orderId.value);
      if first.Some? && VerdictOf(first.value) == Settle then g.parse(first.value.grossAmount) else None
  }

  function CreditsTo(g: Gateway, db: Database, ns: seq<Notification>, k: Key): map<TxId, real> {
    map id | id in db.txs ::
      if CreditFor(g, db, ns, id).Some? && CreditKey(db.txs[id]) == k then CreditFor(g, db, ns, id).value else 0.0
  }

  /** A notification leaves the rows of other orders, and what they are still to receive, as they were. */
  lemma OthersUntouched(g: Gateway, db: Database, ns: seq<Notification>, id: TxId)
    requires ns != [] && id in db.txs && ByOrder(db, ns[0].orderID) != Some(id) && OrdersIndexed(db)
    ensures var next := After(g, db, ns[0]);
      id in next.txs && next.txs[id] == db.txs[id] && CreditFor(g, next, ns[1..], id) == CreditFor(g, db, ns, id)
  {
    SameKeys(g, db, ns[0]);
    ByOrderFinds(db, ns[0].orderID, id);
  }

  /** The row of a decisive notification is credited now if ever. */
  lemma OwnRow(g: Gateway, db: Database, ns: seq<Notification>, id: TxId)
    requires ns != [] && ByOrder(db, ns[0].orderID) == Some(id) && Decisive(g, ns[0], ns[0].orderID) && OrdersIndexed(db)
    ensures var next := After(g, db, ns[0]);
      && id in next.txs && CreditFor(g, next, ns[1..], id).None?
      && next.balances ==
           if CreditFor(g, db, ns, id).Some?
           then db.balances[CreditKey(db.txs[id]) := db.balances[CreditKey(db.txs[id])] + CreditFor(g, db, ns, id).value]
           else db.balances
  {
  }

  lemma IndecisiveDoesNothing(g: Gateway, db: Database, ns: seq<Notification>, id: TxId)
    requires ns != [] && !Decisive(g, ns[0], ns[0].orderID) && id in db.txs && OrdersIndexed(db)
    ensures After(g, db, ns[0]) == db && CreditFor(g, db, ns[1..], id) == CreditFor(g, db, ns, id)
  {
  }

  lemma SameKeys(g: Gateway, db: Database, n: Notification)
    ensures var next := After(g, db, n);
      next.keys == db.keys && next.txs.Keys == db.txs.Keys && next.balances.Keys == db.balances.Keys
    ensures OrdersIndexed(db) ==> OrdersIndexed(After(g, db, n))
  {
    if OrdersIndexed(db) {
      AfterIsIndexed(g, db, n);
    }
  }

  lemma AfterIsIndexed(g: Gateway, db: Database, n: Notification)
    requires OrdersIndexed(db)
    ensures OrdersIndexed(After(g, db, n))
  {
    var next := After(g, db, n);
    assert next.keys == db.keys && next.txs.Keys == db.txs.Keys;
    forall id | id in db.txs ensures next.txs[id].orderId == db.txs[id].orderId {
    }
    forall id, o | CarriesOrder(next, id, o) ensures OrderId(o) in next.keys && next.keys[OrderId(o)] == id {
      assert CarriesOrder(db, id, o);
    }
    forall o | OrderId(o) in next.keys ensures CarriesOrder(next, next.keys[OrderId(o)], o) {
      assert CarriesOrder(db, db.keys[OrderId(o)], o);
    }
  }

  /** Entry by entry: only the row of a decisive notification stops waiting for its credit. */
  lemma CreditsLeft(g: Gateway, db: Database, ns: seq<Notification>, k: Key)
    requires ns != [] && OrdersIndexed(db)
    ensures
      var next := After(g, db, ns[0]);
      var own := ByOrder(db, ns[0].orderID);
      CreditsTo(g, next, ns[1..], k) ==
        if own.Some? && Decisive(g, ns[0], ns[0].orderID) then CreditsTo(g, db, ns, k)[own.value := 0.0]
        else CreditsTo(g, db, ns, k)
  {
    SameKeys(g, db, ns[0]);
    forall id | id in db.txs
      ensures CreditsTo(g, After(g, db, ns[0]), ns[1..], k)[id] ==
        if ByOrder(db, ns[0].orderID) == Some(id) && Decisive(g, ns[0], ns[0].orderID) then 0.0
        else CreditsTo(g, db, ns, k)[id]
    {
      if ByOrder(db, ns[0].orderID) != Some(id) {
        OthersUntouched(g, db, ns, id);
      } else if Decisive(g, ns[0], ns[0].orderID) {
        OwnRow(g, db, ns, id);
      } else {
        IndecisiveDoesNothing(g, db, ns, id);
      }
    }
  }

  lemma NotificationCredits(g: Gateway, db: Database, ns: seq<Notification>, k: Key)
    requires ns != [] && k in db.balances && OrdersIndexed(db)
    ensures
      var next := After(g, db, ns[0]);
      OrdersIndexed(next) && k in next.balances &&
      next.balances[k] + Sum(CreditsTo(g, next, ns[1..], k)) == db.balances[k] + Sum(CreditsTo(g, db, ns, k))
  {
    var own := ByOrder(db, ns[0].orderID);
    SameKeys(g, db, ns[0]);
    CreditsLeft(g, db, ns, k);
    if own.Some? && Decisive(g, ns[0], ns[0].orderID) {
      OwnRow(g, db, ns, own.value);
      Put(CreditsTo(g, db, ns, k), own.value, 0.0);
    }
  }

  /**
    Over every sequence of notifications, each balance receives exactly the
    notified amounts of the pending orders whose first decisive notification
    settles them, once each, and nothing else.
   */
  lemma {:induction false} CreditedOnce(g: Gateway, db: Database, ns: seq<Notification>, k: Key)
    requires k in db.balances && OrdersIndexed(db)
    ensures k in AfterAll(g, db, ns).balances
    ensures AfterAll(g, db, ns).balances[k] == db.balances[k] + Sum(CreditsTo(g, db, ns, k))
    decreases |ns|
  {
    if ns == [] {
      AllZero(CreditsTo(g, db, ns, k));
    } else {
      NotificationCredits(g, db, ns, k);
      CreditedOnce(g, After(g, db, ns[0]), ns[1..], k);
    }
  }

  /** The first notification that decides a row: a settling one only if its wallet can be credited. */
  function FirstDeciding(g: Gateway, ns: seq<Notification>, order: string, creditable: bool): Option<Notification>
    ensures var first := FirstDeciding(g, ns, order, creditable); first.Some? ==> Decisive(g, first.value, order)
    decreases |ns|
  {
    if ns == [] then None
    else if Decisive(g, ns[0], order) && (creditable || VerdictOf(ns[0]) == Fail) then Some(ns[0])
    else FirstDeciding(g, ns[1..], order, creditable)
  }

  /** What the first deciding notification makes of a pending row. */
  function Decide(g: Gateway, t: Transaction, first: Option<Notification>): Transaction {
    if first.None? then t
    else if VerdictOf(first.value) == Fail || g.parse(first.value.grossAmount).None? then t.(status := Failed)
    else SettledRow(t, g.parse(first.value.grossAmount).value)
  }

  lemma DecideOne(g: Gateway, db: Database, n: Notification, id: TxId)
    requires OrdersIndexed(db) && id in db.txs
    ensures
      var t, next := db.txs[id], After(g, db, n);
      && id in next.txs && Creditable(next, t) == Creditable(db, t)
      && next.txs[id] ==
           if t.status != Pending || t.orderId.None? then t
           else Decide(g, t, FirstDeciding(g, [n], t.orderId.value, Creditable(db, t)))
  {
    SameKeys(g, db, n);
    var t := db.txs[id];
    assert forall order, creditable :: FirstDeciding(g, [n][1..], order, creditable) == None;
    if t.orderId.Some? {
      ByOrderFinds(db, t.orderId.value, id);
    }
    ByOrderFinds(db, n.orderID, id);
  }

  /** Every row: its status leaves pending at most once, by the first deciding notification, and never changes again. */
  lemma {:induction false} DecidedOnce(g: Gateway, db: Database, ns: seq<Notification>, id: TxId)
    requires OrdersIndexed(db) && id in db.txs
    ensures id in AfterAll(g, db, ns).txs
    ensures AfterAll(g, db, ns).txs[id] ==
      var t := db.txs[id];
      if t.status != Pending || t.orderId.None? then t
      else Decide(g, t, FirstDeciding(g, ns, t.orderId.value, Creditable(db, t)))
    decreases |ns|
  {
    if ns == [] {
    } else {
      SameKeys(g, db, ns[0]);
      DecideOne(g, db, ns[0], id);
      DecidedOnce(g, After(g, db, ns[0]), ns[1..], id);
      assert forall order, creditable :: FirstDeciding(g, [ns[0]][1..], order, creditable) == None;
    }
  }
}
