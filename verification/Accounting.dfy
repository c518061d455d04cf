/**
  The balances are what the transaction table says they are.

  Each row stands for a change of at most two balances, fixed by its type and
  status. Accounted says that every balance is the sum of those changes over
  the whole table; the theorems say which operations keep it so.
 */
module Accounting {
  import opened Options
  import opened Ledger
  import opened Sums
  import Locking

  predicate At(w: Option<Wallet>, a: Asset, k: Key) {
    w == Some(k.wallet) && a == k.asset
  }

  /** What a row contributes to the balance at k. */
  function Effect(t: Transaction, k: Key): real {
    match t.kind
    case TransferFiat =>
      (if At(t.source, t.asset, k) then -t.amount else 0.0) + (if At(t.destination, t.asset, k) then t.amount else 0.0)
    case TopUp =>
      if t.status == Success && t.credit.Some? && At(t.destination, t.credit.value.asset, k) then t.credit.value.amount else 0.0
    case WithdrawFiat =>
      if t.status != Failed && At(t.source, t.asset, k) then -(t.amount + FeeOf(t)) else 0.0
    case CryptoDeposit =>
      if At(t.destination, t.asset, k) then t.amount else 0.0
    case CryptoWithdrawal =>
      if t.status != Failed && At(t.source, t.asset, k) then -t.amount else 0.0
    case Swap =>
      (if At(t.source, t.asset, k) then -t.amount else 0.0)
      + (if t.credit.Some? && At(t.source, t.credit.value.asset, k) then t.credit.value.amount else 0.0)
  }

  function Effects(txs: map<TxId, Transaction>, k: Key): map<TxId, real> {
    map id | id in txs :: Effect(txs[id], k)
  }

  ghost function Posted(txs: map<TxId, Transaction>, k: Key): real {
    Sum(Effects(txs, k))
  }

  /** The columns that each type of row fills in. */
  predicate RowOk(t: Transaction) {
    match t.kind
    case TransferFiat => t.source.Some? && t.destination.Some?
    case TopUp =>
      && t.source.None? && t.destination.Some?
      && (t.status == Success ==> t.credit.Some?)
      && (t.credit.Some? ==> t.credit.value.asset == IDR)
    case WithdrawFiat => t.source.Some?
    case CryptoDeposit => t.source.None? && t.destination.Some?
    case CryptoWithdrawal => t.source.Some? && t.fee.None?
    case Swap => t.source.Some? && t.credit.Some?
  }

  /** The balances a row speaks of. */
  function Touched(t: Transaction): set<Key> {
    (if t.source.Some? then {Key(t.source.value, t.asset)} else {})
    + (if t.destination.Some? && (t.kind.TransferFiat? || t.kind.CryptoDeposit?) then {Key(t.destination.value, t.asset)} else {})
    + (if t.destination.Some? && t.kind.TopUp? && t.status == Success then {Key(t.destination.value, IDR)} else {})
    + (if t.source.Some? && t.kind.Swap? && t.credit.Some? then {Key(t.source.value, t.credit.value.asset)} else {})
  }

  ghost predicate RowsOk(db: Database) {
    forall id | id in db.txs :: RowOk(db.txs[id]) && Touched(db.txs[id]) <= db.balances.Keys
  }

  ghost predicate Accounted(db: Database) {
    forall k | k in db.balances :: db.balances[k] == Posted(db.txs, k)
  }

  ghost predicate Sound(db: Database) {
    Accounted(db) && RowsOk(db)
  }

  // ---- when an operation keeps the accounts ----

  /** Whether a row of this type stands for money moved when it has this status. */
  predicate Counts(kind: Kind, status: Status) {
    match kind
    case TopUp => status == Success
    case WithdrawFiat => status != Failed
    case CryptoWithdrawal => status != Failed
    case _ => true
  }

  predicate Refundable(t: Transaction, withFee: bool) {
    t.kind.CryptoWithdrawal? || (t.kind.WithdrawFiat? && (withFee || FeeOf(t) == 0.0))
  }

  /** What the caller has to see to before the call. */
  predicate Faithful(op: Op, db: Database) {
    match op
    case ExecuteTransfer(_, sender, recipient, _, _) => sender != recipient
    case ExecuteSwap(_, _, from, to, _, _, _, _) => from != to
    case SettleTopUp(id, w, _) =>
      id in db.txs && db.txs[id].kind.TopUp? && db.txs[id].status != Success && db.txs[id].destination == Some(w)
    case UpdateStatus(id, status) =>
      id in db.txs ==> Counts(db.txs[id].kind, status) == Counts(db.txs[id].kind, db.txs[id].status)
    case UpdateWithdrawal(id, _, status) =>
      id in db.txs ==> Counts(db.txs[id].kind, status) == Counts(db.txs[id].kind, db.txs[id].status)
    case RejectCrypto(id) => id in db.txs && db.txs[id].status == Pending ==> Refundable(db.txs[id], false)
    case RejectFiat(id) => id in db.txs && db.txs[id].status == Pending ==> Refundable(db.txs[id], true)
    case _ => true
  }

  function BalanceOf(db: Database, k: Key): real {
    if k in db.balances then db.balances[k] else 0.0
  }

  function OldEffect(db: Database, id: TxId, k: Key): real {
    if id in db.txs then Effect(db.txs[id], k) else 0.0
  }

  lemma PostedPut(txs: map<TxId, Transaction>, id: TxId, t: Transaction, k: Key)
    ensures Posted(txs[id := t], k) == Posted(txs, k) + Effect(t, k) - (if id in txs then Effect(txs[id], k) else 0.0)
  {
    Put(Effects(txs, k), id, Effect(t, k));
    assert Effects(txs[id := t], k) == Effects(txs, k)[id := Effect(t, k)];
  }

  /** No row speaks of a balance that does not exist. */
  lemma NothingPosted(db: Database, k: Key)
    requires RowsOk(db) && k !in db.balances
    ensures Posted(db.txs, k) == 0.0
  {
    forall id | id in db.txs ensures Effects(db.txs, k)[id] == 0.0 {
      assert k !in Touched(db.txs[id]);
    }
    AllZero(Effects(db.txs, k));
  }

  /** The balances moved by exactly what writing row t changes. */
  ghost predicate Moved(db: Database, after: Database, id: TxId, t: Transaction) {
    forall k | k in after.balances ::
      after.balances[k] == BalanceOf(db, k) + Effect(t, k) - OldEffect(db, id, k)
  }

  /** Row t, written under this id, explains what happened to the balances. */
  ghost predicate Explains(db: Database, after: Database, id: TxId, t: Transaction) {
    Moved(db, after, id, t) && RowOk(t) && Touched(t) <= after.balances.Keys
  }

  lemma OneRow(db: Database, after: Database, id: TxId, t: Transaction)
    requires Sound(db)
    requires after.txs == db.txs[id := t] && db.balances.Keys <= after.balances.Keys
    ensures Sound(after) <==> Explains(db, after, id, t)
  {
    BalancesExplained(db, after, id, t);
    RowsExplained(db, after, id, t);
  }

  lemma BalancesExplained(db: Database, after: Database, id: TxId, t: Transaction)
    requires Sound(db) && after.txs == db.txs[id := t]
    ensures Accounted(after) <==> Moved(db, after, id, t)
  {
    forall k | k in after.balances
      ensures Posted(after.txs, k) == BalanceOf(db, k) + Effect(t, k) - OldEffect(db, id, k)
    {
      PostedPut(db.txs, id, t, k);
      if k !in db.balances {
        NothingPosted(db, k);
      }
    }
  }

  lemma RowsExplained(db: Database, after: Database, id: TxId, t: Transaction)
    requires RowsOk(db) && after.txs == db.txs[id := t] && db.balances.Keys <= after.balances.Keys
    ensures RowsOk(after) <==> RowOk(t) && Touched(t) <= after.balances.Keys
  {
    assert id in after.txs && after.txs[id] == t;
    forall i | i in after.txs && i != id ensures RowOk(after.txs[i]) && Touched(after.txs[i]) <= after.balances.Keys {
      assert i in db.txs && after.txs[i] == db.txs[i];
    }
  }

  // ---- one operation ----

  predicate PositiveRow(t: Transaction) {
    t.amount > 0.0 && FeeOf(t) >= 0.0 && (t.kind.TopUp? && t.credit.Some? ==> t.credit.value.amount > 0.0)
  }

  /** The amounts of the operation, and of the row it names, are positive. */
  predicate Positive(op: Op, db: Database) {
    && (op.ExecuteTransfer? || op.SettleTopUp? ==> op.amount > 0.0)
    && (op.ExecuteSwap? ==> op.debit > 0.0)
    && (!op.OpenWallet? && op.id in db.txs ==> PositiveRow(db.txs[op.id]))
  }

  /** The row that op replaces, if there is one, is well formed. */
  predicate Replaces(op: Op, db: Database) {
    !op.OpenWallet? && (op.id in db.txs ==> RowOk(db.txs[op.id]) && Touched(db.txs[op.id]) <= db.balances.Keys)
  }

  /** op commits from db to after by writing one row, which explains the balances if op is faithful, and only then. */
  ghost predicate OneRowStep(op: Op, db: Database, after: Database)
    requires !op.OpenWallet?
  {
    && op.id in after.txs && after.txs == db.txs[op.id := after.txs[op.id]]
    && db.balances.Keys <= after.balances.Keys
    && (Faithful(op, db) ==> Explains(db, after, op.id, after.txs[op.id]))
    && (Positive(op, db) && !Faithful(op, db) ==> !Explains(db, after, op.id, after.txs[op.id]))
  }

  lemma InsertExplains(op: Op, db: Database, after: Database)
    requires op.ExecuteWithdrawFiat? || op.CreatePendingTopUp? || op.CreditDeposit? || op.CreatePendingWithdrawal?
    requires Replaces(op, db) && Atomic(op, db) == Committed(after)
    ensures OneRowStep(op, db, after)
  {
  }

  lemma TransferExplains(op: Op, db: Database, after: Database)
    requires op.ExecuteTransfer? && Replaces(op, db) && Atomic(op, db) == Committed(after)
    ensures OneRowStep(op, db, after)
  {
    var key := Key(op.recipient, op.asset);
    assert after.balances[key] == db.balances[key] + op.amount;
    var t := after.txs[op.id];
    if op.sender == op.recipient {
      assert Effect(t, key) == 0.0 && OldEffect(db, op.id, key) == 0.0;
      assert Positive(op, db) ==> !Explains(db, after, op.id, t);
    }
  }

  lemma SwapExplains(op: Op, db: Database, after: Database)
    requires op.ExecuteSwap? && Replaces(op, db) && Atomic(op, db) == Committed(after)
    ensures OneRowStep(op, db, after)
  {
    var key := Key(op.wallet, op.to);
    var t := after.txs[op.id];
    assert after.balances[key] == db.balances[key] + op.received;
    if op.from == op.to {
      assert Effect(t, key) == op.received - op.debit && OldEffect(db, op.id, key) == 0.0;
      assert Positive(op, db) ==> !Explains(db, after, op.id, t);
    }
  }

  lemma SettleExplains(op: Op, db: Database, after: Database)
    requires op.SettleTopUp? && op.id in db.txs && Replaces(op, db) && Atomic(op, db) == Committed(after)
    ensures OneRowStep(op, db, after)
  {
    var key := Key(op.wallet, IDR);
    var t := after.txs[op.id];
    assert after.balances[key] == db.balances[key] + op.amount;
    if Positive(op, db) && !Faithful(op, db) {
      assert Effect(t, key) < op.amount + OldEffect(db, op.id, key);
      assert !Moved(db, after, op.id, t);
    }
  }

  /** A change of status that counts the same changes no effect. */
  lemma SameCountSameEffect(t: Transaction, after: Transaction, k: Key)
    requires after == t.(status := after.status, txHash := after.txHash)
    requires Counts(t.kind, after.status) == Counts(t.kind, t.status)
    ensures Effect(after, k) == Effect(t, k)
  {
  }

  /** The balance that gives a wrong change of status away. */
  function Witness(t: Transaction): Key
    requires RowOk(t)
  {
    Key(if t.source.Some? then t.source.value else t.destination.value, if t.kind.TopUp? then IDR else t.asset)
  }

  lemma OtherCountOtherEffect(t: Transaction, after: Transaction)
    requires after == t.(status := after.status, txHash := after.txHash)
    requires RowOk(t) && RowOk(after) && PositiveRow(t)
    requires Counts(t.kind, after.status) != Counts(t.kind, t.status)
    ensures Effect(after, Witness(t)) != Effect(t, Witness(t))
    ensures Witness(t) in Touched(t) + Touched(after)
  {
  }

  lemma StatusExplains(op: Op, db: Database, after: Database)
    requires (op.UpdateStatus? || op.UpdateWithdrawal?) && op.id in db.txs
    requires Replaces(op, db) && Atomic(op, db) == Committed(after)
    ensures OneRowStep(op, db, after)
  {
    var t, t' := db.txs[op.id], after.txs[op.id];
    assert after.balances == db.balances && t' == t.(status := op.status, txHash := t'.txHash);
    if Faithful(op, db) {
      forall k | k in after.balances ensures Effect(t', k) == Effect(t, k) {
        SameCountSameEffect(t, t', k);
      }
      assert Moved(db, after, op.id, t');
    } else if Positive(op, db) && RowOk(t') {
      OtherCountOtherEffect(t, t');
      var k := Witness(t);
      assert k in after.balances ==> after.balances[k] != BalanceOf(db, k) + Effect(t', k) - OldEffect(db, op.id, k);
    }
  }

  lemma RejectExplains(op: Op, db: Database, after: Database)
    requires (op.RejectCrypto? || op.RejectFiat?) && op.id in db.txs && db.txs[op.id].status == Pending
    requires Replaces(op, db) && Atomic(op, db) == Committed(after)
    ensures OneRowStep(op, db, after)
  {
    var t := db.txs[op.id];
    var key := Key(t.source.value, t.asset);
    assert after.balances[key] == db.balances[key] + RefundAmount(t, op.RejectFiat?);
  }

  lemma EmptyBalancesAreSound(db: Database, after: Database)
    requires Sound(db) && after.txs == db.txs && db.balances.Keys <= after.balances.Keys
    requires forall k | k in after.balances :: after.balances[k] == BalanceOf(db, k)
    ensures Sound(after)
  {
    forall k | k in after.balances ensures after.balances[k] == Posted(db.txs, k) {
      if k !in db.balances {
        NothingPosted(db, k);
      }
    }
    forall id | id in after.txs ensures RowOk(after.txs[id]) && Touched(after.txs[id]) <= after.balances.Keys {
      assert id in db.txs && Touched(db.txs[id]) <= db.balances.Keys;
    }
  }

  lemma OpeningIsSound(op: Op, db: Database, after: Database)
    requires op.OpenWallet? && Sound(db) && Atomic(op, db) == Committed(after)
    ensures Sound(after)
  {
    OpeningAddsZeros(op, db, after);
    EmptyBalancesAreSound(db, after);
  }

  lemma OpeningAddsZeros(op: Op, db: Database, after: Database)
    requires op.OpenWallet? && Atomic(op, db) == Committed(after)
    ensures after.txs == db.txs && db.balances.Keys <= after.balances.Keys
    ensures forall k | k in after.balances :: after.balances[k] == BalanceOf(db, k)
  {
  }

  /** The operations that write a row. */
  predicate WritesRow(op: Op, db: Database) {
    match op
    case OpenWallet(_) => false
    case SettleTopUp(id, _, _) => id in db.txs
    case UpdateStatus(id, _) => id in db.txs
    case UpdateWithdrawal(id, _, _) => id in db.txs
    case RejectCrypto(id) => id in db.txs && db.txs[id].status == Pending
    case RejectFiat(id) => id in db.txs && db.txs[id].status == Pending
    case _ => true
  }

  lemma WriteExplains(op: Op, db: Database, after: Database)
    requires WritesRow(op, db) && Replaces(op, db) && Atomic(op, db) == Committed(after)
    ensures OneRowStep(op, db, after)
  {
    match op {
      case ExecuteTransfer(_, _, _, _, _) => TransferExplains(op, db, after);
      case ExecuteSwap(_, _, _, _, _, _, _, _) => SwapExplains(op, db, after);
      case SettleTopUp(_, _, _) => SettleExplains(op, db, after);
      case UpdateStatus(_, _) => StatusExplains(op, db, after);
      case UpdateWithdrawal(_, _, _) => StatusExplains(op, db, after);
      case RejectCrypto(_) => RejectExplains(op, db, after);
      case RejectFiat(_) => RejectExplains(op, db, after);
      case _ => InsertExplains(op, db, after);
    }
  }

  /**
    Which operations keep the accounts. A faithful one does, whatever its
    amounts; an unfaithful one with positive amounts never does.
   */
  lemma SoundIffFaithful(op: Op, db: Database, after: Database)
    requires Sound(db) && Atomic(op, db) == Committed(after)
    ensures Faithful(op, db) ==> Sound(after)
    ensures Positive(op, db) && !Faithful(op, db) ==> !Sound(after)
  {
    if op.OpenWallet? {
      OpeningIsSound(op, db, after);
    } else if WritesRow(op, db) {
      WriteExplains(op, db, after);
      OneRow(db, after, op.id, after.txs[op.id]);
    } else if op.SettleTopUp? {
      var key := Key(op.wallet, IDR);
      assert after.balances[key] == Posted(db.txs, key) + op.amount;
    }
  }

  // ---- runs ----

  /** Every operation of the log is faithful where it runs. */
  ghost predicate FaithfulRun(db: Database, log: seq<Op>) {
    forall i | 0 <= i < |log| && Replay(db, log[..i]).Some? :: Faithful(log[i], Replay(db, log[..i]).value)
  }

  lemma {:induction false} FaithfulPrefix(db: Database, log: seq<Op>)
    requires FaithfulRun(db, log) && log != []
    ensures FaithfulRun(db, log[..|log| - 1])
  {
    var prefix := log[..|log| - 1];
    assert forall i | 0 <= i < |prefix| :: prefix[..i] == log[..i];
  }

  /** Over every run of faithful operations each balance is the sum over the transaction table. */
  lemma {:induction false} RunKeepsSound(db: Database, log: seq<Op>)
    requires Sound(db) && FaithfulRun(db, log) && Replay(db, log).Some?
    ensures Sound(Replay(db, log).value)
    decreases |log|
  {
    if log == [] {
    } else {
      var n := |log| - 1;
      FaithfulPrefix(db, log);
      RunKeepsSound(db, log[..n]);
      SoundIffFaithful(log[n], Replay(db, log[..n]).value, Replay(db, log).value);
    }
  }

  // ---- totals over all wallets ----

  /** The balances of one asset. */
  function Held(balances: map<Key, real>, a: Asset): map<Key, real> {
    map k | k in balances && k.asset == a :: balances[k]
  }

  /** The sum of an asset over all wallets. */
  ghost function Total(db: Database, a: Asset): real {
    Sum(Held(db.balances, a))
  }

  /** What a row brings into the system, or takes out of it; a transfer does neither. */
  function Flow(t: Transaction, a: Asset): real {
    match t.kind
    case TransferFiat => 0.0
    case TopUp => if t.status == Success && t.credit.Some? && t.credit.value.asset == a then t.credit.value.amount else 0.0
    case WithdrawFiat => if t.status != Failed && t.asset == a then -(t.amount + FeeOf(t)) else 0.0
    case CryptoDeposit => if t.asset == a then t.amount else 0.0
    case CryptoWithdrawal => if t.status != Failed && t.asset == a then -t.amount else 0.0
    case Swap =>
      (if t.asset == a then -t.amount else 0.0)
      + (if t.credit.Some? && t.credit.value.asset == a then t.credit.value.amount else 0.0)
  }

  ghost function NetFlow(txs: map<TxId, Transaction>, a: Asset): real {
    Sum(Flows(txs, a))
  }

  function RowEffects(t: Transaction, ks: set<Key>): map<Key, real> {
    map k | k in ks :: Effect(t, k)
  }

  /** The effects of one row over the balances of one asset add up to its flow. */
  lemma RowFlow(t: Transaction, ks: set<Key>, a: Asset)
    requires RowOk(t) && forall k | k in ks :: k.asset == a
    requires forall k | k in Touched(t) && k.asset == a :: k in ks
    ensures AddsUp(t, ks, a)
  {
    var m := RowEffects(t, ks);
    if t.kind.TransferFiat? {
      var from, to := Key(t.source.value, a), Key(t.destination.value, a);
      if t.asset == a && from != to {
        Split(m, from);
        Split(m - {from}, to);
        AllZero(m - {from} - {to});
      } else {
        AllZero(m);
      }
    } else {
      var only := Key(if t.source.Some? then t.source.value else t.destination.value, a);
      if only in ks {
        Split(m, only);
        AllZero(m - {only});
      } else {
        AllZero(m);
      }
    }
  }

  ghost function PostedOver(txs: map<TxId, Transaction>, ks: set<Key>): map<Key, real> {
    map k | k in ks :: Posted(txs, k)
  }

  lemma PeelPosted(txs: map<TxId, Transaction>, id: TxId, ks: set<Key>)
    requires id in txs
    ensures Sum(PostedOver(txs, ks)) == Sum(PostedOver(txs - {id}, ks)) + Sum(RowEffects(txs[id], ks))
  {
    forall k | k in ks ensures Posted(txs, k) == Posted(txs - {id}, k) + Effect(txs[id], k) {
      Split(Effects(txs, k), id);
      assert Effects(txs, k) - {id} == Effects(txs - {id}, k);
    }
    Pointwise(PostedOver(txs - {id}, ks), RowEffects(txs[id], ks), PostedOver(txs, ks));
  }

  function Flows(txs: map<TxId, Transaction>, a: Asset): map<TxId, real> {
    map id | id in txs :: Flow(txs[id], a)
  }

  ghost predicate AddsUp(t: Transaction, ks: set<Key>, a: Asset) {
    Sum(RowEffects(t, ks)) == Flow(t, a)
  }

  lemma PeelFlow(txs: map<TxId, Transaction>, id: TxId, a: Asset)
    requires id in txs
    ensures NetFlow(txs, a) == NetFlow(txs - {id}, a) + Flow(txs[id], a)
  {
    Split(Flows(txs, a), id);
    assert Flows(txs, a) - {id} == Flows(txs - {id}, a);
  }

  ghost predicate AllAddUp(txs: map<TxId, Transaction>, ks: set<Key>, a: Asset) {
    forall id | id in txs :: AddsUp(txs[id], ks, a)
  }

  /** Summing the table by balance and summing it by row give the same total. */
  lemma {:induction false} SumByRows(txs: map<TxId, Transaction>, ks: set<Key>, a: Asset)
    requires AllAddUp(txs, ks, a)
    ensures Sum(PostedOver(txs, ks)) == NetFlow(txs, a)
    decreases |txs|
  {
    if txs == map[] {
      forall k | k in ks ensures Posted(txs, k) == 0.0 {
        AllZero(Effects(txs, k));
      }
      AllZero(PostedOver(txs, ks));
      AllZero(Flows(txs, a));
    } else {
      var id :| id in txs;
      PeelPosted(txs, id, ks);
      PeelFlow(txs, id, a);
      SumByRows(txs - {id}, ks, a);
    }
  }

  function KeysOf(db: Database, a: Asset): set<Key> {
    set k | k in db.balances && k.asset == a
  }

  lemma RowsAddUp(db: Database, a: Asset)
    requires RowsOk(db)
    ensures AllAddUp(db.txs, KeysOf(db, a), a)
  {
    forall id | id in db.txs ensures AddsUp(db.txs[id], KeysOf(db, a), a) {
      RowFlow(db.txs[id], KeysOf(db, a), a);
    }
  }

  /** Conservation: an asset's total is what the table says came in minus what went out. */
  lemma TotalIsNetFlow(db: Database, a: Asset)
    requires Sound(db)
    ensures Total(db, a) == NetFlow(db.txs, a)
  {
    RowsAddUp(db, a);
    SumByRows(db.txs, KeysOf(db, a), a);
    assert PostedOver(db.txs, KeysOf(db, a)) == Held(db.balances, a);
  }

  /** Over every run of faithful operations from the empty ledger, totals are conserved. */
  lemma TotalsConserved(log: seq<Op>, a: Asset)
    requires FaithfulRun(EMPTY, log) && Replay(EMPTY, log).Some?
    ensures var db := Replay(EMPTY, log).value; Total(db, a) == NetFlow(db.txs, a)
  {
    RunKeepsSound(EMPTY, log);
    TotalIsNetFlow(Replay(EMPTY, log).value, a);
  }

  /** The same for every interleaving of the locked steps whose committed operations are faithful. */
  lemma InterleavedRunsAreSound(db: Database, events: seq<Locking.Event>, a: Asset)
    requires Sound(db) && FaithfulRun(db, Locking.Run(db, events).log)
    ensures var after := Locking.Run(db, events).db;
      Sound(after) && Total(after, a) == NetFlow(after.txs, a)
  {
    Locking.Serializable(db, events);
    RunKeepsSound(db, Locking.Run(db, events).log);
    TotalIsNetFlow(Locking.Run(db, events).db, a);
  }
}
