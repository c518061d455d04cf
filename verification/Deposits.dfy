/** The ERC-20 listener: which transfer events credit a balance, and how often. */
module Deposits {
  import opened Options
  import opened Ledger
  import opened Repository
  import opened OperationEffects
  import Accounting
  import Decimals
  import TokenUnits
  import ExactlyOnce

  /** A log, with the decoded Transfer event unless it is none; addresses in lower case. */
  datatype Transfer = Transfer(to: string, value: nat)
  datatype ChainLog = ChainLog(removed: bool, event: Option<Transfer>, contract: string, txHash: string)

  /** The listener's tables, fixed while it handles logs. */
  datatype Watch = Watch(watchList: map<string, Wallet>, contractAssets: map<string, Asset>, contractDecimals: map<string, nat>)

  /** The decimals of a contract; 18 without an entry. */
  function DecimalsOf(watch: Watch, contract: string): nat {
    if contract in watch.contractDecimals then watch.contractDecimals[contract] else 18
  }

  /** The deposit that a log asks for, if any. */
  function DepositOf(watch: Watch, log: ChainLog, id: TxId): Option<Op> {
    if log.removed || log.event.None? || log.event.value.to !in watch.watchList || log.contract !in watch.contractAssets then None
    else
      Some(CreditDeposit(id, watch.watchList[log.event.value.to],
                         TokenUnits.Credited(log.event.value.value, DecimalsOf(watch, log.contract)),
                         watch.contractAssets[log.contract], log.txHash))
  }

  class ERC20Listener {
    const txRepo: TransactionRepository
    var watchList: map<string, Wallet>
    const contractAssets: map<string, Asset>
    const contractDecimals: map<string, nat>

    function Deps(): Watch
      reads this
    {
      Watch(watchList, contractAssets, contractDecimals)
    }

    constructor (txRepo: TransactionRepository, contractAssets: map<string, Asset>, contractDecimals: map<string, nat>)
      ensures this.txRepo == txRepo && Deps() == Watch(map[], contractAssets, contractDecimals)
    {
      this.txRepo, this.contractAssets, this.contractDecimals := txRepo, contractAssets, contractDecimals;
      watchList := map[];
    }

    method AddToWatchList(address: string, wallet: Wallet)
      modifies this`watchList
      ensures watchList == old(watchList)[address := wallet]
      ensures forall log: ChainLog, id: TxId ::
        DepositOf(Deps(), log, id) ==
          if !log.removed && log.event.Some? && log.event.value.to == address && log.contract in contractAssets then
            var decimals := if log.contract in contractDecimals then contractDecimals[log.contract] else 18;
            Some(CreditDeposit(id, wallet, TokenUnits.Credited(log.event.value.value, decimals),
                               contractAssets[log.contract], log.txHash))
          else DepositOf(old(Deps()), log, id)
    {
      watchList := watchList[address := wallet];
    }

    /** `confirmed` is whether the wait for confirmations ends without the context being cancelled. */
    method HandleLog(log: ChainLog, id: TxId, confirmed: bool)
      modifies txRepo
      ensures txRepo.Tables() == if confirmed then Handled(Deps(), old(txRepo.Tables()), Delivery(log, id)) else old(txRepo.Tables())
    {
      if log.removed { return; }
      if log.event.None? { return; }
      var event := log.event.value;
      if event.to !in watchList { return; }
      if log.contract !in contractAssets { return; }
      var decimals := 18;
      if log.contract in contractDecimals {
        decimals := contractDecimals[log.contract];
      }
      if !confirmed { return; }
      var amount := TokenUnits.Credited(event.value, decimals);
      var _ := txRepo.CreditCryptoDeposit(id, watchList[event.to], amount, contractAssets[log.contract], log.txHash);
    }
  }

  /** The amount is v units of a token with these decimals, to 16 places; up to 16 decimals nothing is lost. */
  ghost predicate IsWorth(amount: real, v: nat, decimals: nat) {
    var exact := v as real / TokenUnits.Pow10(decimals) as real;
    && -0.00000000000000005 <= amount - exact <= 0.00000000000000005
    && Decimals.Whole(amount * 10000000000000000.0)
    && (decimals <= 16 ==> amount == exact)
  }

  lemma CreditIsWorth(v: nat, decimals: nat)
    ensures IsWorth(TokenUnits.Credited(v, decimals), v, decimals)
  {
    Decimals.DivNear(v as real, TokenUnits.Pow10(decimals) as real);
    Decimals.DivPlaces(v as real, TokenUnits.Pow10(decimals) as real);
    if decimals <= 16 {
      TokenUnits.CreditIsExact(v, decimals);
    }
  }

  /**
    What a confirmed log does, from the event and the listener's tables. A
    removed log, one without a Transfer event, to an address nobody watches, of
    an unknown contract or of a known chain transaction does nothing. Any other
    credits the watcher of the recipient with its units at the contract's own
    decimals, 18 if none are configured.
   */
  lemma LogEffect(watch: Watch, db: Database, log: ChainLog, id: TxId)
    ensures
      var after := Handled(watch, db, Delivery(log, id));
      if log.removed || log.event.None? || log.event.value.to !in watch.watchList || log.contract !in watch.contractAssets
        || TxHash(log.txHash) in db.keys || id in db.txs
      then after == db
      else
        var wallet, asset := watch.watchList[log.event.value.to], watch.contractAssets[log.contract];
        var key, units := Key(wallet, asset), log.event.value.value;
        && OnlyMoves(db, after, {key}) && OnlyWrites(db, after, id)
        && after.keys == db.keys[TxHash(log.txHash) := id]
        && var t := after.txs[id];
        && t.kind == CryptoDeposit && t.status == Success && t.source.None? && t.destination == Some(wallet)
        && t.asset == asset && t.txHash == Some(log.txHash)
        && key in after.balances && after.balances[key] - t.amount == (if key in db.balances then db.balances[key] else 0.0)
        && (log.contract in watch.contractDecimals ==> IsWorth(t.amount, units, watch.contractDecimals[log.contract]))
        && (log.contract !in watch.contractDecimals ==> IsWorth(t.amount, units, 18))
  {
    var op := DepositOf(watch, log, id);
    if op.Some? {
      DepositEffect(db, id, op.value.wallet, op.value.amount, op.value.asset, op.value.hash);
      CreditIsWorth(log.event.value.value, DecimalsOf(watch, log.contract));
    }
  }

  lemma CreditIsNonNegative(watch: Watch, d: Delivery)
    requires DepositOf(watch, d.log, d.id).Some?
    ensures DepositOf(watch, d.log, d.id).value.amount >= 0.0
  {
    var decimals := DecimalsOf(watch, d.log.contract);
    Decimals.DivNear(d.log.event.value.value as real, TokenUnits.Pow10(decimals) as real);
  }

  /** One log handed to the listener; id is the transaction id its handler draws. */
  datatype Delivery = Delivery(log: ChainLog, id: TxId)

  function Handled(watch: Watch, db: Database, d: Delivery): Database {
    Applied(db, DepositOf(watch, d.log, d.id))
  }

  function HandleAll(watch: Watch, db: Database, ds: seq<Delivery>): Database
    decreases |ds|
  {
    if ds == [] then db else Handled(watch, HandleAll(watch, db, ds[..|ds| - 1]), ds[|ds| - 1])
  }

  /** The ids that handlers draw are new. */
  ghost predicate FreshIds(db: Database, ds: seq<Delivery>) {
    && (forall d | d in ds :: d.id !in db.txs)
    && (forall i, j | 0 <= i < j < |ds| :: ds[i].id != ds[j].id)
  }

  /** The hashes that handled logs have put into the ledger. */
  ghost predicate Recorded(watch: Watch, db: Database, d: Delivery) {
    DepositOf(watch, d.log, d.id).Some? ==> TxHash(d.log.txHash) in db.keys
  }

  lemma HandledRecords(watch: Watch, db: Database, d: Delivery)
    requires d.id !in db.txs
    ensures Recorded(watch, Handled(watch, db, d), d)
    ensures db.keys.Keys <= Handled(watch, db, d).keys.Keys
    ensures Handled(watch, db, d).txs.Keys <= db.txs.Keys + {d.id}
  {
  }

  lemma {:induction false} AllRecord(watch: Watch, db: Database, ds: seq<Delivery>)
    requires FreshIds(db, ds)
    ensures forall d | d in ds :: Recorded(watch, HandleAll(watch, db, ds), d)
    ensures HandleAll(watch, db, ds).txs.Keys <= db.txs.Keys + set d | d in ds :: d.id
    decreases |ds|
  {
    if ds == [] {
    } else {
      var n := |ds| - 1;
      var before, last := ds[..n], ds[n];
      assert FreshIds(db, before) by { assert forall d | d in before :: d in ds; }
      AllRecord(watch, db, before);
      assert last in ds && forall d | d in before :: d.id != last.id;
      var prior := HandleAll(watch, db, before);
      HandledRecords(watch, prior, last);
      forall d | d in ds ensures Recorded(watch, HandleAll(watch, db, ds), d) {
        assert d in before ==> Recorded(watch, prior, d);
      }
    }
  }

  lemma {:induction false} RecordedAreIgnored(watch: Watch, db: Database, ds: seq<Delivery>)
    requires forall d | d in ds :: Recorded(watch, db, d)
    ensures HandleAll(watch, db, ds) == db
    decreases |ds|
  {
    if ds == [] {
    } else {
      var n := |ds| - 1;
      assert ds[n] in ds && forall d | d in ds[..n] :: d in ds;
      RecordedAreIgnored(watch, db, ds[..n]);
    }
  }

  /** Once handled, logs may be delivered again in any order and any number: the ledger no longer changes. */
  lemma RedeliveryIsIgnored(watch: Watch, db: Database, ds: seq<Delivery>, again: seq<Delivery>)
    requires FreshIds(db, ds) && forall d | d in again :: exists first | first in ds :: first.log == d.log
    ensures HandleAll(watch, HandleAll(watch, db, ds), again) == HandleAll(watch, db, ds)
  {
    AllRecord(watch, db, ds);
    var after := HandleAll(watch, db, ds);
    forall d | d in again ensures Recorded(watch, after, d) {
      var first :| first in ds && first.log == d.log;
      assert Recorded(watch, after, first);
    }
    RecordedAreIgnored(watch, after, again);
  }

  // ---- what a wallet is credited ----

  predicate Carries(watch: Watch, d: Delivery, hash: string) {
    DepositOf(watch, d.log, d.id).Some? && d.log.txHash == hash
  }

  predicate SomeCarries(watch: Watch, ds: seq<Delivery>, hash: string)
    decreases |ds|
  {
    ds != [] && (SomeCarries(watch, ds[..|ds| - 1], hash) || Carries(watch, ds[|ds| - 1], hash))
  }

  /** The last of the deliveries brings a hash that neither the ledger nor an earlier one had. */
  predicate BringsNewHash(watch: Watch, db: Database, ds: seq<Delivery>)
    requires ds != []
  {
    var last := ds[|ds| - 1];
    && DepositOf(watch, last.log, last.id).Some? && TxHash(last.log.txHash) !in db.keys
    && !SomeCarries(watch, ds[..|ds| - 1], last.log.txHash)
  }

  function AmountTo(watch: Watch, d: Delivery, k: Key): real {
    match DepositOf(watch, d.log, d.id)
    case Some(CreditDeposit(_, w, amount, asset, _)) => if Key(w, asset) == k then amount else 0.0
    case _ => 0.0
  }

  /** The sum of the first watched log of each new transaction hash. */
  function FirstAmounts(watch: Watch, db: Database, ds: seq<Delivery>, k: Key): real
    decreases |ds|
  {
    if ds == [] then 0.0
    else
      FirstAmounts(watch, db, ds[..|ds| - 1], k)
      + if BringsNewHash(watch, db, ds) then AmountTo(watch, ds[|ds| - 1], k) else 0.0
  }

  lemma HandledHash(watch: Watch, db: Database, d: Delivery, hash: string)
    requires d.id !in db.txs
    ensures TxHash(hash) in Handled(watch, db, d).keys <==> TxHash(hash) in db.keys || Carries(watch, d, hash)
  {
  }

  lemma HandledCredit(watch: Watch, db: Database, d: Delivery, k: Key)
    requires d.id !in db.txs
    ensures Accounting.BalanceOf(Handled(watch, db, d), k) == Accounting.BalanceOf(db, k)
      + if DepositOf(watch, d.log, d.id).Some? && TxHash(d.log.txHash) !in db.keys then AmountTo(watch, d, k) else 0.0
  {
  }

  lemma LastIsFresh(watch: Watch, db: Database, ds: seq<Delivery>)
    requires FreshIds(db, ds) && ds != []
    ensures FreshIds(db, ds[..|ds| - 1]) && ds[|ds| - 1].id !in HandleAll(watch, db, ds[..|ds| - 1]).txs
  {
    var n := |ds| - 1;
    var before, last := ds[..n], ds[n];
    assert FreshIds(db, before) by { assert forall d | d in before :: d in ds; }
    AllRecord(watch, db, before);
    assert last in ds && forall d | d in before :: d.id != last.id;
  }

  /** The hashes in the ledger are those it had and those of the watched logs. */
  lemma {:induction false} HashesAfter(watch: Watch, db: Database, ds: seq<Delivery>, hash: string)
    requires FreshIds(db, ds)
    ensures TxHash(hash) in HandleAll(watch, db, ds).keys <==> TxHash(hash) in db.keys || SomeCarries(watch, ds, hash)
    decreases |ds|
  {
    if ds == [] {
    } else {
      var n := |ds| - 1;
      LastIsFresh(watch, db, ds);
      HashesAfter(watch, db, ds[..n], hash);
      HandledHash(watch, HandleAll(watch, db, ds[..n]), ds[n], hash);
    }
  }

  /**
    For any deliveries, each balance grows by the first watched log of each
    transaction hash. A second token transfer in the same chain transaction is
    credited to nobody.
   */
  lemma {:induction false} CreditedPerHash(watch: Watch, db: Database, ds: seq<Delivery>, k: Key)
    requires FreshIds(db, ds)
    ensures Accounting.BalanceOf(HandleAll(watch, db, ds), k) == Accounting.BalanceOf(db, k) + FirstAmounts(watch, db, ds, k)
    decreases |ds|
  {
    if ds == [] {
    } else {
      var n := |ds| - 1;
      LastIsFresh(watch, db, ds);
      CreditedPerHash(watch, db, ds[..n], k);
      HashesAfter(watch, db, ds[..n], ds[n].log.txHash);
      HandledCredit(watch, HandleAll(watch, db, ds[..n]), ds[n], k);
    }
  }

  /** With the configured 6 decimals, a watched log of a known contract counts as the exact decimal value of its units. */
  lemma ConfiguredCredit(watch: Watch, d: Delivery, k: Key)
    requires !d.log.removed && d.log.event.Some? && d.log.event.value.to in watch.watchList && d.log.contract in watch.contractAssets
    requires d.log.contract in watch.contractDecimals && watch.contractDecimals[d.log.contract] == 6
    ensures AmountTo(watch, d, k) * 1000000.0 ==
      if k == Key(watch.watchList[d.log.event.value.to], watch.contractAssets[d.log.contract]) then d.log.event.value.value as real
      else 0.0
  {
    TokenUnits.UnitsRoundTrip(d.log.event.value.value);
  }

  /**
    A withdrawal to the deposit address of another user: once the sender's row
    carries the hash, the recipient's deposit of that chain transaction is
    refused for good.
   */
  lemma InternalSendIsNotCredited(db: Database, withdrawal: TxId, hash: string, later: seq<Op>, d: Delivery, watch: Watch)
    requires withdrawal in db.txs && db.txs[withdrawal].txHash.None? && TxHash(hash) !in db.keys && Carries(watch, d, hash)
    requires var sent := Atomic(UpdateWithdrawal(withdrawal, Some(hash), Success), db).db;
      Replay(sent, later).Some? && ExactlyOnce.KeepsHashesRun(sent, later)
    ensures
      var after := Replay(Atomic(UpdateWithdrawal(withdrawal, Some(hash), Success), db).db, later).value;
      DepositOf(watch, d.log, d.id).Some? && Handled(watch, after, d) == after
  {
    var sent := Atomic(UpdateWithdrawal(withdrawal, Some(hash), Success), db).db;
    ExactlyOnce.RunCreditsOnce(sent, later, hash);
  }
}
