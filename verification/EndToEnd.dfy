/**
  Runs of the whole service: usecase calls, payment notifications, payout
  callbacks and chain logs in any order. A call that waits for an outside
  service is two steps, and anything may come between them.
 */
module EndToEnd {
  import opened Options
  import opened Ledger
  import opened Repository
  import opened Transfers
  import opened Users
  import Accounting
  import CryptoWithdrawals
  import Deadlock
  import Decimals
  import Deposits
  import ExactlyOnce
  import Exchange
  import FiatWithdrawals
  import opened Indexes
  import IrisCallbacks
  import Locking
  import MidtransNotifications
  import Solvency

  /** What the service is configured with, and the outside parties it believes. */
  datatype Config = Config(
    gateway: MidtransNotifications.Gateway,
    watch: Deposits.Watch,
    contracts: CryptoWithdrawals.Contracts,
    swapFee: real)
  {
    ghost predicate Valid() {
      && 0.0 <= swapFee <= 1.0
      && forall o, c, a, k | gateway.verify(o, c, a, k) && gateway.parse(a).Some? :: gateway.parse(a).value >= 0.0
    }
  }

  /** A broadcast that has been started and not finished. */
  datatype Broadcast = Broadcast(network: string, asset: Asset)

  /** The tables, and the calls that wait: for a payment page, for a payout answer, for the chain. */
  datatype World = World(
    db: Database, wallets: map<User, Wallet>,
    charges: set<TxId>, payouts: set<TxId>, broadcasts: map<TxId, Broadcast>)

  const START := World(EMPTY, map[], {}, {}, map[])

  datatype Call =
    | Register(user: User, wallet: Wallet)
    | Transfer(id: TxId, sender: User, dest: User, amount: real, asset: Asset)
    | StartTopUp(id: TxId, user: User, amount: real, asset: Asset, order: string)
    | FinishTopUp(id: TxId, charged: bool)
    | Notify(n: MidtransNotifications.Notification)
    | StartFiat(id: TxId, user: User, amount: real)
    | FinishFiat(id: TxId, payout: FiatWithdrawals.Payout)
    | Callback(item: IrisCallbacks.IrisItem)
    | StartCrypto(id: TxId, user: User, network: string, asset: Asset, toAddr: string, amount: real)
    | FinishCrypto(id: TxId, env: CryptoWithdrawals.Environment)
    | Log(d: Deposits.Delivery)
    | Swap(id: TxId, user: User, from: Asset, to: Asset, amount: real, rates: map<Asset, real>)

  function WalletOf(w: World, user: User): Option<Wallet> {
    if user in w.wallets then Some(w.wallets[user]) else None
  }

  /** The prices that the feed has. */
  function Prices(rates: map<Asset, real>): Asset -> Option<real> {
    a => if a in rates then Some(rates[a]) else None
  }

  /** What a payment notification asks the repository to do. */
  function NotifyOp(g: MidtransNotifications.Gateway, db: Database, n: MidtransNotifications.Notification): Option<Op> {
    var found := ByOrder(db, n.orderID);
    if !MidtransNotifications.Decisive(g, n, n.orderID) || found.None? || db.txs[found.value].status != Pending then None
    else if MidtransNotifications.VerdictOf(n).Fail? then Some(UpdateStatus(found.value, Failed))
    else if db.txs[found.value].destination.None? then None
    else Some(SettleTopUp(found.value, db.txs[found.value].destination.value, g.parse(n.grossAmount).value))
  }

  lemma NotifyIsProcess(g: MidtransNotifications.Gateway, db: Database, n: MidtransNotifications.Notification)
    ensures MidtransNotifications.After(g, db, n) == Applied(db, NotifyOp(g, db, n))
  {
  }

  /** The operation that a call asks the repository for; None if a guard stops it or it writes nothing. */
  function OpOf(cfg: Config, w: World, c: Call): Option<Op> {
    match c
    case Register(user, wallet) =>
      if user in w.wallets || wallet in w.wallets.Values then None else Some(OpenWallet(wallet))
    case Transfer(id, sender, dest, amount, asset) =>
      if Refusal(w.wallets, sender, dest, amount).Some? then None
      else Some(ExecuteTransfer(id, w.wallets[sender], w.wallets[dest], amount, asset))
    case StartTopUp(id, user, amount, asset, order) =>
      if amount <= 0.0 || WalletOf(w, user).None? then None
      else Some(CreatePendingTopUp(id, w.wallets[user], amount, asset, order))
    case FinishTopUp(id, charged) => if id in w.charges && !charged then Some(UpdateStatus(id, Failed)) else None
    case Notify(n) => NotifyOp(cfg.gateway, w.db, n)
    case StartFiat(id, user, amount) =>
      if FiatWithdrawals.Refusal(w.db, id, WalletOf(w, user), amount).Some? then None
      else Some(FiatWithdrawals.Requested(id, w.wallets[user], amount))
    case FinishFiat(id, payout) => if id in w.payouts then FiatWithdrawals.Finish(id, payout) else None
    case Callback(item) => IrisCallbacks.CallFor(item)
    case StartCrypto(id, user, network, asset, toAddr, amount) =>
      if CryptoWithdrawals.Refusal(WalletOf(w, user), network, asset, toAddr, amount).Some? then None
      else Some(CreatePendingWithdrawal(id, w.wallets[user], amount, asset))
    case FinishCrypto(id, env) =>
      if id in w.broadcasts then
        Some(CryptoWithdrawals.Conclusion(id, env, cfg.contracts, w.broadcasts[id].network, w.broadcasts[id].asset))
      else None
    case Log(d) => Deposits.DepositOf(cfg.watch, d.log, d.id)
    case Swap(id, user, from, to, amount, rates) =>
      if Exchange.Refusal(w.db, WalletOf(w, user), from, to, amount, Prices(rates)).Some? then None
      else
        var p, q := Exchange.RateOf(Prices(rates), from).value, Exchange.RateOf(Prices(rates), to).value;
        var quote := Exchange.QuoteFor(amount, p, q, cfg.swapFee, from == IDR, to == IDR);
        Some(ExecuteSwap(id, w.wallets[user], from, to, quote.debit, quote.net, quote.rate, quote.fee))
  }

  /** What a call on behalf of users asks for, and when, in the words of its request. */
  lemma CallsAskFor(cfg: Config, w: World, c: Call)
    ensures
      var op := OpOf(cfg, w, c);
      match c
      case Register(user, wallet) =>
        op == if user !in w.wallets && (forall u | u in w.wallets :: w.wallets[u] != wallet) then Some(OpenWallet(wallet)) else None
      case Transfer(id, sender, dest, amount, asset) =>
        op == if amount > 0.0 && sender != dest && sender in w.wallets && dest in w.wallets
          then Some(ExecuteTransfer(id, w.wallets[sender], w.wallets[dest], amount, asset)) else None
      case StartTopUp(id, user, amount, asset, order) =>
        op == if amount > 0.0 && user in w.wallets then Some(CreatePendingTopUp(id, w.wallets[user], amount, asset, order)) else None
      case StartFiat(id, user, amount) =>
        if user in w.wallets && amount >= 50000.0 && id !in w.db.txs && Key(w.wallets[user], IDR) in w.db.balances
          && w.db.balances[Key(w.wallets[user], IDR)] - 2500.0 >= amount
          && w.db.balances[Key(w.wallets[user], IDR)] - 2500.0 >= Decimals.Round(amount)
        then op == Some(ExecuteWithdrawFiat(id, w.wallets[user], Decimals.Round(amount), 2500.0, IDR))
        else op.None?
      case StartCrypto(id, user, network, asset, toAddr, amount) =>
        op == if user in w.wallets && amount > 0.0 && network in {"polygon_amoy", "sepolia"} && asset in {USDT, USDC}
            && |toAddr| == 42 && toAddr[..2] in {"0x", "0X"}
          then Some(CreatePendingWithdrawal(id, w.wallets[user], amount, asset)) else None
      case Swap(id, user, from, to, amount, rates) =>
        op.Some? ==>
          && user in w.wallets && from != to && amount > 0.0 && {from, to} <= {IDR, USDT, USDC}
          && (from == IDR || from in rates) && (to == IDR || to in rates)
          && var p, q := if from == IDR then 1.0 else rates[from], if to == IDR then 1.0 else rates[to];
          && q != 0.0
          && var quote := Exchange.QuoteFor(amount, p, q, cfg.swapFee, from == IDR, to == IDR);
          && op == Some(ExecuteSwap(id, w.wallets[user], from, to, quote.debit, quote.net, quote.rate, quote.fee))
      case _ => true
  {
    match c {
      case Register(_, wallet) =>
        assert wallet in w.wallets.Values <==> exists u :: u in w.wallets && w.wallets[u] == wallet;
      case Transfer(_, sender, dest, amount, _) => Transfers.Requirements(w.wallets, sender, dest, amount);
      case StartFiat(id, user, amount) => FiatWithdrawals.Requirements(w.db, id, WalletOf(w, user), amount);
      case StartCrypto(_, user, network, asset, toAddr, amount) =>
        CryptoWithdrawals.Requirements(WalletOf(w, user), network, asset, toAddr, amount);
      case Swap(_, user, from, to, amount, rates) => Exchange.Requirements(w.db, WalletOf(w, user), from, to, amount, Prices(rates));
      case _ =>
    }
  }

  /** What an answer from outside makes the service ask for, and when, in the words of the answer. */
  lemma AnswersAskFor(cfg: Config, w: World, c: Call)
    ensures
      var op := OpOf(cfg, w, c);
      match c
      case FinishTopUp(id, charged) => op == if id in w.charges && !charged then Some(UpdateStatus(id, Failed)) else None
      case FinishFiat(id, Refused) => op == if id in w.payouts then Some(RejectFiat(id)) else None
      case FinishFiat(id, Accepted(Some(word))) =>
        op == if id in w.payouts then Some(UpdateStatus(id, if word in {"success", "processed"} then Success else Pending)) else None
      case FinishFiat(_, _) => op.None?
      case Callback(IrisItem(Some(id), Completed)) => op == Some(UpdateStatus(id, Success))
      case Callback(IrisItem(Some(id), PayoutFailed)) => op == Some(RejectFiat(id))
      case Callback(_) => op.None?
      case FinishCrypto(id, env) =>
        if id !in w.broadcasts then op.None?
        else
          var sends :=
            && env.addressFound && (w.broadcasts[id].network, w.broadcasts[id].asset) in cfg.contracts
            && env.keyDecodes && env.keyDecrypts && env.keyParses && env.chainIdKnown && env.nonceKnown && env.gasPriceKnown
            && env.transferBuilds && env.sendSucceeds;
          op == Some(if sends then UpdateWithdrawal(id, Some(env.txHash), Success) else RejectCrypto(id))
      case Log(Delivery(log, id)) =>
        if log.removed || log.event.None? || log.event.value.to !in cfg.watch.watchList || log.contract !in cfg.watch.contractAssets
        then op.None?
        else
          && op.Some?
          && op.value == CreditDeposit(id, cfg.watch.watchList[log.event.value.to], op.value.amount,
                                       cfg.watch.contractAssets[log.contract], log.txHash)
          && Deposits.IsWorth(op.value.amount, log.event.value.value,
                              if log.contract in cfg.watch.contractDecimals then cfg.watch.contractDecimals[log.contract] else 18)
      case _ => true
  {
    if c.Log? && c.d.log.event.Some? {
      Deposits.CreditIsWorth(c.d.log.event.value.value, Deposits.DecimalsOf(cfg.watch, c.d.log.contract));
    }
  }

  predicate Commits(cfg: Config, w: World, c: Call) {
    OpOf(cfg, w, c).Some? && Atomic(OpOf(cfg, w, c).value, w.db).Committed?
  }

  /** The tables after the call, and the calls that wait from now on. */
  function Queue(w: World, c: Call, db: Database, done: bool): World {
    match c
    case Register(user, wallet) => if done then w.(db := db, wallets := w.wallets[user := wallet]) else w
    case StartTopUp(id, _, _, _, _) => if done then w.(db := db, charges := w.charges + {id}) else w
    case FinishTopUp(id, _) => w.(db := db, charges := w.charges - {id})
    case StartFiat(id, _, _) => if done then w.(db := db, payouts := w.payouts + {id}) else w
    case FinishFiat(id, _) => w.(db := db, payouts := w.payouts - {id})
    case StartCrypto(id, _, network, asset, _, _) =>
      if done then w.(db := db, broadcasts := w.broadcasts[id := Broadcast(network, asset)]) else w
    case FinishCrypto(id, _) => w.(db := db, broadcasts := w.broadcasts - {id})
    case _ => w.(db := db)
  }

  function Next(cfg: Config, w: World, c: Call): World {
    Queue(w, c, Applied(w.db, OpOf(cfg, w, c)), Commits(cfg, w, c))
  }

  /** A committed start waits for its answer, and the answer ends the wait, whether its own operation commits or not. */
  lemma CallsWait(cfg: Config, w: World, c: Call)
    ensures
      var next := Next(cfg, w, c);
      && next.db == (if Commits(cfg, w, c) then Atomic(OpOf(cfg, w, c).value, w.db).db else w.db)
      && next.wallets == (if c.Register? && Commits(cfg, w, c) then w.wallets[c.user := c.wallet] else w.wallets)
      && next.charges == w.charges - (if c.FinishTopUp? then {c.id} else {})
                       + (if c.StartTopUp? && Commits(cfg, w, c) then {c.id} else {})
      && next.payouts == w.payouts - (if c.FinishFiat? then {c.id} else {})
                       + (if c.StartFiat? && Commits(cfg, w, c) then {c.id} else {})
      && (c.FinishCrypto? ==> next.broadcasts == w.broadcasts - {c.id})
      && (c.StartCrypto? && Commits(cfg, w, c) ==> next.broadcasts == w.broadcasts[c.id := Broadcast(c.network, c.asset)])
      && (!c.FinishCrypto? && !(c.StartCrypto? && Commits(cfg, w, c)) ==> next.broadcasts == w.broadcasts)
  {
  }

  function Run(cfg: Config, calls: seq<Call>): World
    decreases |calls|
  {
    if calls == [] then START else Next(cfg, Run(cfg, calls[..|calls| - 1]), calls[|calls| - 1])
  }

  /**
    What the code leaves to the outside. A refused charge was not paid after
    all. A payout that the service accepts has not been called back as failed. A
    `completed` callback names no top-up that has not succeeded and no withdrawal
    that has failed. A `failed` one names no withdrawal that is being broadcast.
    The prices of a swap are not negative. DisorderBreaks says why.
   */
  predicate Orderly(w: World, c: Call) {
    match c
    case FinishTopUp(id, charged) => id in w.charges && !charged && id in w.db.txs ==> w.db.txs[id].status != Success
    case FinishFiat(id, payout) =>
      id in w.payouts && payout.Accepted? && payout.status.Some? && id in w.db.txs ==> w.db.txs[id].status != Failed
    case Callback(IrisItem(Some(id), Completed)) => id in w.db.txs ==> !Undoes(w.db.txs[id])
    case Callback(IrisItem(Some(id), PayoutFailed)) => id in w.broadcasts && id in w.db.txs ==> w.db.txs[id].status != Pending
    case Swap(_, _, from, to, _, rates) => (from in rates ==> rates[from] >= 0.0) && (to in rates ==> rates[to] >= 0.0)
    case _ => true
  }

  /** Writing `success` onto this row would book money that has not moved. */
  predicate Undoes(t: Transaction) {
    (t.kind.TopUp? && t.status != Success) || ((t.kind.WithdrawFiat? || t.kind.CryptoWithdrawal?) && t.status == Failed)
  }

  ghost predicate OrderlyRun(cfg: Config, calls: seq<Call>)
    decreases |calls|
  {
    calls == [] || (OrderlyRun(cfg, calls[..|calls| - 1]) && Orderly(Run(cfg, calls[..|calls| - 1]), calls[|calls| - 1]))
  }

  // ---- the invariant ----

  /** Only top-ups carry an order id. */
  ghost predicate OrdersAreTopUps(db: Database) {
    forall id | id in db.txs && db.txs[id].orderId.Some? :: db.txs[id].kind.TopUp?
  }

  /** Transfers, deposits and swaps are inserted as successful, and are never pending. */
  predicate IsMovement(kind: Kind) {
    kind.TransferFiat? || kind.CryptoDeposit? || kind.Swap?
  }

  ghost predicate MovementsDecided(db: Database) {
    forall id | id in db.txs && IsMovement(db.txs[id].kind) :: db.txs[id].status != Pending
  }

  ghost predicate Books(db: Database) {
    && Accounting.Sound(db) && Solvency.Solvent(db) && MovementsDecided(db)
    && OrdersIndexed(db) && HashesIndexed(db) && OrdersAreTopUps(db)
  }

  predicate IsKind(db: Database, id: TxId, kind: Kind) {
    id in db.txs && db.txs[id].kind == kind
  }

  /** The row of a broadcast that has not finished. */
  predicate IsBroadcasting(db: Database, id: TxId) {
    IsKind(db, id, CryptoWithdrawal) && db.txs[id].status != Failed && db.txs[id].txHash.None?
  }

  ghost predicate Waiting(w: World) {
    && (forall id | id in w.charges :: IsKind(w.db, id, TopUp))
    && (forall id | id in w.payouts :: IsKind(w.db, id, WithdrawFiat))
    && (forall id | id in w.broadcasts :: IsBroadcasting(w.db, id))
  }

  ghost predicate Good(w: World) {
    Books(w.db) && Waiting(w) && OneUserEach(w.wallets)
  }

  /** No write of `pending` names a movement. */
  predicate Steady(op: Op, db: Database) {
    (op.UpdateStatus? || op.UpdateWithdrawal?) && op.status == Pending && op.id in db.txs ==> !IsMovement(db.txs[op.id].kind)
  }

  predicate Safe(op: Op, db: Database) {
    Accounting.Faithful(op, db) && Solvency.NonNegative(op) && Steady(op, db) && ExactlyOnce.KeepsHashes(op, db)
  }

  lemma CommitKeepsBooks(op: Op, db: Database, after: Database)
    requires Books(db) && Safe(op, db) && Atomic(op, db) == Committed(after)
    ensures Books(after)
  {
    Accounting.SoundIffFaithful(op, db, after);
    Solvency.StaysSolvent(op, db, after);
    OrdersStayIndexed(op, db, after);
    HashesStayIndexed(op, db, after);
    OrdersStayTopUps(op, db, after);
    MovementsStay(op, db, after);
  }

  lemma MovementsStay(op: Op, db: Database, after: Database)
    requires MovementsDecided(db) && Steady(op, db) && Atomic(op, db) == Committed(after)
    ensures MovementsDecided(after)
  {
  }

  lemma OrdersStayTopUps(op: Op, db: Database, after: Database)
    requires OrdersAreTopUps(db) && Atomic(op, db) == Committed(after)
    ensures OrdersAreTopUps(after)
  {
  }

  lemma SwapIsSafe(cfg: Config, w: World, c: Call)
    requires cfg.Valid() && c.Swap? && Orderly(w, c) && OpOf(cfg, w, c).Some?
    ensures Safe(OpOf(cfg, w, c).value, w.db)
  {
    var p, q := Exchange.RateOf(Prices(c.rates), c.from).value, Exchange.RateOf(Prices(c.rates), c.to).value;
    Exchange.QuoteSplits(c.amount, p, q, cfg.swapFee, c.from == IDR, c.to == IDR);
    Decimals.RoundNear(c.amount);
  }

  lemma NotifyIsSafe(cfg: Config, w: World, c: Call)
    requires cfg.Valid() && Books(w.db) && c.Notify? && OpOf(cfg, w, c).Some?
    ensures Safe(OpOf(cfg, w, c).value, w.db)
  {
    assert CarriesOrder(w.db, ByOrder(w.db, c.n.orderID).value, c.n.orderID);
  }

  lemma FinishTopUpIsSafe(cfg: Config, w: World, c: Call)
    requires Waiting(w) && Orderly(w, c) && c.FinishTopUp? && OpOf(cfg, w, c).Some?
    ensures Safe(OpOf(cfg, w, c).value, w.db)
  {
    assert IsKind(w.db, c.id, TopUp);
  }

  lemma FinishFiatIsSafe(cfg: Config, w: World, c: Call)
    requires Waiting(w) && Orderly(w, c) && c.FinishFiat? && OpOf(cfg, w, c).Some?
    ensures Safe(OpOf(cfg, w, c).value, w.db)
  {
    assert IsKind(w.db, c.id, WithdrawFiat);
    assert OpOf(cfg, w, c) == FiatWithdrawals.Finish(c.id, c.payout);
    AnswerIsSafe(w.db, c.id, c.payout);
  }

  lemma AnswerIsSafe(db: Database, id: TxId, payout: FiatWithdrawals.Payout)
    requires IsKind(db, id, WithdrawFiat) && (payout.Accepted? && payout.status.Some? ==> db.txs[id].status != Failed)
    requires FiatWithdrawals.Finish(id, payout).Some?
    ensures Safe(FiatWithdrawals.Finish(id, payout).value, db)
  {
  }

  lemma FinishCryptoIsSafe(cfg: Config, w: World, c: Call)
    requires Waiting(w) && c.FinishCrypto? && OpOf(cfg, w, c).Some?
    ensures Safe(OpOf(cfg, w, c).value, w.db)
  {
    assert IsBroadcasting(w.db, c.id);
    var b := w.broadcasts[c.id];
    assert OpOf(cfg, w, c) == Some(CryptoWithdrawals.Conclusion(c.id, c.env, cfg.contracts, b.network, b.asset));
    ConclusionIsSafe(w.db, CryptoWithdrawals.Conclusion(c.id, c.env, cfg.contracts, b.network, b.asset), c.id);
  }

  lemma ConclusionIsSafe(db: Database, op: Op, id: TxId)
    requires IsBroadcasting(db, id) && (op == RejectCrypto(id) || (op.UpdateWithdrawal? && op.id == id && op.status == Success))
    ensures Safe(op, db)
  {
  }

  /** Whatever a rejection commits on, it gives back what a withdrawal took. */
  lemma RejectFiatIsSafe(db: Database, id: TxId)
    requires Accounting.RowsOk(db) && MovementsDecided(db) && Atomic(RejectFiat(id), db).Committed?
    ensures Safe(RejectFiat(id), db)
  {
    var t := db.txs[id];
    assert Accounting.RowOk(t);
    assert IsMovement(t.kind) ==> t.status != Pending;
  }

  lemma CallbackIsSafe(cfg: Config, w: World, c: Call)
    requires Books(w.db) && Orderly(w, c) && c.Callback? && Commits(cfg, w, c)
    ensures Safe(OpOf(cfg, w, c).value, w.db)
  {
    if c.item.status.PayoutFailed? {
      RejectFiatIsSafe(w.db, c.item.reference.value);
    }
  }

  /** The guards of the usecases see to what the accounts and the balances need. */
  lemma OpIsSafe(cfg: Config, w: World, c: Call)
    requires cfg.Valid() && Good(w) && Orderly(w, c) && Commits(cfg, w, c)
    ensures Safe(OpOf(cfg, w, c).value, w.db)
  {
    match c {
      case Swap(_, _, _, _, _, _) => SwapIsSafe(cfg, w, c);
      case Notify(_) => NotifyIsSafe(cfg, w, c);
      case StartFiat(_, _, amount) => Decimals.RoundNear(amount);
      case Log(d) => Deposits.CreditIsNonNegative(cfg.watch, d);
      case FinishTopUp(_, _) => FinishTopUpIsSafe(cfg, w, c);
      case FinishFiat(_, _) => FinishFiatIsSafe(cfg, w, c);
      case FinishCrypto(_, _) => FinishCryptoIsSafe(cfg, w, c);
      case Callback(_) => CallbackIsSafe(cfg, w, c);
      case Transfer(_, sender, dest, _, _) =>
        assert sender in w.wallets && dest in w.wallets ==> sender == dest || w.wallets[sender] != w.wallets[dest];
      case _ =>
    }
  }

  lemma ApplyKeepsBooks(cfg: Config, w: World, c: Call)
    requires cfg.Valid() && Good(w) && Orderly(w, c)
    ensures Books(Applied(w.db, OpOf(cfg, w, c)))
  {
    if Commits(cfg, w, c) {
      var op := OpOf(cfg, w, c).value;
      OpIsSafe(cfg, w, c);
      CommitKeepsBooks(op, w.db, Atomic(op, w.db).db);
    }
  }

  // ---- a broadcast that has not finished ----

  predicate Inserts(op: Op) {
    op.ExecuteTransfer? || op.ExecuteWithdrawFiat? || op.CreatePendingTopUp? || op.CreditDeposit?
    || op.CreatePendingWithdrawal? || op.ExecuteSwap?
  }

  lemma InsertsNewRow(op: Op, db: Database)
    requires Inserts(op) && Atomic(op, db).Committed?
    ensures op.id !in db.txs
  {
  }

  /** Besides its broadcast, only callbacks write to the row of a crypto withdrawal. */
  lemma OthersNameOthers(cfg: Config, w: World, c: Call)
    requires Books(w.db) && Waiting(w) && OpOf(cfg, w, c).Some? && !c.FinishCrypto? && !c.Callback?
    ensures var op := OpOf(cfg, w, c).value;
      op.OpenWallet? || Inserts(op) || (op.id in w.db.txs ==> !w.db.txs[op.id].kind.CryptoWithdrawal?)
  {
    match c {
      case FinishTopUp(id, _) => assert IsKind(w.db, id, TopUp);
      case FinishFiat(id, _) => assert IsKind(w.db, id, WithdrawFiat);
      case Notify(n) => NotifyNamesTopUp(cfg.gateway, w.db, n);
      case _ =>
    }
  }

  lemma NotifyNamesTopUp(g: MidtransNotifications.Gateway, db: Database, n: MidtransNotifications.Notification)
    requires OrdersIndexed(db) && OrdersAreTopUps(db) && NotifyOp(g, db, n).Some?
    ensures var op := NotifyOp(g, db, n).value; (op.UpdateStatus? || op.SettleTopUp?) && IsKind(db, op.id, TopUp)
  {
    assert CarriesOrder(db, ByOrder(db, n.orderID).value, n.orderID);
  }

  /** What Deadlock asks of settlements: the row that the handler has read has no source wallet. */
  lemma SettlesRowsWithoutSource(g: MidtransNotifications.Gateway, db: Database, n: MidtransNotifications.Notification)
    requires Books(db) && NotifyOp(g, db, n).Some?
    ensures Deadlock.NamesTopUp(db, NotifyOp(g, db, n).value)
  {
    NotifyNamesTopUp(g, db, n);
    var id := NotifyOp(g, db, n).value.id;
    assert id in db.txs && Accounting.RowOk(db.txs[id]);
  }

  lemma FinishNamesItsRow(cfg: Config, w: World, c: Call)
    requires c.FinishCrypto? && OpOf(cfg, w, c).Some?
    ensures var op := OpOf(cfg, w, c).value; !op.OpenWallet? && op.id == c.id
  {
  }

  /** What a call makes of the status of a row that is being broadcast. */
  function StatusAfter(c: Call, id: TxId, status: Status): Status {
    if c.Callback? && c.item == IrisCallbacks.IrisItem(Some(id), IrisCallbacks.Completed) then Success
    else if c.Callback? && c.item == IrisCallbacks.IrisItem(Some(id), IrisCallbacks.PayoutFailed) && status == Pending then Failed
    else status
  }

  /** Until its broadcast finishes, nothing writes to the row but callbacks that name it, orderly or not. */
  lemma BroadcastWaits(cfg: Config, w: World, c: Call, id: TxId)
    requires Good(w) && id in w.broadcasts && !(c.FinishCrypto? && c.id == id)
    ensures var db := Applied(w.db, OpOf(cfg, w, c));
      id in db.txs && db.txs[id] == w.db.txs[id].(status := StatusAfter(c, id, w.db.txs[id].status))
  {
    assert IsBroadcasting(w.db, id);
    if c.Callback? {
      WithdrawalHasItsBalance(w.db, id);
      CallbackOnBroadcast(w.db, c.item, id);
    } else if OpOf(cfg, w, c).Some? {
      OtherCallsSpareIt(cfg, w, c, id);
    }
  }

  lemma OtherCallsSpareIt(cfg: Config, w: World, c: Call, id: TxId)
    requires Books(w.db) && Waiting(w) && IsBroadcasting(w.db, id) && OpOf(cfg, w, c).Some?
    requires !c.Callback? && !(c.FinishCrypto? && c.id == id)
    ensures var db := TablesAfter(Atomic(OpOf(cfg, w, c).value, w.db), w.db); id in db.txs && db.txs[id] == w.db.txs[id]
  {
    if c.FinishCrypto? {
      FinishNamesItsRow(cfg, w, c);
    } else {
      OthersNameOthers(cfg, w, c);
    }
    OthersSpareIt(OpOf(cfg, w, c).value, w.db, id);
  }

  lemma WithdrawalHasItsBalance(db: Database, id: TxId)
    requires Accounting.RowsOk(db) && IsKind(db, id, CryptoWithdrawal)
    ensures var t := db.txs[id]; t.source.Some? && Key(t.source.value, t.asset) in db.balances
  {
    var t := db.txs[id];
    assert Accounting.RowOk(t) && Accounting.Touched(t) <= db.balances.Keys;
    assert Key(t.source.value, t.asset) in Accounting.Touched(t);
  }

  lemma CallbackOnBroadcast(db: Database, item: IrisCallbacks.IrisItem, id: TxId)
    requires id in db.txs && db.txs[id].source.Some? && Key(db.txs[id].source.value, db.txs[id].asset) in db.balances
    ensures var after := Applied(db, IrisCallbacks.CallFor(item));
      id in after.txs && after.txs[id] == db.txs[id].(status := StatusAfter(Callback(item), id, db.txs[id].status))
  {
  }

  lemma OthersSpareIt(op: Op, db: Database, id: TxId)
    requires IsBroadcasting(db, id) && (op.OpenWallet? || Inserts(op) || op.id != id)
    ensures var after := TablesAfter(Atomic(op, db), db); id in after.txs && after.txs[id] == db.txs[id]
  {
    if Atomic(op, db).Committed? {
      if Inserts(op) {
        InsertsNewRow(op, db);
      }
      CommitKeepsRow(op, db, Atomic(op, db).db, id);
    }
  }

  /** The row that a starting call has just inserted. */
  lemma StartedRow(cfg: Config, w: World, c: Call)
    requires Commits(cfg, w, c) && (c.StartTopUp? || c.StartFiat? || c.StartCrypto?)
    ensures
      var db := Applied(w.db, OpOf(cfg, w, c));
      && IsKind(db, c.id, if c.StartTopUp? then TopUp else if c.StartFiat? then WithdrawFiat else CryptoWithdrawal)
      && db.txs[c.id].status == Pending && db.txs[c.id].txHash.None?
  {
  }

  lemma KindStays(db: Database, op: Option<Op>, id: TxId, kind: Kind)
    requires IsKind(db, id, kind)
    ensures IsKind(Applied(db, op), id, kind)
  {
    if op.Some? && Atomic(op.value, db).Committed? {
      CommitKeepsRow(op.value, db, Atomic(op.value, db).db, id);
    }
  }

  /** A call that does not commit leaves the tables alone. */
  lemma NextDatabase(cfg: Config, w: World, c: Call)
    ensures Next(cfg, w, c).db == Applied(w.db, OpOf(cfg, w, c))
    ensures !Commits(cfg, w, c) ==> Next(cfg, w, c).db == w.db
  {
  }

  lemma QueueWaits(w: World, c: Call, db: Database, done: bool)
    requires Waiting(w) && (!done && (c.StartTopUp? || c.StartFiat? || c.StartCrypto? || c.Register?) ==> db == w.db)
    requires forall id | id in w.charges :: IsKind(db, id, TopUp)
    requires forall id | id in w.payouts :: IsKind(db, id, WithdrawFiat)
    requires forall id | id in w.broadcasts && !(c.FinishCrypto? && c.id == id) :: IsBroadcasting(db, id)
    requires done && c.StartTopUp? ==> IsKind(db, c.id, TopUp)
    requires done && c.StartFiat? ==> IsKind(db, c.id, WithdrawFiat)
    requires done && c.StartCrypto? ==> IsBroadcasting(db, c.id)
    ensures Waiting(Queue(w, c, db, done))
  {
  }

  lemma NextKeepsWaiting(cfg: Config, w: World, c: Call)
    requires Good(w) && Orderly(w, c)
    ensures Waiting(Next(cfg, w, c))
  {
    var op, done := OpOf(cfg, w, c), Commits(cfg, w, c);
    if done && (c.StartTopUp? || c.StartFiat? || c.StartCrypto?) {
      StartedRow(cfg, w, c);
    }
    forall id | id in w.charges ensures IsKind(Applied(w.db, op), id, TopUp) {
      KindStays(w.db, op, id, TopUp);
    }
    forall id | id in w.payouts ensures IsKind(Applied(w.db, op), id, WithdrawFiat) {
      KindStays(w.db, op, id, WithdrawFiat);
    }
    forall id | id in w.broadcasts && !(c.FinishCrypto? && c.id == id) ensures IsBroadcasting(Applied(w.db, op), id) {
      assert IsBroadcasting(w.db, id);
      BroadcastWaits(cfg, w, c, id);
    }
    QueueWaits(w, c, Applied(w.db, op), done);
  }

  lemma NextKeepsGood(cfg: Config, w: World, c: Call)
    requires cfg.Valid() && Good(w) && Orderly(w, c)
    ensures Good(Next(cfg, w, c))
  {
    ApplyKeepsBooks(cfg, w, c);
    NextKeepsWaiting(cfg, w, c);
  }

  lemma {:induction false} RunKeepsGood(cfg: Config, calls: seq<Call>)
    requires cfg.Valid() && OrderlyRun(cfg, calls)
    ensures Good(Run(cfg, calls))
    decreases |calls|
  {
    if calls == [] {
    } else {
      RunKeepsGood(cfg, calls[..|calls| - 1]);
      NextKeepsGood(cfg, Run(cfg, calls[..|calls| - 1]), calls[|calls| - 1]);
    }
  }

  /**
    After every orderly run of the service: no balance is negative, each balance
    is the sum over the transaction table, and the total of each asset is what
    the table says came in minus what went out.
   */
  lemma BooksBalance(cfg: Config, calls: seq<Call>, a: Asset)
    requires cfg.Valid() && OrderlyRun(cfg, calls)
    ensures var db := Run(cfg, calls).db;
      && (forall k | k in db.balances :: db.balances[k] >= 0.0 && db.balances[k] == Accounting.Posted(db.txs, k))
      && Accounting.Total(db, a) == Accounting.NetFlow(db.txs, a)
  {
    RunKeepsGood(cfg, calls);
    Accounting.TotalIsNetFlow(Run(cfg, calls).db, a);
  }

  // ---- the operations of a run, and one credit per hash ----

  /** The operations that the calls commit, in order. */
  function LogOf(cfg: Config, calls: seq<Call>): seq<Op>
    decreases |calls|
  {
    if calls == [] then []
    else
      var before, last := calls[..|calls| - 1], calls[|calls| - 1];
      var w := Run(cfg, before);
      LogOf(cfg, before) + if Commits(cfg, w, last) then [OpOf(cfg, w, last).value] else []
  }

  lemma ReplayOneMore(log: seq<Op>, op: Op, db: Database)
    requires Replay(EMPTY, log) == Some(db) && Atomic(op, db).Committed?
    ensures Replay(EMPTY, log + [op]) == Some(Atomic(op, db).db)
    ensures ExactlyOnce.KeepsHashesRun(EMPTY, log) && ExactlyOnce.KeepsHashes(op, db) ==> ExactlyOnce.KeepsHashesRun(EMPTY, log + [op])
    ensures Accounting.FaithfulRun(EMPTY, log) && Accounting.Faithful(op, db) ==> Accounting.FaithfulRun(EMPTY, log + [op])
  {
    assert (log + [op])[..|log|] == log;
    assert forall i | 0 <= i < |log| :: (log + [op])[..i] == log[..i];
  }

  /** A run of calls is the run of the operations they commit; these are faithful, and no hash is ever replaced. */
  lemma {:induction false} RunIsReplay(cfg: Config, calls: seq<Call>)
    requires cfg.Valid() && OrderlyRun(cfg, calls)
    ensures Replay(EMPTY, LogOf(cfg, calls)) == Some(Run(cfg, calls).db)
    ensures ExactlyOnce.KeepsHashesRun(EMPTY, LogOf(cfg, calls)) && Accounting.FaithfulRun(EMPTY, LogOf(cfg, calls))
    decreases |calls|
  {
    if calls == [] {
    } else {
      var before, last := calls[..|calls| - 1], calls[|calls| - 1];
      var w := Run(cfg, before);
      RunIsReplay(cfg, before);
      RunKeepsGood(cfg, before);
      NextDatabase(cfg, w, last);
      if Commits(cfg, w, last) {
        OpIsSafe(cfg, w, last);
        ReplayOneMore(LogOf(cfg, before), OpOf(cfg, w, last).value, w.db);
      } else {
        assert LogOf(cfg, calls) == LogOf(cfg, before);
      }
    }
  }

  /** Over every orderly run of the service, a transaction hash is credited at most once. */
  lemma OneCreditPerHash(cfg: Config, calls: seq<Call>, hash: string)
    requires cfg.Valid() && OrderlyRun(cfg, calls)
    ensures ExactlyOnce.DepositCount(LogOf(cfg, calls), hash) <= 1
  {
    RunIsReplay(cfg, calls);
    ExactlyOnce.RunCreditsOnce(EMPTY, LogOf(cfg, calls), hash);
  }

  // ---- the order is needed ----

  /** The row that a call names from outside. */
  function Named(c: Call): Option<TxId> {
    match c
    case FinishTopUp(id, _) => Some(id)
    case FinishFiat(id, _) => Some(id)
    case Callback(item) => item.reference
    case _ => None
  }

  lemma DisorderlyIsUnfaithful(cfg: Config, w: World, c: Call, id: TxId)
    requires Waiting(w) && !Orderly(w, c) && (c.FinishTopUp? || c.FinishFiat? || (c.Callback? && c.item.status.Completed?))
    requires Named(c) == Some(id) && id in w.db.txs
    ensures OpOf(cfg, w, c).Some?
    ensures var op := OpOf(cfg, w, c).value;
      op.UpdateStatus? && op.id == id && Atomic(op, w.db).Committed? && !Accounting.Faithful(op, w.db)
  {
    assert c.FinishTopUp? ==> IsKind(w.db, id, TopUp);
    assert c.FinishFiat? ==> IsKind(w.db, id, WithdrawFiat);
  }

  /** A status write against the order breaks the accounts at once, on a row with positive amounts. */
  lemma StatusWriteBreaks(cfg: Config, w: World, c: Call, id: TxId)
    requires Good(w) && !Orderly(w, c) && (c.FinishTopUp? || c.FinishFiat? || (c.Callback? && c.item.status.Completed?))
    requires Named(c) == Some(id) && id in w.db.txs && Accounting.PositiveRow(w.db.txs[id])
    ensures !Accounting.Sound(Next(cfg, w, c).db)
  {
    DisorderlyIsUnfaithful(cfg, w, c, id);
    NextDatabase(cfg, w, c);
    UnfaithfulWriteBreaks(w.db, OpOf(cfg, w, c).value);
  }

  lemma UnfaithfulWriteBreaks(db: Database, op: Op)
    requires Accounting.Sound(db) && (op.UpdateStatus? || op.UpdateWithdrawal?) && Atomic(op, db).Committed?
    requires !Accounting.Faithful(op, db) && op.id in db.txs && Accounting.PositiveRow(db.txs[op.id])
    ensures !Accounting.Sound(Atomic(op, db).db)
  {
    Accounting.SoundIffFaithful(op, db, Atomic(op, db).db);
  }

  /** A rejection during a broadcast breaks them when the broadcast succeeds all the same. */
  lemma RejectionBreaks(cfg: Config, w: World, id: TxId, env: CryptoWithdrawals.Environment)
    requires cfg.Valid() && Good(w) && id in w.broadcasts && w.db.txs[id].status == Pending && Accounting.PositiveRow(w.db.txs[id])
    requires TxHash(env.txHash) !in w.db.keys
    requires CryptoWithdrawals.Broadcasts(env, cfg.contracts, w.broadcasts[id].network, w.broadcasts[id].asset)
    ensures
      var rejected := Next(cfg, w, Callback(IrisCallbacks.IrisItem(Some(id), IrisCallbacks.PayoutFailed)));
      !Accounting.Sound(Next(cfg, rejected, FinishCrypto(id, env)).db)
  {
    var c := Callback(IrisCallbacks.IrisItem(Some(id), IrisCallbacks.PayoutFailed));
    var rejected := Next(cfg, w, c);
    assert IsBroadcasting(w.db, id);
    RejectedWorld(cfg, w, id);
    RejectedRow(w.db, id, rejected.db);
    LateSuccess(cfg, rejected, id, env);
    LateSuccessBreaks(rejected.db, id, env.txHash);
  }

  lemma RejectedWorld(cfg: Config, w: World, id: TxId)
    ensures var rejected := Next(cfg, w, Callback(IrisCallbacks.IrisItem(Some(id), IrisCallbacks.PayoutFailed)));
      rejected.broadcasts == w.broadcasts && rejected.db == Applied(w.db, Some(RejectFiat(id)))
  {
  }

  lemma LateSuccess(cfg: Config, w: World, id: TxId, env: CryptoWithdrawals.Environment)
    requires id in w.broadcasts
    requires CryptoWithdrawals.Broadcasts(env, cfg.contracts, w.broadcasts[id].network, w.broadcasts[id].asset)
    ensures Next(cfg, w, FinishCrypto(id, env)).db == Applied(w.db, Some(UpdateWithdrawal(id, Some(env.txHash), Success)))
  {
  }

  lemma RejectedRow(db: Database, id: TxId, after: Database)
    requires Books(db) && IsBroadcasting(db, id) && db.txs[id].status == Pending && Accounting.PositiveRow(db.txs[id])
    requires after == Applied(db, Some(RejectFiat(id)))
    ensures Accounting.Sound(after) && after.keys == db.keys
    ensures IsKind(after, id, CryptoWithdrawal) && after.txs[id].status == Failed && Accounting.PositiveRow(after.txs[id])
  {
    WithdrawalHasItsBalance(db, id);
    RejectionCommits(db, id, after);
    RejectionIsSound(db, id, after);
  }

  lemma RejectionCommits(db: Database, id: TxId, after: Database)
    requires id in db.txs && db.txs[id].status == Pending && after == Applied(db, Some(RejectFiat(id)))
    requires db.txs[id].source.Some? && Key(db.txs[id].source.value, db.txs[id].asset) in db.balances
    ensures Atomic(RejectFiat(id), db) == Committed(after) && after.keys == db.keys
    ensures id in after.txs && after.txs[id] == db.txs[id].(status := Failed)
  {
  }

  lemma RejectionIsSound(db: Database, id: TxId, after: Database)
    requires Accounting.Sound(db) && MovementsDecided(db) && Atomic(RejectFiat(id), db) == Committed(after)
    ensures Accounting.Sound(after)
  {
    RejectFiatIsSafe(db, id);
    Accounting.SoundIffFaithful(RejectFiat(id), db, after);
  }

  lemma LateSuccessIsUnfaithful(db: Database, id: TxId, hash: string)
    requires IsKind(db, id, CryptoWithdrawal) && db.txs[id].status == Failed && TxHash(hash) !in db.keys
    ensures var op := UpdateWithdrawal(id, Some(hash), Success);
      Atomic(op, db).Committed? && !Accounting.Faithful(op, db)
  {
  }

  lemma LateSuccessBreaks(db: Database, id: TxId, hash: string)
    requires Accounting.Sound(db) && IsKind(db, id, CryptoWithdrawal) && db.txs[id].status == Failed && TxHash(hash) !in db.keys
    requires Accounting.PositiveRow(db.txs[id])
    ensures !Accounting.Sound(Applied(db, Some(UpdateWithdrawal(id, Some(hash), Success))))
  {
    LateSuccessIsUnfaithful(db, id, hash);
    UnfaithfulWriteBreaks(db, UpdateWithdrawal(id, Some(hash), Success));
  }

  /** So no clause of Orderly about callbacks and status writes can go: against it, the accounts break now or when the broadcast succeeds. */
  lemma DisorderBreaks(cfg: Config, w: World, c: Call, id: TxId, env: CryptoWithdrawals.Environment)
    requires cfg.Valid() && Good(w) && !Orderly(w, c)
    requires Named(c) == Some(id) && id in w.db.txs && Accounting.PositiveRow(w.db.txs[id])
    requires id in w.broadcasts ==>
      TxHash(env.txHash) !in w.db.keys
      && CryptoWithdrawals.Broadcasts(env, cfg.contracts, w.broadcasts[id].network, w.broadcasts[id].asset)
    ensures var next := Next(cfg, w, c);
      !Accounting.Sound(next.db) || !Accounting.Sound(Next(cfg, next, FinishCrypto(id, env)).db)
  {
    if c.Callback? && c.item.status.PayoutFailed? {
      RejectionBreaks(cfg, w, id, env);
      assert c == Callback(IrisCallbacks.IrisItem(Some(id), IrisCallbacks.PayoutFailed));
    } else {
      StatusWriteBreaks(cfg, w, c, id);
    }
  }

  /** A run that the payout webhook can cause: a `completed` callback with the id of a top-up that has not been paid. */
  lemma UnpaidTopUpCompleted(cfg: Config)
    requires cfg.Valid()
    ensures !Accounting.Sound(Run(cfg, [Register(0, 0), StartTopUp(1, 0, 100.0, IDR, "o"),
                                        Callback(IrisCallbacks.IrisItem(Some(1), IrisCallbacks.Completed))]).db)
  {
    var register, start, callback := Register(0, 0), StartTopUp(1, 0, 100.0, IDR, "o"),
                                     Callback(IrisCallbacks.IrisItem(Some(1), IrisCallbacks.Completed));
    var two, three := [register, start], [register, start, callback];
    assert two[..1] == [register] && [register][..0] == [] && three[..2] == two;
    assert OrderlyRun(cfg, []) && OrderlyRun(cfg, [register]) && OrderlyRun(cfg, two);
    RunKeepsGood(cfg, two);
    FirstRegistration(cfg);
    TopUpStarts(cfg, Run(cfg, [register]));
    StatusWriteBreaks(cfg, Run(cfg, two), callback, 1);
  }

  lemma FirstRegistration(cfg: Config)
    ensures var w := Run(cfg, [Register(0, 0)]);
      w.wallets == map[0 := 0] && w.db.txs == map[] && w.db.keys == map[]
  {
    assert [Register(0, 0)][..0] == [];
    assert Run(cfg, []) == START;
  }

  lemma TopUpStarts(cfg: Config, w: World)
    requires w.wallets == map[0 := 0] && w.db.txs == map[] && w.db.keys == map[]
    ensures var next := Next(cfg, w, StartTopUp(1, 0, 100.0, IDR, "o"));
      1 in next.db.txs && next.db.txs[1] == TopUpRow(0, 100.0, IDR, "o")
  {
  }

  // ---- guarded operations, interleaved ----

  /** What the guards of the usecases give, whatever the tables hold. */
  predicate Guarded(op: Op) {
    (op.ExecuteTransfer? ==> op.sender != op.recipient) && (op.ExecuteSwap? ==> op.from != op.to)
  }

  /** The operations whose effect on the accounts depends on a status that their caller has read before. */
  predicate WritesStatus(op: Op) {
    op.SettleTopUp? || op.UpdateStatus? || op.UpdateWithdrawal? || op.RejectCrypto?
  }

  /** Every status write and settlement of the log meets the row it was meant for. */
  ghost predicate StatusesMeet(db: Database, log: seq<Op>) {
    forall i | 0 <= i < |log| && Replay(db, log[..i]).Some? && WritesStatus(log[i]) ::
      var before := Replay(db, log[..i]).value;
      Accounting.Faithful(log[i], before) && Steady(log[i], before)
  }

  lemma GuardedIsFaithful(op: Op, db: Database, after: Database)
    requires Accounting.Sound(db) && MovementsDecided(db) && Guarded(op) && Atomic(op, db) == Committed(after)
    requires WritesStatus(op) ==> Accounting.Faithful(op, db) && Steady(op, db)
    ensures Accounting.Sound(after) && MovementsDecided(after)
  {
    if op.RejectFiat? && op.id in db.txs {
      var t := db.txs[op.id];
      assert Accounting.RowOk(t);
      assert IsMovement(t.kind) ==> t.status != Pending;
    }
    assert Accounting.Faithful(op, db) && Steady(op, db);
    Accounting.SoundIffFaithful(op, db, after);
    MovementsStay(op, db, after);
  }

  lemma {:induction false} GuardedRunIsSound(db: Database, log: seq<Op>)
    requires Accounting.Sound(db) && MovementsDecided(db) && Replay(db, log).Some?
    requires StatusesMeet(db, log) && forall op | op in log :: Guarded(op)
    ensures Accounting.Sound(Replay(db, log).value) && MovementsDecided(Replay(db, log).value)
    decreases |log|
  {
    if log == [] {
    } else {
      var n := |log| - 1;
      assert StatusesMeet(db, log[..n]) by { assert forall i | 0 <= i < n :: log[..n][..i] == log[..i]; }
      GuardedRunIsSound(db, log[..n]);
      assert log[n] in log;
      GuardedIsFaithful(log[n], Replay(db, log[..n]).value, Replay(db, log).value);
    }
  }

  lemma {:induction false} LogIsGuarded(db: Database, events: seq<Locking.Event>)
    requires forall e | e in events && e.Begin? :: Guarded(e.op)
    ensures forall op | op in Locking.Run(db, events).log :: Guarded(op)
    ensures forall p | p in Locking.Run(db, events).active :: Guarded(Locking.Run(db, events).active[p].op)
    decreases |events|
  {
    if events == [] {
    } else {
      LogIsGuarded(db, events[..|events| - 1]);
      assert events[|events| - 1] in events;
    }
  }

  /**
    The books balance in every interleaving of the locked steps of operations
    that pass the usecases' guards. Only status writes and settlements have to
    meet their row as their caller read it; transfers, swaps, withdrawals,
    deposits, top-ups and fiat rejections keep the accounts however they run.
   */
  lemma InterleavedBooksBalance(db: Database, events: seq<Locking.Event>, a: Asset)
    requires Accounting.Sound(db) && MovementsDecided(db) && forall e | e in events && e.Begin? :: Guarded(e.op)
    requires StatusesMeet(db, Locking.Run(db, events).log)
    ensures var after := Locking.Run(db, events).db;
      Accounting.Sound(after) && Accounting.Total(after, a) == Accounting.NetFlow(after.txs, a)
  {
    Locking.Serializable(db, events);
    LogIsGuarded(db, events);
    GuardedRunIsSound(db, Locking.Run(db, events).log);
    Accounting.TotalIsNetFlow(Locking.Run(db, events).db, a);
  }

  // ---- what the callers read, interleaved ----

  /** Operations that overwrite a status whatever it is by then. */
  predicate Overwrites(op: Op) {
    op.SettleTopUp? || op.UpdateStatus? || op.UpdateWithdrawal?
  }

  predicate SameRow(a: Op, b: Op) {
    !a.OpenWallet? && !b.OpenWallet? && a.id == b.id
  }

  /** op is what its caller's guards and reads make it, on these tables. */
  predicate WellAsked(db: Database, op: Op) {
    && Guarded(op)
    && (op.RejectCrypto? ==> IsKind(db, op.id, CryptoWithdrawal))
    && (Overwrites(op) ==> Accounting.Faithful(op, db) && Steady(op, db))
  }

  /** Two operations on one row run side by side only if neither of them overwrites its status. */
  predicate Compatible(a: Op, b: Op) {
    SameRow(a, b) ==> !Overwrites(a) && !Overwrites(b)
  }

  /**
    Every operation is well asked on the tables it begins on, which are those
    that its caller has read, and compatible with all that are in flight then.
   */
  ghost predicate Disciplined(db: Database, events: seq<Locking.Event>)
    decreases |events|
  {
    events == [] ||
    var before, last := events[..|events| - 1], events[|events| - 1];
    var s := Locking.Run(db, before);
    && Disciplined(db, before)
    && (last.Begin? ==> WellAsked(s.db, last.op) && forall q | q in s.active :: Compatible(s.active[q].op, last.op))
  }

  /** What every disciplined interleaving keeps. */
  ghost predicate Kept(s: Locking.State) {
    && Accounting.Sound(s.db) && MovementsDecided(s.db)
    && (forall p | p in s.active :: WellAsked(s.db, s.active[p].op))
    && (forall p, q | p in s.active && q in s.active && p != q :: Compatible(s.active[p].op, s.active[q].op))
  }

  /** What was well asked stays so while no other operation overwrites its row. */
  lemma StaysWellAsked(db: Database, after: Database, op: Op, other: Op)
    requires WellAsked(db, op) && Atomic(other, db) == Committed(after) && Compatible(other, op)
    ensures WellAsked(after, op)
  {
    CommitAddsOnly(other, db, after);
    if !op.OpenWallet? && op.id in db.txs {
      CommitKeepsRow(other, db, after, op.id);
    }
  }

  lemma WellAskedIsSound(db: Database, op: Op, after: Database)
    requires Accounting.Sound(db) && MovementsDecided(db) && WellAsked(db, op) && Atomic(op, db) == Committed(after)
    ensures Accounting.Sound(after) && MovementsDecided(after)
  {
    GuardedIsFaithful(op, db, after);
  }

  lemma StepIsKept(init: Database, s: Locking.State, e: Locking.Event)
    requires Locking.Inv(init, s) && Kept(s)
    requires e.Begin? ==> WellAsked(s.db, e.op) && forall q | q in s.active :: Compatible(s.active[q].op, e.op)
    ensures Kept(Locking.Step(s, e))
  {
    var after := Locking.Step(s, e);
    Locking.StepIsAtomic(init, s, e);
    match Locking.Committing(s, e) {
      case None =>
      case Some(op) =>
        CommitIsKept(s, e, op, after);
    }
  }

  lemma CommitIsKept(s: Locking.State, e: Locking.Event, op: Op, after: Locking.State)
    requires Kept(s) && after == Locking.Step(s, e) && Locking.Committing(s, e) == Some(op)
    requires Atomic(op, s.db) == Committed(after.db)
    ensures Kept(after)
  {
    assert WellAsked(s.db, op) by { assert e.Advance? ==> WellAsked(s.db, s.active[e.p].op); }
    WellAskedIsSound(s.db, op, after.db);
    forall p | p in after.active ensures WellAsked(after.db, after.active[p].op) {
      assert p in s.active && after.active[p] == s.active[p] && WellAsked(s.db, s.active[p].op);
      assert Compatible(op, s.active[p].op) by { assert e.Advance? ==> e.p != p && Compatible(s.active[e.p].op, s.active[p].op); }
      StaysWellAsked(s.db, after.db, after.active[p].op, op);
    }
  }

  lemma {:induction false} DisciplinedIsKept(db: Database, events: seq<Locking.Event>)
    requires Accounting.Sound(db) && MovementsDecided(db) && Disciplined(db, events)
    ensures Kept(Locking.Run(db, events))
    decreases |events|
  {
    if events == [] {
    } else {
      var before := events[..|events| - 1];
      DisciplinedIsKept(db, before);
      Locking.RunKeepsInv(db, before);
      StepIsKept(db, Locking.Run(db, before), events[|events| - 1]);
    }
  }

  /**
    The books balance in every interleaving in which each caller asks for what
    its guards and reads allow, and no operation on a row is begun beside one
    that overwrites its status. Nothing is asked of the tables at commit.
   */
  lemma DisciplinedBooksBalance(db: Database, events: seq<Locking.Event>, a: Asset)
    requires Accounting.Sound(db) && MovementsDecided(db) && Disciplined(db, events)
    ensures var after := Locking.Run(db, events).db;
      Accounting.Sound(after) && Accounting.Total(after, a) == Accounting.NetFlow(after.txs, a)
  {
    DisciplinedIsKept(db, events);
    Accounting.TotalIsNetFlow(Locking.Run(db, events).db, a);
  }

  /** The callers do ask so: whatever an orderly call of the service asks for is well asked on the tables it has read. */
  lemma CallsAreWellAsked(cfg: Config, w: World, c: Call)
    requires cfg.Valid() && Good(w) && Orderly(w, c) && Commits(cfg, w, c)
    ensures WellAsked(w.db, OpOf(cfg, w, c).value)
  {
    OpIsSafe(cfg, w, c);
    var op := OpOf(cfg, w, c).value;
    if op.RejectCrypto? {
      RejectsItsWithdrawal(cfg, w, c);
    }
  }

  lemma RejectsItsWithdrawal(cfg: Config, w: World, c: Call)
    requires Waiting(w) && OpOf(cfg, w, c).Some? && OpOf(cfg, w, c).value.RejectCrypto?
    ensures IsKind(w.db, OpOf(cfg, w, c).value.id, CryptoWithdrawal)
  {
    assert c.FinishCrypto?;
    FinishNamesItsRow(cfg, w, c);
    assert IsBroadcasting(w.db, c.id);
  }
}
