/**
  The life of a fiat withdrawal: callbacks that arrive during the payout call,
  the write that the call's answer causes, and the callbacks after it.
 */
module Payouts {
  import opened Options
  import opened Ledger
  import opened Repository
  import opened ExactlyOnce
  import opened FiatWithdrawals
  import opened IrisCallbacks
  import opened Sums

  /** How many of the callbacks give row id its money back. */
  function RefundsIn(db: Database, items: seq<IrisItem>, id: TxId): nat
    decreases |items|
  {
    if items == [] then 0
    else
      (if CallFor(items[0]).Some? && Refunds(CallFor(items[0]).value, db, id) then 1 else 0)
      + RefundsIn(Deliver(db, items[0]), items[1..], id)
  }

  lemma {:induction false} RefundsInIs(db: Database, items: seq<IrisItem>, id: TxId)
    requires id in db.txs
    ensures RefundsIn(db, items, id) == if Refunded(db, items, id) then 1 else 0
    decreases |items|
  {
    if items == [] {
    } else {
      RefundsInIs(Deliver(db, items[0]), items[1..], id);
      if items[0].reference != Some(id) {
        OthersUntouched(db, items, id);
      } else if items[0].status != Unhandled {
        OwnRow(db, items, id);
      }
    }
  }

  /** The tables when the answer of the payout call has been written. */
  function Answered(db: Database, id: TxId, during: seq<IrisItem>, payout: Payout): Database {
    Applied(DeliverAll(db, during), Finish(id, payout))
  }

  /** Whether writing the answer refunds the row. */
  predicate AnswerRefunds(db: Database, id: TxId, payout: Payout) {
    Finish(id, payout).Some? && Refunds(Finish(id, payout).value, db, id)
  }

  /** How often the row is refunded in all. */
  function LifeRefunds(db: Database, id: TxId, during: seq<IrisItem>, payout: Payout, later: seq<IrisItem>): nat {
    RefundsIn(db, during, id)
    + (if AnswerRefunds(DeliverAll(db, during), id, payout) then 1 else 0)
    + RefundsIn(Answered(db, id, during, payout), later, id)
  }

  /** The service took the payout on, and its status is not final yet. */
  predicate Queued(payout: Payout) {
    payout.Accepted? && payout.status.Some? && StatusOf(payout) == Pending
  }

  function Once(b: bool): nat { if b then 1 else 0 }

  /** What the answer leaves of an open row, given the first decisive callback before it. */
  lemma AnsweredRow(db: Database, id: TxId, during: seq<IrisItem>, payout: Payout)
    requires Open(db, id)
    ensures
      var first := FirstDecisive(during, id);
      var answered := Answered(db, id, during, payout);
      && id in answered.txs && SourceKey(db.txs[id]) in answered.balances
      && answered.txs[id] == db.txs[id].(status := answered.txs[id].status)
      && (Open(answered, id) <==> Queued(payout) || (first.None? && Finish(id, payout).None?))
      && (AnswerRefunds(DeliverAll(db, during), id, payout) <==> payout.Refused? && first.None?)
  {
    FinalStatus(db, during, id);
    FirstIsCompleted(during, id);
    RefundedOnce(db, during, SourceKey(db.txs[id]));
  }

  lemma {:induction false} FirstIsCompleted(items: seq<IrisItem>, id: TxId)
    ensures CompletedIn(items, id) ==> FirstDecisive(items, id).Some?
    decreases |items|
  {
    if items == [] {
    } else {
      FirstIsCompleted(items[1..], id);
      assert CompletedIn(items, id) <==> items[0] == IrisItem(Some(id), Completed) || CompletedIn(items[1..], id);
    }
  }

  /** For every answer and all callbacks, how often an open withdrawal is refunded. */
  lemma RefundsOverLife(db: Database, id: TxId, during: seq<IrisItem>, payout: Payout, later: seq<IrisItem>)
    requires Open(db, id)
    ensures
      var first, second := FirstDecisive(during, id), FirstDecisive(later, id);
      LifeRefunds(db, id, during, payout, later) ==
        if payout.Refused? then Once(first == Some(PayoutFailed) || first == None)
        else if Queued(payout) then Once(first == Some(PayoutFailed)) + Once(second == Some(PayoutFailed))
        else if Finish(id, payout).Some? then Once(first == Some(PayoutFailed))
        else Once(first == Some(PayoutFailed) || (first == None && second == Some(PayoutFailed)))
  {
    AnsweredRow(db, id, during, payout);
    RefundsInIs(db, during, id);
    RefundsInIs(Answered(db, id, during, payout), later, id);
  }

  /**
    A withdrawal is refunded twice exactly when its answer was `queued`, a
    callback had failed it before the answer was written, and the first decisive
    callback afterwards fails it again; never more often. And one that a callback
    had completed is refunded all the same exactly when the answer was `queued`
    and the first decisive callback afterwards fails it.
   */
  lemma RefundedTwiceIff(db: Database, id: TxId, during: seq<IrisItem>, payout: Payout, later: seq<IrisItem>)
    requires Open(db, id)
    ensures
      var first, second := FirstDecisive(during, id), FirstDecisive(later, id);
      var refunds := LifeRefunds(db, id, during, payout, later);
      && refunds <= 2
      && (refunds == 2 <==> Queued(payout) && first == Some(PayoutFailed) && second == Some(PayoutFailed))
      && (first == Some(Completed) ==> (refunds > 0 <==> Queued(payout) && second == Some(PayoutFailed)))
  {
    RefundsOverLife(db, id, during, payout, later);
  }

  /** x, n times. */
  function Times(n: nat, x: real): real {
    if n == 0 then 0.0 else Times(n - 1, x) + x
  }

  lemma {:induction false} TimesAdd(a: nat, b: nat, x: real)
    ensures Times(a + b, x) == Times(a, x) + Times(b, x)
  {
    if b == 0 {
    } else {
      TimesAdd(a, b - 1, x);
    }
  }

  /** What other rows are given back to balance k. */
  ghost function OthersTo(db: Database, items: seq<IrisItem>, id: TxId, k: Key): real {
    Sum(RefundsTo(db, items, k)[id := 0.0])
  }

  lemma CallbacksPay(db: Database, items: seq<IrisItem>, id: TxId, k: Key)
    requires id in db.txs && db.txs[id].source.Some? && SourceKey(db.txs[id]) == k && k in db.balances
    ensures k in DeliverAll(db, items).balances
    ensures DeliverAll(db, items).balances[k] ==
      db.balances[k] + OthersTo(db, items, id, k) + Times(RefundsIn(db, items, id), RefundAmount(db.txs[id], true))
  {
    RefundedOnce(db, items, k);
    RefundsInIs(db, items, id);
    Put(RefundsTo(db, items, k), id, 0.0);
  }

  /** In money: the source balance gets amount and fee back as often as the row is refunded, besides what other rows give it. */
  lemma LifePays(db: Database, id: TxId, during: seq<IrisItem>, payout: Payout, later: seq<IrisItem>)
    requires Open(db, id)
    ensures
      var k, t := SourceKey(db.txs[id]), db.txs[id];
      var answered := Answered(db, id, during, payout);
      var end := DeliverAll(answered, later);
      && k in end.balances
      && end.balances[k] == db.balances[k] + OthersTo(db, during, id, k) + OthersTo(answered, later, id, k)
           + Times(LifeRefunds(db, id, during, payout, later), RefundAmount(t, true))
  {
    var k := SourceKey(db.txs[id]);
    var mid, answered := DeliverAll(db, during), Answered(db, id, during, payout);
    AnsweredRow(db, id, during, payout);
    CallbacksPay(db, during, id, k);
    CallbacksPay(answered, later, id, k);
    AnswerPays(mid, id, payout, k);
    FinalStatus(db, during, id);
    var x := RefundAmount(db.txs[id], true);
    var before, between, after := RefundsIn(db, during, id), Once(AnswerRefunds(mid, id, payout)), RefundsIn(answered, later, id);
    TimesAdd(before, between, x);
    TimesAdd(before + between, after, x);
  }

  lemma AnswerPays(mid: Database, id: TxId, payout: Payout, k: Key)
    requires id in mid.txs && mid.txs[id].source.Some? && SourceKey(mid.txs[id]) == k && k in mid.balances
    ensures var answered := Applied(mid, Finish(id, payout));
      k in answered.balances
      && answered.balances[k] == mid.balances[k] + Times(Once(AnswerRefunds(mid, id, payout)), RefundAmount(mid.txs[id], true))
  {
    if AnswerRefunds(mid, id, payout) {
      RefundPays(Finish(id, payout).value, mid, id);
    }
  }
}
