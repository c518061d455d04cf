/** Swap quotes: how gross, fee and net are computed and rounded, and what a swap costs. */
module Exchange {
  import opened Options
  import opened Ledger
  import opened Repository
  import opened Decimals

  /** The price of a swap of x at rates p and q to rupiah, with fee fraction f. */
  datatype Quote = Quote(debit: real, net: real, fee: real, rate: real)

  function Gross(x: real, p: real, q: real): real
    requires q != 0.0
  {
    Div(x * p, q)
  }

  function QuoteFor(x: real, p: real, q: real, f: real, fromIDR: bool, toIDR: bool): Quote
    requires q != 0.0
  {
    Split(x, Gross(x, p, q), Div(p, q), f, fromIDR, toIDR)
  }

  /** Fee and net of a gross amount; rupiah amounts are rounded to whole ones. */
  function Split(x: real, gross: real, rate: real, f: real, fromIDR: bool, toIDR: bool): Quote {
    var fee := gross * f;
    var net := gross - fee;
    Quote(if fromIDR then Round(x) else x, if toIDR then Round(net) else net, if toIDR then Round(fee) else fee, rate)
  }

  datatype SwapError =
    | UnsupportedAsset | SameAsset | InvalidInput | RateUnavailable | WalletNotFound | InsufficientBalance
    | DivisionByZero  // a panic in the decimal library, recovered by the HTTP layer
    | RepositoryError(error: Error)

  function RepositoryErrorOf(err: Option<SwapError>): Option<Error> {
    if err.Some? && err.value.RepositoryError? then Some(err.value.error) else None
  }

  function RateOf(rates: Asset -> Option<real>, a: Asset): Option<real> {
    if a == IDR then Some(1.0) else rates(a)
  }

  predicate Allowed(a: Asset) { a == IDR || a == USDT || a == USDC }

  /** The guards of Swap, in order. */
  function Refusal(db: Database, w: Option<Wallet>, from: Asset, to: Asset, x: real, rates: Asset -> Option<real>): Option<SwapError> {
    if !Allowed(from) || !Allowed(to) then Some(UnsupportedAsset)
    else if from == to then Some(SameAsset)
    else if x <= 0.0 then Some(InvalidInput)
    else if RateOf(rates, from).None? || RateOf(rates, to).None? then Some(RateUnavailable)
    else if w.None? then Some(WalletNotFound)
    else if Key(w.value, from) !in db.balances || db.balances[Key(w.value, from)] < x then Some(InsufficientBalance)
    else if RateOf(rates, to).value == 0.0 then Some(DivisionByZero)
    else None
  }

  /** Which requests pass, and which error the first failing check gives. */
  lemma Requirements(db: Database, w: Option<Wallet>, from: Asset, to: Asset, x: real, rates: Asset -> Option<real>)
    ensures
      var known := from in {IDR, USDT, USDC} && to in {IDR, USDT, USDC};
      var rated := (from == IDR || rates(from).Some?) && (to == IDR || rates(to).Some?);
      var asked := known && from != to && x > 0.0;
      var covered := w.Some? && Key(w.value, from) in db.balances && db.balances[Key(w.value, from)] >= x;
      var refusal := Refusal(db, w, from, to, x, rates);
      && (!known ==> refusal == Some(UnsupportedAsset))
      && (known && from == to ==> refusal == Some(SameAsset))
      && (known && from != to && x <= 0.0 ==> refusal == Some(InvalidInput))
      && (asked && !rated ==> refusal == Some(RateUnavailable))
      && (asked && rated && w.None? ==> refusal == Some(WalletNotFound))
      && (asked && rated && w.Some? && !covered ==> refusal == Some(InsufficientBalance))
      && (asked && rated && covered ==> refusal == if to != IDR && rates(to) == Some(0.0) then Some(DivisionByZero) else None)
  {
  }

  function SwapOutcome(db: Database, id: TxId, w: Wallet, from: Asset, to: Asset, q: Quote): Outcome {
    Atomic(ExecuteSwap(id, w, from, to, q.debit, q.net, q.rate, q.fee), db)
  }

  class ExchangeUsecase {
    const txRepo: TransactionRepository
    const feePercentage: real

    constructor (txRepo: TransactionRepository, feePercentage: real)
      ensures this.txRepo == txRepo && this.feePercentage == if feePercentage == 0.0 then 0.005 else feePercentage
    {
      this.txRepo := txRepo;
      this.feePercentage := if feePercentage == 0.0 then 0.005 else feePercentage;
    }

    method SplitGross(requested: real, grossToAmount: real, crossRate: real, fromIDR: bool, toIDR: bool) returns (quote: Quote)
      ensures quote == Split(requested, grossToAmount, crossRate, feePercentage, fromIDR, toIDR)
    {
      var amount := requested;
      var feeCharged := grossToAmount * feePercentage;
      var netToAmount := grossToAmount - feeCharged;
      if toIDR {
        netToAmount := Round(netToAmount);
        feeCharged := Round(feeCharged);
      }
      if fromIDR {
        amount := Round(amount);
      }
      return Quote(amount, netToAmount, feeCharged, crossRate);
    }

    /** Swap at fetched rates, once its guards have passed. */
    method SwapAt(id: TxId, wallet: Wallet, fromAsset: Asset, toAsset: Asset, requested: real, fromRate: real, toRate: real)
      returns (quote: Quote, repoErr: Option<Error>)
      requires toRate != 0.0
      modifies txRepo
      ensures quote == QuoteFor(requested, fromRate, toRate, feePercentage, fromAsset == IDR, toAsset == IDR)
      ensures Answers(SwapOutcome(old(txRepo.Tables()), id, wallet, fromAsset, toAsset, quote),
                      old(txRepo.Tables()), txRepo.Tables(), repoErr)
      ensures repoErr.None? && fromAsset != toAsset ==>
        Booked(old(txRepo.Tables()), txRepo.Tables(), id, Key(wallet, fromAsset), Key(wallet, toAsset), quote)
    {
      var grossToAmount := Div(requested * fromRate, toRate);
      var crossRate := Div(fromRate, toRate);
      assert grossToAmount == Gross(requested, fromRate, toRate);
      quote := SplitGross(requested, grossToAmount, crossRate, fromAsset == IDR, toAsset == IDR);
      repoErr := txRepo.ExecuteSwapTx(id, wallet, fromAsset, toAsset, quote.debit, quote.net, quote.rate, quote.fee);
    }

    method Swap(id: TxId, wallet: Option<Wallet>, fromAsset: Asset, toAsset: Asset, requested: real, rates: Asset -> Option<real>)
      returns (response: Option<Quote>, err: Option<SwapError>)
      modifies txRepo
      ensures var refusal := Refusal(old(txRepo.Tables()), wallet, fromAsset, toAsset, requested, rates);
        if refusal.Some? then err == refusal && response.None? && txRepo.Tables() == old(txRepo.Tables())
        else
          var p, q := RateOf(rates, fromAsset).value, RateOf(rates, toAsset).value;
          var quote := QuoteFor(requested, p, q, feePercentage, fromAsset == IDR, toAsset == IDR);
          && Answers(SwapOutcome(old(txRepo.Tables()), id, wallet.value, fromAsset, toAsset, quote),
                     old(txRepo.Tables()), txRepo.Tables(), RepositoryErrorOf(err))
          && (err.Some? ==> err.value.RepositoryError?) && response == if err.None? then Some(quote) else None
      ensures response.Some? ==>
        && wallet.Some?
        && Booked(old(txRepo.Tables()), txRepo.Tables(), id, Key(wallet.value, fromAsset), Key(wallet.value, toAsset), response.value)
        && (fromAsset == IDR || rates(fromAsset).Some?) && (toAsset == IDR || rates(toAsset).Some?)
        && var p := if fromAsset == IDR then 1.0 else rates(fromAsset).value;
           var q := if toAsset == IDR then 1.0 else rates(toAsset).value;
        q != 0.0 && response.value == QuoteFor(requested, p, q, feePercentage, fromAsset == IDR, toAsset == IDR)
    {
      if !Allowed(fromAsset) || !Allowed(toAsset) { return None, Some(UnsupportedAsset); }
      if fromAsset == toAsset { return None, Some(SameAsset); }
      if requested <= 0.0 { return None, Some(InvalidInput); }
      var fromRate := 1.0;
      if fromAsset != IDR {
        if rates(fromAsset).None? { return None, Some(RateUnavailable); }
        fromRate := rates(fromAsset).value;
      }
      var toRate := 1.0;
      if toAsset != IDR {
        if rates(toAsset).None? { return None, Some(RateUnavailable); }
        toRate := rates(toAsset).value;
      }
      if wallet.None? { return None, Some(WalletNotFound); }
      var balance := txRepo.LockBalanceForUpdate(Key(wallet.value, fromAsset));
      if balance.None? || balance.value < requested { return None, Some(InsufficientBalance); }
      if toRate == 0.0 { return None, Some(DivisionByZero); }
      var quote, repoErr := SwapAt(id, wallet.value, fromAsset, toAsset, requested, fromRate, toRate);
      if repoErr.Some? { return None, Some(RepositoryError(repoErr.value)); }
      return Some(quote), None;
    }
  }

  // ---- the split of a quote ----

  /** Positive rates, a fee fraction and a non-negative amount. */
  predicate Terms(x: real, p: real, q: real, f: real) {
    x >= 0.0 && p > 0.0 && q > 0.0 && 0.0 <= f <= 1.0
  }

  /**
    A quote in the request's own terms, charge being the fraction f of worth:
    the debit is the request x, the fee the charge and the net what it leaves
    of the worth, up to the last place of the quotients and the rounding of
    rupiah amounts.
   */
  ghost predicate Fair(quote: Quote, x: real, worth: real, charge: real, ratio: real, f: real, fromIDR: bool, toIDR: bool) {
    var half := if toIDR then 0.5 else 0.0;
    && (if fromIDR then Whole(quote.debit) && -0.5 <= quote.debit - x <= 0.5 else quote.debit == x)
    && Within(quote.net - (worth - charge), 0.00000000000000005 * (1.0 - f) + half)
    && Within(quote.fee - charge, 0.00000000000000005 * f + half)
    && (toIDR ==> Whole(quote.net) && Whole(quote.fee))
    && Within(quote.rate - ratio, 0.00000000000000005)
  }

  predicate Within(error: real, bound: real) { -bound <= error <= bound }

  /** A swap in the tables: the two balances and every column of the row. */
  ghost predicate Booked(db: Database, after: Database, id: TxId, from: Key, to: Key, quote: Quote) {
    && from in db.balances && to in db.balances && id !in db.txs && id in after.txs
    && after.balances == db.balances[from := db.balances[from] - quote.debit][to := db.balances[to] + quote.net]
    && after.txs == db.txs[id := after.txs[id]]
    && var t := after.txs[id];
    && t.kind == Kind.Swap && t.status == Success && t.source == Some(from.wallet) && t.destination.None?
    && t.asset == from.asset && t.amount == quote.debit && t.rate == Some(quote.rate) && t.fee == Some(quote.fee)
    && t.txHash.None? && t.orderId.None?
  }

  lemma Product(a: real, b: real)
    requires a >= 0.0 && b >= 0.0
    ensures a * b >= 0.0
  {
  }

  lemma Monotone(a: real, b: real, c: real)
    requires a <= b && c >= 0.0
    ensures a * c <= b * c
  {
    Product(b - a, c);
  }

  lemma GrossNear(x: real, p: real, q: real)
    requires x >= 0.0 && p >= 0.0 && q > 0.0
    ensures Gross(x, p, q) >= 0.0
    ensures -EPS <= Gross(x, p, q) - x * p / q <= EPS
  {
    Product(x, p);
    DivNear(x * p, q);
  }

  lemma FeeAtMostGross(gross: real, f: real)
    requires gross >= 0.0 && 0.0 <= f <= 1.0
    ensures 0.0 <= gross * f <= gross
  {
    Product(gross, f);
    Monotone(f, 1.0, gross);
  }

  lemma GrossSplits(x: real, gross: real, rate: real, f: real, fromIDR: bool, toIDR: bool)
    requires gross >= 0.0 && 0.0 <= f <= 1.0
    ensures var quote := Split(x, gross, rate, f, fromIDR, toIDR);
      && quote.net >= 0.0 && quote.fee >= 0.0
      && (!toIDR ==> quote.net + quote.fee == gross)
      && (toIDR ==> -1.0 <= quote.net + quote.fee - gross <= 1.0)
  {
    FeeAtMostGross(gross, f);
    RoundedParts(gross, gross * f);
  }

  lemma RoundedParts(gross: real, fee: real)
    requires 0.0 <= fee <= gross
    ensures Round(gross - fee) >= 0.0 && Round(fee) >= 0.0
    ensures -1.0 <= Round(gross - fee) + Round(fee) - gross <= 1.0
  {
    RoundNear(gross - fee);
    RoundNear(fee);
  }

  /** Net and fee make up the gross amount: exactly for a crypto target, within one rupiah for a rupiah target. */
  lemma QuoteSplits(x: real, p: real, q: real, f: real, fromIDR: bool, toIDR: bool)
    requires x >= 0.0 && p >= 0.0 && q > 0.0 && 0.0 <= f <= 1.0
    ensures var quote := QuoteFor(x, p, q, f, fromIDR, toIDR);
      && quote.net >= 0.0 && quote.fee >= 0.0
      && (!toIDR ==> quote.net + quote.fee == Gross(x, p, q))
      && (toIDR ==> -1.0 <= quote.net + quote.fee - Gross(x, p, q) <= 1.0)
  {
    GrossNear(x, p, q);
    GrossSplits(x, Gross(x, p, q), Div(p, q), f, fromIDR, toIDR);
  }

  /** A share of an error in the last place. */
  lemma ErrorShare(e: real, share: real, part: real)
    requires Within(e, 0.00000000000000005) && share >= 0.0 && part == e * share
    ensures Within(part, 0.00000000000000005 * share)
  {
    Monotone(e, 0.00000000000000005, share);
    Monotone(-0.00000000000000005, e, share);
  }

  lemma ChargeNear(gross: real, worth: real, f: real, charged: real, charge: real)
    requires Within(gross - worth, 0.00000000000000005) && 0.0 <= f <= 1.0 && charged == gross * f && charge == worth * f
    ensures Within(charged - charge, 0.00000000000000005 * f)
    ensures Within(gross - charged - (worth - charge), 0.00000000000000005 * (1.0 - f))
  {
    Differences(gross, worth, f, charged, charge);
    ErrorShare(gross - worth, f, charged - charge);
    ErrorShare(gross - worth, 1.0 - f, gross - charged - (worth - charge));
  }

  lemma Differences(gross: real, worth: real, f: real, charged: real, charge: real)
    requires charged == gross * f && charge == worth * f
    ensures charged - charge == (gross - worth) * f
    ensures gross - charged - (worth - charge) == (gross - worth) * (1.0 - f)
  {
  }

  /** Split, with the fee before rounding as a plain number. */
  lemma SplitOf(x: real, gross: real, rate: real, f: real, charged: real, fromIDR: bool, toIDR: bool)
    requires charged == gross * f
    ensures Split(x, gross, rate, f, fromIDR, toIDR) ==
      Quote(if fromIDR then Round(x) else x, if toIDR then Round(gross - charged) else gross - charged,
            if toIDR then Round(charged) else charged, rate)
  {
  }

  lemma RoundedIsWhole(y: real)
    ensures Whole(Round(y)) && Within(Round(y) - y, 0.5)
  {
    RoundNear(y);
    FloorIs(Round(y), HalfAway(y));
  }

  lemma PartsAreFair(quote: Quote, x: real, gross: real, charged: real, worth: real, charge: real, ratio: real, f: real,
                     fromIDR: bool, toIDR: bool)
    requires quote.debit == (if fromIDR then Round(x) else x)
    requires quote.net == (if toIDR then Round(gross - charged) else gross - charged)
    requires quote.fee == (if toIDR then Round(charged) else charged)
    requires Within(charged - charge, 0.00000000000000005 * f)
    requires Within(gross - charged - (worth - charge), 0.00000000000000005 * (1.0 - f))
    requires Within(quote.rate - ratio, 0.00000000000000005)
    ensures Fair(quote, x, worth, charge, ratio, f, fromIDR, toIDR)
  {
    RoundedIsWhole(x);
    RoundedIsWhole(charged);
    RoundedIsWhole(gross - charged);
  }

  lemma SplitIsFair(x: real, gross: real, worth: real, charge: real, rate: real, ratio: real, f: real,
                    fromIDR: bool, toIDR: bool, quote: Quote)
    requires 0.0 <= f <= 1.0 && quote == Split(x, gross, rate, f, fromIDR, toIDR) && charge == worth * f
    requires Within(gross - worth, 0.00000000000000005) && Within(rate - ratio, 0.00000000000000005)
    ensures Fair(quote, x, worth, charge, ratio, f, fromIDR, toIDR)
  {
    var charged := gross * f;
    ChargeNear(gross, worth, f, charged, charge);
    SplitOf(x, gross, rate, f, charged, fromIDR, toIDR);
    PartsAreFair(quote, x, gross, charged, worth, charge, ratio, f, fromIDR, toIDR);
  }

  /** Every quote charges its fee on the worth of the request, no more and no less. */
  lemma QuoteIsFair(x: real, p: real, q: real, f: real, fromIDR: bool, toIDR: bool, quote: Quote,
                    worth: real, charge: real, ratio: real)
    requires Terms(x, p, q, f) && quote == QuoteFor(x, p, q, f, fromIDR, toIDR)
    requires worth == x * p / q && charge == worth * f && ratio == p / q
    ensures Fair(quote, x, worth, charge, ratio, f, fromIDR, toIDR)
  {
    GrossNear(x, p, q);
    DivNear(p, q);
    SplitIsFair(x, Gross(x, p, q), worth, charge, Div(p, q), ratio, f, fromIDR, toIDR, quote);
  }

  /** A swap debits the amount it quoted exactly when rupiah amounts are whole. */
  lemma DebitIsRequest(x: real, p: real, q: real, f: real, fromIDR: bool, toIDR: bool)
    requires Terms(x, p, q, f)
    ensures QuoteFor(x, p, q, f, fromIDR, toIDR).debit == x <==> (fromIDR ==> Whole(x))
  {
    RoundWhole(x);
  }

  /** Below half a rupiah a swap debits nothing, and pays out all the same exactly when its gross amount reaches half a unit of the 16th place. */
  lemma FreeSwap(x: real, q: real, f: real)
    requires 0.0 < x < 0.5 && q > 0.0 && 0.0 <= f < 1.0
    ensures var quote := QuoteFor(x, 1.0, q, f, true, false);
      quote.debit == 0.0 && quote.net >= 0.0 && (quote.net > 0.0 <==> x / q >= EPS)
  {
    GrossSign(x, q);
    FreeSplit(x, Gross(x, 1.0, q), Div(1.0, q), f);
  }

  lemma FreeSplit(x: real, gross: real, rate: real, f: real)
    requires 0.0 < x < 0.5 && gross >= 0.0 && 0.0 <= f < 1.0
    ensures var quote := Split(x, gross, rate, f, true, false);
      quote.debit == 0.0 && quote.net >= 0.0 && (quote.net > 0.0 <==> gross > 0.0)
  {
    RoundsUp(x);
    KeepsSign(gross, f);
  }

  lemma GrossSign(x: real, q: real)
    requires x > 0.0 && q > 0.0
    ensures Gross(x, 1.0, q) >= 0.0 && (Gross(x, 1.0, q) > 0.0 <==> x / q >= EPS)
  {
    var y := x / q;
    QuotientSign(x, q);
    assert x * 1.0 == x;
    Scaled(y, Round(y * SCALE));
    RoundsUp(y * SCALE);
  }

  lemma Scaled(y: real, r: real)
    ensures y * SCALE >= 0.5 <==> y >= EPS
    ensures (r / SCALE > 0.0 <==> r > 0.0) && (r / SCALE >= 0.0 <==> r >= 0.0)
    ensures y >= 0.0 ==> y * SCALE >= 0.0
  {
  }

  lemma RoundsUp(y: real)
    requires y >= 0.0
    ensures Round(y) >= 0.0 && (Round(y) > 0.0 <==> y >= 0.5) && (y < 0.5 ==> Round(y) == 0.0)
  {
    if y < 0.5 {
      FloorIs(y + 0.5, 0);
    }
  }

  lemma KeepsSign(gross: real, f: real)
    requires gross >= 0.0 && 0.0 <= f < 1.0
    ensures gross - gross * f >= 0.0 && (gross - gross * f > 0.0 <==> gross > 0.0)
  {
    assert gross - gross * f == gross * (1.0 - f);
  }

  // ---- there and back ----

  lemma RatioBack(x: real, p: real, q: real)
    requires p > 0.0 && q > 0.0
    ensures x * p / q * q / p == x
  {
    assert x * p / q * q == x * p;
  }

  lemma QuotientMonotone(a: real, b: real, c: real)
    requires a <= b && c > 0.0
    ensures a / c <= b / c
  {
  }

  lemma Spread(a: real, b: real, q: real, p: real)
    requires p > 0.0
    ensures (a + b) * q / p == a * q / p + b * (q / p)
  {
  }

  /** What a swap pays out, before rounding to rupiah. */
  function Payout(x: real, p: real, q: real, f: real): real
    requires q > 0.0
  {
    Gross(x, p, q) - Gross(x, p, q) * f
  }

  lemma PayoutAtMost(x: real, p: real, q: real, f: real, y: real)
    requires Terms(x, p, q, f) && y == Payout(x, p, q, f)
    ensures 0.0 <= y <= (x * p / q + EPS) * (1.0 - f)
  {
    var gross := Gross(x, p, q);
    GrossNear(x, p, q);
    Product(gross, 1.0 - f);
    Monotone(gross, x * p / q + EPS, 1.0 - f);
    assert gross - gross * f == gross * (1.0 - f);
  }

  /** Two payouts in a row, each keeping the share c. */
  lemma TwoPayouts(x: real, p: real, q: real, c: real, s: real, y: real, z: real)
    requires x >= 0.0 && p > 0.0 && q > 0.0 && 0.0 <= c <= 1.0 && s == q / p
    requires y <= (x * p / q + EPS) * c && z <= (y * q / p + EPS) * c
    ensures z <= x * (c * c) + EPS * (1.0 + s)
  {
    var bound := (x * p / q + EPS) * c;
    Monotone(y, bound, q);
    QuotientMonotone(y * q, bound * q, p);
    Returned(x, p, q, c);
    assert s > 0.0;
    var a, b := y * q / p + EPS, (x + EPS * s) * c + EPS;
    assert a <= b;
    Collect(x, s, c, b);
    ShareOfMore(z, a, b, c, x * (c * c) + EPS * (1.0 + s));
  }

  /** At most the share c of a is at most the share c of more. */
  lemma ShareOfMore(z: real, a: real, b: real, c: real, limit: real)
    requires z <= a * c && a <= b && c >= 0.0 && b * c <= limit
    ensures z <= limit
  {
    Monotone(a, b, c);
  }

  lemma Returned(x: real, p: real, q: real, c: real)
    requires p > 0.0 && q > 0.0
    ensures (x * p / q + EPS) * c * q / p == (x + EPS * (q / p)) * c
  {
    var g := x * p / q;
    RatioBack(x, p, q);
    Spread(g, EPS, q, p);
    assert (g + EPS) * q / p == x + EPS * (q / p);
    assert (g + EPS) * c * q == (g + EPS) * q * c;
    Commute((g + EPS) * q, c, p);
  }

  lemma Commute(a: real, c: real, p: real)
    requires p > 0.0
    ensures a * c / p == a / p * c
  {
  }

  lemma Collect(x: real, s: real, c: real, b: real)
    requires x >= 0.0 && s > 0.0 && 0.0 <= c <= 1.0 && b == (x + EPS * s) * c + EPS
    ensures b * c <= x * (c * c) + EPS * (1.0 + s)
  {
    var cc := c * c;
    Monotone(c, 1.0, c);
    assert c * c <= 1.0 * c;
    assert cc <= 1.0;
    Product(EPS, s);
    Monotone(cc, 1.0, EPS * s);
    Monotone(c, 1.0, EPS);
    assert ((x + EPS * s) * c + EPS) * c == (x + EPS * s) * c * c + EPS * c;
    assert (x + EPS * s) * c * c == (x + EPS * s) * cc;
    assert (x + EPS * s) * cc == x * cc + cc * (EPS * s);
  }

  /** One leg: what is debited, and at most what is paid out. */
  lemma Leg(x: real, p: real, q: real, f: real, fromIDR: bool, toIDR: bool, quote: Quote)
    requires Terms(x, p, q, f) && quote == QuoteFor(x, p, q, f, fromIDR, toIDR)
    ensures quote.debit == (if fromIDR then Round(x) else x) && quote.net >= 0.0
    ensures quote.net - (if toIDR then 0.5 else 0.0) <= (x * p / q + EPS) * (1.0 - f)
  {
    var y := Payout(x, p, q, f);
    PayoutAtMost(x, p, q, f, y);
    RoundNear(y);
  }

  /** The most that swapping x at rates p and q, and back, can return. */
  function Returns(x: real, p: real, q: real, f: real): real
    requires p != 0.0
  {
    x * ((1.0 - f) * (1.0 - f)) + EPS * (1.0 + q / p)
  }

  lemma LegsReturn(x: real, p: real, q: real, f: real, y: real, z: real)
    requires Terms(x, p, q, f)
    requires y <= (x * p / q + EPS) * (1.0 - f) && z <= (y * q / p + EPS) * (1.0 - f)
    ensures z <= Returns(x, p, q, f)
  {
    TwoPayouts(x, p, q, 1.0 - f, q / p, y, z);
  }

  /**
    Swapping into crypto and back at fixed rates returns at most two fees less,
    up to the last place of the quotients; from rupiah and back, the payout is
    also rounded to whole rupiah, and what is debited for it is the request
    rounded.
   */
  lemma RoundTrip(x: real, p: real, q: real, f: real, rupiah: bool, there: Quote, back: Quote)
    requires Terms(x, p, q, f)
    requires there == QuoteFor(x, p, q, f, rupiah, false) && back == QuoteFor(there.net, q, p, f, false, rupiah)
    ensures there.debit == (if rupiah then Round(x) else x) && back.debit == there.net
    ensures 0.0 <= back.net <= Returns(x, p, q, f) + if rupiah then 0.5 else 0.0
  {
    Leg(x, p, q, f, rupiah, false, there);
    SecondLeg(x, p, q, f, rupiah, there.net, back);
  }

  lemma SecondLeg(x: real, p: real, q: real, f: real, rupiah: bool, y: real, back: Quote)
    requires Terms(x, p, q, f) && 0.0 <= y <= (x * p / q + EPS) * (1.0 - f)
    requires back == QuoteFor(y, q, p, f, false, rupiah)
    ensures back.debit == y
    ensures 0.0 <= back.net <= Returns(x, p, q, f) + if rupiah then 0.5 else 0.0
  {
    Leg(y, q, p, f, false, rupiah, back);
    LegsReturn(x, p, q, f, y, back.net - if rupiah then 0.5 else 0.0);
  }

  /**
    From crypto to rupiah, whose own rate q is 1, and back: the amount in
    between is rounded to whole rupiah, and may be half a rupiah too much.
   */
  lemma RoundTripThroughRupiah(x: real, p: real, q: real, f: real, there: Quote, back: Quote)
    requires Terms(x, p, q, f)
    requires there == QuoteFor(x, p, q, f, false, true) && back == QuoteFor(there.net, q, p, f, true, false)
    ensures there.debit == x && back.debit == there.net
    ensures 0.0 <= back.net <= Returns(x, p, q, f) + 0.5 * (q / p) * (1.0 - f)
  {
    ToRupiah(x, p, q, f, there);
    BackThroughRupiah(x, p, q, f, there.net, back);
  }

  lemma ToRupiah(x: real, p: real, q: real, f: real, there: Quote)
    requires Terms(x, p, q, f) && there == QuoteFor(x, p, q, f, false, true)
    ensures there.debit == x && there.net >= 0.0 && Round(there.net) == there.net
    ensures there.net - 0.5 <= (x * p / q + EPS) * (1.0 - f)
  {
    Leg(x, p, q, f, false, true, there);
    SplitIsWhole(x, Gross(x, p, q), Div(p, q), f);
  }

  lemma SplitIsWhole(x: real, gross: real, rate: real, f: real)
    ensures var net := Split(x, gross, rate, f, false, true).net; Round(net) == net
  {
    RoundAgain(gross - gross * f, Round(gross - gross * f));
  }

  lemma RoundAgain(y: real, rounded: real)
    requires rounded == Round(y)
    ensures Round(rounded) == rounded
  {
    RoundWhole(rounded);
    FloorIs(rounded, HalfAway(y));
  }

  lemma BackThroughRupiah(x: real, p: real, q: real, f: real, rupiah: real, back: Quote)
    requires Terms(x, p, q, f) && rupiah >= 0.0 && Round(rupiah) == rupiah
    requires rupiah - 0.5 <= (x * p / q + EPS) * (1.0 - f)
    requires back == QuoteFor(rupiah, q, p, f, true, false)
    ensures back.debit == rupiah && 0.0 <= back.net <= Returns(x, p, q, f) + 0.5 * (q / p) * (1.0 - f)
  {
    Leg(rupiah, q, p, f, true, false, back);
    HalfMore(rupiah, q, p, 1.0 - f);
    LegsReturn(x, p, q, f, rupiah - 0.5, ((rupiah - 0.5) * q / p + EPS) * (1.0 - f));
  }

  /** What half a rupiah adds to a payout that keeps the share c. */
  lemma HalfMore(y: real, q: real, p: real, c: real)
    requires p > 0.0
    ensures (y * q / p + EPS) * c == ((y - 0.5) * q / p + EPS) * c + 0.5 * (q / p) * c
  {
    Spread(y - 0.5, 0.5, q, p);
    var a, b := (y - 0.5) * q / p + EPS, 0.5 * (q / p);
    assert y * q / p + EPS == a + b;
    assert (a + b) * c == a * c + b * c;
  }
}
