/** The dashboard's valuation of a wallet, and what a swap does to it. */
module Dashboard {
  import opened Options
  import opened Ledger
  import opened Decimals
  import opened Exchange
  import opened Sums

  datatype WalletBalance = WalletBalance(asset: Asset, balance: real)

  /** What a balance counts for, in rupiah. */
  function Worth(a: Asset, balance: real, rates: Asset -> Option<real>): real {
    match a
    case IDR => balance
    case Other(_) => 0.0
    case _ => if rates(a).Some? && rates(a).value > 0.0 then balance * rates(a).value else 0.0
  }

  /** A way of valuing balances. */
  type Valuation = (Asset, real) -> real

  function At(rates: Asset -> Option<real>): Valuation {
    (a, balance) => Worth(a, balance, rates)
  }

  /** A wallet has one balance row per asset. */
  ghost predicate Distinct(rows: seq<WalletBalance>) {
    forall i, j | 0 <= i < j < |rows| :: rows[i].asset != rows[j].asset
  }

  function Holdings(rows: seq<WalletBalance>): map<Asset, real>
    decreases |rows|
  {
    if rows == [] then map[]
    else Holdings(rows[..|rows| - 1])[rows[|rows| - 1].asset := rows[|rows| - 1].balance]
  }

  function Values(holdings: map<Asset, real>, worth: Valuation): map<Asset, real> {
    map a | a in holdings :: worth(a, holdings[a])
  }

  /** The value of what a wallet holds, whatever the order of its rows. */
  ghost function WalletWorth(holdings: map<Asset, real>, worth: Valuation): real {
    Sum(Values(holdings, worth))
  }

  lemma {:induction false} HoldingsOf(rows: seq<WalletBalance>, a: Asset)
    ensures a in Holdings(rows) <==> exists i :: 0 <= i < |rows| && rows[i].asset == a
    decreases |rows|
  {
    if rows == [] {
    } else {
      var n := |rows| - 1;
      HoldingsOf(rows[..n], a);
      assert rows == rows[..n] + [rows[n]];
    }
  }

  lemma OneMoreRow(rows: seq<WalletBalance>, row: WalletBalance, worth: Valuation)
    requires Distinct(rows + [row])
    ensures WalletWorth(Holdings(rows + [row]), worth) == WalletWorth(Holdings(rows), worth) + worth(row.asset, row.balance)
  {
    var all := rows + [row];
    assert all[..|rows|] == rows && all[|rows|] == row;
    HoldingsOf(rows, row.asset);
    assert row.asset !in Holdings(rows) by {
      assert forall i | 0 <= i < |rows| :: all[i] == rows[i] && all[i].asset != all[|rows|].asset;
    }
    Put(Values(Holdings(rows), worth), row.asset, worth(row.asset, row.balance));
    assert Values(Holdings(all), worth) == Values(Holdings(rows), worth)[row.asset := worth(row.asset, row.balance)];
  }

  method GetDashboard(balances: seq<WalletBalance>, rates: Asset -> Option<real>)
    returns (balancesDTO: seq<WalletBalance>, estimatedTotalIDR: real)
    requires Distinct(balances)
    ensures balancesDTO == balances
    ensures estimatedTotalIDR == WalletWorth(Holdings(balances), At(rates))
  {
    balancesDTO := [];
    estimatedTotalIDR := 0.0;
    assert Values(Holdings(balances[..0]), At(rates)) == map[];
    for i := 0 to |balances|
      invariant balancesDTO == balances[..i]
      invariant estimatedTotalIDR == WalletWorth(Holdings(balances[..i]), At(rates))
    {
      var b := balances[i];
      assert balances[..i + 1] == balances[..i] + [b];
      OneMoreRow(balances[..i], b, At(rates));
      balancesDTO := balancesDTO + [b];
      match b.asset {
        case IDR => estimatedTotalIDR := estimatedTotalIDR + b.balance;
        case Other(_) =>
        case _ =>
          if rates(b.asset).Some? && rates(b.asset).value > 0.0 {
            estimatedTotalIDR := estimatedTotalIDR + b.balance * rates(b.asset).value;
          }
      }
    }
    assert balances[..|balances|] == balances;
  }

  /** What one balance adds: rupiah itself, a token at a positive price, and nothing without one or for any other asset. */
  predicate CountsFor(value: real, a: Asset, balance: real, rates: Asset -> Option<real>) {
    && (a == IDR ==> value == balance)
    && (a in {USDT, USDC} && rates(a).Some? && rates(a).value > 0.0 ==> value == balance * rates(a).value)
    && (a in {USDT, USDC} && (rates(a).None? || rates(a).value <= 0.0) ==> value == 0.0)
    && (a.Other? ==> value == 0.0)
  }

  /** The total of a wallet is what its rupiah, USDT and USDC rows add; rows of other assets add nothing, nor does a missing row. */
  lemma WalletTotal(holdings: map<Asset, real>, rates: Asset -> Option<real>, a: real, b: real, c: real)
    requires if IDR in holdings then CountsFor(a, IDR, holdings[IDR], rates) else a == 0.0
    requires if USDT in holdings then CountsFor(b, USDT, holdings[USDT], rates) else b == 0.0
    requires if USDC in holdings then CountsFor(c, USDC, holdings[USDC], rates) else c == 0.0
    ensures WalletWorth(holdings, At(rates)) == a + b + c
  {
    var v := Values(holdings, At(rates));
    TakeOut(v, IDR);
    TakeOut(v - {IDR}, USDT);
    TakeOut(v - {IDR} - {USDT}, USDC);
    AllZero(v - {IDR} - {USDT} - {USDC});
  }

  lemma TakeOut(v: map<Asset, real>, k: Asset)
    ensures Sum(v) == (if k in v then v[k] else 0.0) + Sum(v - {k})
  {
    if k in v {
      Sums.Split(v, k);
    } else {
      assert v - {k} == v;
    }
  }

  /** The holdings are the rows, each asset with its balance. */
  lemma {:induction false} RowsAreHoldings(rows: seq<WalletBalance>, i: nat)
    requires Distinct(rows) && i < |rows|
    ensures rows[i].asset in Holdings(rows) && Holdings(rows)[rows[i].asset] == rows[i].balance
    decreases |rows|
  {
    var n := |rows| - 1;
    if i < n {
      RowsAreHoldings(rows[..n], i);
    }
  }

  // ---- what a swap costs ----

  /** The holdings of a wallet in the tables. */
  function HoldingsIn(db: Database, w: Wallet): map<Asset, real> {
    map k | k in db.balances && k.wallet == w :: k.asset := db.balances[k]
  }

  lemma PutTwo(h: map<Asset, real>, a: Asset, x: real, b: Asset, y: real, worth: Valuation)
    requires a in h && b in h && a != b
    ensures WalletWorth(h[a := x][b := y], worth)
      == WalletWorth(h, worth) + worth(a, x) - worth(a, h[a]) + worth(b, y) - worth(b, h[b])
  {
    var v := Values(h, worth);
    Put(v, a, worth(a, x));
    Put(v[a := worth(a, x)], b, worth(b, y));
    assert Values(h[a := x][b := y], worth) == v[a := worth(a, x)][b := worth(b, y)];
  }

  lemma HoldingsPut(db: Database, balances: map<Key, real>, w: Wallet, a: Asset, x: real)
    requires balances == db.balances[Key(w, a) := x]
    ensures HoldingsIn(db.(balances := balances), w) == HoldingsIn(db, w)[a := x]
  {
    var before, h := HoldingsIn(db, w), HoldingsIn(db.(balances := balances), w);
    forall b ensures b in h <==> Key(w, b) in balances {
      assert b in h ==> exists k :: k in balances && k.wallet == w && k.asset == b;
    }
    forall b ensures b in before <==> Key(w, b) in db.balances {
      assert b in before ==> exists k :: k in db.balances && k.wallet == w && k.asset == b;
    }
  }

  /** A committed swap replaces two of the wallet's holdings h. */
  lemma SwapHoldings(db: Database, after: Database, id: TxId, w: Wallet, from: Asset, to: Asset, q: Quote)
    returns (h: map<Asset, real>, h': map<Asset, real>)
    requires SwapOutcome(db, id, w, from, to, q) == Committed(after) && from != to
    ensures h == HoldingsIn(db, w) && h' == HoldingsIn(after, w) && from in h && to in h
    ensures h' == h[from := h[from] - q.debit][to := h[to] + q.net]
  {
    h, h' := HoldingsIn(db, w), HoldingsIn(after, w);
    assert Key(w, from) in db.balances && Key(w, to) in db.balances;
    assert from in h && to in h;
    var a, b := h[from] - q.debit, h[to] + q.net;
    var debited := db.balances[Key(w, from) := a];
    HoldingsPut(db, debited, w, from, a);
    HoldingsPut(db.(balances := debited), after.balances, w, to, b);
    assert h' == HoldingsIn(db.(balances := after.balances), w);
  }

  /** |gross * q - x * p| is at most half a unit of the 16th place, times q. */
  lemma GrossValue(x: real, p: real, q: real)
    requires x >= 0.0 && p > 0.0 && q > 0.0
    ensures -(EPS * q) <= Gross(x, p, q) * q - x * p <= EPS * q
  {
    GrossNear(x, p, q);
    var ratio := x * p / q;
    var gross := Gross(x, p, q);
    assert ratio * q == x * p;
    Monotone(gross, ratio + EPS, q);
    Monotone(ratio - EPS, gross, q);
    assert (ratio + EPS) * q == ratio * q + EPS * q;
    assert (ratio - EPS) * q == ratio * q - EPS * q;
  }

  lemma CostBalance(paid: real, r: real, gross: real, net: real, fee: real, slack: real)
    requires r > 0.0 && -(EPS * r) <= gross * r - paid <= EPS * r
    requires -slack <= (net + fee - gross) * r <= slack
    ensures -(EPS * r + slack) <= net * r + fee * r - paid <= EPS * r + slack
  {
    assert net * r + fee * r == (net + fee - gross) * r + gross * r;
  }

  lemma RoundingLoss(net: real, fee: real, gross: real, r: real, toIDR: bool)
    requires if toIDR then r == 1.0 && -1.0 <= net + fee - gross <= 1.0 else net + fee == gross
    ensures var slack := if toIDR then 1.0 else 0.0; -slack <= (net + fee - gross) * r <= slack
  {
    var lost := net + fee - gross;
    assert if toIDR then lost * r == lost else lost == 0.0;
  }

  lemma Difference(before: real, after: real, change: real, price: real)
    requires after == before + change
    ensures after * price - before * price == change * price
  {
  }

  lemma PaidAndGot(x: real, p: real, r: real, gross: real, q: Quote, toIDR: bool) returns (paid: real, got: real)
    requires r > 0.0 && -(EPS * r) <= gross * r - x * p <= EPS * r
    requires if toIDR then r == 1.0 && -1.0 <= q.net + q.fee - gross <= 1.0 else q.net + q.fee == gross
    ensures -paid == -q.debit * p && got == q.net * r
    ensures var slack := EPS * r + if toIDR then 1.0 else 0.0;
      -slack <= got - paid + q.fee * r - (x - q.debit) * p <= slack
  {
    paid, got := q.debit * p, q.net * r;
    RoundingLoss(q.net, q.fee, gross, r, toIDR);
    CostBalance(x * p, r, gross, q.net, q.fee, if toIDR then 1.0 else 0.0);
    Difference(q.debit, x, x - q.debit, p);
  }

  /** Value in, value out and fee of a quote balance within its rounding, besides what rounding the debit gives or takes. */
  lemma QuoteCost(x: real, p: real, r: real, f: real, fromIDR: bool, toIDR: bool, q: Quote) returns (paid: real, got: real)
    requires Terms(x, p, r, f) && (toIDR ==> r == 1.0)
    requires q == QuoteFor(x, p, r, f, fromIDR, toIDR)
    ensures -paid == -q.debit * p && got == q.net * r
    ensures var slack := EPS * r + if toIDR then 1.0 else 0.0;
      -slack <= got - paid + q.fee * r - (x - q.debit) * p <= slack
  {
    var gross := Gross(x, p, r);
    GrossValue(x, p, r);
    QuoteSplits(x, p, r, f, fromIDR, toIDR);
    paid, got := PaidAndGot(x, p, r, gross, q, toIDR);
  }

  lemma WorthMoves(a: Asset, before: real, after: real, change: real, rates: Asset -> Option<real>, price: real, moved: real)
    requires Allowed(a) && RateOf(rates, a) == Some(price) && price > 0.0 && moved == change * price && after == before + change
    ensures At(rates)(a, after) - At(rates)(a, before) == moved
  {
    Difference(before, after, change, price);
  }

  /** The wallet's value moves by the payout less the debit, each at its rate. */
  lemma HoldingsMove(h: map<Asset, real>, from: Asset, a: real, to: Asset, b: real, worth: Valuation, paid: real, got: real)
    requires from in h && to in h && from != to
    requires worth(from, a) - worth(from, h[from]) == -paid && worth(to, b) - worth(to, h[to]) == got
    ensures WalletWorth(h[from := a][to := b], worth) == WalletWorth(h, worth) - paid + got
  {
    PutTwo(h, from, a, to, b, worth);
  }

  lemma HoldingsWorth(h: map<Asset, real>, h': map<Asset, real>, from: Asset, debit: real, to: Asset, net: real,
                      rates: Asset -> Option<real>, p: real, r: real, paid: real, got: real)
    requires from in h && to in h && from != to && Allowed(from) && Allowed(to)
    requires RateOf(rates, from) == Some(p) && RateOf(rates, to) == Some(r) && p > 0.0 && r > 0.0
    requires -paid == -debit * p && got == net * r
    requires h' == h[from := h[from] - debit][to := h[to] + net]
    ensures WalletWorth(h', At(rates)) == WalletWorth(h, At(rates)) - paid + got
  {
    WorthMoves(from, h[from], h[from] - debit, -debit, rates, p, -paid);
    WorthMoves(to, h[to], h[to] + net, net, rates, r, got);
    HoldingsMove(h, from, h[from] - debit, to, h[to] + net, At(rates), paid, got);
  }

  /** The cost of a quote to a wallet whose holdings move by its debit and net. */
  lemma QuoteCostsItsFee(h: map<Asset, real>, h': map<Asset, real>, from: Asset, to: Asset, x: real, f: real,
                         rates: Asset -> Option<real>, p: real, r: real, q: Quote)
    requires Terms(x, p, r, f) && from != to && Allowed(from) && Allowed(to)
    requires RateOf(rates, from) == Some(p) && RateOf(rates, to) == Some(r)
    requires q == QuoteFor(x, p, r, f, from == IDR, to == IDR)
    requires from in h && to in h && h' == h[from := h[from] - q.debit][to := h[to] + q.net]
    ensures FeeIsTheCost(h, h', to, rates, p, r, x, q)
  {
    var paid, got := QuoteCost(x, p, r, f, from == IDR, to == IDR, q);
    HoldingsWorth(h, h', from, q.debit, to, q.net, rates, p, r, paid, got);
  }

  /** The wallet's value fell by the fee, less what was requested but not debited, within the rounding of the quote. */
  ghost predicate FeeIsTheCost(h: map<Asset, real>, h': map<Asset, real>, to: Asset, rates: Asset -> Option<real>,
                               p: real, r: real, x: real, q: Quote) {
    var change := WalletWorth(h', At(rates)) - WalletWorth(h, At(rates));
    var slack := EPS * r + if to == IDR then 1.0 else 0.0;
    -slack <= change + q.fee * r - (x - q.debit) * p <= slack
  }

  /**
    What a swap costs on the dashboard, at fixed rates: the value of its fee,
    within the rounding of the quote, less the part of the request that was
    quoted but not debited. That part is zero for whole rupiah
    (Exchange.DebitIsRequest), and may be negative.
   */
  lemma SwapCostsItsFee(db: Database, after: Database, id: TxId, w: Wallet, from: Asset, to: Asset, x: real, f: real,
                        rates: Asset -> Option<real>, p: real, r: real, q: Quote)
    requires Terms(x, p, r, f) && from != to && Allowed(from) && Allowed(to)
    requires RateOf(rates, from) == Some(p) && RateOf(rates, to) == Some(r)
    requires q == QuoteFor(x, p, r, f, from == IDR, to == IDR) && SwapOutcome(db, id, w, from, to, q) == Committed(after)
    ensures FeeIsTheCost(HoldingsIn(db, w), HoldingsIn(after, w), to, rates, p, r, x, q)
  {
    var h, h' := SwapHoldings(db, after, id, w, from, to, q);
    QuoteCostsItsFee(h, h', from, to, x, f, rates, p, r, q);
  }
}
