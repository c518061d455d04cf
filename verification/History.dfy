/** Transaction history: filters, page clamping, and pages that partition the filtered list. */
module History {
  import opened Options
  import opened Ledger
  import opened Products

  /** A row with its id; the table lists rows newest first, in one fixed order. */
  datatype Record = Record(id: TxId, t: Transaction)

  /** An empty filter string is None. */
  datatype Query = Query(wallet: Wallet, asset: Option<Asset>, kind: Option<Kind>)

  predicate Matches(r: Record, q: Query) {
    && (r.t.source == Some(q.wallet) || r.t.destination == Some(q.wallet))
    && (q.asset.Some? ==> r.t.asset == q.asset.value)
    && (q.kind.Some? ==> r.t.kind == q.kind.value)
  }

  function Matching(rows: seq<Record>, q: Query): seq<Record> {
    if rows == [] then [] else (if Matches(rows[0], q) then [rows[0]] else []) + Matching(rows[1..], q)
  }

  function ClampPage(page: int): (r: int)
    ensures r >= 1
  {
    if page < 1 then 1 else page
  }

  function ClampPerPage(perPage: int): (r: int)
    ensures 1 <= r <= 100
  {
    if perPage < 1 || perPage > 100 then 20 else perPage
  }

  function Least(a: int, b: int): int { if a < b then a else b }

  /** OFFSET (page - 1) * perPage LIMIT perPage. */
  function Page(list: seq<Record>, page: int, perPage: int): seq<Record>
    requires page >= 1 && perPage >= 1
  {
    var from := Least((page - 1) * perPage, |list|);
    OffsetIsNatural(page, perPage);
    list[from..Least(from + perPage, |list|)]
  }

  lemma OffsetIsNatural(page: int, perPage: int)
    requires page >= 1 && perPage >= 1
    ensures (page - 1) * perPage >= 0
  {
  }

  datatype Found = Found(transactions: seq<Record>, total: nat)

  /** The repository's query; it clamps by itself. */
  function GetTransactionsByWalletID(rows: seq<Record>, q: Query, page: int, perPage: int): Found {
    Found(Page(Matching(rows, q), ClampPage(page), ClampPerPage(perPage)), |Matching(rows, q)|)
  }

  datatype Item = Item(id: TxId, asset: Asset, amount: real, kind: Kind, status: Status, source: Option<Wallet>,
                       destination: Option<Wallet>, txHash: Option<string>, orderId: Option<string>, rate: Option<real>, fee: Option<real>)

  function ItemOf(r: Record): Item {
    Item(r.id, r.t.asset, r.t.amount, r.t.kind, r.t.status, r.t.source, r.t.destination, r.t.txHash, r.t.orderId, r.t.rate, r.t.fee)
  }

  /** An item shows every column of its record. */
  predicate Shows(item: Item, r: Record) {
    && item.id == r.id && item.asset == r.t.asset && item.amount == r.t.amount && item.kind == r.t.kind && item.status == r.t.status
    && item.source == r.t.source && item.destination == r.t.destination && item.txHash == r.t.txHash && item.orderId == r.t.orderId
    && item.rate == r.t.rate && item.fee == r.t.fee
  }

  function Items(rs: seq<Record>): (items: seq<Item>)
    ensures |items| == |rs| && forall i | 0 <= i < |rs| :: items[i] == ItemOf(rs[i])
  {
    seq(|rs|, i requires 0 <= i < |rs| => ItemOf(rs[i]))
  }

  datatype Meta = Meta(page: int, perPage: int, total: nat, totalPages: int)
  datatype Response = Response(transactions: seq<Item>, meta: Meta)

  /** Pages needed for a list of this length; one at least. */
  function TotalPages(total: nat, perPage: int): (r: int)
    requires perPage >= 1
    ensures r >= 1 && (r - 1) * perPage <= total <= r * perPage
    ensures total > 0 ==> (r - 1) * perPage < total
  {
    Ceiling(total, perPage);
    var pages := (total + perPage - 1) / perPage;
    if pages == 0 then 1 else pages
  }

  lemma Ceiling(total: nat, perPage: int)
    requires perPage >= 1
    ensures var pages := (total + perPage - 1) / perPage; total <= pages * perPage < total + perPage && pages >= 0
    ensures var pages := (total + perPage - 1) / perPage; (pages - 1) * perPage < total
  {
    var pages := (total + perPage - 1) / perPage;
    assert pages * perPage <= total + perPage - 1 < (pages + 1) * perPage;
    assert (pages + 1) * perPage == pages * perPage + perPage;
    assert (pages - 1) * perPage == pages * perPage - perPage;
  }

  /** GetTransactionHistory for a user's wallet; `rows` is the transaction table. */
  method GetTransactionHistory(rows: seq<Record>, wallet: Option<Wallet>, page: int, perPage: int,
                               assetFilter: Option<Asset>, typeFilter: Option<Kind>)
    returns (response: Option<Response>)
    ensures response.None? <==> wallet.None?
    ensures response.Some? ==>
      var list := Matching(rows, Query(wallet.value, assetFilter, typeFilter));
      var p, n := ClampPage(page), ClampPerPage(perPage);
      response.value == Response(Items(Page(list, p, n)), Meta(p, n, |list|, TotalPages(|list|, n)))
    ensures response.Some? ==>
      var meta := response.value.meta;
      && meta.page == (if page < 1 then 1 else page)
      && meta.perPage == (if 1 <= perPage <= 100 then perPage else 20)
      && forall i | 0 <= i < |response.value.transactions| ::
           Shows(response.value.transactions[i],
                 Page(Matching(rows, Query(wallet.value, assetFilter, typeFilter)), meta.page, meta.perPage)[i])
  {
    if wallet.None? { return None; }
    var p, n := page, perPage;
    if p < 1 {
      p := 1;
    }
    if n < 1 || n > 100 {
      n := 20;
    }
    var found := GetTransactionsByWalletID(rows, Query(wallet.value, assetFilter, typeFilter), p, n);
    var totalPages := (found.total + n - 1) / n;
    if totalPages == 0 {
      totalPages := 1;
    }
    var items := [];
    for i := 0 to |found.transactions|
      invariant |items| == i && forall j | 0 <= j < i :: items[j] == ItemOf(found.transactions[j])
    {
      var r := found.transactions[i];
      var item := Item(r.id, r.t.asset, r.t.amount, r.t.kind, r.t.status, None, None, r.t.txHash, r.t.orderId, r.t.rate, r.t.fee);
      if r.t.source.Some? {
        item := item.(source := Some(r.t.source.value));
      }
      if r.t.destination.Some? {
        item := item.(destination := Some(r.t.destination.value));
      }
      items := items + [item];
    }
    assert items == Items(found.transactions);
    return Some(Response(items, Meta(p, n, found.total, totalPages)));
  }

  /** Clamping in the usecase and again in the repository is clamping once. */
  lemma ClampedTwice(rows: seq<Record>, q: Query, page: int, perPage: int)
    ensures GetTransactionsByWalletID(rows, q, ClampPage(page), ClampPerPage(perPage)) == GetTransactionsByWalletID(rows, q, page, perPage)
  {
  }

  /**
    The list holds each row that has the wallet on one of its sides and passes
    the filters as often as the table does, and no other.
   */
  lemma {:induction false} MatchingIsExact(rows: seq<Record>, q: Query, r: Record)
    ensures multiset(Matching(rows, q))[r] ==
      if Some(q.wallet) in {r.t.source, r.t.destination} && q.asset in {None, Some(r.t.asset)} && q.kind in {None, Some(r.t.kind)}
      then multiset(rows)[r] else 0
  {
    if rows == [] {
    } else {
      assert rows == [rows[0]] + rows[1..];
      MatchingIsExact(rows[1..], q, r);
    }
  }

  /** Matching rows keep the order of the table. */
  lemma {:induction false} MatchingSplits(a: seq<Record>, b: seq<Record>, q: Query)
    ensures Matching(a + b, q) == Matching(a, q) + Matching(b, q)
  {
    if a == [] {
      assert a + b == b;
    } else {
      assert (a + b)[1..] == a[1..] + b;
      MatchingSplits(a[1..], b, q);
    }
  }

  /** Pages 1 to count, one after the other. */
  function Pages(list: seq<Record>, count: nat, perPage: int): seq<Record>
    requires perPage >= 1
  {
    if count == 0 then [] else Pages(list, count - 1, perPage) + Page(list, count, perPage)
  }

  lemma {:induction false} PagesArePrefix(list: seq<Record>, count: nat, perPage: int)
    requires perPage >= 1
    ensures count * perPage >= 0 && Pages(list, count, perPage) == list[..Least(count * perPage, |list|)]
  {
    if count == 0 {
      assert 0 * perPage == 0;
    } else {
      PagesArePrefix(list, count - 1, perPage);
      OnePageMore(count, perPage);
      PageExtends(list, count, perPage, (count - 1) * perPage, count * perPage);
    }
  }

  lemma OnePageMore(count: int, perPage: int)
    requires count >= 1 && perPage >= 1
    ensures 0 <= (count - 1) * perPage && count * perPage == (count - 1) * perPage + perPage
  {
  }

  /** With the products as plain numbers. */
  lemma PageExtends(list: seq<Record>, count: nat, perPage: int, from: nat, to: nat)
    requires count >= 1 && perPage >= 1 && from == (count - 1) * perPage && to == from + perPage
    ensures list[..Least(from, |list|)] + Page(list, count, perPage) == list[..Least(to, |list|)]
  {
  }

  /** The pages up to TotalPages are the list, in order, each row once. */
  lemma PagesPartition(list: seq<Record>, perPage: int)
    requires perPage >= 1
    ensures Pages(list, TotalPages(|list|, perPage), perPage) == list
  {
    PagesArePrefix(list, TotalPages(|list|, perPage), perPage);
  }

  /** Every page but the last is full, the last is not empty unless the list is, and later ones are empty. */
  lemma PageSizes(list: seq<Record>, page: int, perPage: int)
    requires page >= 1 && perPage >= 1
    ensures page < TotalPages(|list|, perPage) ==> |Page(list, page, perPage)| == perPage
    ensures page == TotalPages(|list|, perPage) && list != [] ==> 0 < |Page(list, page, perPage)| <= perPage
    ensures page > TotalPages(|list|, perPage) ==> Page(list, page, perPage) == []
  {
    var last := TotalPages(|list|, perPage);
    assert (page - 1) * perPage + perPage == page * perPage;
    if page < last {
      Times(page, last - 1, perPage);
    } else if page > last {
      Times(last, page - 1, perPage);
    }
  }

  /** The row at index i of the list is on page i / perPage + 1, at index i % perPage. */
  lemma RowIsOnItsPage(list: seq<Record>, i: nat, perPage: int)
    requires perPage >= 1 && i < |list|
    ensures var page := Page(list, i / perPage + 1, perPage);
      0 <= i % perPage < |page| && page[i % perPage] == list[i]
  {
    assert i / perPage * perPage + i % perPage == i;
  }
}
