/**
 * The rows of the `users`, `portfolio` and `transactions` tables, the quote
 * service's answer, and the SQL statements the handlers run on the `portfolio`
 * table, each as a function on the table's rows kept in insertion order.
 */
module Tables {
  import opened Wrappers

  type UserId = nat

  /** Quote prices are never negative. */
  type Price = r: real | 0.0 <= r

  /** `shares * price`: what `n` shares are worth at `price`. It is written as the price added
      `n` times so that proofs treat it as one opaque amount and never as nonlinear arithmetic;
      WorthIsProduct shows it is the product. */
  function Worth(n: nat, price: real): real {
    if n == 0 then 0.0 else Worth(n - 1, price) + price
  }

  lemma {:induction false} WorthIsProduct(n: nat, price: real)
    ensures Worth(n, price) == n as real * price
  {
    if n > 0 {
      WorthIsProduct(n - 1, price);
    }
  }

  /** Shares at a price that is not negative are worth nothing negative. */
  lemma {:induction false} WorthNonNegative(n: nat, price: Price)
    ensures Worth(n, price) >= 0.0
  {
    if n > 0 {
      WorthNonNegative(n - 1, price);
    }
  }

  /** What `lookup(symbol)` returns when the symbol resolves: the canonical symbol and its price. */
  datatype Quote = Quote(symbol: string, price: Price)

  /** The quote service, fixed for the duration of one request. */
  type Lookup = string -> Option<Quote>

  /** A row of `users`; the id is the key of the map that holds it. */
  datatype Account = Account(username: string, hash: string, cash: real)

  /** A row of `portfolio`. */
  datatype Row = Row(userId: UserId, stock: string, shares: nat, currentPrice: real, total: real)

  datatype Kind = Deposit | Buy | Sell

  /** A row of `transactions`; deposits carry neither stock nor shares. The row's
      position in the log stands for its `date`. */
  datatype Tx = Tx(userId: UserId, kind: Kind, stock: Option<string>, shares: Option<nat>, price: real)

  predicate IsKey(r: Row, u: UserId, stock: string) {
    r.userId == u && r.stock == stock
  }

  /** At most one row per (user, stock). */
  predicate UniqueKeys(t: seq<Row>) {
    forall i, j :: 0 <= i < j < |t| ==> !IsKey(t[j], t[i].userId, t[i].stock)
  }

  /** The first row of `SELECT * FROM portfolio WHERE stock = ? AND user_id = ?`. */
  function Holding(t: seq<Row>, u: UserId, stock: string): Option<Row> {
    if t == [] then None
    else
      match Holding(t[..|t| - 1], u, stock)
      case Some(h) => Some(h)
      case None => if IsKey(t[|t| - 1], u, stock) then Some(t[|t| - 1]) else None
  }

  /** The row found has the key asked for, and none is found exactly when no row has it. */
  lemma {:induction false} HoldingFound(t: seq<Row>, u: UserId, stock: string)
    ensures Holding(t, u, stock).Some? ==> Holding(t, u, stock).value in t && IsKey(Holding(t, u, stock).value, u, stock)
    ensures Holding(t, u, stock).None? <==> forall i :: 0 <= i < |t| ==> !IsKey(t[i], u, stock)
  {
    if t != [] {
      var init := t[..|t| - 1];
      HoldingFound(init, u, stock);
      assert t == init + [t[|t| - 1]];
    }
  }

  /** `SELECT * FROM portfolio WHERE user_id = ?`, in table order. */
  function UserRows(t: seq<Row>, u: UserId): (r: seq<Row>)
    ensures |r| <= |t|
  {
    if t == [] then []
    else
      assert t == t[..|t| - 1] + [t[|t| - 1]];
      UserRows(t[..|t| - 1], u) + (if t[|t| - 1].userId == u then [t[|t| - 1]] else [])
  }

  /** The user's rows are exactly the rows of the table that carry the user's id. */
  lemma {:induction false} UserRowsMembers(t: seq<Row>, u: UserId)
    ensures forall x :: x in UserRows(t, u) <==> x in t && x.userId == u
  {
    if t != [] {
      var init := t[..|t| - 1];
      UserRowsMembers(init, u);
      assert t == init + [t[|t| - 1]];
    }
  }

  /** The stock column of a list of rows. */
  function Stocks(rows: seq<Row>): (r: seq<string>)
    ensures |r| == |rows|
  {
    seq(|rows|, i requires 0 <= i < |rows| => rows[i].stock)
  }

  /** The UPDATE statements the handlers run on `portfolio`, each a SET clause with its WHERE clause. */
  datatype Update =
      /** buy: `SET shares = ?, current_price = ?, total = total + ? WHERE user_id = ? AND stock = ?` */
    | AddShares(u: UserId, stock: string, shares: nat, price: real, cost: real)
      /** partial sell: `SET shares = ?, total = ? WHERE user_id = ? AND stock = ?` */
    | SetShares(u: UserId, stock: string, shares: nat, total: real)
      /** valuation refresh: `SET current_price = ?, total = ? WHERE stock = ?`, whatever the user */
    | Reprice(stock: string, price: real, total: real)

  /** What an update does to one row. */
  function Apply(up: Update, r: Row): Row {
    match up
    case AddShares(u, stock, shares, price, cost) =>
      if IsKey(r, u, stock) then r.(shares := shares, currentPrice := price, total := r.total + cost) else r
    case SetShares(u, stock, shares, total) =>
      if IsKey(r, u, stock) then r.(shares := shares, total := total) else r
    case Reprice(stock, price, total) =>
      if r.stock == stock then r.(currentPrice := price, total := total) else r
  }

  /** An UPDATE statement: every row goes through the update, in place. */
  function MapRows(t: seq<Row>, up: Update): (r: seq<Row>)
    ensures |r| == |t|
  {
    if t == [] then [] else MapRows(t[..|t| - 1], up) + [Apply(up, t[|t| - 1])]
  }

  /** Each row of the result is the row in the same place, updated. */
  lemma {:induction false} MapRowsAt(t: seq<Row>, up: Update)
    ensures forall i :: 0 <= i < |t| ==> MapRows(t, up)[i] == Apply(up, t[i])
  {
    if t != [] {
      MapRowsAt(t[..|t| - 1], up);
    }
  }

  /** `DELETE FROM portfolio WHERE user_id = ? AND stock = ?`. */
  function DeleteHolding(t: seq<Row>, u: UserId, stock: string): seq<Row> {
    if t == [] then []
    else DeleteHolding(t[..|t| - 1], u, stock) + (if IsKey(t[|t| - 1], u, stock) then [] else [t[|t| - 1]])
  }

  /** The rows left are exactly the rows without the deleted key. */
  lemma {:induction false} DeleteMembers(t: seq<Row>, u: UserId, stock: string)
    ensures forall x :: x in DeleteHolding(t, u, stock) <==> x in t && !IsKey(x, u, stock)
  {
    if t != [] {
      var init := t[..|t| - 1];
      DeleteMembers(init, u, stock);
      assert t == init + [t[|t| - 1]];
    }
  }

  /** The holding columns (user, stock, shares) that an update keeps. */
  predicate SameHolding(a: Row, b: Row) {
    a.userId == b.userId && a.stock == b.stock && a.shares == b.shares
  }

  predicate AllQuoted(rows: seq<Row>, lookup: Lookup) {
    forall j :: 0 <= j < |rows| ==> lookup(rows[j].stock).Some?
  }

  function PriceOf(lookup: Lookup, stock: string): real
    requires lookup(stock).Some?
  {
    lookup(stock).value.price
  }

  /** The table after the refresh loop has processed the holdings `done`, in order:
      no row is added, removed or moved, and no holding column changes. */
  function RefreshPrefix(t: seq<Row>, done: seq<Row>, lookup: Lookup): (r: seq<Row>)
    requires AllQuoted(done, lookup)
    ensures |r| == |t|
  {
    if done == [] then t
    else MapRows(RefreshPrefix(t, done[..|done| - 1], lookup), RepriceFor(done[|done| - 1], lookup))
  }

  /** The refresh keeps every row's user, stock and shares. */
  lemma {:induction false} RefreshPrefixHoldings(t: seq<Row>, done: seq<Row>, lookup: Lookup)
    requires AllQuoted(done, lookup)
    ensures forall i :: 0 <= i < |t| ==> SameHolding(RefreshPrefix(t, done, lookup)[i], t[i])
  {
    if done != [] {
      var init := done[..|done| - 1];
      RefreshPrefixHoldings(t, init, lookup);
      MapRowsAt(RefreshPrefix(t, init, lookup), RepriceFor(done[|done| - 1], lookup));
    }
  }

  /** The UPDATE the refresh loop runs for one of the user's holdings. */
  function RepriceFor(h: Row, lookup: Lookup): Update
    requires lookup(h.stock).Some?
  {
    Reprice(h.stock, PriceOf(lookup, h.stock), Worth(h.shares, PriceOf(lookup, h.stock)))
  }

  /** The market value of holdings: the sum of shares times current price. */
  function MarketValue(rows: seq<Row>, lookup: Lookup): (v: real)
    requires AllQuoted(rows, lookup)
    ensures v >= 0.0
  {
    if rows == [] then 0.0
    else
      var h := rows[|rows| - 1];
      WorthNonNegative(h.shares, lookup(h.stock).value.price);
      MarketValue(rows[..|rows| - 1], lookup) + Worth(h.shares, PriceOf(lookup, h.stock))
  }

  /** The sum of the `total` column. */
  function SumTotals(rows: seq<Row>): real {
    if rows == [] then 0.0 else SumTotals(rows[..|rows| - 1]) + rows[|rows| - 1].total
  }

  /** The index of the first holding the quote service does not resolve, or |rows|. */
  function FirstUnquoted(rows: seq<Row>, lookup: Lookup): (k: nat)
    ensures k <= |rows|
    ensures AllQuoted(rows[..k], lookup)
    ensures k < |rows| ==> lookup(rows[k].stock).None?
  {
    if rows == [] then 0
    else if lookup(rows[0].stock).None? then 0
    else
      var k := FirstUnquoted(rows[1..], lookup);
      k + 1
  }

  function ApplyOption(up: Update, o: Option<Row>): Option<Row> {
    match o
    case None => None
    case Some(r) => Some(Apply(up, r))
  }

  /** Rows of one user have pairwise different stocks. */
  predicate DistinctStocks(rows: seq<Row>) {
    forall j, k :: 0 <= j < k < |rows| ==> rows[j].stock != rows[k].stock
  }

  lemma HoldingAppend(t: seq<Row>, x: Row, u: UserId, stock: string)
    ensures Holding(t + [x], u, stock) ==
            if Holding(t, u, stock).Some? then Holding(t, u, stock)
            else if IsKey(x, u, stock) then Some(x) else None
  {
    assert (t + [x])[..|t|] == t;
  }

  /** Appending a row keeps the keys unique exactly when its key is new. */
  lemma UniqueAppend(t: seq<Row>, x: Row)
    ensures UniqueKeys(t + [x]) <==> UniqueKeys(t) && Holding(t, x.userId, x.stock).None?
  {
    var t' := t + [x];
    HoldingFound(t, x.userId, x.stock);
    if UniqueKeys(t') {
      forall i, j | 0 <= i < j < |t| ensures !IsKey(t[j], t[i].userId, t[i].stock) {
        assert t[i] == t'[i] && t[j] == t'[j];
      }
      forall i | 0 <= i < |t| ensures !IsKey(t[i], x.userId, x.stock) {
        assert t'[i] == t[i] && t'[|t|] == x;
      }
    }
  }

  /** In a table with unique keys, the row found for a row's own key is that row. */
  lemma HoldingOfRow(t: seq<Row>, i: nat)
    requires UniqueKeys(t) && i < |t|
    ensures Holding(t, t[i].userId, t[i].stock) == Some(t[i])
  {
    var h := Holding(t, t[i].userId, t[i].stock);
    HoldingFound(t, t[i].userId, t[i].stock);
    var k :| 0 <= k < |t| && t[k] == h.value;
    if k < i {
      assert !IsKey(t[i], t[k].userId, t[k].stock);
    } else if i < k {
      assert !IsKey(t[k], t[i].userId, t[i].stock);
    }
  }

  /** An UPDATE moves every key's row through its SET clause (no update changes a key). */
  lemma {:induction false} HoldingMapRows(t: seq<Row>, up: Update, v: UserId, x: string)
    ensures Holding(MapRows(t, up), v, x) == ApplyOption(up, Holding(t, v, x))
  {
    if t != [] {
      var init, last := t[..|t| - 1], t[|t| - 1];
      HoldingMapRows(init, up, v, x);
      assert MapRows(t, up) == MapRows(init, up) + [Apply(up, last)];
      assert IsKey(Apply(up, last), v, x) == IsKey(last, v, x);
      HoldingAppend(MapRows(init, up), Apply(up, last), v, x);
      HoldingAppend(init, last, v, x);
    }
  }

  lemma UniqueMapRows(t: seq<Row>, up: Update)
    requires UniqueKeys(t)
    ensures UniqueKeys(MapRows(t, up))
  {
    MapRowsAt(t, up);
  }

  /** Deleting the rows of one key removes that holding... */
  lemma DeleteRemoves(t: seq<Row>, u: UserId, stock: string)
    ensures Holding(DeleteHolding(t, u, stock), u, stock).None?
  {
    var d := DeleteHolding(t, u, stock);
    HoldingFound(d, u, stock);
    DeleteMembers(t, u, stock);
    forall i | 0 <= i < |d| ensures !IsKey(d[i], u, stock) {
      assert d[i] in d;
    }
  }

  /** ...and no other. */
  lemma {:induction false} DeleteKeeps(t: seq<Row>, u: UserId, stock: string, v: UserId, x: string)
    requires !(v == u && x == stock)
    ensures Holding(DeleteHolding(t, u, stock), v, x) == Holding(t, v, x)
  {
    if t != [] {
      var init, last := t[..|t| - 1], t[|t| - 1];
      var d := DeleteHolding(init, u, stock);
      DeleteKeeps(init, u, stock, v, x);
      assert t == init + [last];
      HoldingAppend(init, last, v, x);
      if !IsKey(last, u, stock) {
        assert DeleteHolding(t, u, stock) == d + [last];
        HoldingAppend(d, last, v, x);
      } else {
        assert DeleteHolding(t, u, stock) == d;
      }
    }
  }

  /** Deleting rows keeps the keys unique. */
  lemma {:induction false} UniqueDelete(t: seq<Row>, u: UserId, stock: string)
    requires UniqueKeys(t)
    ensures UniqueKeys(DeleteHolding(t, u, stock))
  {
    if t != [] {
      var init, last := t[..|t| - 1], t[|t| - 1];
      var d := DeleteHolding(init, u, stock);
      assert t == init + [last];
      UniqueAppend(init, last);
      UniqueDelete(init, u, stock);
      if !IsKey(last, u, stock) {
        assert DeleteHolding(t, u, stock) == d + [last];
        UniqueAppend(d, last);
        DeleteKeeps(init, u, stock, last.userId, last.stock);
        HoldingAppend(init, last, last.userId, last.stock);
      }
    }
  }

  /** One user's rows, in a table with unique keys, are one per stock. */
  lemma {:induction false} UserRowsDistinct(t: seq<Row>, u: UserId)
    requires UniqueKeys(t)
    ensures DistinctStocks(UserRows(t, u))
  {
    if t != [] {
      var init, last := t[..|t| - 1], t[|t| - 1];
      assert t == init + [last];
      UniqueAppend(init, last);
      UserRowsDistinct(init, u);
      UserRowsMembers(init, u);
      var a := UserRows(init, u);
      if last.userId == u {
        forall j | 0 <= j < |a| ensures a[j].stock != last.stock {
          assert a[j] in init;
        }
      }
    }
  }

  /** A holding as a complete refresh leaves it: current price from the quote, total = shares × price. */
  function Revalued(r: Row, lookup: Lookup): Row
    requires lookup(r.stock).Some?
  {
    r.(currentPrice := PriceOf(lookup, r.stock), total := Worth(r.shares, PriceOf(lookup, r.stock)))
  }

  /** If a table keeps every row's user, and revalues `u`'s rows, then `u`'s rows in it are `u`'s
      old rows revalued, in the same order. */
  lemma {:induction false} UserRowsRevalued(t: seq<Row>, t': seq<Row>, u: UserId, lookup: Lookup)
    requires |t'| == |t|
    requires forall i :: 0 <= i < |t| ==> t'[i].userId == t[i].userId
    requires forall i :: 0 <= i < |t| && t[i].userId == u ==>
               lookup(t[i].stock).Some? && t'[i] == Revalued(t[i], lookup)
    ensures |UserRows(t', u)| == |UserRows(t, u)|
    ensures forall j :: 0 <= j < |UserRows(t, u)| ==>
              lookup(UserRows(t, u)[j].stock).Some? &&
              UserRows(t', u)[j] == Revalued(UserRows(t, u)[j], lookup)
  {
    if t != [] {
      var n := |t| - 1;
      var init, init' := t[..n], t'[..n];
      UserRowsRevalued(init, init', u, lookup);
      var a, a' := UserRows(init, u), UserRows(init', u);
      if t[n].userId == u {
        assert UserRows(t, u) == a + [t[n]];
        assert UserRows(t', u) == a' + [t'[n]];
      } else {
        assert UserRows(t, u) == a;
        assert UserRows(t', u) == a';
      }
    }
  }

  /** After the loop has processed `done`, a row whose stock is not among `done` is as it was... */
  lemma {:induction false} RefreshPrefixMiss(t: seq<Row>, done: seq<Row>, lookup: Lookup, i: nat)
    requires AllQuoted(done, lookup) && i < |t|
    requires forall j :: 0 <= j < |done| ==> done[j].stock != t[i].stock
    ensures RefreshPrefix(t, done, lookup)[i] == t[i]
  {
    if done != [] {
      var n := |done| - 1;
      var init, h := done[..n], done[n];
      assert forall j :: 0 <= j < n ==> init[j] == done[j];
      RefreshPrefixMiss(t, init, lookup, i);
      assert RefreshPrefix(t, done, lookup) == MapRows(RefreshPrefix(t, init, lookup), RepriceFor(h, lookup));
      MapRowsAt(RefreshPrefix(t, init, lookup), RepriceFor(h, lookup));
    }
  }

  /** ...and, when `done` holds one row per stock, a row whose stock is that of `done[j]` is
      repriced with the shares of `done[j]`, whatever the row's own user and shares. */
  lemma {:induction false} RefreshPrefixHit(t: seq<Row>, done: seq<Row>, lookup: Lookup, i: nat, j: nat)
    requires AllQuoted(done, lookup) && DistinctStocks(done) && i < |t|
    requires j < |done| && done[j].stock == t[i].stock
    ensures RefreshPrefix(t, done, lookup)[i] ==
            t[i].(currentPrice := PriceOf(lookup, t[i].stock),
                  total := Worth(done[j].shares, PriceOf(lookup, t[i].stock)))
  {
    var n := |done| - 1;
    var init, h := done[..n], done[n];
    assert forall k :: 0 <= k < n ==> init[k] == done[k];
    var before := RefreshPrefix(t, init, lookup);
    assert RefreshPrefix(t, done, lookup) == MapRows(before, RepriceFor(h, lookup));
    MapRowsAt(before, RepriceFor(h, lookup));
    if j == n {
      RefreshPrefixMiss(t, init, lookup, i);
    } else {
      RefreshPrefixHit(t, init, lookup, i, j);
      assert h.stock != t[i].stock;
    }
  }

  /** A complete refresh for user `u` leaves a row of a stock `u` does not hold as it was... */
  lemma RefreshAllMiss(t: seq<Row>, u: UserId, lookup: Lookup, i: nat)
    requires AllQuoted(UserRows(t, u), lookup) && i < |t|
    requires Holding(t, u, t[i].stock).None?
    ensures RefreshPrefix(t, UserRows(t, u), lookup)[i] == t[i]
  {
    var holdings := UserRows(t, u);
    HoldingFound(t, u, t[i].stock);
    UserRowsMembers(t, u);
    forall j | 0 <= j < |holdings| ensures holdings[j].stock != t[i].stock {
      assert holdings[j] in t;
    }
    RefreshPrefixMiss(t, holdings, lookup, i);
  }

  /** ...and gives a row of a stock `u` holds as `h` the quote as current price and `h`'s shares
      times the quote as total, whoever the row belongs to. */
  lemma RefreshAllHit(t: seq<Row>, u: UserId, lookup: Lookup, i: nat)
    requires UniqueKeys(t) && AllQuoted(UserRows(t, u), lookup) && i < |t|
    requires Holding(t, u, t[i].stock).Some?
    ensures lookup(t[i].stock).Some?
    ensures RefreshPrefix(t, UserRows(t, u), lookup)[i] ==
            t[i].(currentPrice := PriceOf(lookup, t[i].stock),
                  total := Worth(Holding(t, u, t[i].stock).value.shares, PriceOf(lookup, t[i].stock)))
  {
    var holdings := UserRows(t, u);
    var h := Holding(t, u, t[i].stock).value;
    assert h in holdings by {
      HoldingFound(t, u, t[i].stock);
      UserRowsMembers(t, u);
    }
    var j :| 0 <= j < |holdings| && holdings[j] == h;
    assert h.stock == t[i].stock by {
      HoldingFound(t, u, t[i].stock);
    }
    assert DistinctStocks(holdings) by {
      UserRowsDistinct(t, u);
    }
    RefreshPrefixHit(t, holdings, lookup, i, j);
    assert RefreshPrefix(t, holdings, lookup)[i] ==
           t[i].(currentPrice := PriceOf(lookup, t[i].stock), total := Worth(holdings[j].shares, PriceOf(lookup, t[i].stock)));
    assert holdings[j].shares == h.shares;
    assert RefreshPrefix(t, holdings, lookup)[i] ==
           t[i].(currentPrice := PriceOf(lookup, t[i].stock), total := Worth(h.shares, PriceOf(lookup, t[i].stock)));
  }

  /** A complete refresh for user `u` revalues each of `u`'s own rows. */
  lemma RefreshAllOwn(t: seq<Row>, u: UserId, lookup: Lookup)
    requires UniqueKeys(t) && AllQuoted(UserRows(t, u), lookup)
    ensures forall i :: 0 <= i < |t| && t[i].userId == u ==>
              lookup(t[i].stock).Some? && RefreshPrefix(t, UserRows(t, u), lookup)[i] == Revalued(t[i], lookup)
  {
    forall i | 0 <= i < |t| && t[i].userId == u
      ensures lookup(t[i].stock).Some? && RefreshPrefix(t, UserRows(t, u), lookup)[i] == Revalued(t[i], lookup)
    {
      HoldingOfRow(t, i);
      RefreshAllHit(t, u, lookup, i);
    }
  }

  /** The totals of revalued holdings add up to their market value. */
  lemma {:induction false} SumRevalued(rows': seq<Row>, rows: seq<Row>, lookup: Lookup)
    requires AllQuoted(rows, lookup) && |rows'| == |rows|
    requires forall j :: 0 <= j < |rows| ==> rows'[j] == Revalued(rows[j], lookup)
    ensures SumTotals(rows') == MarketValue(rows, lookup)
  {
    if rows != [] {
      var n := |rows| - 1;
      SumRevalued(rows'[..n], rows[..n], lookup);
    }
  }

  /** Deleting a key no row has changes nothing. */
  lemma {:induction false} DeleteAbsent(t: seq<Row>, u: UserId, stock: string)
    requires forall i :: 0 <= i < |t| ==> !IsKey(t[i], u, stock)
    ensures DeleteHolding(t, u, stock) == t
  {
    if t != [] {
      var init := t[..|t| - 1];
      DeleteAbsent(init, u, stock);
      assert t == init + [t[|t| - 1]];
      assert DeleteHolding(t, u, stock) == DeleteHolding(init, u, stock) + [t[|t| - 1]];
    }
  }

  /** A stock the user holds is in the stock column of the user's rows. */
  lemma ListedWhenHeld(t: seq<Row>, u: UserId, stock: string)
    requires Holding(t, u, stock).Some?
    ensures stock in Stocks(UserRows(t, u))
  {
    HoldingFound(t, u, stock);
    UserRowsMembers(t, u);
    var rows := UserRows(t, u);
    var k :| 0 <= k < |rows| && rows[k] == Holding(t, u, stock).value;
    assert Stocks(rows)[k] == stock;
  }

  /** The user's stock column lists exactly the stocks the user holds. */
  lemma StocksHeld(t: seq<Row>, u: UserId)
    ensures forall x :: x in Stocks(UserRows(t, u)) <==> Holding(t, u, x).Some?
  {
    var rows := UserRows(t, u);
    forall x | x in Stocks(rows) ensures Holding(t, u, x).Some? {
      var k :| 0 <= k < |rows| && Stocks(rows)[k] == x;
      UserRowsMembers(t, u);
      assert rows[k] in t;
      HoldingFound(t, u, x);
    }
    forall x | Holding(t, u, x).Some? ensures x in Stocks(rows) {
      ListedWhenHeld(t, u, x);
    }
  }

  /** The first unquoted holding is at `k` when the ones before it are quoted and the one at `k`
      is not (or `k` is the end). */
  lemma {:induction false} FirstUnquotedAt(rows: seq<Row>, lookup: Lookup, k: nat)
    requires k <= |rows| && AllQuoted(rows[..k], lookup)
    requires k < |rows| ==> lookup(rows[k].stock).None?
    ensures FirstUnquoted(rows, lookup) == k
  {
    if rows != [] && k > 0 {
      assert lookup(rows[..k][0].stock).Some?;
      assert rows[1..][..k - 1] == rows[..k][1..];
      FirstUnquotedAt(rows[1..], lookup, k - 1);
    }
  }

  /** One more turn of the refresh loop: the holding at `i` is repriced across the table and its
      worth added to the market value. */
  lemma RefreshStep(t: seq<Row>, rows: seq<Row>, lookup: Lookup, i: nat)
    requires i < |rows| && AllQuoted(rows[..i], lookup) && lookup(rows[i].stock).Some?
    ensures AllQuoted(rows[..i + 1], lookup)
    ensures RefreshPrefix(t, rows[..i + 1], lookup) ==
            MapRows(RefreshPrefix(t, rows[..i], lookup),
                    Reprice(rows[i].stock, PriceOf(lookup, rows[i].stock), Worth(rows[i].shares, PriceOf(lookup, rows[i].stock))))
    ensures MarketValue(rows[..i + 1], lookup) ==
            MarketValue(rows[..i], lookup) + Worth(rows[i].shares, PriceOf(lookup, rows[i].stock))
  {
    assert rows[..i + 1][..i] == rows[..i];
  }
}
