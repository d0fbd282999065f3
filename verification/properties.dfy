/**
 * What the handlers guarantee, stated over the Ledger steps: the holding each
 * trade leaves behind, the invariant every request keeps, what the valuation
 * refresh writes, the order of the history, and the consequences of the checks
 * as written (a zero-share buy, a deposit of "00", the refresh keyed by stock).
 */
module LedgerProperties {
  import opened Wrappers
  import opened Forms
  import opened Tables
  import opened Ledger

  // ---------------------------------------------------------------- holdings after a trade

  /** The portfolio after a successful buy, seen through the holdings. */
  lemma BuyUpdatesHolding(s: State, u: UserId, symbolField: string, sharesField: string, lookup: Lookup)
    requires u in s.users
    requires BuyShares(s, u, symbolField, sharesField, lookup).outcome.Done?
    ensures var t' := BuyShares(s, u, symbolField, sharesField, lookup).state.portfolio;
            var symbol := lookup(symbolField).value.symbol;
            && Holding(t', u, symbol) ==
               Some(Bought(Holding(s.portfolio, u, symbol), u, symbol, DecimalValue(sharesField),
                           ExecutionQuote(symbolField, lookup).value.price))
            && (forall v, x :: !(v == u && x == symbol) ==> Holding(t', v, x) == Holding(s.portfolio, v, x))
  {
    var symbol := lookup(symbolField).value.symbol;
    var n := DecimalValue(sharesField);
    var price := ExecutionQuote(symbolField, lookup).value.price;
    var t' := BuyShares(s, u, symbolField, sharesField, lookup).state.portfolio;
    assert t' == BoughtRows(s.portfolio, u, symbol, n, price);
    BoughtRowsHolding(s.portfolio, u, symbol, n, price, u, symbol);
    forall v, x | !(v == u && x == symbol) ensures Holding(t', v, x) == Holding(s.portfolio, v, x) {
      BoughtRowsHolding(s.portfolio, u, symbol, n, price, v, x);
    }
  }

  /** The portfolio after a successful sell, seen through the holdings. */
  lemma SellUpdatesHolding(s: State, u: UserId, symbolField: string, sharesField: string, lookup: Lookup)
    requires u in s.users
    requires SellShares(s, u, symbolField, sharesField, lookup).outcome.Done?
    ensures var t' := SellShares(s, u, symbolField, sharesField, lookup).state.portfolio;
            var h := Holding(s.portfolio, u, symbolField).value;
            var n := ParseInt(sharesField).value;
            && 0 < n <= h.shares
            && Holding(t', u, symbolField) == Remaining(h, h.shares - n, lookup(symbolField).value.price)
            && (forall v, x :: !(v == u && x == symbolField) ==> Holding(t', v, x) == Holding(s.portfolio, v, x))
  {
    var h := Holding(s.portfolio, u, symbolField).value;
    var n := ParseInt(sharesField).value;
    var price := lookup(symbolField).value.price;
    var t' := SellShares(s, u, symbolField, sharesField, lookup).state.portfolio;
    assert t' == SoldRows(s.portfolio, u, symbolField, h.shares - n, price);
    SoldRowsHolding(s.portfolio, u, symbolField, h.shares - n, price, u, symbolField);
    forall v, x | !(v == u && x == symbolField) ensures Holding(t', v, x) == Holding(s.portfolio, v, x) {
      SoldRowsHolding(s.portfolio, u, symbolField, h.shares - n, price, v, x);
    }
  }

  // ---------------------------------------------------------------- the invariant

  lemma RegisterKeepsGood(s: State, username: string, password: string, confirmation: string, hash: string -> string)
    requires Good(s)
    ensures Good(RegisterUser(s, username, password, confirmation, hash).state)
  {
    var r := RegisterUser(s, username, password, confirmation, hash);
    if r.outcome.Done? {
      assert s.nextId !in s.users;
      forall a, b | SameName(r.state.users, a, b) ensures a == b {
        if a != s.nextId && b != s.nextId {
          assert SameName(s.users, a, b);
        }
      }
    }
  }

  lemma DepositKeepsGood(s: State, u: UserId, add: string)
    requires Good(s) && u in s.users
    ensures Good(DepositFunds(s, u, add).state)
  {
    var r := DepositFunds(s, u, add);
    if r.outcome.Done? {
      NamesKept(s.users, r.state.users);
    }
  }

  /** Accounts that keep their usernames keep them distinct. */
  lemma NamesKept(users: map<UserId, Account>, users': map<UserId, Account>)
    requires forall a, b :: SameName(users, a, b) ==> a == b
    requires users'.Keys == users.Keys
    requires forall a :: a in users ==> users'[a].username == users[a].username
    ensures forall a, b :: SameName(users', a, b) ==> a == b
  {
    forall a, b | SameName(users', a, b) ensures a == b {
      assert SameName(users, a, b);
    }
  }

  lemma BuyKeepsGood(s: State, u: UserId, symbolField: string, sharesField: string, lookup: Lookup)
    requires Good(s) && u in s.users
    ensures Good(BuyShares(s, u, symbolField, sharesField, lookup).state)
  {
    var r := BuyShares(s, u, symbolField, sharesField, lookup);
    if r.outcome.Done? {
      BoughtRowsKeepKeys(s.portfolio, u, lookup(symbolField).value.symbol, DecimalValue(sharesField),
                         ExecutionQuote(symbolField, lookup).value.price, s.users.Keys);
      TradeKeepsGood(s, r.state, u);
    }
  }

  /** A buy keeps one row per key and adds no row of an unknown user. */
  lemma BoughtRowsKeepKeys(t: seq<Row>, u: UserId, symbol: string, n: nat, price: real, ids: set<UserId>)
    requires UniqueKeys(t) && RowsOf(t, ids) && u in ids
    ensures UniqueKeys(BoughtRows(t, u, symbol, n, price)) && RowsOf(BoughtRows(t, u, symbol, n, price), ids)
  {
    match Holding(t, u, symbol)
    case Some(h) =>
      UniqueMapRows(t, AddShares(u, symbol, h.shares + n, price, Worth(n, price)));
      MapRowsAt(t, AddShares(u, symbol, h.shares + n, price, Worth(n, price)));
    case None =>
      UniqueAppend(t, Row(u, symbol, n, price, Worth(n, price)));
  }

  /** A sale keeps one row per key and adds no row of an unknown user. */
  lemma SoldRowsKeepKeys(t: seq<Row>, u: UserId, symbol: string, rest: nat, price: real, ids: set<UserId>)
    requires UniqueKeys(t) && RowsOf(t, ids)
    ensures UniqueKeys(SoldRows(t, u, symbol, rest, price)) && RowsOf(SoldRows(t, u, symbol, rest, price), ids)
  {
    var t' := SoldRows(t, u, symbol, rest, price);
    if rest == 0 {
      UniqueDelete(t, u, symbol);
      DeleteMembers(t, u, symbol);
      forall i | 0 <= i < |t'| ensures t'[i].userId in ids {
        assert t'[i] in t;
      }
    } else {
      UniqueMapRows(t, SetShares(u, symbol, rest, Worth(rest, price)));
      MapRowsAt(t, SetShares(u, symbol, rest, Worth(rest, price)));
    }
  }

  lemma SellKeepsGood(s: State, u: UserId, symbolField: string, sharesField: string, lookup: Lookup)
    requires Good(s) && u in s.users
    ensures Good(SellShares(s, u, symbolField, sharesField, lookup).state)
  {
    var r := SellShares(s, u, symbolField, sharesField, lookup);
    if r.outcome.Done? {
      var held := Holding(s.portfolio, u, symbolField).value.shares;
      var n := ParseInt(sharesField).value;
      var price := lookup(symbolField).value.price;
      SoldRowsKeepKeys(s.portfolio, u, symbolField, held - n, price, s.users.Keys);
      WorthNonNegative(n, price);
      TradeKeepsGood(s, r.state, u);
    }
  }

  /** A trade changes only the trader's cash (keeping it non-negative), the portfolio (keeping
      its keys unique and its users known) and the log (appending an entry of the trader). */
  lemma TradeKeepsGood(s: State, s': State, u: UserId)
    requires Good(s) && u in s.users
    requires u in s'.users && s'.users == s.users[u := s.users[u].(cash := s'.users[u].cash)] && s'.users[u].cash >= 0.0
    requires s'.nextId == s.nextId
    requires UniqueKeys(s'.portfolio) && RowsOf(s'.portfolio, s.users.Keys)
    requires |s'.log| == |s.log| + 1 && s'.log[..|s.log|] == s.log && s'.log[|s.log|].userId == u
    ensures Good(s')
  {
    NamesKept(s.users, s'.users);
    forall i | 0 <= i < |s'.log| ensures s'.log[i].userId in s'.users {
      if i < |s.log| {
        assert s'.log[i] == s.log[i];
      }
    }
  }

  lemma RefreshKeepsGood(s: State, u: UserId, lookup: Lookup)
    requires Good(s) && u in s.users
    ensures Good(RefreshPortfolio(s, u, lookup).state)
  {
    var t := RefreshPortfolio(s, u, lookup).state.portfolio;
    forall i, j | 0 <= i < j < |t| ensures !IsKey(t[j], t[i].userId, t[i].stock) {
      assert SameHolding(t[i], s.portfolio[i]) && SameHolding(t[j], s.portfolio[j]);
    }
    forall i | 0 <= i < |t| ensures t[i].userId in s.users {
      assert SameHolding(t[i], s.portfolio[i]);
    }
  }

  /** One request as it reaches the application: the session's user id, the form fields, and
      the quote service and password hasher as they answer during that request. */
  datatype Request =
    | RegisterRequest(username: string, password: string, confirmation: string, hash: string -> string)
    | DepositRequest(u: UserId, add: string)
    | BuyRequest(u: UserId, symbol: string, shares: string, lookup: Lookup)
    | SellRequest(u: UserId, symbol: string, shares: string, lookup: Lookup)
    | IndexRequest(u: UserId, lookup: Lookup)
    | HistoryRequest(u: UserId)

  /** The tables after one request. A logged-in session always names an existing account;
      a request naming any other id is not one the application can receive, and changes nothing. */
  function Handle(s: State, req: Request): State {
    match req
    case RegisterRequest(name, password, confirmation, hash) => RegisterUser(s, name, password, confirmation, hash).state
    case DepositRequest(u, add) => if u in s.users then DepositFunds(s, u, add).state else s
    case BuyRequest(u, symbol, shares, lookup) => if u in s.users then BuyShares(s, u, symbol, shares, lookup).state else s
    case SellRequest(u, symbol, shares, lookup) => if u in s.users then SellShares(s, u, symbol, shares, lookup).state else s
    case IndexRequest(u, lookup) => if u in s.users then RefreshPortfolio(s, u, lookup).state else s
    case HistoryRequest(_) => s
  }

  /** The tables after a sequence of requests, one after the other. */
  function Run(s: State, reqs: seq<Request>): State
    decreases |reqs|
  {
    if reqs == [] then s else Run(Handle(s, reqs[0]), reqs[1..])
  }

  lemma HandleKeepsGood(s: State, req: Request)
    requires Good(s)
    ensures Good(Handle(s, req))
  {
    match req
    case RegisterRequest(name, password, confirmation, hash) => RegisterKeepsGood(s, name, password, confirmation, hash);
    case DepositRequest(u, add) => if u in s.users { DepositKeepsGood(s, u, add); }
    case BuyRequest(u, symbol, shares, lookup) => if u in s.users { BuyKeepsGood(s, u, symbol, shares, lookup); }
    case SellRequest(u, symbol, shares, lookup) => if u in s.users { SellKeepsGood(s, u, symbol, shares, lookup); }
    case IndexRequest(u, lookup) => if u in s.users { RefreshKeepsGood(s, u, lookup); }
    case HistoryRequest(_) =>
  }

  /** From a fresh database, after any sequence of requests, every account's cash is non-negative
      and each user has at most one row per stock. */
  lemma {:induction false} RunKeepsGood(s: State, reqs: seq<Request>)
    requires Good(s)
    ensures Good(Run(s, reqs))
    ensures forall id :: id in Run(s, reqs).users ==> Run(s, reqs).users[id].cash >= 0.0
    ensures UniqueKeys(Run(s, reqs).portfolio)
    decreases |reqs|
  {
    if reqs != [] {
      HandleKeepsGood(s, reqs[0]);
      RunKeepsGood(Handle(s, reqs[0]), reqs[1..]);
    }
  }

  // ---------------------------------------------------------------- the valuation refresh

  /** A complete refresh writes, on every row of every user, the quote of the row's stock and a
      total of the refreshing user's shares of it times that quote, when that user holds the
      stock; rows of stocks the user does not hold are untouched. The user's own rows therefore
      end up with total = shares × price, and the market value is the sum of their totals. */
  lemma RefreshValuesHoldings(s: State, u: UserId, lookup: Lookup)
    requires Good(s) && u in s.users
    requires RefreshPortfolio(s, u, lookup).outcome.Done?
    ensures var t, t' := s.portfolio, RefreshPortfolio(s, u, lookup).state.portfolio;
            && (forall i :: 0 <= i < |t| && Holding(t, u, t[i].stock).None? ==> t'[i] == t[i])
            && (forall i :: 0 <= i < |t| && Holding(t, u, t[i].stock).Some? ==>
                  lookup(t[i].stock).Some? &&
                  t'[i] == t[i].(currentPrice := PriceOf(lookup, t[i].stock),
                                 total := Worth(Holding(t, u, t[i].stock).value.shares, PriceOf(lookup, t[i].stock))))
  {
    var t, t' := s.portfolio, RefreshPortfolio(s, u, lookup).state.portfolio;
    assert t' == RefreshPrefix(t, UserRows(t, u), lookup);
    forall i | 0 <= i < |t|
      ensures Holding(t, u, t[i].stock).None? ==> t'[i] == t[i]
      ensures Holding(t, u, t[i].stock).Some? ==>
                lookup(t[i].stock).Some? &&
                t'[i] ==
                t[i].(currentPrice := PriceOf(lookup, t[i].stock),
                      total := Worth(Holding(t, u, t[i].stock).value.shares, PriceOf(lookup, t[i].stock)))
    {
      if Holding(t, u, t[i].stock).None? {
        RefreshAllMiss(t, u, lookup, i);
      } else {
        RefreshAllHit(t, u, lookup, i);
      }
    }
  }

  /** After a complete refresh the user's own rows are their old rows revalued (total = shares ×
      quote), in the same order, and the market value shown is the sum of their totals. */
  lemma RefreshRevaluesOwnRows(s: State, u: UserId, lookup: Lookup)
    requires Good(s) && u in s.users
    requires RefreshPortfolio(s, u, lookup).outcome.Done?
    ensures var r := RefreshPortfolio(s, u, lookup);
            && |r.outcome.value.rows| == |UserRows(s.portfolio, u)|
            && (forall j :: 0 <= j < |r.outcome.value.rows| ==>
                  lookup(UserRows(s.portfolio, u)[j].stock).Some? &&
                  r.outcome.value.rows[j] == Revalued(UserRows(s.portfolio, u)[j], lookup))
            && r.outcome.value.marketValue == SumTotals(r.outcome.value.rows)
  {
    var t := s.portfolio;
    var t' := RefreshPrefix(t, UserRows(t, u), lookup);
    RefreshAllOwn(t, u, lookup);
    RefreshPrefixHoldings(t, UserRows(t, u), lookup);
    UserRowsRevalued(t, t', u, lookup);
    SumRevalued(UserRows(t', u), UserRows(t, u), lookup);
  }

  /** The refresh fails exactly when the quote service does not resolve one of the user's stocks. */
  lemma RefreshFaultsOnUnquotedHolding(s: State, u: UserId, lookup: Lookup)
    requires u in s.users
    ensures RefreshPortfolio(s, u, lookup).outcome.Fault? <==>
            exists i :: 0 <= i < |s.portfolio| && s.portfolio[i].userId == u && lookup(s.portfolio[i].stock).None?
  {
    var holdings := UserRows(s.portfolio, u);
    var k := FirstUnquoted(holdings, lookup);
    UserRowsMembers(s.portfolio, u);
    if k < |holdings| {
      assert holdings[k] in s.portfolio;
    } else {
      assert holdings[..k] == holdings;
      forall i | 0 <= i < |s.portfolio| && s.portfolio[i].userId == u
        ensures lookup(s.portfolio[i].stock).Some?
      {
        assert s.portfolio[i] in holdings;
      }
    }
  }

  /** Two users hold AAPL, 10 and 3 shares, both rows last valued at 100. When the first views
      the index page at a quote of 150, the second's row is written with the first's total:
      1500 rather than 3 × 150 = 450. */
  lemma RefreshOverwritesOtherUsersTotal()
    ensures var s := State(map[1 := Account("ann", "h1", 0.0), 2 := Account("bob", "h2", 0.0)], 3,
                           [Row(1, "AAPL", 10, 100.0, 1000.0), Row(2, "AAPL", 3, 100.0, 300.0)], []);
            var lookup: Lookup := (symbol: string) => Some(Quote(symbol, 150.0));
            var r := RefreshPortfolio(s, 1, lookup);
            && r.outcome.Done?
            && r.state.portfolio[1] == Row(2, "AAPL", 3, 150.0, 1500.0)
            && r.state.portfolio[1].total != Worth(r.state.portfolio[1].shares, r.state.portfolio[1].currentPrice)
  {
    var s := State(map[1 := Account("ann", "h1", 0.0), 2 := Account("bob", "h2", 0.0)], 3,
                   [Row(1, "AAPL", 10, 100.0, 1000.0), Row(2, "AAPL", 3, 100.0, 300.0)], []);
    var lookup: Lookup := (symbol: string) => Some(Quote(symbol, 150.0));
    RefreshFaultsOnUnquotedHolding(s, 1, lookup);
    HoldingOfRow(s.portfolio, 0);
    RefreshAllHit(s.portfolio, 1, lookup, 1);
    WorthIsProduct(10, 150.0);
    WorthIsProduct(3, 150.0);
  }

  // ---------------------------------------------------------------- history

  /** The newest transaction comes first: appending a transaction puts it at the head of its
      user's history and leaves every other user's history alone. */
  lemma HistoryNewestFirst(log: seq<Tx>, tx: Tx, u: UserId)
    ensures History(log + [tx], u) == if tx.userId == u then [tx] + History(log, u) else History(log, u)
  {
    assert (log + [tx])[..|log|] == log;
  }

  /** A successful sale adds exactly one entry, at the head of the user's history. */
  lemma TradeHeadsHistory(s: State, u: UserId, symbolField: string, sharesField: string, lookup: Lookup)
    requires u in s.users
    requires SellShares(s, u, symbolField, sharesField, lookup).outcome.Done?
    ensures var r := SellShares(s, u, symbolField, sharesField, lookup);
            History(r.state.log, u) ==
            [Tx(u, Kind.Sell, Some(symbolField), Some(ParseInt(sharesField).value), lookup(symbolField).value.price)]
            + History(s.log, u)
  {
    var r := SellShares(s, u, symbolField, sharesField, lookup);
    HistoryNewestFirst(s.log, r.state.log[|s.log|], u);
  }

  // ---------------------------------------------------------------- round trip

  /** Selling exactly the shares held deletes the holding. */
  lemma SellAllDeletesHolding(s: State, u: UserId, symbol: string, sharesField: string, lookup: Lookup)
    requires u in s.users && symbol != "" && lookup(symbol).Some?
    requires Holding(s.portfolio, u, symbol).Some? && Holding(s.portfolio, u, symbol).value.shares > 0
    requires ParseInt(sharesField) == Some(Holding(s.portfolio, u, symbol).value.shares)
    ensures SellShares(s, u, symbol, sharesField, lookup).outcome.Done?
    ensures SellShares(s, u, symbol, sharesField, lookup).state.portfolio == DeleteHolding(s.portfolio, u, symbol)
    ensures Holding(SellShares(s, u, symbol, sharesField, lookup).state.portfolio, u, symbol).None?
  {
    DeleteRemoves(s.portfolio, u, symbol);
  }

  /** Buying n shares of a stock not yet held and then selling the same n shares at the same
      quote gives back exactly the cash paid and the portfolio as it was, and logs the buy and
      the sale. */
  lemma BuyThenSellRoundTrip(s: State, u: UserId, symbol: string, n: nat, lookup: Lookup)
    requires u in s.users
    requires n > 0 && symbol != ""
    requires lookup(symbol).Some? && lookup(symbol).value.symbol == symbol
    requires Holding(s.portfolio, u, symbol).None?
    requires BuyShares(s, u, symbol, Digits(n), lookup).outcome.Done?
    ensures var bought := BuyShares(s, u, symbol, Digits(n), lookup).state;
            var sold := SellShares(bought, u, symbol, Digits(n), lookup);
            var price := lookup(symbol).value.price;
            && sold.outcome.Done?
            && sold.state.users == s.users
            && sold.state.portfolio == s.portfolio
            && sold.state.log == s.log + [Tx(u, Kind.Buy, Some(symbol), Some(n), price),
                                          Tx(u, Kind.Sell, Some(symbol), Some(n), price)]
  {
    DigitsRoundTrip(n);
    BuyThenSellRestoresCash(s, u, symbol, n, lookup);
    var price := lookup(symbol).value.price;
    var row := Row(u, symbol, n, price, Worth(n, price));
    var bought := BuyShares(s, u, symbol, Digits(n), lookup).state;
    assert bought.portfolio == s.portfolio + [row];
    HoldingAppend(s.portfolio, row, u, symbol);
    SellAllDeletesHolding(bought, u, symbol, Digits(n), lookup);
    HoldingFound(s.portfolio, u, symbol);
    DeleteAbsent(s.portfolio, u, symbol);
    assert (s.portfolio + [row])[..|s.portfolio|] == s.portfolio;
  }

  /** Buying n shares of any quoted stock and then selling the same n at the same quote gives
      back exactly the cash paid and leaves the user's share count as it was; only a holding of
      0 shares (opened by a zero-share buy) is deleted instead, since the sale sells all of it. */
  lemma BuyThenSellRestoresCash(s: State, u: UserId, symbol: string, n: nat, lookup: Lookup)
    requires u in s.users
    requires n > 0 && symbol != ""
    requires lookup(symbol).Some? && lookup(symbol).value.symbol == symbol
    requires BuyShares(s, u, symbol, Digits(n), lookup).outcome.Done?
    ensures var bought := BuyShares(s, u, symbol, Digits(n), lookup).state;
            var sold := SellShares(bought, u, symbol, Digits(n), lookup);
            && sold.outcome.Done?
            && sold.state.users == s.users
            && (Holding(sold.state.portfolio, u, symbol).Some? <==>
                  Holding(s.portfolio, u, symbol).Some? && Holding(s.portfolio, u, symbol).value.shares > 0)
            && (Holding(sold.state.portfolio, u, symbol).Some? ==>
                  Holding(sold.state.portfolio, u, symbol).value.shares == Holding(s.portfolio, u, symbol).value.shares)
  {
    DigitsRoundTrip(n);
    var price := lookup(symbol).value.price;
    var bought := BuyShares(s, u, symbol, Digits(n), lookup).state;
    assert bought.portfolio == BoughtRows(s.portfolio, u, symbol, n, price);
    BoughtRowsHolding(s.portfolio, u, symbol, n, price, u, symbol);
    var before := if Holding(s.portfolio, u, symbol).Some? then Holding(s.portfolio, u, symbol).value.shares else 0;
    assert Holding(bought.portfolio, u, symbol).value.shares == before + n;
    var sold := SellShares(bought, u, symbol, Digits(n), lookup);
    assert sold.outcome.Done?;
    assert sold.state.portfolio == SoldRows(bought.portfolio, u, symbol, before, price);
    SoldRowsHolding(bought.portfolio, u, symbol, before, price, u, symbol);
    assert sold.state.users[u] == s.users[u];
  }

  // ---------------------------------------------------------------- scenarios

  /** An account with 10000 buys 10 AAPL at 150: 8500 left, one row of 10 shares worth 1500,
      one `buy` logged. It then sells the 10 at 160: 10100, no row, a `sell` logged. */
  lemma BuyAndSellAapl()
    ensures var s := State(map[1 := Account("ann", "h", 10000.0)], 2, [], []);
            var at150: Lookup := (symbol: string) => if symbol == "AAPL" then Some(Quote("AAPL", 150.0)) else None;
            var at160: Lookup := (symbol: string) => if symbol == "AAPL" then Some(Quote("AAPL", 160.0)) else None;
            var b := BuyShares(s, 1, "AAPL", "10", at150);
            var v := SellShares(b.state, 1, "AAPL", "10", at160);
            && b.outcome.Done?
            && b.state.users[1].cash == 8500.0
            && b.state.portfolio == [Row(1, "AAPL", 10, 150.0, 1500.0)]
            && b.state.log == [Tx(1, Kind.Buy, Some("AAPL"), Some(10), 150.0)]
            && v.outcome.Done?
            && v.state.users[1].cash == 10100.0
            && v.state.portfolio == []
            && v.state.log == [Tx(1, Kind.Buy, Some("AAPL"), Some(10), 150.0), Tx(1, Kind.Sell, Some("AAPL"), Some(10), 160.0)]
  {
    var ten := "10";
    assert IsNumeric(ten) && DecimalValue(ten) == 10 by {
      assert ten[..1] == "1";
    }
    var row := Row(1, "AAPL", 10, 150.0, 1500.0);
    assert DeleteHolding([row], 1, "AAPL") == [] by {
      assert [row][..0] == [];
    }
  }

  /** Selling more shares than held is refused and changes nothing. */
  lemma OversellRejected(s: State, u: UserId, symbolField: string, n: nat, lookup: Lookup)
    requires u in s.users && symbolField != ""
    requires lookup(symbolField).Some? && Holding(s.portfolio, u, symbolField).Some?
    requires n > Holding(s.portfolio, u, symbolField).value.shares
    ensures SellShares(s, u, symbolField, Digits(n), lookup) == Step(Rejected(TooManyShares), s)
  {
    DigitsRoundTrip(n);
  }

  // ---------------------------------------------------------------- the checks as written

  /** "00" passes both the numeric check and the comparison with "0": the deposit succeeds,
      adds nothing to cash, and still logs a deposit of 0. */
  lemma DoubleZeroDeposit(s: State, u: UserId)
    requires u in s.users
    ensures var r := DepositFunds(s, u, "00");
            && r.outcome.Done?
            && r.state.users == s.users
            && r.state.log == s.log + [Tx(u, Kind.Deposit, None, None, 0.0)]
  {
    DecimalValueZero("00");
  }

  /** Every amount from 1 to 10000 written in digits is accepted and credited in full; "0" and
      anything above 10000 are refused. */
  lemma DepositBounds(s: State, u: UserId, n: nat)
    requires u in s.users
    ensures DepositFunds(s, u, "0") == Step(Rejected(InvalidAmount), s)
    ensures 1 <= n <= MAX_DEPOSIT ==>
              DepositFunds(s, u, Digits(n)).outcome.Done? &&
              DepositFunds(s, u, Digits(n)).state.users[u].cash == s.users[u].cash + n as real
    ensures n > MAX_DEPOSIT ==> DepositFunds(s, u, Digits(n)) == Step(Rejected(DepositTooLarge), s)
  {
    DigitsRoundTrip(n);
    assert DecimalValue("0") == 0;
  }

  /** "0" passes the numeric check of `buy`: a zero-share order of a stock not held succeeds,
      costs nothing, opens a holding of 0 shares and logs a `buy` of 0. */
  lemma ZeroShareBuyOpensEmptyHolding(s: State, u: UserId, symbol: string, lookup: Lookup)
    requires u in s.users && s.users[u].cash >= 0.0 && symbol != ""
    requires lookup(symbol).Some? && lookup(symbol).value.symbol == symbol
    requires Holding(s.portfolio, u, symbol).None?
    ensures var r := BuyShares(s, u, symbol, "0", lookup);
            var price := lookup(symbol).value.price;
            && r.outcome.Done?
            && r.state.users == s.users
            && r.state.portfolio == s.portfolio + [Row(u, symbol, 0, price, 0.0)]
            && Holding(r.state.portfolio, u, symbol) == Some(Row(u, symbol, 0, price, 0.0))
            && r.state.log == s.log + [Tx(u, Kind.Buy, Some(symbol), Some(0), price)]
  {
    var r := BuyShares(s, u, symbol, "0", lookup);
    var price := lookup(symbol).value.price;
    assert DecimalValue("0") == 0;
    assert r.state.portfolio == BoughtRows(s.portfolio, u, symbol, 0, price);
    var row := Row(u, symbol, 0, price, 0.0);
    assert Worth(0, price) == 0.0;
    assert BoughtRows(s.portfolio, u, symbol, 0, price) == s.portfolio + [row];
    HoldingAppend(s.portfolio, row, u, symbol);
  }

  /** A holding of 0 shares can never be sold, and so never leaves the portfolio: every share
      count is either not positive or more than the 0 held. */
  lemma EmptyHoldingStays(s: State, u: UserId, symbol: string, sharesField: string, lookup: Lookup)
    requires u in s.users
    requires Holding(s.portfolio, u, symbol).Some? && Holding(s.portfolio, u, symbol).value.shares == 0
    ensures !SellShares(s, u, symbol, sharesField, lookup).outcome.Done?
    ensures SellShares(s, u, symbol, sharesField, lookup).state == s
  {
  }
}
