/**
 * The application object: the three tables as fields that the handlers update in
 * place, one method per handler that changes them, and the two read loops the
 * handlers run (`sell`'s list of owned stocks and `index`'s valuation loop).
 * Each method is proved to do exactly what the matching Ledger step says, and to
 * keep the Ledger invariant.
 */
module App {
  import opened Wrappers
  import opened Forms
  import opened Tables
  import opened Ledger
  import opened LedgerProperties

  class Finance {
    /** `users`, keyed by id. */
    var users: map<UserId, Account>
    /** The id SQLite gives the next inserted user. */
    var nextId: UserId
    /** `portfolio`, in insertion order. */
    var portfolio: seq<Row>
    /** `transactions`, oldest first. */
    var transactions: seq<Tx>

    /** The tables as a Ledger value. */
    ghost function Snapshot(): State
      reads this
    {
      State(users, nextId, portfolio, transactions)
    }

    ghost predicate Valid()
      reads this
    {
      Good(Snapshot())
    }

    /** A fresh database: no users, no holdings, no transactions. */
    constructor ()
      ensures Snapshot() == Empty()
      ensures Valid()
    {
      users := map[];
      nextId := 1;
      portfolio := [];
      transactions := [];
      EmptyIsGood();
    }

    /** `register` POST (app.py:222-241). */
    method Register(username: string, password: string, confirmation: string, hash: string -> string)
      returns (outcome: Outcome<()>)
      requires Valid()
      modifies this
      ensures Step(outcome, Snapshot()) == RegisterUser(old(Snapshot()), username, password, confirmation, hash)
      ensures Valid()
    {
      ghost var start := Snapshot();
      var rejection := RegisterCheck(IsTaken(users, username), username, password, confirmation);
      if rejection.Some? {
        return Rejected(rejection.value);
      }
      users := users[nextId := Account(username, hash(password), INITIAL_CASH)];
      nextId := nextId + 1;
      RegisterKeepsGood(start, username, password, confirmation, hash);
      outcome := Done(());
    }

    /** `account` POST (app.py:77-90) for the logged-in user `u`. */
    method Deposit(u: UserId, add: string) returns (outcome: Outcome<()>)
      requires Valid() && u in users
      modifies this
      ensures Step(outcome, Snapshot()) == DepositFunds(old(Snapshot()), u, add)
      ensures Valid()
    {
      ghost var start := Snapshot();
      var rejection := DepositCheck(add);
      if rejection.Some? {
        return Rejected(rejection.value);
      }
      var funds := DecimalValue(add);
      users := users[u := users[u].(cash := users[u].cash + funds as real)];
      transactions := transactions + [Tx(u, Kind.Deposit, None, None, funds as real)];
      DepositKeepsGood(start, u, add);
      outcome := Done(());
    }

    /** `buy` POST (app.py:103-152) for the logged-in user `u`. */
    method Buy(u: UserId, symbolField: string, sharesField: string, lookup: Lookup) returns (outcome: Outcome<()>)
      requires Valid() && u in users
      modifies this
      ensures Step(outcome, Snapshot()) == BuyShares(old(Snapshot()), u, symbolField, sharesField, lookup)
      ensures Valid()
    {
      ghost var start := Snapshot();
      var cash := users[u].cash;
      var quote := lookup(symbolField);
      var rejection := BuyCheck(sharesField, quote);
      if rejection.Some? {
        return Rejected(rejection.value);
      }
      var symbol := quote.value.symbol;
      var query := Holding(portfolio, u, symbol);
      var current := lookup(symbol);
      if current.None? {
        return Fault;
      }
      var price := current.value.price;
      var currentShares := if query.Some? then query.value.shares else 0;
      var ordered := DecimalValue(sharesField);
      var totalShares := currentShares + ordered;
      var cost := Worth(ordered, price);
      if cost > cash {
        return Rejected(NotEnoughMoney);
      }
      users := users[u := users[u].(cash := cash - cost)];
      transactions := transactions + [Tx(u, Kind.Buy, Some(symbol), Some(ordered), price)];
      if query.Some? {
        portfolio := MapRows(portfolio, AddShares(u, symbol, totalShares, price, cost));
      } else {
        portfolio := portfolio + [Row(u, symbol, ordered, price, cost)];
      }
      assert portfolio == BoughtRows(start.portfolio, u, symbol, ordered, price);
      BuyKeepsGood(start, u, symbolField, sharesField, lookup);
      outcome := Done(());
    }

    /** The loop at the top of `sell` (app.py:252-255): the stock column of the user's rows. */
    method ListOfStocks(u: UserId) returns (owned: seq<string>)
      ensures owned == Stocks(UserRows(portfolio, u))
    {
      var rows := UserRows(portfolio, u);
      owned := [];
      var i := 0;
      while i < |rows|
        invariant 0 <= i <= |rows|
        invariant |owned| == i
        invariant forall k :: 0 <= k < i ==> owned[k] == rows[k].stock
      {
        owned := owned + [rows[i].stock];
        i := i + 1;
      }
    }

    /** `sell` POST (app.py:260-294) for the logged-in user `u`. */
    method Sell(u: UserId, symbolField: string, sharesField: string, lookup: Lookup) returns (outcome: Outcome<()>)
      requires Valid() && u in users
      modifies this
      ensures Step(outcome, Snapshot()) == SellShares(old(Snapshot()), u, symbolField, sharesField, lookup)
      ensures Valid()
    {
      ghost var start := Snapshot();
      var owned := ListOfStocks(u);
      var cash := users[u].cash;
      var parsed := ParseInt(sharesField);
      if parsed.None? {
        return Fault;
      }
      var shares := parsed.value;
      var quote := lookup(symbolField);
      if quote.None? {
        return Fault;
      }
      var priceOfShare := quote.value.price;
      var held := Holding(portfolio, u, symbolField);
      if held.None? {
        return Fault;
      }
      var currentShares := held.value.shares;
      var rejection := SellCheck(symbolField, sharesField, shares, owned, currentShares);
      if rejection.Some? {
        return Rejected(rejection.value);
      }
      SellSucceeds(start, u, symbolField, sharesField, lookup);
      var newShares := currentShares - shares;
      var newTotal := Worth(newShares, priceOfShare);
      transactions := transactions + [Tx(u, Kind.Sell, Some(symbolField), Some(shares), priceOfShare)];
      users := users[u := users[u].(cash := cash + Worth(shares, lookup(symbolField).value.price))];
      if currentShares == shares {
        portfolio := DeleteHolding(portfolio, u, symbolField);
      } else {
        portfolio := MapRows(portfolio, SetShares(u, symbolField, newShares, newTotal));
      }
      assert portfolio == SoldRows(start.portfolio, u, symbolField, newShares, priceOfShare);
      SellKeepsGood(start, u, symbolField, sharesField, lookup);
      outcome := Done(());
    }

    /** `index` (app.py:47-66) for the logged-in user `u`: reprice the user's holdings in table
        order, summing their market value, then read back cash and rows. */
    method Index(u: UserId, lookup: Lookup) returns (outcome: Outcome<Page>)
      requires Valid() && u in users
      modifies this
      ensures Step(outcome, Snapshot()) == RefreshPortfolio(old(Snapshot()), u, lookup)
      ensures Valid()
    {
      ghost var start := Snapshot();
      var marketValue := 0.0;
      var holdings := UserRows(portfolio, u);
      ghost var before := portfolio;
      var i := 0;
      while i < |holdings|
        invariant 0 <= i <= |holdings|
        invariant AllQuoted(holdings[..i], lookup)
        invariant portfolio == RefreshPrefix(before, holdings[..i], lookup)
        invariant marketValue == MarketValue(holdings[..i], lookup)
        invariant users == old(users) && nextId == old(nextId) && transactions == old(transactions)
      {
        var symbol := holdings[i].stock;
        var shares := holdings[i].shares;
        var quote := lookup(symbol);
        if quote.None? {
          FirstUnquotedAt(holdings, lookup, i);
          RefreshKeepsGood(start, u, lookup);
          return Fault;
        }
        var currentPrice := quote.value.price;
        var total := Worth(shares, currentPrice);
        marketValue := marketValue + total;
        portfolio := MapRows(portfolio, Reprice(symbol, currentPrice, total));
        RefreshStep(before, holdings, lookup, i);
        i := i + 1;
      }
      FirstUnquotedAt(holdings, lookup, i);
      assert holdings[..i] == holdings;
      RefreshKeepsGood(start, u, lookup);
      outcome := Done(Page(users[u].cash, UserRows(portfolio, u), marketValue));
    }
  }
}
