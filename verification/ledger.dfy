/**
 * The ledger as a value: the three tables, the invariant they keep, and what
 * each request handler does to them, as one pure step per handler
 * (`register`, `account` POST, `buy` POST, `sell` POST, `index`, `history`).
 * Each step returns the handler's outcome and the tables after it.
 */
module Ledger {
  import opened Wrappers
  import opened Forms
  import opened Tables

  /** The `cash` column's default for a new account. */
  const INITIAL_CASH: real := 10000.0

  /** The largest amount one deposit may add. */
  const MAX_DEPOSIT: nat := 10000

  /** `users` keyed by id, the next id SQLite will hand out, `portfolio`, and `transactions`
      in insertion order. */
  datatype State = State(users: map<UserId, Account>, nextId: UserId, portfolio: seq<Row>, log: seq<Tx>)

  /** The apologies the handlers answer with. */
  datatype Rejection =
    | InvalidAmount | DepositTooLarge
    | InvalidShares | InvalidSymbol | NotEnoughMoney
    | NoStockSelected | NotOwned | TooManyShares
    | UsernameTaken | MissingUsername | MissingPassword | MissingConfirmation | PasswordMismatch

  /** A handler either completes, answers with an apology, or raises (an HTTP 500). */
  datatype Outcome<T> = Done(value: T) | Rejected(reason: Rejection) | Fault

  datatype Step<T> = Step(outcome: Outcome<T>, state: State)

  /** What `index` renders: the user's cash, their refreshed rows and the market value. */
  datatype Page = Page(cash: real, rows: seq<Row>, marketValue: real)

  function Empty(): State {
    State(map[], 1, [], [])
  }

  /** What every step preserves: ids below the next id, cash never negative, usernames present
      and unique, one portfolio row per (user, stock), and rows and log entries of known users. */
  ghost predicate Good(s: State) {
    && (forall id :: id in s.users ==> id < s.nextId)
    && (forall id :: id in s.users ==> s.users[id].cash >= 0.0 && s.users[id].username != "")
    && (forall a, b :: SameName(s.users, a, b) ==> a == b)
    && UniqueKeys(s.portfolio)
    && RowsOf(s.portfolio, s.users.Keys)
    && (forall i :: 0 <= i < |s.log| ==> s.log[i].userId in s.users)
  }

  /** Accounts `a` and `b` exist and share a username. */
  predicate SameName(users: map<UserId, Account>, a: UserId, b: UserId) {
    a in users && b in users && users[a].username == users[b].username
  }

  /** Every row belongs to one of the users `ids`. */
  ghost predicate RowsOf(t: seq<Row>, ids: set<UserId>) {
    forall i :: 0 <= i < |t| ==> t[i].userId in ids
  }

  lemma EmptyIsGood()
    ensures Good(Empty())
  {
  }

  // ---------------------------------------------------------------- register

  predicate IsTaken(users: map<UserId, Account>, name: string) {
    exists id :: id in users && users[id].username == name
  }

  /** The checks of `register`, in their order. */
  function RegisterCheck(taken: bool, username: string, password: string, confirmation: string): (r: Option<Rejection>)
    ensures r.None? <==> !taken && username != "" && password != "" && confirmation != "" && password == confirmation
    ensures r == Some(UsernameTaken) <==> taken
    ensures r == Some(MissingUsername) <==> !taken && username == ""
    ensures r == Some(MissingPassword) ==> password == ""
    ensures r == Some(MissingConfirmation) ==> confirmation == ""
    ensures r == Some(PasswordMismatch) ==> password != confirmation
  {
    if taken then Some(UsernameTaken)
    else if username == "" then Some(MissingUsername)
    else if password == "" then Some(MissingPassword)
    else if confirmation == "" then Some(MissingConfirmation)
    else if password != confirmation then Some(PasswordMismatch)
    else None
  }

  /** `register` POST: a new account under the next id, with the password's hash and the
      default cash. A missing form field reads as "". */
  function RegisterUser(s: State, username: string, password: string, confirmation: string,
                        hash: string -> string): (r: Step<()>)
    ensures !r.outcome.Fault?
    ensures r.outcome.Done? <==>
              !IsTaken(s.users, username) && username != "" && password != "" && confirmation != ""
              && password == confirmation
    ensures IsTaken(s.users, username) ==> r.outcome == Rejected(UsernameTaken)
    ensures !IsTaken(s.users, username) && username == "" ==> r.outcome == Rejected(MissingUsername)
    ensures !IsTaken(s.users, username) && username != "" && password == "" ==> r.outcome == Rejected(MissingPassword)
    ensures !IsTaken(s.users, username) && username != "" && password != "" && confirmation == "" ==>
              r.outcome == Rejected(MissingConfirmation)
    ensures !IsTaken(s.users, username) && username != "" && password != "" && confirmation != "" && password != confirmation ==>
              r.outcome == Rejected(PasswordMismatch)
    ensures !r.outcome.Done? ==> r.state == s
    ensures r.outcome.Done? ==>
              && r.state.users.Keys == s.users.Keys + {s.nextId}
              && r.state.users[s.nextId] == Account(username, hash(password), INITIAL_CASH)
              && (forall id :: id in s.users && id != s.nextId ==> r.state.users[id] == s.users[id])
              && r.state.nextId == s.nextId + 1
              && r.state.portfolio == s.portfolio && r.state.log == s.log
  {
    match RegisterCheck(IsTaken(s.users, username), username, password, confirmation)
    case Some(e) => Step(Rejected(e), s)
    case None =>
      Step(Done(()), s.(users := s.users[s.nextId := Account(username, hash(password), INITIAL_CASH)],
                        nextId := s.nextId + 1))
  }

  // ---------------------------------------------------------------- deposit

  /** The checks of the `account` POST, in their order. */
  function DepositCheck(add: string): (r: Option<Rejection>)
    ensures r.None? <==> IsNumeric(add) && add != "0" && DecimalValue(add) <= MAX_DEPOSIT
    ensures r == Some(DepositTooLarge) <==> IsNumeric(add) && DecimalValue(add) > MAX_DEPOSIT
    ensures r == Some(InvalidAmount) ==> !IsNumeric(add) || DecimalValue(add) == 0
    ensures !IsNumeric(add) || add == "0" ==> r == Some(InvalidAmount)
  {
    if !IsNumeric(add) then Some(InvalidAmount)
    else if add == "0" then Some(InvalidAmount)
    else if DecimalValue(add) > MAX_DEPOSIT then Some(DepositTooLarge)
    else None
  }

  /** `account` POST: add `funds` to the user's cash and log a deposit. */
  function DepositFunds(s: State, u: UserId, add: string): (r: Step<()>)
    requires u in s.users
    ensures !r.outcome.Fault?
    ensures r.outcome.Done? <==> IsNumeric(add) && add != "0" && DecimalValue(add) <= MAX_DEPOSIT
    ensures r.outcome == Rejected(DepositTooLarge) <==> IsNumeric(add) && DecimalValue(add) > MAX_DEPOSIT
    ensures !IsNumeric(add) || add == "0" ==> r.outcome == Rejected(InvalidAmount)
    ensures !r.outcome.Done? ==> r.state == s
    ensures r.outcome.Done? ==>
              && u in r.state.users
              && r.state.users[u].cash == s.users[u].cash + DecimalValue(add) as real
              && r.state.users == s.users[u := s.users[u].(cash := r.state.users[u].cash)]
              && r.state.log == s.log + [Tx(u, Kind.Deposit, None, None, DecimalValue(add) as real)]
              && r.state.portfolio == s.portfolio && r.state.nextId == s.nextId
  {
    match DepositCheck(add)
    case Some(e) => Step(Rejected(e), s)
    case None =>
      var funds := DecimalValue(add) as real;
      Step(Done(()), s.(users := s.users[u := s.users[u].(cash := s.users[u].cash + funds)],
                        log := s.log + [Tx(u, Kind.Deposit, None, None, funds)]))
  }

  // ---------------------------------------------------------------- buy

  /** The checks of the `buy` POST before anything is read: the share count comes first. */
  function BuyCheck(sharesField: string, quote: Option<Quote>): (r: Option<Rejection>)
    ensures r.None? <==> IsNumeric(sharesField) && quote.Some?
    ensures r == Some(InvalidShares) <==> !IsNumeric(sharesField)
    ensures r == Some(InvalidSymbol) ==> quote.None?
  {
    if !IsNumeric(sharesField) then Some(InvalidShares)
    else if quote.None? then Some(InvalidSymbol)
    else None
  }

  /** The second quote `buy` takes, on the canonical symbol the first one returned. */
  function ExecutionQuote(symbolField: string, lookup: Lookup): (q: Option<Quote>)
    ensures q.Some? ==> lookup(symbolField).Some?
    ensures lookup(symbolField).Some? && lookup(symbolField).value.symbol == symbolField ==> q == lookup(symbolField)
  {
    match lookup(symbolField)
    case None => None
    case Some(q) => lookup(q.symbol)
  }

  /** `buy` POST: pay shares × price out of cash, add the shares to the holding (or open one),
      log the buy. */
  function BuyShares(s: State, u: UserId, symbolField: string, sharesField: string, lookup: Lookup): (r: Step<()>)
    requires u in s.users
    ensures r.outcome == Rejected(InvalidShares) <==> !IsNumeric(sharesField)
    ensures r.outcome == Rejected(InvalidSymbol) <==> IsNumeric(sharesField) && lookup(symbolField).None?
    ensures r.outcome.Fault? <==>
              IsNumeric(sharesField) && lookup(symbolField).Some? && ExecutionQuote(symbolField, lookup).None?
    ensures !r.outcome.Done? ==> r.state == s
    ensures r.outcome.Done? || r.outcome == Rejected(NotEnoughMoney) ==>
              IsNumeric(sharesField) && lookup(symbolField).Some? && ExecutionQuote(symbolField, lookup).Some?
    ensures r.outcome == Rejected(NotEnoughMoney) <==>
              IsNumeric(sharesField) && ExecutionQuote(symbolField, lookup).Some? &&
              Worth(DecimalValue(sharesField), ExecutionQuote(symbolField, lookup).value.price) > s.users[u].cash
    ensures IsNumeric(sharesField) && ExecutionQuote(symbolField, lookup).Some? &&
            Worth(DecimalValue(sharesField), ExecutionQuote(symbolField, lookup).value.price) <= s.users[u].cash ==>
              r.outcome.Done?
    ensures r.outcome.Done? ==>
              var n := DecimalValue(sharesField);
              var price := ExecutionQuote(symbolField, lookup).value.price;
              && u in r.state.users
              && Worth(n, price) <= s.users[u].cash
              && r.state.users[u].cash == s.users[u].cash - Worth(n, price)
              && r.state.users[u].cash >= 0.0
              && r.state.users == s.users[u := s.users[u].(cash := r.state.users[u].cash)]
              && r.state.portfolio == BoughtRows(s.portfolio, u, lookup(symbolField).value.symbol, n, price)
              && r.state.log == s.log + [Tx(u, Kind.Buy, Some(lookup(symbolField).value.symbol), Some(n), price)]
              && r.state.nextId == s.nextId
  {
    var quote := lookup(symbolField);
    match BuyCheck(sharesField, quote)
    case Some(e) => Step(Rejected(e), s)
    case None =>
      var symbol := quote.value.symbol;
      var current := lookup(symbol);
      if current.None? then Step(Fault, s)
      else
        var price := current.value.price;
        var ordered := DecimalValue(sharesField);
        var cost := Worth(ordered, price);
        var cash := s.users[u].cash;
        if cost > cash then Step(Rejected(NotEnoughMoney), s)
        else
          Step(Done(()), s.(users := s.users[u := s.users[u].(cash := cash - cost)],
                            portfolio := BoughtRows(s.portfolio, u, symbol, ordered, price),
                            log := s.log + [Tx(u, Kind.Buy, Some(symbol), Some(ordered), price)]))
  }

  /** The portfolio after buying `n` shares at `price`: the held row gets the new share count,
      the new price and the cost added to its total; otherwise a new row is inserted. */
  function BoughtRows(t: seq<Row>, u: UserId, symbol: string, n: nat, price: real): seq<Row> {
    match Holding(t, u, symbol)
    case Some(h) => MapRows(t, AddShares(u, symbol, h.shares + n, price, Worth(n, price)))
    case None => t + [Row(u, symbol, n, price, Worth(n, price))]
  }

  // ---------------------------------------------------------------- sell

  /** The checks of the `sell` POST, in their order, once the share count, the quote and the
      held shares have been read. */
  function SellCheck(symbolField: string, sharesField: string, shares: int, owned: seq<string>, held: nat)
    : (r: Option<Rejection>)
    ensures r.None? <==> symbolField != "" && sharesField != "" && 0 < shares <= held && symbolField in owned
    ensures r == Some(InvalidShares) ==> sharesField == "" || shares <= 0
    ensures r == Some(TooManyShares) ==> shares > held
  {
    if symbolField == "" then Some(NoStockSelected)
    else if sharesField == "" then Some(InvalidShares)
    else if shares <= 0 then Some(InvalidShares)
    else if symbolField !in owned then Some(NotOwned)
    else if shares > held then Some(TooManyShares)
    else None
  }

  /** The three reads `sell` does before any check, each of which raises when it fails:
      `int()` of the share count, the quote, and the held row. */
  predicate SellReads(s: State, u: UserId, symbolField: string, sharesField: string, lookup: Lookup) {
    ParseInt(sharesField).Some? && lookup(symbolField).Some? && Holding(s.portfolio, u, symbolField).Some?
  }

  /** `sell` POST: credit shares × price, delete the holding when all of it is sold or else
      lower its shares and recompute its total, and log the sale. */
  function SellShares(s: State, u: UserId, symbolField: string, sharesField: string, lookup: Lookup): (r: Step<()>)
    requires u in s.users
    ensures r.outcome.Fault? <==> !SellReads(s, u, symbolField, sharesField, lookup)
    ensures !r.outcome.Done? ==> r.state == s
    ensures r.outcome != Rejected(NotOwned)
    ensures sharesField == "" ==> r.outcome.Fault?
    ensures SellReads(s, u, symbolField, sharesField, lookup) && symbolField != "" &&
            0 < ParseInt(sharesField).value <= Holding(s.portfolio, u, symbolField).value.shares ==>
              r.outcome.Done?
    ensures r.outcome == Rejected(NoStockSelected) <==> SellReads(s, u, symbolField, sharesField, lookup) && symbolField == ""
    ensures r.outcome == Rejected(InvalidShares) <==>
              SellReads(s, u, symbolField, sharesField, lookup) && symbolField != "" && ParseInt(sharesField).value <= 0
    ensures r.outcome == Rejected(TooManyShares) <==>
              SellReads(s, u, symbolField, sharesField, lookup) && symbolField != "" &&
              ParseInt(sharesField).value > Holding(s.portfolio, u, symbolField).value.shares
    ensures r.outcome.Done? ==>
              && SellReads(s, u, symbolField, sharesField, lookup)
              && var n := ParseInt(sharesField).value;
                 var price := lookup(symbolField).value.price;
                 && 0 < n <= Holding(s.portfolio, u, symbolField).value.shares
                 && u in r.state.users
                 && r.state.users[u].cash == s.users[u].cash + Worth(n, price)
                 && r.state.users == s.users[u := s.users[u].(cash := r.state.users[u].cash)]
                 && r.state.portfolio ==
                    SoldRows(s.portfolio, u, symbolField, Holding(s.portfolio, u, symbolField).value.shares - n, price)
                 && r.state.log == s.log + [Tx(u, Kind.Sell, Some(symbolField), Some(n), price)]
                 && r.state.nextId == s.nextId
  {
    var owned := Stocks(UserRows(s.portfolio, u));
    var parsed := ParseInt(sharesField);
    var quote := lookup(symbolField);
    var holding := Holding(s.portfolio, u, symbolField);
    if parsed.None? || quote.None? || holding.None? then Step(Fault, s)
    else
      ListedWhenHeld(s.portfolio, u, symbolField);
      var shares := parsed.value;
      var price := quote.value.price;
      var held := holding.value.shares;
      match SellCheck(symbolField, sharesField, shares, owned, held)
      case Some(e) => Step(Rejected(e), s)
      case None =>
        assert 0 < shares <= held;
        Step(Done(()), s.(users := s.users[u := s.users[u].(cash := s.users[u].cash + Worth(shares, lookup(symbolField).value.price))],
                          portfolio := SoldRows(s.portfolio, u, symbolField, held - shares, price),
                          log := s.log + [Tx(u, Kind.Sell, Some(symbolField), Some(shares), price)]))
  }

  /** A sale that passes the reads and the checks: the tables it leaves. */
  lemma SellSucceeds(s: State, u: UserId, symbolField: string, sharesField: string, lookup: Lookup)
    requires u in s.users && SellReads(s, u, symbolField, sharesField, lookup)
    requires SellCheck(symbolField, sharesField, ParseInt(sharesField).value, Stocks(UserRows(s.portfolio, u)),
                       Holding(s.portfolio, u, symbolField).value.shares).None?
    ensures var n := ParseInt(sharesField).value;
            var price := lookup(symbolField).value.price;
            var held := Holding(s.portfolio, u, symbolField).value.shares;
            n <= held &&
            SellShares(s, u, symbolField, sharesField, lookup) ==
            Step(Done(()), s.(users := s.users[u := s.users[u].(cash := s.users[u].cash + Worth(n, price))],
                              portfolio := SoldRows(s.portfolio, u, symbolField, held - n, price),
                              log := s.log + [Tx(u, Kind.Sell, Some(symbolField), Some(n), price)]))
  {
  }

  /** The portfolio after a sale at `price` that leaves `rest` shares: the holding is deleted
      when none are left, and otherwise gets the new share count and total rest × price. */
  function SoldRows(t: seq<Row>, u: UserId, symbol: string, rest: nat, price: real): seq<Row> {
    if rest == 0 then DeleteHolding(t, u, symbol)
    else MapRows(t, SetShares(u, symbol, rest, Worth(rest, price)))
  }

  // ---------------------------------------------------------------- holdings after a trade

  /** The holding a buy of `n` shares at `price` leaves, given the one before it (if any). */
  function Bought(before: Option<Row>, u: UserId, symbol: string, n: nat, price: real): Row {
    match before
    case Some(h) => h.(shares := h.shares + n, currentPrice := price, total := h.total + Worth(n, price))
    case None => Row(u, symbol, n, price, Worth(n, price))
  }

  /** The holding a sale at `price` leaves when `rest` shares remain: none once all are sold. */
  function Remaining(h: Row, rest: nat, price: real): Option<Row> {
    if rest == 0 then None else Some(h.(shares := rest, total := Worth(rest, price)))
  }

  /** A buy sets the bought holding to the old shares plus the ordered ones at the new price,
      with the cost added to its total, or opens it with total = shares × price; no other
      holding changes. */
  lemma {:induction false} BoughtRowsHolding(t: seq<Row>, u: UserId, symbol: string, n: nat, price: real, v: UserId, x: string)
    ensures Holding(BoughtRows(t, u, symbol, n, price), v, x) ==
            if v == u && x == symbol then Some(Bought(Holding(t, u, symbol), u, symbol, n, price))
            else Holding(t, v, x)
  {
    HoldingFound(t, v, x);
    match Holding(t, u, symbol)
    case Some(h) =>
      var up := AddShares(u, symbol, h.shares + n, price, Worth(n, price));
      assert BoughtRows(t, u, symbol, n, price) == MapRows(t, up);
      HoldingMapRows(t, up, v, x);
      if v == u && x == symbol {
        assert Apply(up, h) == Bought(Some(h), u, symbol, n, price);
      } else if Holding(t, v, x).Some? {
        assert Apply(up, Holding(t, v, x).value) == Holding(t, v, x).value;
      }
    case None =>
      var row := Row(u, symbol, n, price, Worth(n, price));
      assert BoughtRows(t, u, symbol, n, price) == t + [row];
      HoldingAppend(t, row, v, x);
  }

  /** A sell of every held share deletes the holding; a partial sell leaves the remaining
      shares with total = remaining × sale price and the old current price; no other holding
      changes. */
  lemma {:induction false} SoldRowsHolding(t: seq<Row>, u: UserId, symbol: string, rest: nat, price: real, v: UserId, x: string)
    requires Holding(t, u, symbol).Some?
    ensures Holding(SoldRows(t, u, symbol, rest, price), v, x) ==
            if v == u && x == symbol then Remaining(Holding(t, u, symbol).value, rest, price) else Holding(t, v, x)
  {
    if rest == 0 {
      if v == u && x == symbol {
        DeleteRemoves(t, u, symbol);
      } else {
        DeleteKeeps(t, u, symbol, v, x);
      }
    } else {
      HoldingMapRows(t, SetShares(u, symbol, rest, Worth(rest, price)), v, x);
      HoldingFound(t, v, x);
      if v == u && x == symbol {
        var h := Holding(t, u, symbol).value;
        assert Remaining(h, rest, price).value.shares == rest;
        assert Remaining(h, rest, price).value.total == Worth(rest, price);
      } else if Holding(t, v, x).Some? {
        assert !IsKey(Holding(t, v, x).value, u, symbol);
      }
    }
  }

  // ---------------------------------------------------------------- index

  /** `index`: reprice the user's holdings one by one, in table order, and add up their market
      value. A holding the quote service does not resolve raises, and the rows repriced before
      it stay repriced. */
  function RefreshPortfolio(s: State, u: UserId, lookup: Lookup): (r: Step<Page>)
    requires u in s.users
    ensures !r.outcome.Rejected?
    ensures r.state.users == s.users && r.state.nextId == s.nextId && r.state.log == s.log
    ensures |r.state.portfolio| == |s.portfolio|
    ensures forall i :: 0 <= i < |s.portfolio| ==> SameHolding(r.state.portfolio[i], s.portfolio[i])
    ensures r.outcome.Fault? ==>
              var rows := UserRows(s.portfolio, u);
              var k := FirstUnquoted(rows, lookup);
              && k < |rows| && lookup(rows[k].stock).None?
              && r.state.portfolio == RefreshPrefix(s.portfolio, rows[..k], lookup)
    ensures r.outcome.Done? ==>
              && AllQuoted(UserRows(s.portfolio, u), lookup)
              && r.state.portfolio == RefreshPrefix(s.portfolio, UserRows(s.portfolio, u), lookup)
              && r.outcome.value.cash == s.users[u].cash
              && r.outcome.value.rows == UserRows(r.state.portfolio, u)
              && r.outcome.value.marketValue == MarketValue(UserRows(s.portfolio, u), lookup)
  {
    var holdings := UserRows(s.portfolio, u);
    var k := FirstUnquoted(holdings, lookup);
    var t := RefreshPrefix(s.portfolio, holdings[..k], lookup);
    RefreshPrefixHoldings(s.portfolio, holdings[..k], lookup);
    if k < |holdings| then Step(Fault, s.(portfolio := t))
    else
      assert holdings[..k] == holdings;
      Step(Done(Page(s.users[u].cash, UserRows(t, u), MarketValue(holdings, lookup))), s.(portfolio := t))
  }

  // ---------------------------------------------------------------- history

  /** `history`: the user's transactions, newest first. */
  function History(log: seq<Tx>, u: UserId): (r: seq<Tx>)
    ensures |r| <= |log|
  {
    if log == [] then []
    else (if log[|log| - 1].userId == u then [log[|log| - 1]] else []) + History(log[..|log| - 1], u)
  }

  /** The log positions of the user's transactions, last first. */
  ghost function Positions(log: seq<Tx>, u: UserId): seq<nat> {
    if log == [] then []
    else (if log[|log| - 1].userId == u then [|log| - 1] else []) + Positions(log[..|log| - 1], u)
  }

  /** The history lists the user's transactions newest first: its j-th entry is the log entry
      at position Positions[j], those positions strictly decrease, and every position of the
      user's transactions is among them. */
  lemma {:induction false} HistoryOrder(log: seq<Tx>, u: UserId)
    ensures |Positions(log, u)| == |History(log, u)|
    ensures forall j :: 0 <= j < |History(log, u)| ==>
              Positions(log, u)[j] < |log| && History(log, u)[j] == log[Positions(log, u)[j]]
    ensures forall j, k :: 0 <= j < k < |Positions(log, u)| ==> Positions(log, u)[j] > Positions(log, u)[k]
    ensures forall i :: 0 <= i < |log| && log[i].userId == u ==> i in Positions(log, u)
  {
    if log != [] {
      var init := log[..|log| - 1];
      HistoryOrder(init, u);
      assert forall i :: 0 <= i < |init| ==> init[i] == log[i];
    }
  }

  /** The history holds exactly the user's transactions. */
  lemma {:induction false} HistoryMembers(log: seq<Tx>, u: UserId)
    ensures forall x :: x in History(log, u) <==> x in log && x.userId == u
  {
    if log != [] {
      var init := log[..|log| - 1];
      HistoryMembers(init, u);
      assert log == init + [log[|log| - 1]];
    }
  }
}
