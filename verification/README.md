# financeapp ledger, modelled in Dafny

financeapp is a small Flask stock-trading simulator. Every account starts with
10000 in cash. A user deposits more cash, buys and sells shares at prices from a
quote service, sees a portfolio page whose rows are revalued at current quotes on
every visit, and reads a newest-first transaction history. All state lives in
three SQLite tables: `users`, `portfolio` and `transactions`.

This project models the request handlers that read and write those tables
(`app.py`) and proves what they do to them.

- `Forms` models the two conversions the handlers apply to form strings. One is
  `str.isnumeric()` followed by `int()`, used by the deposit and buy handlers. The
  other is a bare `int()`, used by the sell handler.
- `Tables` holds the rows of the three tables and the quote. It also models the
  SQL statements the handlers run on `portfolio` as functions on the rows, kept in
  insertion order:
  - `Holding`: the `SELECT … WHERE stock = ? AND user_id = ?`;
  - `UserRows`;
  - `MapRows` with its three `Update` kinds;
  - `DeleteHolding`.
- `Ledger` holds the tables as one `State` value and the invariant `Good` they
  keep. It has one pure step per handler, returning the handler's `Outcome` and
  the tables after it:
  - `Done` when the handler completes;
  - `Rejected` with the apology's reason;
  - `Fault` when the Python code raises, which is an HTTP 500.
- `LedgerProperties` proves what the steps guarantee:
  - the holding each trade leaves behind;
  - that every request keeps `Good`, so cash is never negative and there is one
    row per (user, stock);
  - what the valuation refresh writes;
  - the order of the history;
  - the consequences of the checks as the code writes them.
- `App.Finance` is a class with the tables as fields. It has one method per
  handler that changes them, and it keeps the two loops the handlers run: the
  list of owned stocks in `sell` and the valuation loop in `index`. Each method
  is proved to leave exactly the state, and return exactly the outcome, of the
  matching `Ledger` step, and to keep `Good`.

The model follows the code as written, including where it departs from the
intended design of the application:

- **Zero shares.** `"0".isnumeric()` holds, so a buy of zero shares succeeds. For a
  stock not yet held it opens a holding of 0 shares, and that holding can never be sold. Holdings are
  therefore not always positive.
- **Deposit of `"00"`.** A deposit of `"00"` passes both checks and deposits 0.
- **Sell reads before it checks.** The sell handler reads the share count with
  `int()`, the quote and the held row before running any of its checks, and any
  failed read raises. As a result:
  - the blank-shares check can never fire;
  - the "not owned" check can never fire;
  - a stock the user does not hold is a `Fault`, not a rejection.
- **Refresh keyed by stock only.** The valuation refresh writes the refreshing
  user's total into every user's row of that stock. Another user's total is then
  no longer shares × price.

## Model

| member | source | states |
|---|---|---|
| Forms.IsNumericCases | app.py:78 | `isnumeric()` (the predicate `IsNumeric`, also at app.py:108) accepts digit strings with leading zeros such as `"10"`, `"0"` and `"00"`, and refuses the empty field, a sign, a decimal point and a blank |
| Forms.ParseInt | app.py:264 | `int()` of a sell form field succeeds exactly on an optional sign followed by digits, and never on the empty field; its value is the decimal value of the digits, negated after `-` |
| Forms.DigitsRoundTrip | app.py:84 | reading back the decimal rendering of a number gives that number, so the model's digit strings are exactly the amounts the forms can carry |
| Forms.DecimalValueZero | app.py:78-84 | a digit string reads as 0 exactly when every digit is `0`, so `"00"` is zero although only `"0"` is refused |
| Tables.WorthIsProduct | app.py:134 | the value of a holding used in every trade and refresh is `shares * price` |
| Tables.WorthNonNegative | app.py:285 | shares at a non-negative quote are worth a non-negative amount |
| Tables.HoldingFound | app.py:118 | the portfolio query by (stock, user) returns a row with that key, and returns nothing exactly when no row has the key |
| Tables.UserRowsMembers | app.py:48 | the rows selected by user id are exactly the table's rows carrying that id |
| Tables.MapRowsAt | app.py:148 | an UPDATE changes each row in place by its SET/WHERE clause; no row is added, removed or moved |
| Tables.HoldingMapRows | app.py:292 | after an UPDATE, the holding of every key is the old holding passed through the SET/WHERE clause |
| Tables.UniqueMapRows | app.py:57 | an UPDATE keeps at most one row per (user, stock) |
| Tables.HoldingAppend | app.py:150 | inserting a row makes it the holding of its key when the key was absent, and changes no other holding |
| Tables.UniqueAppend | app.py:150 | an insert keeps keys unique exactly when the inserted key was absent |
| Tables.HoldingOfRow | app.py:118 | with unique keys, the query for a row's own key returns that row |
| Tables.DeleteMembers | app.py:290 | the DELETE leaves exactly the rows without the deleted key |
| Tables.DeleteRemoves | app.py:290 | after the DELETE the deleted (user, stock) has no holding |
| Tables.DeleteKeeps | app.py:290 | the DELETE changes no other key's holding |
| Tables.UniqueDelete | app.py:290 | the DELETE keeps keys unique |
| Tables.DeleteAbsent | app.py:290 | deleting a key no row has leaves the table unchanged |
| Tables.UserRowsDistinct | app.py:48 | with unique keys, one user's rows have pairwise different stocks |
| Tables.ListedWhenHeld | app.py:252-255 | a stock the user holds is in the list of owned stocks |
| Tables.StocksHeld | app.py:252-255 | the list of owned stocks contains exactly the stocks the user holds |
| Tables.RefreshPrefixHoldings | app.py:57 | the refresh UPDATEs keep every row's user, stock and shares |
| Tables.RefreshPrefixMiss | app.py:57 | a row whose stock the loop has not reached is unchanged |
| Tables.RefreshPrefixHit | app.py:57 | a row whose stock the loop has reached carries that holding's quote and shares × quote, whoever owns the row |
| Tables.RefreshAllMiss | app.py:51-57 | a complete refresh leaves rows of stocks the user does not hold unchanged |
| Tables.RefreshAllHit | app.py:51-57 | a complete refresh gives every row of a stock the user holds the quote and the user's shares × quote |
| Tables.RefreshAllOwn | app.py:51-57 | a complete refresh revalues each of the user's own rows (total = own shares × quote) |
| Tables.UserRowsRevalued | app.py:63 | the rows read back after the loop are the user's old rows revalued, in table order |
| Tables.SumRevalued | app.py:55-56 | the totals of revalued rows add up to the accumulated market value |
| Tables.MarketValue | app.py:55-56 | the market value the loop accumulates, the sum of shares × quote over the user's holdings, is never negative; SumRevalued ties it to the rows' totals |
| Tables.FirstUnquoted | app.py:54 | the loop reaches the first holding the quote service does not resolve: all holdings before it are quoted, and it is not |
| Tables.FirstUnquotedAt | app.py:54 | that first unquoted position is unique |
| Tables.RefreshStep | app.py:51-57 | one loop turn extends the refreshed prefix by that holding's UPDATE and the market value by its shares × quote |
| Ledger.RegisterCheck | app.py:224-237 | the registration form passes exactly when the name is free, all three fields are filled in and the password matches its confirmation; "taken" is given exactly for a taken name and "missing username" exactly for a free name left empty; each later apology is given only when its own condition fails |
| Ledger.RegisterUser | app.py:222-241 | the checks fire in the code's order (taken name, then missing username, password, confirmation, then mismatch), each reason pinned by its guard; success inserts exactly one account under the next id with the hashed password and 10000 cash and changes nothing else; a rejection changes nothing |
| Ledger.DepositCheck | app.py:78-86 | an amount passes exactly when it is a digit string other than `"0"` worth at most 10000; "too large" is given exactly for digit strings above 10000; "invalid" for every non-digit string and for `"0"`, and only for non-digit strings or a value of 0 |
| Ledger.DepositFunds | app.py:77-90 | succeeds exactly on a digit string other than `"0"` worth at most 10000; a non-digit amount or `"0"` is refused as invalid and a digit string above 10000 exactly is refused as too large; success adds exactly that amount to the user's cash and logs one deposit; a rejection changes nothing |
| Ledger.BuyCheck | app.py:108-111 | an order passes exactly when the share count is a digit string and the symbol resolves; "invalid shares" is given exactly for non-digit counts, before the symbol is looked at |
| Ledger.ExecutionQuote | app.py:121 | the second quote, on the symbol the first returned, exists only when the first does, and for a symbol that is already canonical it is the first quote again |
| Ledger.BuyShares | app.py:103-152 | non-digit shares are refused before the symbol is checked; a second, failed quote is a fault; an order costing more than the cash is refused with "not enough money" and only then, and every numeric, quoted, affordable order succeeds; success takes shares × price off the cash, never below 0, updates or opens the holding, and logs one buy |
| Ledger.BoughtRowsHolding | app.py:147-150 | a buy gives the bought holding the old plus the ordered shares, the new price and the cost added to its total, or opens it; every other holding is unchanged |
| Ledger.SellReads | app.py:264-266 | the three reads the sale does before any check (`int()` of the share count, the quote, the held row), each of which raises when it fails |
| Ledger.SellCheck | app.py:267-280 | a sale passes exactly when a stock is selected, the share count is filled in, positive, at most the held shares, and the stock is owned; "too many shares" only when the count exceeds the held shares |
| Ledger.SellShares | app.py:260-294 | faults exactly when the share count, the quote or the held row cannot be read; a blank share count faults; the not-owned apology never happens; non-positive and over-held counts are refused, and every sale of 1 to the held shares of a selected stock succeeds; success credits shares × quote, logs one sale and updates or deletes the holding |
| Ledger.SoldRowsHolding | app.py:289-292 | selling every share deletes the holding; a partial sale leaves the remaining shares with total = remaining × sale price; every other holding is unchanged |
| Ledger.RefreshPortfolio | app.py:47-66 | the refresh never rejects and touches only `portfolio`, keeping every row's user, stock and shares; it completes exactly when all holdings are quoted (see RefreshFaultsOnUnquotedHolding); on a fault the UPDATEs of the holdings before the first unquoted one stay written; the page shows the unchanged cash, the user's rows after the refresh and the sum of shares × quote |
| Ledger.History | app.py:158 | the history is no longer than the log |
| Ledger.HistoryOrder | app.py:158 | the history lists the user's transactions newest first: its entries sit at strictly decreasing log positions, and every transaction of the user is among them |
| Ledger.HistoryMembers | app.py:158 | the history holds exactly the user's transactions |
| LedgerProperties.BuyUpdatesHolding | app.py:118-150 | after a successful buy, the holding of the canonical symbol is the old one plus the order at the execution price, and no other holding changes |
| LedgerProperties.SellUpdatesHolding | app.py:266-292 | after a successful sale of n shares, 0 < n ≤ held; the holding keeps held − n shares valued at the sale quote, or is gone; no other holding changes |
| LedgerProperties.RegisterKeepsGood | app.py:222-239 | registration keeps the invariant: ids below the next id, unique non-empty usernames, non-negative cash, one row per (user, stock), rows and log entries of known users |
| LedgerProperties.DepositKeepsGood | app.py:84-88 | a deposit keeps the invariant |
| LedgerProperties.NamesKept | app.py:87 | changing only cash keeps usernames unique |
| LedgerProperties.BuyKeepsGood | app.py:137-150 | a buy keeps the invariant, in particular cash non-negative and one row per (user, stock) |
| LedgerProperties.BoughtRowsKeepKeys | app.py:147-150 | the buy's UPDATE or INSERT keeps keys unique and rows owned by known users |
| LedgerProperties.SellKeepsGood | app.py:284-292 | a sale keeps the invariant |
| LedgerProperties.SoldRowsKeepKeys | app.py:289-292 | the sale's DELETE or UPDATE keeps keys unique and rows owned by known users |
| LedgerProperties.TradeKeepsGood | app.py:141-144 | a cash change that stays non-negative plus one appended log entry of the user keeps the invariant |
| LedgerProperties.RefreshKeepsGood | app.py:51-57 | the refresh, complete or interrupted, keeps the invariant |
| LedgerProperties.HandleKeepsGood | app.py:47-294 | every request to a handler that writes keeps the invariant |
| LedgerProperties.RunKeepsGood | app.py:47-294 | after any sequence of requests, every account's cash is non-negative and keys stay unique |
| LedgerProperties.RefreshValuesHoldings | app.py:51-57 | after a complete refresh, every row of a stock the user holds, whoever owns it, carries the quote and the refreshing user's shares × quote; all other rows are unchanged |
| LedgerProperties.RefreshRevaluesOwnRows | app.py:51-66 | the page rows are the user's old rows revalued, in order, and the market value is the sum of their totals |
| LedgerProperties.RefreshFaultsOnUnquotedHolding | app.py:54 | the page faults exactly when one of the user's stocks has no quote |
| LedgerProperties.RefreshOverwritesOtherUsersTotal | app.py:57 | two users hold 10 and 3 AAPL; a refresh by the first at 150 writes 1500 into the second's row, not 450 |
| LedgerProperties.HistoryNewestFirst | app.py:158 | a new transaction heads its user's history and leaves other users' histories unchanged |
| LedgerProperties.TradeHeadsHistory | app.py:287 | after a sale, the user's history begins with that sale, followed by the earlier history |
| LedgerProperties.SellAllDeletesHolding | app.py:289-290 | selling exactly the held shares succeeds and removes the holding |
| LedgerProperties.BuyThenSellRoundTrip | app.py:103-152 | buying n shares of a new stock and selling them at the same quote restores cash and portfolio, and logs one buy and one sell |
| LedgerProperties.BuyThenSellRestoresCash | app.py:141 | for any quoted stock, held or not, buying n shares and selling the same n at the same quote (app.py:288) restores the cash and the held share count; a 0-share holding is deleted instead |
| LedgerProperties.BuyAndSellAapl | app.py:103-152 | 10000 cash, buy 10 AAPL at 150: 8500 cash and one row of 10 worth 1500; selling the 10 at 160 gives 10100 and no row |
| LedgerProperties.OversellRejected | app.py:279-280 | selling more than the held shares is refused and changes nothing |
| LedgerProperties.DoubleZeroDeposit | app.py:78-88 | a deposit of `"00"` succeeds, leaves cash as it was and logs a deposit of 0 |
| LedgerProperties.DepositBounds | app.py:82-86 | `"0"` is refused, every amount 1..10000 is credited in full, and anything larger is refused |
| LedgerProperties.ZeroShareBuyOpensEmptyHolding | app.py:108-150 | a buy of `"0"` shares of a stock not held succeeds, costs nothing and opens a 0-share holding |
| LedgerProperties.EmptyHoldingStays | app.py:273-280 | a 0-share holding can never be sold: every sale is refused or faults and changes nothing |
| App.Finance.constructor | app.py:26 | a fresh database has no users, holdings or transactions, and satisfies the invariant |
| App.Finance.Register | app.py:222-241 | leaves exactly the state, and returns exactly the outcome, of RegisterUser, and keeps the invariant |
| App.Finance.Deposit | app.py:77-90 | leaves exactly the state, and returns exactly the outcome, of DepositFunds, and keeps the invariant |
| App.Finance.Buy | app.py:103-152 | leaves exactly the state, and returns exactly the outcome, of BuyShares, and keeps the invariant |
| App.Finance.ListOfStocks | app.py:252-255 | the loop collects the stock column of the user's rows, in table order |
| App.Finance.Sell | app.py:260-294 | leaves exactly the state, and returns exactly the outcome, of SellShares, and keeps the invariant |
| App.Finance.Index | app.py:47-66 | the in-place valuation loop leaves exactly the state, and returns exactly the page or fault, of RefreshPortfolio (a fault keeps the rows already repriced), and keeps the invariant |

## Left out

- The web layer is not part of this model: Flask routing, sessions, `login_required`, templates, `apology`, `redirect` and the GET branches that only render a page. The logged-in user becomes the parameter `u`, which must be an existing account.
- `login`, `logout` and `quote` (app.py:161-215) only read the tables or the session and are not modelled.
- The quote service (`lookup` in `helpers.py`) does network I/O and is not part of this model. It is the parameter `lookup`, a function that answers the same during one request, so the sell handler's second quote (app.py:288) equals its first.
- Tables.Price: the model takes every price the quote service returns to be non-negative. The code does not check this. Cash staying non-negative after a sale (app.py:288) depends on it.
- `generate_password_hash` uses a random salt. It is the parameter `hash`, taken to be a function.
- The SQLite engine, its column types and `datetime('now')` are not modelled. A transaction's date is its position in the log, so transactions with equal timestamps are shown newest-first by insertion order.
- Money is an exact `real`. Python's floating-point rounding in `shares * price` and in cash arithmetic is not modelled.
- Forms.ParseInt: models `int()` on ASCII digits with an optional sign. The whitespace, underscores and non-ASCII digits Python also accepts are not modelled. `IsNumeric` likewise covers only ASCII digits.
- A form field that is absent (`None`) is modelled as a string. In the deposit, buy and sell handlers an absent field raises, which the model does not represent. The deposit handler's `== None` check (app.py:80) is dead code and is not modelled as a separate branch. In `register` an absent field counts as empty.
- The sell handler logs the raw share string (app.py:287), and the buy handler inserts the raw share string into `portfolio.shares` when it opens a holding (app.py:150). The model stores the integer value in both places, which is what SQLite's integer affinity stores for a digit string.
- The starting cash of 10000 is the `users.cash` column default. The schema is not part of this model, so the default is the constant `INITIAL_CASH`.
- Concurrency is not modelled: each request runs alone and completely. A fault keeps every write made before it, since the handlers run no transaction.
- Tables.Worth: `shares * price` is written as repeated addition so that proofs avoid nonlinear arithmetic. WorthIsProduct proves that it equals the product.
