# Share market simulation and small C++ exercises, in Dafny

This project models the share-market simulation of `C++/code/sharemarket.cpp`
and five small console programs from the same collection. It proves properties
of the model.

The simulation has a `Market` that lists stocks and mutual funds by symbol and
moves their prices by a bounded random walk. An `Investor` holds cash and a
portfolio of holdings, trades against the market, and keeps a `TransactionLog`.
Market, investor and log can be loaded from `|`-separated text files.

| Dafny file | models |
|---|---|
| `wrappers.dfy` | `Option`, used where the program returns `nullptr` or a parse fails |
| `instruments.dfy` | `clamp_double`, `Stock`, `MutualFund`, `Holding`, and one step of the price walk |
| `ledger.dfy` | `TransactionLog`: appending, the record layout, and loading a `.txlog` file |
| `exchange.dfy` | `Market`: listing, lookup, price simulation, and loading a snapshot |
| `brokerage.dfy` | `Investor`: deposit, withdraw, buy, sell, valuation, and loading from a file |
| `rps.dfy` | rock-paper-scissors (`rps_game.cpp`) |
| `recursion.dfy` | recursive string reversal (`recursion.cpp`) |
| `xpattern.dfy` | the row of X shapes drawn by three nested loops (`Nestedloop.cpp`) |
| `quiz.dfy` | the four-question quiz and its score (`quizgame.cpp`) |
| `templates.dfy` | the `max` function template (`funcTemplates.cpp`) |

The program changes `Market`, `Investor` and `TransactionLog` in place, so they
are Dafny classes. Their methods state the whole new state. Each method is tied
to a pure function:

- `BuyCheck` and `SellCheck` give the outcome of a trade.
- `Upsert` and `Reduce` give the new portfolio.
- `MovedStocks` and `MovedFunds` give the moved prices.
- `LoadSnapshotLines`, `LoadLogLines` and `LoadHoldings` give the result of a load.

The lemmas are proved about those functions.

Some inputs are parameters of the model:

- The random draws are functions from a symbol to a percentage.
- The time stamp is a string.
- The contents of a file arrive as lines already split into fields. Each numeric field is already converted, or marked as a field the standard conversion rejects.

Money and quantities are exact `real` numbers. The program's `1e-9` tolerance
is the constant `Epsilon`. Its `static_cast<int>(qty) != qty` test for whole
shares is `IsWhole(qty)` (`qty.Floor as real == qty`). The two agree when the
integer part fits in an `int`.

Some behaviours of the code are worth stating outright, because a reader
might expect otherwise:

- `sell` checks that the symbol is still listed before it checks for whole shares.
- A snapshot, investor file or transaction log with a bad number is partly applied: the lines before the bad one stay loaded, and `false` is returned. The snapshot and the investor's portfolio are cleared before reading starts.
- A loaded snapshot may carry a negative share count. Only `changeAvailable` clamps at zero.
- A stock and a fund may share a symbol. Lookups then find the stock.

## Model

| member | source | states |
|---|---|---|
| Instruments.Clamp | C++/code/sharemarket.cpp:37-41 | the result lies in `[lo, hi]` whenever `lo <= hi`; a value already in range is returned unchanged; the result is always `v`, `lo` or `hi` |
| Instruments.Stock.ChangeAvailable | C++/code/sharemarket.cpp:88 | the count moves by `delta`, or becomes 0 if it would go negative; it is never negative afterwards; name, symbol and price are unchanged |
| Instruments.Fund.ChangeUnits | C++/code/sharemarket.cpp:113 | the units move by `d`, or become 0 if they would go negative; name, symbol and NAV are unchanged |
| Instruments.WholeQuantities | C++/code/sharemarket.cpp:451-452 | the whole-share test (`IsWhole`) accepts every integer quantity and rejects every quantity strictly between two integers, whose cast truncates to the lower one |
| Instruments.NextPrice | C++/code/sharemarket.cpp:299-302 | the new price lies in `[0.01, old * ceiling + 10]` whenever that range is non-empty; a move that lands in range is taken exactly |
| Ledger.ZeroIfEmpty | C++/code/sharemarket.cpp:203 | an empty field reads as 0, a number as itself, and only unconvertible text fails |
| Ledger.ParseEntry | C++/code/sharemarket.cpp:193-221 | a line yields an entry exactly when none of its three numbers fails; the text fields are carried over unchanged |
| Ledger.LoadLogLines | C++/code/sharemarket.cpp:187-226 | loading only appends: the old entries are a prefix of the result, with at most one new entry per line |
| Ledger.LoadAppends | C++/code/sharemarket.cpp:187-226 | the result is the old entries followed by what the lines hold on their own; success does not depend on the old entries |
| Ledger.LoadStopsAtFirstBadLine | C++/code/sharemarket.cpp:201-222 | the first unreadable line ends the load with `false`; the entries of the earlier lines stay appended |
| Ledger.Record | C++/code/sharemarket.cpp:180-181 | the record written for an entry has the field order the loader expects, and loading it gives back exactly that entry |
| Ledger.RecordsReadBack | C++/code/sharemarket.cpp:176-226 | the records `saveToFile` writes for a list of entries load back as exactly that list, successfully |
| Ledger.TransactionLog.constructor | C++/code/sharemarket.cpp:143 | a new log is empty |
| Ledger.TransactionLog.Add | C++/code/sharemarket.cpp:145-157 | exactly one entry with the given fields and time stamp is appended |
| Ledger.TransactionLog.SaveToFile | C++/code/sharemarket.cpp:176-185 | one record per entry, in order, each carrying that entry's fields |
| Ledger.TransactionLog.LoadFromFile | C++/code/sharemarket.cpp:187-226 | an unopenable file returns `false` and changes nothing; otherwise the entries and the result are those of `LoadLogLines` |
| Exchange.FindInvestment | C++/code/sharemarket.cpp:243-249 | found exactly when the symbol is listed as a stock or as a fund; the stock wins when it is both |
| Exchange.MovedStocks | C++/code/sharemarket.cpp:297-304 | same symbols; every price ends in `[0.01, 10 * old + 10]` whatever the draws; nothing but the price changes |
| Exchange.MovedFunds | C++/code/sharemarket.cpp:305-312 | same symbols; every NAV ends in `[0.01, 5 * old + 10]` whatever the draws; nothing but the NAV changes |
| Exchange.LoadLine | C++/code/sharemarket.cpp:349-388 | a STOCK line stores `Stock(name, symbol, price, shares)` under its symbol, replacing any earlier one, and a FUND line `Fund(name, symbol, nav, units)`; nothing else changes; other tags change nothing; the line fails exactly when a number it needs does not convert |
| Exchange.LoadSnapshotLines | C++/code/sharemarket.cpp:345-391 | loading keeps every instrument stored under its own symbol |
| Exchange.UnknownTagIgnored | C++/code/sharemarket.cpp:352-388 | removing a line with an unknown tag does not change the result of a load |
| Exchange.LoadStopsAtFirstBadLine | C++/code/sharemarket.cpp:356-368 | the first line with a bad number ends the load with `false`; the earlier lines stay applied |
| Exchange.LoadedSymbols | C++/code/sharemarket.cpp:345-391 | after a successful load, the stocks listed are the earlier ones plus exactly the symbols of the STOCK lines; likewise for funds |
| Exchange.Market.constructor | C++/code/sharemarket.cpp:236 | a new market is empty, with volatility 0.02 |
| Exchange.Market.AddStock | C++/code/sharemarket.cpp:239 | the stock is listed under its symbol, replacing any earlier one; nothing else changes |
| Exchange.Market.AddFund | C++/code/sharemarket.cpp:240 | the fund is listed under its symbol, replacing any earlier one; nothing else changes |
| Exchange.Market.ChangeAvailable | C++/code/sharemarket.cpp:250-254 | only the named stock's share count changes, as `changeAvailable` says |
| Exchange.Market.ChangeUnits | C++/code/sharemarket.cpp:255-259 | only the named fund's units change, as `changeUnits` says |
| Exchange.Market.SimulatePriceMovement | C++/code/sharemarket.cpp:296-315 | prices and NAVs become `MovedStocks` and `MovedFunds`; the volatility is clamped into `[0.003, 0.08]` and stays there |
| Exchange.Market.MoveStockPrices | C++/code/sharemarket.cpp:297-304 | the stock loop gives every stock its `NextPrice` with ceiling factor 10; the funds are untouched |
| Exchange.Market.MoveFundNavs | C++/code/sharemarket.cpp:305-312 | the fund loop gives every fund its `NextPrice` with ceiling factor 5; the stocks are untouched |
| Exchange.Market.LoadSnapshot | C++/code/sharemarket.cpp:339-392 | an unopenable file changes nothing and returns `false`; otherwise the market is cleared, and both the listing and the result are those of `LoadSnapshotLines` from an empty listing |
| Brokerage.BuyCheck | C++/code/sharemarket.cpp:434-494 | a buy goes through exactly when: the symbol is listed; the quantity is positive; a stock quantity is whole and at most the shares available; a fund quantity is at most the units available; and the cost is covered by the cash |
| Brokerage.SellCheck | C++/code/sharemarket.cpp:497-525 | a sell goes through exactly when: the symbol is held; `0 < qty <= held + 1e-9`; the market still lists the symbol; and the quantity is whole if the holding's type is Stock |
| Brokerage.Upsert | C++/code/sharemarket.cpp:542-556 | a new symbol gets a fresh holding; an existing one keeps its name and type and gains `qty`; the average price is kept when the new quantity is not positive; no other holding changes |
| Brokerage.UpsertKeepsCostBasis | C++/code/sharemarket.cpp:548-553 | quantity times average price after the update is the old cost plus `qty * price` |
| Brokerage.AverageOfTwoBuys | C++/code/sharemarket.cpp:542-556 | two buys of a new symbol leave the average price `(q1 p1 + q2 p2) / (q1 + q2)` |
| Brokerage.AverageBetween | C++/code/sharemarket.cpp:548-553 | the new average price lies between the old average and the buying price |
| Brokerage.Reduce | C++/code/sharemarket.cpp:533-535 | the holding loses `qty`; it is removed when at most `1e-9` remains; no other holding changes |
| Brokerage.BuySellRoundTrip | C++/code/sharemarket.cpp:533-556 | buying and then selling the same quantity restores the portfolio; a symbol not held before is gone again, and a held one is back at its quantity |
| Brokerage.SampleListing | C++/code/sharemarket.cpp:673-679 | two instruments of the sample market, each stored under its own symbol, with no symbol both a stock and a fund |
| Brokerage.SampleTrades | C++/code/sharemarket.cpp:673-679 | with 10000 in cash and the sample market: 10 TATAM can be bought for 4905 and sold back, which returns the cash to 10000 and removes the holding; 5.5 fund units can be bought; 5.5 TATAM shares cannot |
| Brokerage.BuyThenSellShares | C++/code/sharemarket.cpp:434-540 | buying shares of a stock not held and selling the same number straight back: if the buy goes through, so does the sale, and cash, portfolio and market (share counts included) are as before; the log gains two entries |
| Brokerage.BuyThenSellUnits | C++/code/sharemarket.cpp:434-540 | the same round trip for fund units: cash, portfolio, fund units and the rest of the market are as before |
| Brokerage.MarkPrice | C++/code/sharemarket.cpp:572-574 | a holding is marked at the market's current price, or at 0 when the symbol is no longer listed |
| Brokerage.MarketValue | C++/code/sharemarket.cpp:575 | a holding the market no longer lists, or an empty holding, is worth nothing |
| Brokerage.ProfitLoss | C++/code/sharemarket.cpp:576 | the profit or loss is the market value less what was paid; for a positive holding it is a gain exactly when the market price is above the average price |
| Brokerage.ValueOf | C++/code/sharemarket.cpp:569-577 | the summed market value of a set of holdings: 0 for none, and never negative when no holding is worth less than nothing |
| Brokerage.ValueOfRemove | C++/code/sharemarket.cpp:570-577 | the sum does not depend on the order the holdings are visited in: any holding can be taken first |
| Brokerage.LoadHoldings | C++/code/sharemarket.cpp:629-645 | the load succeeds exactly when every record's two numbers convert; it keeps every holding stored under its own symbol and never drops a symbol already present |
| Brokerage.HoldingsStopAtFirstBadRecord | C++/code/sharemarket.cpp:638-644 | the first record with a bad number ends the load with `false`; the holdings of the earlier records stay stored |
| Brokerage.LoadedHoldingSymbols | C++/code/sharemarket.cpp:629-645 | after a successful load the portfolio holds exactly the earlier symbols plus the symbols of the records |
| Brokerage.LastRecordWins | C++/code/sharemarket.cpp:639-640 | after a successful load, the last record for a symbol is its holding: symbol, name, type, quantity and average price as written |
| Brokerage.UnmentionedHoldingKept | C++/code/sharemarket.cpp:629-645 | a holding that no record names is not changed by the load |
| Brokerage.SellEntryFieldsAsWritten | C++/code/sharemarket.cpp:535-537 | as written, the name and type for the SELL entry exist only while the holding is still in the portfolio |
| Brokerage.FullSellReadsErasedHolding | C++/code/sharemarket.cpp:535-537 | selling a whole holding erases it before the log entry reads its name and type |
| Brokerage.SellAllTatamReadsErasedHolding | C++/code/sharemarket.cpp:535-537 | concretely: selling all of a 10-share TATAM holding reads an erased element |
| Brokerage.PartialSellReadsSameFields | C++/code/sharemarket.cpp:534-537 | when the holding survives the sale, the code as written and the corrected `Sell` log the same name and type |
| Brokerage.Investor.constructor | C++/code/sharemarket.cpp:404 | a new investor has the given name and balance, no holdings and an empty log |
| Brokerage.Investor.Deposit | C++/code/sharemarket.cpp:409-417 | a positive amount is added to the cash and one DEPOSIT entry with the new balance is logged; any other amount changes nothing |
| Brokerage.Investor.Withdraw | C++/code/sharemarket.cpp:418-431 | succeeds exactly when `0 < amt <= cash`; on success the cash drops by `amt` and stays non-negative, and one WITHDRAW entry is logged; a refusal changes nothing |
| Brokerage.Investor.AddOrUpdateHolding | C++/code/sharemarket.cpp:542-556 | the portfolio becomes `Upsert` of the old one; cash and name are unchanged |
| Brokerage.Investor.Buy | C++/code/sharemarket.cpp:434-494 | the outcome is `BuyCheck`, and a refusal changes nothing. On success: the cost leaves the cash, which stays non-negative; the market's shares or units drop by exactly `qty`; the portfolio is `Upsert`ed; one BUY entry is logged |
| Brokerage.Investor.Sell | C++/code/sharemarket.cpp:497-540 | the outcome is `SellCheck`, and a refusal changes nothing. On success: the proceeds at the market price are credited; the market takes the quantity back as the holding's type says; the portfolio is `Reduce`d; one SELL entry with the holding's name and type is logged |
| Brokerage.Investor.Restock | C++/code/sharemarket.cpp:520-532 | the sold quantity goes back to the stock or the fund the holding's type names, only if the market lists the symbol there; nothing else in the market changes |
| Brokerage.Investor.NetWorth | C++/code/sharemarket.cpp:569-583 | the total is the cash plus the market value of every holding, whatever order the holdings are visited in |
| Brokerage.Investor.LoadFromFile | C++/code/sharemarket.cpp:611-650 | an unopenable file changes nothing. Otherwise: the portfolio is cleared and the name read; an empty name or a bad cash number stops with `false`; the holdings load as `LoadHoldings` says; the transaction log is appended to only after all holdings have loaded |
| Rps.ToLower | C++/code/rps_game.cpp:42 | upper-case letters map to their lower-case letters; every other character is unchanged |
| Rps.UserChoice | C++/code/rps_game.cpp:34-55 | the prompt loop returns a choice exactly when some input lowercases to r, p or s, and what it returns is one of those |
| Rps.UserChoiceIsFirstValid | C++/code/rps_game.cpp:34-53 | the choice returned is the first valid input, lowercased |
| Rps.ChoiceOf | C++/code/rps_game.cpp:62-67 | 1, 2 and 3 map to r, p and s; every other number maps to a character that is not a choice |
| Rps.ComputerChoice | C++/code/rps_game.cpp:57-68 | the computer always picks r, p or s, determined by the draw modulo 3 |
| Rps.AsJudged | C++/code/rps_game.cpp:80-110 | the character `choosewinner` effectively compares against is always a choice, and is the character itself when it is one |
| Rps.ChooseWinner | C++/code/rps_game.cpp:79-112 | a verdict is given exactly when the player's character is r, p or s |
| Rps.VerdictFollowsRules | C++/code/rps_game.cpp:79-112 | the verdict is Tie on equal choices, Win when the player's choice beats the computer's, and Lose otherwise |
| Rps.EqualChoicesTie | C++/code/rps_game.cpp:81-83 | equal choices tie |
| Rps.WinningPairs | C++/code/rps_game.cpp:79-112 | rock beats scissors, paper beats rock, scissors beats paper |
| Rps.VerdictAntisymmetric | C++/code/rps_game.cpp:79-112 | swapping player and computer turns a win into a loss and keeps a tie |
| Rps.OtherComputerCharIsScissors | C++/code/rps_game.cpp:87-108 | any computer character other than r or p is judged as scissors |
| Recursion.ReverseString | C++/code/recursion.cpp:19-25 | the output has the input's length, and its character `i` is the input's character `n - 1 - i` |
| Recursion.FirstWrittenIsLast | C++/code/recursion.cpp:23 | the first character printed is the last character of the input |
| Recursion.ReverseInvolutive | C++/code/recursion.cpp:19-25 | reversing twice gives back the input |
| Recursion.ReverseOfConcat | C++/code/recursion.cpp:19-25 | the reverse of `a + b` is the reverse of `b` followed by the reverse of `a` |
| XPattern.DrawXs | C++/code/Nestedloop.cpp:8-20 | the three nested loops print exactly `Picture(n, count, n)` |
| XPattern.DrawRow | C++/code/Nestedloop.cpp:9-19 | one pass of the row loop prints exactly `Row(n, count, i)`: `count` blocks, each followed by a space, then the newline |
| XPattern.DrawBlock | C++/code/Nestedloop.cpp:10-16 | the column loop prints exactly `Block(n, i)`: a star where `j == i` or `j == n - i - 1`, a space elsewhere |
| XPattern.RowLayout | C++/code/Nestedloop.cpp:9-19 | a row has `count * (n + 1) + 1` characters and ends in a newline; within block `b`, column `j` is `*` exactly on the two diagonals |
| XPattern.PictureLength | C++/code/Nestedloop.cpp:8-20 | the picture has `rows * (count * (n + 1) + 1)` characters |
| XPattern.LineCount | C++/code/Nestedloop.cpp:8-20 | the picture has exactly one newline per row |
| XPattern.EndsWithLineEnd | C++/code/Nestedloop.cpp:19 | every row, and so the whole picture, ends with a newline |
| XPattern.RowSymmetry | C++/code/Nestedloop.cpp:11 | row `i` equals row `n - 1 - i`, and each block reads the same backwards |
| XPattern.StarCount | C++/code/Nestedloop.cpp:10-16 | each block row has two stars, or one on the middle row of an odd size |
| XPattern.ProgramPicture | C++/code/Nestedloop.cpp:4-20 | with `n = 7` and `count = 3` the program prints 175 characters on 7 lines |
| Quiz.QuizShape | C++/code/quizgame.cpp:5-17 | four questions, four answers in the key, four options per question |
| Quiz.ToUpper | C++/code/quizgame.cpp:31 | lower-case letters map to their upper-case letters; every other character is unchanged |
| Quiz.CountIsNumberOfCorrectPositions | C++/code/quizgame.cpp:21-40 | the running count of correct guesses is the number of positions guessed right, and at most the number of questions |
| Quiz.PlayQuiz | C++/code/quizgame.cpp:21-40 | the score is the number of questions whose guess, upper-cased, matches the key, and lies between 0 and 4 |
| Quiz.LowerCaseAnswerCounts | C++/code/quizgame.cpp:30-35 | a lower-case guess of the right letter is scored as correct |
| Quiz.CountOfOneMoreQuestion | C++/code/quizgame.cpp:33-39 | each further question adds one to the count if its guess is right, and nothing otherwise |
| Templates.Max | C++/code/funcTemplates.cpp:4-6 | the result is one of the two arguments and at least both of them; on a tie it is the second |
| Templates.MaxIsLeastBoundAmongArguments | C++/code/funcTemplates.cpp:4-6 | an argument that bounds both arguments is the maximum |
| Templates.MaxCommutes | C++/code/funcTemplates.cpp:4-6 | the order of the arguments does not change the maximum |

## Findings

| source | as written | input that shows it | evidently intended | confidence | as-written member | corrected member |
|---|---|---|---|---|---|---|
| C++/code/sharemarket.cpp:535-537 | `sell` erases the holding through the iterator `it` when at most `1e-9` remains. The next line builds the SELL entry from `h.name` and `h.type`, where `h` is a reference into the erased element, so the read is undefined behaviour | holding 10 TATAM shares and selling all 10 | the SELL entry carries the name and type the holding had before the sale | high (not executed) | Brokerage.FullSellReadsErasedHolding | Brokerage.Investor.Sell |

## Left out

- Console input and output is not modelled. This covers the menus, prompts and messages, `showChoice`, `displayDetails`, `showMarket`, `showAll`, the table formatting of `displayPortfolio`, and `main` in every file. The refusal messages of `buy` and `sell` are kept as `Reason` values. `deposit` refuses silently in the model. `withdraw` returns `false` for both of its refusals, as the program does. The loaders' parse-error messages become a `false` result.
- `now_str` is not modelled: the time stamp is a parameter.
- `rand_double` and `rand()` with `srand(time(NULL))` are not modelled: the draws are parameters. Nothing in the model assumes they fall in `[-volatility, volatility]`, `[-0.002, 0.002]` or the range of `rand()`, so the bounds proved hold for any draw.
- Exchange.MovedStocks: the price bound is stated for old prices above -0.999, and Exchange.MovedFunds for NAVs above -1.998. Below those the clamp range is empty and the program's `clamp_double` returns `0.01` or the upper bound in the order it tests them, which `Clamp` does model.
- Text-to-number conversion (`stod`, `stoi`) and the splitting of lines at `|` are not modelled. Lines arrive already split, and each number is already converted or marked as rejected. On a line cut short, the program converts the previous number's text again, because `std::getline` leaves the shared buffer untouched. The model does not derive this: it takes whatever values the program converts as given.
- File I/O is not modelled. A file that cannot be opened is `None`.
- `Investor::saveToFile` and `Market::saveSnapshot` write text for the same loaders, and are not modelled. `TransactionLog::saveToFile` is modelled as the records it writes.
- IEEE double rounding is not modelled, and neither is the six-digit precision of numbers written with `<<`. Ledger.RecordsReadBack holds for exact values only.
- The overflow of `static_cast<int>` for quantities beyond the `int` range is not modelled: `IsWhole` uses the exact integer part.
- The `int` share counts are unbounded integers. Wrap-around of `available += delta` is not modelled.
- The "Unsupported investment type" branch of `buy`, and the null checks after `findStock`/`findFund` in `buy`, cannot be reached: every listed instrument is a stock or a fund, found in the map `findInvestment` found it in. The model leaves them out.
- `findStock`, `findFund` and `Instrument.CurrentPrice`/`TypeName` are map membership and a field read in the model; they carry no contract of their own.
- The percentage printed by the quiz is not modelled. It is floating-point output of the proved score.
- End of input on `cin` is not modelled. In `getUserChoice` the retry loop would then not end; in the model, inputs with no valid choice give `None`.
- The other programs in `C++/code/` (arrays, strings, structs, calculator and the like) are not part of this model.
