/** `Investor` of C++/code/sharemarket.cpp: a cash balance, a portfolio of
    holdings keyed by symbol and an owned transaction log; deposits,
    withdrawals, buying and selling against a `Market`, valuation, and loading
    from a file. Time stamps and file contents are parameters. */
module Brokerage {

  import opened Wrappers
  import opened Instruments
  import opened Ledger
  import opened Exchange

  /** Why a trade is refused; one per message the program prints. */
  datatype Reason =
    | SymbolNotFound       // "Investment symbol not found in market."
    | NonPositiveQuantity  // "Quantity must be positive."
    | FractionalShares     // "... whole shares ..."
    | NotEnoughShares      // "Not enough shares available in market."
    | NotEnoughUnits       // "Not enough units available in fund."
    | InsufficientCash     // "Insufficient cash balance."
    | NoSuchHolding        // "You do not hold this symbol."
    | InsufficientHolding  // "You don't have enough quantity to sell."
    | Delisted             // "Market no longer lists this investment; cannot sell here."

  /** The result of `buy` and `sell`: `true`, or `false` with the reason. */
  datatype Outcome = Done | Rejected(reason: Reason)

  /** The checks of `buy`, in the order the program makes them. */
  function BuyCheck(l: Listing, cash: real, sym: string, qty: real): (r: Outcome)
    ensures r == Done <==>
      && FindInvestment(l, sym).Some?
      && qty > 0.0
      && FindInvestment(l, sym).value.CurrentPrice() * qty <= cash
      && (sym in l.stocks ==> IsWhole(qty) && qty.Floor <= l.stocks[sym].available)
      && (sym !in l.stocks ==> qty <= l.funds[sym].units)
  {
    match FindInvestment(l, sym)
    case None => Rejected(SymbolNotFound)
    case Some(inv) =>
      if qty <= 0.0 then Rejected(NonPositiveQuantity)
      else match inv
        case Equity(s) =>
          if !IsWhole(qty) then Rejected(FractionalShares)
          else if qty.Floor > s.available then Rejected(NotEnoughShares)
          else if s.price * qty > cash then Rejected(InsufficientCash)
          else Done
        case MutualFund(f) =>
          if qty > f.units then Rejected(NotEnoughUnits)
          else if f.nav * qty > cash then Rejected(InsufficientCash)
          else Done
  }

  /** The checks of `sell`, in the order the program makes them. The
      whole-share check follows the type recorded in the holding. */
  function SellCheck(p: map<string, Holding>, l: Listing, sym: string, qty: real): (r: Outcome)
    ensures r == Done <==>
      && sym in p
      && 0.0 < qty <= p[sym].quantity + Epsilon
      && FindInvestment(l, sym).Some?
      && (p[sym].kind == StockType ==> IsWhole(qty))
  {
    if sym !in p then Rejected(NoSuchHolding)
    else if qty <= 0.0 then Rejected(NonPositiveQuantity)
    else if qty > p[sym].quantity + Epsilon then Rejected(InsufficientHolding)
    else if FindInvestment(l, sym).None? then Rejected(Delisted)
    else if p[sym].kind == StockType && !IsWhole(qty) then Rejected(FractionalShares)
    else Done
  }

  /** The portfolio after `addOrUpdateHolding(sym, name, kind, qty, price)`: a
      new symbol gets a fresh holding; an existing one keeps its name and type,
      gains `qty`, and takes the volume-weighted average price (unless the new
      quantity is not positive). No other holding changes. */
  function Upsert(p: map<string, Holding>, sym: string, name: string, kind: string, qty: real, price: real)
    : (r: map<string, Holding>)
    ensures r.Keys == p.Keys + {sym}
    ensures forall k :: k in p && k != sym ==> r[k] == p[k]
    ensures sym !in p ==> r[sym] == Holding(sym, name, kind, qty, price)
    ensures sym in p ==>
      r[sym] == p[sym].(quantity := p[sym].quantity + qty, avgPrice := r[sym].avgPrice)
    ensures sym in p && p[sym].quantity + qty <= 0.0 ==> r[sym].avgPrice == p[sym].avgPrice
  {
    if sym !in p then p[sym := Holding(sym, name, kind, qty, price)]
    else
      var h := p[sym];
      var newQty := h.quantity + qty;
      var newAvg := if newQty > 0.0 then (h.quantity * h.avgPrice + qty * price) / newQty else h.avgPrice;
      p[sym := h.(quantity := newQty, avgPrice := newAvg)]
  }

  /** The weighted-average rule: after adding `qty` at `price` to a holding,
      quantity times average price is the old quantity times the old average
      plus `qty * price`, so what was paid in total is kept. */
  lemma UpsertKeepsCostBasis(p: map<string, Holding>, sym: string, name: string, kind: string, qty: real, price: real)
    requires sym in p && p[sym].quantity + qty > 0.0
    ensures var h := Upsert(p, sym, name, kind, qty, price)[sym];
      h.quantity * h.avgPrice == p[sym].quantity * p[sym].avgPrice + qty * price
  {
  }

  /** The portfolio after selling `qty` of `sym`: the holding loses `qty`, and
      is removed once at most `Epsilon` remains. No other holding changes. */
  function Reduce(p: map<string, Holding>, sym: string, qty: real): (r: map<string, Holding>)
    requires sym in p
    ensures r.Keys == if p[sym].quantity - qty <= Epsilon then p.Keys - {sym} else p.Keys
    ensures forall k :: k in p && k != sym ==> r[k] == p[k]
    ensures sym in r ==>
      r[sym] == p[sym].(quantity := p[sym].quantity - qty) && r[sym].quantity > Epsilon
  {
    var h := p[sym];
    if h.quantity - qty <= Epsilon then p - {sym}
    else p[sym := h.(quantity := h.quantity - qty)]
  }

  /** Buying `q1` at `p1` and then `q2` at `p2` of a symbol not held before
      leaves the average price `(q1 p1 + q2 p2) / (q1 + q2)`. */
  lemma AverageOfTwoBuys(sym: string, name: string, kind: string, q1: real, p1: real, q2: real, p2: real)
    requires q1 > 0.0 && q2 > 0.0
    ensures Upsert(Upsert(map[], sym, name, kind, q1, p1), sym, name, kind, q2, p2)[sym].avgPrice
            == (q1 * p1 + q2 * p2) / (q1 + q2)
  {
  }

  /** Adding a positive quantity to a positive holding puts the new average
      price between the old average and the buying price. */
  lemma AverageBetween(p: map<string, Holding>, sym: string, name: string, kind: string, qty: real, price: real)
    requires sym in p && p[sym].quantity > 0.0 && qty > 0.0
    ensures var a := Upsert(p, sym, name, kind, qty, price)[sym].avgPrice;
      (p[sym].avgPrice <= price ==> p[sym].avgPrice <= a <= price) &&
      (price <= p[sym].avgPrice ==> price <= a <= p[sym].avgPrice)
  {
    var q, avg := p[sym].quantity, p[sym].avgPrice;
    var n := q + qty;
    var a := Upsert(p, sym, name, kind, qty, price)[sym].avgPrice;
    assert n * a == q * avg + qty * price;
    assert n * a - n * avg == qty * (price - avg);
    assert n * a - n * price == q * (avg - price);
    if avg <= price {
      assert n * (a - avg) >= 0.0;
      assert n * (price - a) >= 0.0;
    } else {
      assert n * (avg - a) >= 0.0;
      assert n * (a - price) >= 0.0;
    }
  }

  /** Buying `qty` and selling the same `qty` of a symbol gives back the
      holdings: the holding disappears again if there was none, and otherwise
      returns to its quantity (its average price keeps the blended value). */
  lemma BuySellRoundTrip(p: map<string, Holding>, sym: string, name: string, kind: string, qty: real, price: real)
    requires sym !in p || p[sym].quantity > Epsilon
    ensures sym !in p ==> Reduce(Upsert(p, sym, name, kind, qty, price), sym, qty) == p
    ensures sym in p ==>
      var r := Reduce(Upsert(p, sym, name, kind, qty, price), sym, qty);
      r.Keys == p.Keys && r[sym].quantity == p[sym].quantity
      && forall k :: k in p && k != sym ==> r[k] == p[k]
  {
    if sym !in p {
      var r := Reduce(Upsert(p, sym, name, kind, qty, price), sym, qty);
      assert r.Keys == p.Keys;
      assert forall k :: k in r ==> r[k] == p[k];
    }
  }

  /** Two instruments of the sample market `setupSampleMarket` lists. */
  function SampleListing(): (l: Listing)
    ensures KeyedBySymbol(l)
    ensures l.stocks.Keys !! l.funds.Keys
  {
    Listing(map["TATAM" := Stock("Tata Motors Ltd", "TATAM", 490.50, 10000)],
            map["SBI-EQ" := Fund("SBI Equity Fund", "SBI-EQ", 48.30, 50000.0)])
  }

  /** With 10000.00 in cash: 10 TATAM shares can be bought for 4905.00 and
      sold back at the same price, which brings the cash back to 10000.00 and
      removes the holding again; 5.5 units
      of the SBI-EQ fund can be bought, 5.5 TATAM shares cannot. */
  lemma SampleTrades()
    ensures BuyCheck(SampleListing(), 10000.0, "TATAM", 10.0) == Done
    ensures 10000.0 - SampleListing().stocks["TATAM"].price * 10.0 == 5095.0
    ensures 5095.0 + SampleListing().stocks["TATAM"].price * 10.0 == 10000.0
    ensures var p := Upsert(map[], "TATAM", "Tata Motors Ltd", StockType, 10.0, 490.50);
      && p["TATAM"].quantity == 10.0 && p["TATAM"].avgPrice == 490.50
      && SellCheck(p, SampleListing(), "TATAM", 10.0) == Done
      && Reduce(p, "TATAM", 10.0) == map[]
    ensures BuyCheck(SampleListing(), 10000.0, "SBI-EQ", 5.5) == Done
    ensures BuyCheck(SampleListing(), 10000.0, "TATAM", 5.5) == Rejected(FractionalShares)
  {
    assert (5.5).Floor == 5;
  }

  /** The price `displayPortfolio` marks a holding at: the market's current
      price, or 0 when the market no longer lists the symbol. */
  function MarkPrice(l: Listing, sym: string): (r: real)
    ensures FindInvestment(l, sym).None? ==> r == 0.0
    ensures FindInvestment(l, sym).Some? ==> r == FindInvestment(l, sym).value.CurrentPrice()
  {
    match FindInvestment(l, sym)
    case None => 0.0
    case Some(inv) => inv.CurrentPrice()
  }

  /** Market value of a holding, `quantity * mprice`: nothing for a symbol
      the market no longer lists or for an empty holding. */
  function MarketValue(h: Holding, l: Listing): (r: real)
    ensures FindInvestment(l, h.symbol).None? ==> r == 0.0
    ensures h.quantity == 0.0 ==> r == 0.0
  {
    h.quantity * MarkPrice(l, h.symbol)
  }

  /** The unrealised profit or loss `(mprice - avgPrice) * quantity`: the
      market value less what was paid, and a gain exactly when the market price
      is above the average price of a positive holding. */
  function ProfitLoss(h: Holding, l: Listing): (r: real)
    ensures r == MarketValue(h, l) - h.quantity * h.avgPrice
    ensures h.quantity > 0.0 ==> (r > 0.0 <==> MarkPrice(l, h.symbol) > h.avgPrice)
  {
    var d := MarkPrice(l, h.symbol) - h.avgPrice;
    var r := d * h.quantity;
    assert h.quantity > 0.0 ==> (r > 0.0 <==> d > 0.0) by {
      if h.quantity > 0.0 {
        if d > 0.0 {
          MulPositive(d, h.quantity);
        } else {
          MulNonPositive(d, h.quantity);
        }
      }
    }
    r
  }

  lemma MulPositive(a: real, b: real)
    requires a > 0.0 && b > 0.0
    ensures a * b > 0.0
  {
  }

  lemma MulNonPositive(a: real, b: real)
    requires a <= 0.0 && b > 0.0
    ensures a * b <= 0.0
  {
  }

  /** The summed market value of the holdings under `keys`. */
  ghost function ValueOf(keys: set<string>, p: map<string, Holding>, l: Listing): (r: real)
    requires keys <= p.Keys
    ensures keys == {} ==> r == 0.0
    ensures (forall k :: k in keys ==> MarketValue(p[k], l) >= 0.0) ==> r >= 0.0
    decreases keys
  {
    if keys == {} then 0.0
    else
      var k :| k in keys;
      MarketValue(p[k], l) + ValueOf(keys - {k}, p, l)
  }

  /** The sum does not depend on the order the holdings are visited in: any
      holding can be taken out first. */
  lemma {:induction false} ValueOfRemove(keys: set<string>, p: map<string, Holding>, l: Listing, k: string)
    requires k in keys && keys <= p.Keys
    ensures ValueOf(keys, p, l) == MarketValue(p[k], l) + ValueOf(keys - {k}, p, l)
    decreases keys
  {
    var j :| j in keys && ValueOf(keys, p, l) == MarketValue(p[j], l) + ValueOf(keys - {j}, p, l);
    if j != k {
      ValueOfRemove(keys - {j}, p, l, k);
      ValueOfRemove(keys - {k}, p, l, j);
      assert keys - {j} - {k} == keys - {k} - {j};
    }
  }

  /** Parsed lines of an investor file after the name and cash lines:
      `symbol|name|type|quantity|avgPrice`, with `None` for a number `stod`
      rejects (an empty field included). */
  datatype HoldingLine =
    | BlankHoldingLine
    | HoldingRecord(symbol: string, name: string, kind: string, qty: Option<real>, avg: Option<real>)

  /** An investor file: the name line, the cash line, then the holdings. */
  datatype InvestorFile = InvestorFile(name: string, cash: NumText, holdings: seq<HoldingLine>)

  /** A holding line whose two numbers convert (blank lines always do). */
  predicate Complete(line: HoldingLine)
  {
    line.HoldingRecord? ==> line.qty.Some? && line.avg.Some?
  }

  /** The reading loop of `Investor::loadFromFile` from portfolio `p`: each
      record replaces the holding under its symbol, and the first record with
      a bad number stops the load with `false`, keeping the earlier ones. */
  function LoadHoldings(p: map<string, Holding>, lines: seq<HoldingLine>): (r: (map<string, Holding>, bool))
    ensures (forall k :: k in p ==> p[k].symbol == k) ==> (forall k :: k in r.0 ==> r.0[k].symbol == k)
    ensures p.Keys <= r.0.Keys
    ensures r.1 <==> forall i :: 0 <= i < |lines| ==> Complete(lines[i])
    decreases |lines|
  {
    if |lines| == 0 then (p, true)
    else
      assert forall i :: 0 <= i < |lines| - 1 ==> lines[1..][i] == lines[i + 1];
      match lines[0]
      case BlankHoldingLine => LoadHoldings(p, lines[1..])
      case HoldingRecord(sym, nm, tp, q, a) =>
        if q.None? || a.None? then (p, false)
        else LoadHoldings(p[sym := Holding(sym, nm, tp, q.value, a.value)], lines[1..])
  }

  /** A load whose first record with a bad number is at index `k` returns
      `false` with the records before `k` stored: nothing is rolled back. */
  lemma {:induction false} HoldingsStopAtFirstBadRecord(p: map<string, Holding>, lines: seq<HoldingLine>, k: nat)
    requires k < |lines| && !Complete(lines[k])
    requires forall i :: 0 <= i < k ==> Complete(lines[i])
    ensures LoadHoldings(p, lines[..k]).1
    ensures LoadHoldings(p, lines) == (LoadHoldings(p, lines[..k]).0, false)
    decreases k
  {
    if k > 0 {
      assert lines[..k][1..] == lines[1..][..k - 1];
      assert lines[..k][0] == lines[0];
      var next := match lines[0]
        case BlankHoldingLine => p
        case HoldingRecord(sym, nm, tp, q, a) => p[sym := Holding(sym, nm, tp, q.value, a.value)];
      HoldingsStopAtFirstBadRecord(next, lines[1..], k - 1);
    }
  }

  /** The symbols of the holding records among `lines`. */
  function RecordSymbols(lines: seq<HoldingLine>): set<string>
  {
    set i | 0 <= i < |lines| && lines[i].HoldingRecord? :: lines[i].symbol
  }

  /** The record symbols of a non-empty list: those of its first line and its rest. */
  lemma RecordSymbolsOfTail(lines: seq<HoldingLine>)
    requires |lines| > 0
    ensures RecordSymbols(lines) ==
      (if lines[0].HoldingRecord? then {lines[0].symbol} else {}) + RecordSymbols(lines[1..])
  {
    forall s | s in RecordSymbols(lines)
      ensures s in (if lines[0].HoldingRecord? then {lines[0].symbol} else {}) + RecordSymbols(lines[1..])
    {
      var i :| 0 <= i < |lines| && lines[i].HoldingRecord? && lines[i].symbol == s;
      if i > 0 {
        assert lines[1..][i - 1] == lines[i];
      }
    }
    forall s | s in RecordSymbols(lines[1..])
      ensures s in RecordSymbols(lines)
    {
      var i :| 0 <= i < |lines[1..]| && lines[1..][i].HoldingRecord? && lines[1..][i].symbol == s;
      assert lines[i + 1] == lines[1..][i];
    }
  }

  /** After a successful load the portfolio holds exactly the symbols it held
      before plus those of the records. */
  lemma {:induction false} LoadedHoldingSymbols(p: map<string, Holding>, lines: seq<HoldingLine>)
    requires LoadHoldings(p, lines).1
    ensures LoadHoldings(p, lines).0.Keys == p.Keys + RecordSymbols(lines)
    decreases |lines|
  {
    if |lines| > 0 {
      RecordSymbolsOfTail(lines);
      assert Complete(lines[0]);
      match lines[0]
      case BlankHoldingLine =>
        LoadedHoldingSymbols(p, lines[1..]);
      case HoldingRecord(sym, nm, tp, q, a) =>
        LoadedHoldingSymbols(p[sym := Holding(sym, nm, tp, q.value, a.value)], lines[1..]);
    }
  }

  /** A holding no record mentions keeps its value through the load. */
  lemma {:induction false} UnmentionedHoldingKept(p: map<string, Holding>, lines: seq<HoldingLine>, sym: string)
    requires sym in p
    requires forall j :: 0 <= j < |lines| && lines[j].HoldingRecord? ==> lines[j].symbol != sym
    ensures sym in LoadHoldings(p, lines).0 && LoadHoldings(p, lines).0[sym] == p[sym]
    decreases |lines|
  {
    if |lines| > 0 {
      assert forall j :: 0 <= j < |lines| - 1 ==> lines[1..][j] == lines[j + 1];
      match lines[0]
      case BlankHoldingLine =>
        UnmentionedHoldingKept(p, lines[1..], sym);
      case HoldingRecord(s, nm, tp, q, a) =>
        if q.Some? && a.Some? {
          UnmentionedHoldingKept(p[s := Holding(s, nm, tp, q.value, a.value)], lines[1..], sym);
        }
    }
  }

  /** After a successful load, the last record for a symbol decides its
      holding: symbol, name, type, quantity and average price as written. */
  lemma {:induction false} LastRecordWins(p: map<string, Holding>, lines: seq<HoldingLine>, i: nat)
    requires LoadHoldings(p, lines).1
    requires i < |lines| && lines[i].HoldingRecord?
    requires forall j :: i < j < |lines| && lines[j].HoldingRecord? ==> lines[j].symbol != lines[i].symbol
    ensures lines[i].qty.Some? && lines[i].avg.Some?
    ensures var line := lines[i];
      && line.symbol in LoadHoldings(p, lines).0
      && LoadHoldings(p, lines).0[line.symbol]
         == Holding(line.symbol, line.name, line.kind, line.qty.value, line.avg.value)
    decreases i
  {
    assert Complete(lines[i]);
    assert Complete(lines[0]);
    assert forall j :: 0 <= j < |lines| - 1 ==> lines[1..][j] == lines[j + 1];
    var next := match lines[0]
      case BlankHoldingLine => p
      case HoldingRecord(sym, nm, tp, q, a) => p[sym := Holding(sym, nm, tp, q.value, a.value)];
    assert LoadHoldings(p, lines) == LoadHoldings(next, lines[1..]);
    if i == 0 {
      UnmentionedHoldingKept(next, lines[1..], lines[0].symbol);
    } else {
      LastRecordWins(next, lines[1..], i - 1);
    }
  }

  /** The fields the SELL entry reads through `h` as the program is written:
      after the update, through a reference into the portfolio. They exist
      only while the holding is still in the portfolio; `None` stands for the
      read of an erased element. */
  function SellEntryFieldsAsWritten(after: map<string, Holding>, sym: string): (r: Option<(string, string)>)
    ensures r.Some? <==> sym in after
  {
    if sym in after then Some((after[sym].name, after[sym].kind)) else None
  }

  /** Selling a whole holding erases it before the log entry is written, so
      the program reads the name and type of an erased element. */
  lemma FullSellReadsErasedHolding(p: map<string, Holding>, sym: string, qty: real)
    requires sym in p && qty >= p[sym].quantity
    ensures SellEntryFieldsAsWritten(Reduce(p, sym, qty), sym).None?
  {
  }

  /** The concrete case: holding 10 TATAM shares and selling all 10. */
  lemma SellAllTatamReadsErasedHolding()
    ensures var p := map["TATAM" := Holding("TATAM", "Tata Motors Ltd", StockType, 10.0, 490.50)];
      SellEntryFieldsAsWritten(Reduce(p, "TATAM", 10.0), "TATAM").None?
  {
  }

  /** When the holding survives the sale, the fields read as written agree
      with the ones `Investor.Sell` captures before the update. */
  lemma PartialSellReadsSameFields(p: map<string, Holding>, sym: string, qty: real)
    requires sym in p && p[sym].quantity - qty > Epsilon
    ensures SellEntryFieldsAsWritten(Reduce(p, sym, qty), sym) == Some((p[sym].name, p[sym].kind))
  {
  }

  class Investor {
    var name: string
    var cash: real
    var portfolio: map<string, Holding>
    const log: TransactionLog

    /** Every holding is stored under its own symbol. */
    ghost predicate Valid()
      reads this
    {
      forall k :: k in portfolio ==> portfolio[k].symbol == k
    }

    constructor (name: string, balance: real)
      ensures Valid()
      ensures this.name == name && cash == balance && portfolio == map[]
      ensures fresh(log) && log.entries == []
    {
      this.name := name;
      cash := balance;
      portfolio := map[];
      log := new TransactionLog();
    }

    /** `deposit`: a positive amount is credited and logged; anything else
        changes nothing. */
    method Deposit(amt: real, time: string)
      requires Valid()
      modifies this, log
      ensures Valid()
      ensures amt <= 0.0 ==> unchanged(this, log)
      ensures amt > 0.0 ==>
        && cash == old(cash) + amt
        && name == old(name) && portfolio == old(portfolio)
        && log.entries == old(log.entries) + [Entry(time, "DEPOSIT", "-", "-", "-", 0.0, 0.0, cash)]
    {
      if amt <= 0.0 {
        return;
      }
      cash := cash + amt;
      log.Add(time, "DEPOSIT", "-", "-", "-", 0.0, 0.0, cash);
    }

    /** `withdraw`: refused for an amount that is not positive or exceeds the
        balance; otherwise debited and logged. A balance that was not negative
        stays so. */
    method Withdraw(amt: real, time: string) returns (ok: bool)
      requires Valid()
      modifies this, log
      ensures Valid()
      ensures ok <==> 0.0 < amt <= old(cash)
      ensures !ok ==> unchanged(this, log)
      ensures ok ==>
        && cash == old(cash) - amt && cash >= 0.0
        && name == old(name) && portfolio == old(portfolio)
        && log.entries == old(log.entries) + [Entry(time, "WITHDRAW", "-", "-", "-", 0.0, 0.0, cash)]
    {
      if amt <= 0.0 {
        return false;
      }
      if amt > cash {
        return false;
      }
      cash := cash - amt;
      log.Add(time, "WITHDRAW", "-", "-", "-", 0.0, 0.0, cash);
      return true;
    }

    /** `addOrUpdateHolding`. */
    method AddOrUpdateHolding(sym: string, nm: string, kind: string, qty: real, price: real)
      requires Valid()
      modifies this
      ensures Valid()
      ensures portfolio == Upsert(old(portfolio), sym, nm, kind, qty, price)
      ensures name == old(name) && cash == old(cash)
    {
      if sym !in portfolio {
        portfolio := portfolio[sym := Holding(sym, nm, kind, qty, price)];
      } else {
        var h := portfolio[sym];
        var newQty := h.quantity + qty;
        var newAvg := h.avgPrice;
        if newQty > 0.0 {
          newAvg := (h.quantity * h.avgPrice + qty * price) / newQty;
        }
        assert newQty > 0.0 ==> Upsert(portfolio, sym, nm, kind, qty, price)[sym].avgPrice == newAvg;
        portfolio := portfolio[sym := h.(quantity := newQty, avgPrice := newAvg)];
      }
    }

    /** `buy`: on success the cost `price * qty` leaves the cash (which stays
        non-negative), the market's inventory of the symbol drops by exactly
        `qty`, the holding is updated, and one BUY entry carrying the new
        balance is logged. A refusal changes nothing. */
    method Buy(market: Market, sym: string, qty: real, time: string) returns (status: Outcome)
      requires Valid() && market.Valid()
      modifies this, log, market
      ensures Valid() && market.Valid()
      ensures status == BuyCheck(old(Listing(market.stocks, market.funds)), old(cash), sym, qty)
      ensures status.Rejected? ==> unchanged(this, log, market)
      ensures status.Done? ==> name == old(name) && market.volatility == old(market.volatility) && cash >= 0.0
      ensures status.Done? && sym in old(market.stocks) ==>
        var s := old(market.stocks)[sym];
        && cash == old(cash) - s.price * qty
        && market.stocks == old(market.stocks)[sym := s.(available := s.available - qty.Floor)]
        && market.funds == old(market.funds)
        && portfolio == Upsert(old(portfolio), sym, s.name, StockType, qty, s.price)
        && log.entries == old(log.entries) + [Entry(time, "BUY", sym, s.name, StockType, qty, s.price, cash)]
      ensures status.Done? && sym !in old(market.stocks) ==>
        var f := old(market.funds)[sym];
        && cash == old(cash) - f.nav * qty
        && market.funds == old(market.funds)[sym := f.(units := f.units - qty)]
        && market.stocks == old(market.stocks)
        && portfolio == Upsert(old(portfolio), sym, f.name, FundType, qty, f.nav)
        && log.entries == old(log.entries) + [Entry(time, "BUY", sym, f.name, FundType, qty, f.nav, cash)]
    {
      var inv := FindInvestment(Listing(market.stocks, market.funds), sym);
      if inv.None? {
        return Rejected(SymbolNotFound);
      }
      if qty <= 0.0 {
        return Rejected(NonPositiveQuantity);
      }
      var price := inv.value.CurrentPrice();
      var cost := price * qty;
      if inv.value.Equity? {
        var s := market.stocks[sym];
        var iqty := qty.Floor;
        if iqty as real != qty {
          return Rejected(FractionalShares);
        }
        if iqty > s.available {
          return Rejected(NotEnoughShares);
        }
        if cost > cash {
          return Rejected(InsufficientCash);
        }
        cash := cash - cost;
        market.ChangeAvailable(sym, -iqty);
        AddOrUpdateHolding(sym, s.name, StockType, qty, price);
        log.Add(time, "BUY", sym, s.name, StockType, qty, price, cash);
        return Done;
      }
      var f := market.funds[sym];
      if qty > f.units {
        return Rejected(NotEnoughUnits);
      }
      if cost > cash {
        return Rejected(InsufficientCash);
      }
      cash := cash - cost;
      market.ChangeUnits(sym, -qty);
      AddOrUpdateHolding(sym, f.name, FundType, qty, price);
      log.Add(time, "BUY", sym, f.name, FundType, qty, price, cash);
      return Done;
    }

    /** `sell`: on success the proceeds `price * qty`, at the market's current
        price, are credited, the market takes back `qty` (into the stock or
        fund map as the holding's type says, if the symbol is listed there),
        the holding shrinks or is removed, and one SELL entry is logged with
        the holding's name and type. A refusal changes nothing. */
    method Sell(market: Market, sym: string, qty: real, time: string) returns (status: Outcome)
      requires Valid() && market.Valid()
      modifies this, log, market
      ensures Valid() && market.Valid()
      ensures status == SellCheck(old(portfolio), old(Listing(market.stocks, market.funds)), sym, qty)
      ensures status.Rejected? ==> unchanged(this, log, market)
      ensures status.Done? ==>
        var h := old(portfolio)[sym];
        var price := MarkPrice(old(Listing(market.stocks, market.funds)), sym);
        && name == old(name) && market.volatility == old(market.volatility)
        && cash == old(cash) + price * qty
        && portfolio == Reduce(old(portfolio), sym, qty)
        && market.stocks == (if h.kind == StockType && sym in old(market.stocks)
                             then old(market.stocks)[sym := old(market.stocks)[sym].ChangeAvailable(qty.Floor)]
                             else old(market.stocks))
        && market.funds == (if h.kind == FundType && sym in old(market.funds)
                            then old(market.funds)[sym := old(market.funds)[sym].ChangeUnits(qty)]
                            else old(market.funds))
        && log.entries == old(log.entries) + [Entry(time, "SELL", sym, h.name, h.kind, qty, price, cash)]
    {
      if sym !in portfolio {
        return Rejected(NoSuchHolding);
      }
      var h := portfolio[sym];
      if qty <= 0.0 {
        return Rejected(NonPositiveQuantity);
      }
      if qty > h.quantity + Epsilon {
        return Rejected(InsufficientHolding);
      }
      var inv := FindInvestment(Listing(market.stocks, market.funds), sym);
      if inv.None? {
        return Rejected(Delisted);
      }
      var price := inv.value.CurrentPrice();
      var proceeds := price * qty;
      if h.kind == StockType && qty.Floor as real != qty {
        return Rejected(FractionalShares);
      }
      Restock(market, sym, h.kind, qty);
      // The name and type go into the log entry from `h`, taken before the
      // holding may be erased.
      var remaining := h.quantity - qty;
      if remaining <= Epsilon {
        portfolio := portfolio - {sym};
      } else {
        portfolio := portfolio[sym := h.(quantity := remaining)];
      }
      cash := cash + proceeds;
      log.Add(time, "SELL", sym, h.name, h.kind, qty, price, cash);
      return Done;
    }

    /** The market side of `sell`: the sold quantity goes back to the stock
        or the fund listed under `sym`, as the holding's type says, when the
        market lists it there. */
    static method Restock(market: Market, sym: string, kind: string, qty: real)
      requires market.Valid()
      modifies market
      ensures market.Valid() && market.volatility == old(market.volatility)
      ensures market.stocks == (if kind == StockType && sym in old(market.stocks)
                                then old(market.stocks)[sym := old(market.stocks)[sym].ChangeAvailable(qty.Floor)]
                                else old(market.stocks))
      ensures market.funds == (if kind == FundType && sym in old(market.funds)
                               then old(market.funds)[sym := old(market.funds)[sym].ChangeUnits(qty)]
                               else old(market.funds))
    {
      if kind == StockType {
        if sym in market.stocks {
          market.ChangeAvailable(sym, qty.Floor);
        }
      } else if kind == FundType {
        if sym in market.funds {
          market.ChangeUnits(sym, qty);
        }
      }
    }

    /** The valuation of `displayPortfolio`: cash plus the market value of
        every holding, each marked at the market's current price (0 when the
        symbol is no longer listed). */
    method NetWorth(market: Market) returns (total: real)
      requires Valid()
      ensures total == cash + ValueOf(portfolio.Keys, portfolio, Listing(market.stocks, market.funds))
    {
      var l := Listing(market.stocks, market.funds);
      total := cash;
      var todo := portfolio.Keys;
      while todo != {}
        invariant todo <= portfolio.Keys
        invariant total + ValueOf(todo, portfolio, l) == cash + ValueOf(portfolio.Keys, portfolio, l)
        decreases todo
      {
        var k :| k in todo;
        var h := portfolio[k];
        var mprice := 0.0;
        var inv := FindInvestment(l, h.symbol);
        if inv.Some? {
          mprice := inv.value.CurrentPrice();
        }
        assert h.quantity * mprice == MarketValue(portfolio[k], l);
        ValueOfRemove(todo, portfolio, l, k);
        total := total + h.quantity * mprice;
        todo := todo - {k};
      }
    }

    /** `loadFromFile`: `file` is `None` when the file cannot be opened and
        `txlog` when the companion `.txlog` file cannot. The portfolio is
        cleared and the name read first; an empty name or a bad cash number
        stops there with `false`; then the holdings are read, and only if all
        of them convert is the transaction log loaded (appending to the
        entries already present, its own result ignored) and `true` returned. */
    method LoadFromFile(file: Option<InvestorFile>, txlog: Option<seq<LogLine>>) returns (ok: bool)
      requires Valid()
      modifies this, log
      ensures Valid()
      ensures file.None? ==> !ok && unchanged(this, log)
      ensures file.Some? ==> name == file.value.name
      ensures file.Some? && (file.value.name == "" || file.value.cash.NotNumber?) ==>
        !ok && portfolio == map[] && cash == old(cash) && log.entries == old(log.entries)
      ensures file.Some? && file.value.name != "" && !file.value.cash.NotNumber? ==>
        && cash == ZeroIfEmpty(file.value.cash).value
        && (portfolio, ok) == LoadHoldings(map[], file.value.holdings)
        && log.entries == (if ok && txlog.Some? then LoadLogLines(old(log.entries), txlog.value).0
                           else old(log.entries))
    {
      if file.None? {
        return false;
      }
      portfolio := map[];
      name := file.value.name;
      if name == "" {
        return false;
      }
      var c := ZeroIfEmpty(file.value.cash);
      if c.None? {
        return false;
      }
      cash := c.value;
      var lines := file.value.holdings;
      var i := 0;
      while i < |lines|
        invariant 0 <= i <= |lines|
        invariant Valid() && log.entries == old(log.entries)
        invariant LoadHoldings(map[], lines) == LoadHoldings(portfolio, lines[i..])
        invariant name == file.value.name && cash == c.value
      {
        assert lines[i..][1..] == lines[i + 1..];
        match lines[i] {
          case BlankHoldingLine =>
          case HoldingRecord(sym, nm, tp, q, a) =>
            if q.None? || a.None? {
              return false;
            }
            portfolio := portfolio[sym := Holding(sym, nm, tp, q.value, a.value)];
        }
        i := i + 1;
      }
      var _ := log.LoadFromFile(txlog);
      return true;
    }
  }

  /** Buying `qty` shares of a listed stock the investor does not hold and
      selling them straight back, at an unchanged price: when the buy goes
      through, so does the sale, and the cash, the portfolio and the market's
      stocks and funds are all as they were; the log gains one BUY and one
      SELL entry. */
  method BuyThenSellShares(inv: Investor, market: Market, sym: string, qty: real, t1: string, t2: string)
    returns (bought: Outcome, sold: Outcome)
    requires inv.Valid() && market.Valid() && sym !in inv.portfolio && sym in market.stocks
    modifies inv, inv.log, market
    ensures inv.Valid() && market.Valid()
    ensures bought == BuyCheck(old(Listing(market.stocks, market.funds)), old(inv.cash), sym, qty)
    ensures bought.Rejected? ==> unchanged(inv, inv.log, market)
    ensures bought.Done? ==>
      && sold == Done
      && inv.cash == old(inv.cash)
      && inv.portfolio == old(inv.portfolio)
      && market.stocks == old(market.stocks)
      && market.funds == old(market.funds)
      && |inv.log.entries| == |old(inv.log.entries)| + 2
  {
    ghost var p0 := inv.portfolio;
    bought := inv.Buy(market, sym, qty, t1);
    if bought.Rejected? {
      sold := bought;
      return;
    }
    ghost var h := inv.portfolio[sym];
    BuySellRoundTrip(p0, sym, h.name, h.kind, qty, h.avgPrice);
    assert inv.portfolio == Upsert(p0, sym, h.name, h.kind, qty, h.avgPrice);
    sold := inv.Sell(market, sym, qty, t2);
  }

  /** The same round trip for a symbol that is not a stock: units of a fund
      (or a buy refused because nothing is listed under `sym`). */
  method BuyThenSellUnits(inv: Investor, market: Market, sym: string, qty: real, t1: string, t2: string)
    returns (bought: Outcome, sold: Outcome)
    requires inv.Valid() && market.Valid() && sym !in inv.portfolio && sym !in market.stocks
    modifies inv, inv.log, market
    ensures inv.Valid() && market.Valid()
    ensures bought == BuyCheck(old(Listing(market.stocks, market.funds)), old(inv.cash), sym, qty)
    ensures bought.Rejected? ==> unchanged(inv, inv.log, market)
    ensures bought.Done? ==>
      && sold == Done
      && inv.cash == old(inv.cash)
      && inv.portfolio == old(inv.portfolio)
      && market.stocks == old(market.stocks)
      && market.funds == old(market.funds)
      && |inv.log.entries| == |old(inv.log.entries)| + 2
  {
    ghost var p0 := inv.portfolio;
    bought := inv.Buy(market, sym, qty, t1);
    if bought.Rejected? {
      sold := bought;
      return;
    }
    ghost var h := inv.portfolio[sym];
    BuySellRoundTrip(p0, sym, h.name, h.kind, qty, h.avgPrice);
    assert inv.portfolio == Upsert(p0, sym, h.name, h.kind, qty, h.avgPrice);
    sold := inv.Sell(market, sym, qty, t2);
  }
}
