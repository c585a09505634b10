/** `Market` of C++/code/sharemarket.cpp: two symbol-keyed maps of instruments,
    the volatility of the random walk, price simulation and snapshot loading.
    Random draws and the contents of a snapshot file are parameters. */
module Exchange {

  import opened Wrappers
  import opened Instruments

  /** The instruments the market lists: `stocks` and `funds`. */
  datatype Listing = Listing(stocks: map<string, Stock>, funds: map<string, Fund>)

  /** Every instrument is stored under its own symbol, as `addStock` and
      `addFund` store it. */
  ghost predicate KeyedBySymbol(l: Listing)
  {
    && (forall k :: k in l.stocks ==> l.stocks[k].symbol == k)
    && (forall k :: k in l.funds ==> l.funds[k].symbol == k)
  }

  /** `findInvestment`: the stock map is searched first, so a stock shadows a
      fund listed under the same symbol. */
  function FindInvestment(l: Listing, sym: string): (r: Option<Instrument>)
    ensures r.Some? <==> sym in l.stocks || sym in l.funds
    ensures sym in l.stocks ==> r == Some(Equity(l.stocks[sym]))
    ensures sym !in l.stocks && sym in l.funds ==> r == Some(MutualFund(l.funds[sym]))
  {
    if sym in l.stocks then Some(Equity(l.stocks[sym]))
    else if sym in l.funds then Some(MutualFund(l.funds[sym]))
    else None
  }

  /** The stock prices after one simulation step, `draw(k)` being the random
      percentage drawn for symbol `k`. Whatever the draws, every price lands in
      `[0.01, 10 * old + 10]` (for any old price above -0.999), and nothing
      but the price changes. */
  function MovedStocks(stocks: map<string, Stock>, draw: string -> real): (m: map<string, Stock>)
    ensures m.Keys == stocks.Keys
    ensures forall k :: k in stocks && stocks[k].price > -0.999 ==>
      0.01 <= m[k].price <= stocks[k].price * 10.0 + 10.0
    ensures forall k :: k in stocks ==> m[k] == stocks[k].(price := m[k].price)
  {
    map k | k in stocks :: stocks[k].(price := NextPrice(stocks[k].price, draw(k), 10.0))
  }

  /** The fund NAVs after one simulation step: every NAV lands in
      `[0.01, 5 * old + 10]` (for any old NAV above -1.998), and nothing but
      the NAV changes. */
  function MovedFunds(funds: map<string, Fund>, draw: string -> real): (m: map<string, Fund>)
    ensures m.Keys == funds.Keys
    ensures forall k :: k in funds && funds[k].nav > -1.998 ==>
      0.01 <= m[k].nav <= funds[k].nav * 5.0 + 10.0
    ensures forall k :: k in funds ==> m[k] == funds[k].(nav := m[k].nav)
  {
    map k | k in funds :: funds[k].(nav := NextPrice(funds[k].nav, draw(k), 5.0))
  }

  /** A line of a snapshot file, split at '|' as `tag|symbol|name|number|number`.
      `price` is what `stod` makes of the fourth field; `shares` and `units` are
      what `stoi` and `stod` make of the fifth; `None` stands for the exception
      either throws. On a line cut short, `std::getline` leaves the shared
      buffer holding the previous field's text, so a missing fifth field
      converts the fourth again (`STOCK|S|N|12.5` has 12 shares); the values
      here are whatever the program converts, which covers that case. An empty
      line has the empty tag and is skipped like any other unknown tag. */
  datatype SnapshotLine = SnapshotLine(
    tag: string, symbol: string, name: string,
    price: Option<real>, shares: Option<int>, units: Option<real>)

  /** What one line does to the listing: a "STOCK" line adds (or replaces) a
      stock, a "FUND" line a fund, any other tag nothing; `None` when a number
      the line needs fails to convert. */
  function LoadLine(l: Listing, line: SnapshotLine): (r: Option<Listing>)
    ensures r.None? <==>
      (line.tag == "STOCK" && (line.price.None? || line.shares.None?)) ||
      (line.tag == "FUND" && (line.price.None? || line.units.None?))
    ensures line.tag != "STOCK" && line.tag != "FUND" ==> r == Some(l)
    ensures r.Some? && line.tag == "STOCK" ==>
      r.value.funds == l.funds
      && r.value.stocks == l.stocks[line.symbol := Stock(line.name, line.symbol, line.price.value, line.shares.value)]
    ensures r.Some? && line.tag == "FUND" ==>
      r.value.stocks == l.stocks
      && r.value.funds == l.funds[line.symbol := Fund(line.name, line.symbol, line.price.value, line.units.value)]
  {
    if line.tag == "STOCK" then
      if line.price.None? || line.shares.None? then None
      else Some(l.(stocks := l.stocks[line.symbol :=
        Stock(line.name, line.symbol, line.price.value, line.shares.value)]))
    else if line.tag == "FUND" then
      if line.price.None? || line.units.None? then None
      else Some(l.(funds := l.funds[line.symbol :=
        Fund(line.name, line.symbol, line.price.value, line.units.value)]))
    else Some(l)
  }

  /** The reading loop of `loadSnapshot`, from listing `l`: lines are applied in
      order, and the first line whose numbers fail stops the load with `false`,
      keeping what the earlier lines added. */
  function LoadSnapshotLines(l: Listing, lines: seq<SnapshotLine>): (r: (Listing, bool))
    ensures KeyedBySymbol(l) ==> KeyedBySymbol(r.0)
    decreases |lines|
  {
    if |lines| == 0 then (l, true)
    else match LoadLine(l, lines[0])
      case None => (l, false)
      case Some(next) => LoadSnapshotLines(next, lines[1..])
  }

  /** A line with an unknown tag can be removed without changing the load. */
  lemma {:induction false} UnknownTagIgnored(
    l: Listing, before: seq<SnapshotLine>, line: SnapshotLine, after: seq<SnapshotLine>)
    requires line.tag != "STOCK" && line.tag != "FUND"
    ensures LoadSnapshotLines(l, before + [line] + after) == LoadSnapshotLines(l, before + after)
    decreases |before|
  {
    if |before| == 0 {
      assert before + [line] + after == [line] + after;
      assert ([line] + after)[1..] == after;
      assert before + after == after;
    } else {
      assert (before + [line] + after)[0] == before[0];
      assert (before + [line] + after)[1..] == before[1..] + [line] + after;
      assert (before + after)[0] == before[0];
      assert (before + after)[1..] == before[1..] + after;
      match LoadLine(l, before[0])
      case None =>
      case Some(next) => UnknownTagIgnored(next, before[1..], line, after);
    }
  }

  /** A line whose numbers convert: a "STOCK" line needs its price and share
      count, a "FUND" line its NAV and units, any other line nothing. */
  predicate Convertible(line: SnapshotLine)
  {
    && (line.tag == "STOCK" ==> line.price.Some? && line.shares.Some?)
    && (line.tag == "FUND" ==> line.price.Some? && line.units.Some?)
  }

  /** A load whose first line with a bad number is at index `k` returns
      `false` with the lines before `k` applied: earlier records stay loaded. */
  lemma {:induction false} LoadStopsAtFirstBadLine(l: Listing, lines: seq<SnapshotLine>, k: nat)
    requires k < |lines| && !Convertible(lines[k])
    requires forall i :: 0 <= i < k ==> Convertible(lines[i])
    ensures LoadSnapshotLines(l, lines[..k]).1
    ensures LoadSnapshotLines(l, lines) == (LoadSnapshotLines(l, lines[..k]).0, false)
    decreases k
  {
    if k > 0 {
      assert lines[..k][1..] == lines[1..][..k - 1];
      assert lines[..k][0] == lines[0];
      var next := LoadLine(l, lines[0]).value;
      LoadStopsAtFirstBadLine(next, lines[1..], k - 1);
    }
  }

  /** The symbols of the lines tagged `tag` among `lines`. */
  function Symbols(lines: seq<SnapshotLine>, tag: string): set<string>
  {
    set i | 0 <= i < |lines| && lines[i].tag == tag :: lines[i].symbol
  }

  /** The symbols of a non-empty list: those of its first line and its rest. */
  lemma SymbolsOfTail(lines: seq<SnapshotLine>, tag: string)
    requires |lines| > 0
    ensures Symbols(lines, tag) ==
      (if lines[0].tag == tag then {lines[0].symbol} else {}) + Symbols(lines[1..], tag)
  {
    forall s | s in Symbols(lines, tag)
      ensures s in (if lines[0].tag == tag then {lines[0].symbol} else {}) + Symbols(lines[1..], tag)
    {
      var i :| 0 <= i < |lines| && lines[i].tag == tag && lines[i].symbol == s;
      if i > 0 {
        assert lines[1..][i - 1] == lines[i];
      }
    }
    forall s | s in Symbols(lines[1..], tag)
      ensures s in Symbols(lines, tag)
    {
      var i :| 0 <= i < |lines[1..]| && lines[1..][i].tag == tag && lines[1..][i].symbol == s;
      assert lines[i + 1] == lines[1..][i];
    }
  }

  /** After a successful load the stocks listed are those listed before plus
      exactly the symbols of the "STOCK" lines, and likewise for funds. */
  lemma {:induction false} LoadedSymbols(l: Listing, lines: seq<SnapshotLine>)
    requires LoadSnapshotLines(l, lines).1
    ensures LoadSnapshotLines(l, lines).0.stocks.Keys == l.stocks.Keys + Symbols(lines, "STOCK")
    ensures LoadSnapshotLines(l, lines).0.funds.Keys == l.funds.Keys + Symbols(lines, "FUND")
    decreases |lines|
  {
    if |lines| > 0 {
      var next := LoadLine(l, lines[0]).value;
      LoadedSymbols(next, lines[1..]);
      SymbolsOfTail(lines, "STOCK");
      SymbolsOfTail(lines, "FUND");
    }
  }

  class Market {
    var stocks: map<string, Stock>
    var funds: map<string, Fund>
    /** The size of the random percentage moves. */
    var volatility: real

    ghost predicate Valid()
      reads this
    {
      0.003 <= volatility <= 0.08 && KeyedBySymbol(Listing(stocks, funds))
    }

    /** An empty market with volatility 2%. */
    constructor ()
      ensures Valid()
      ensures stocks == map[] && funds == map[] && volatility == 0.02
    {
      stocks := map[];
      funds := map[];
      volatility := 0.02;
    }

    /** `addStock`: list `s` under its symbol, replacing any stock there. */
    method AddStock(s: Stock)
      requires Valid()
      modifies this
      ensures Valid()
      ensures stocks == old(stocks)[s.symbol := s]
      ensures funds == old(funds) && volatility == old(volatility)
    {
      stocks := stocks[s.symbol := s];
    }

    /** `addFund`: list `f` under its symbol, replacing any fund there. */
    method AddFund(f: Fund)
      requires Valid()
      modifies this
      ensures Valid()
      ensures funds == old(funds)[f.symbol := f]
      ensures stocks == old(stocks) && volatility == old(volatility)
    {
      funds := funds[f.symbol := f];
    }

    /** `findStock(sym)->changeAvailable(delta)`, for a symbol `findStock`
        finds. */
    method ChangeAvailable(sym: string, delta: int)
      requires Valid() && sym in stocks
      modifies this
      ensures Valid()
      ensures stocks == old(stocks)[sym := old(stocks)[sym].ChangeAvailable(delta)]
      ensures funds == old(funds) && volatility == old(volatility)
    {
      stocks := stocks[sym := stocks[sym].ChangeAvailable(delta)];
    }

    /** `findFund(sym)->changeUnits(d)`, for a symbol `findFund` finds. */
    method ChangeUnits(sym: string, d: real)
      requires Valid() && sym in funds
      modifies this
      ensures Valid()
      ensures funds == old(funds)[sym := old(funds)[sym].ChangeUnits(d)]
      ensures stocks == old(stocks) && volatility == old(volatility)
    {
      funds := funds[sym := funds[sym].ChangeUnits(d)];
    }

    /** `simulatePriceMovement`. The random percentages are parameters:
        `stockDraw(k)` and `fundDraw(k)` for the instrument listed under `k`
        (drawn by the program from `[-volatility, volatility]` and
        `[-0.8 volatility, 0.8 volatility]`) and `volDrift` (drawn from
        `[-0.002, 0.002]`). The bounds hold for any values of them. */
    method SimulatePriceMovement(stockDraw: string -> real, fundDraw: string -> real, volDrift: real)
      requires Valid()
      modifies this
      ensures Valid()
      ensures stocks == MovedStocks(old(stocks), stockDraw)
      ensures funds == MovedFunds(old(funds), fundDraw)
      ensures volatility == Clamp(old(volatility) + volDrift, 0.003, 0.08)
    {
      MoveStockPrices(stockDraw);
      MoveFundNavs(fundDraw);
      volatility := Clamp(volatility + volDrift, 0.003, 0.08);
    }

    /** The first loop of `simulatePriceMovement`, over the stocks. */
    method MoveStockPrices(draw: string -> real)
      requires Valid()
      modifies this
      ensures Valid()
      ensures stocks == MovedStocks(old(stocks), draw)
      ensures funds == old(funds) && volatility == old(volatility)
    {
      ghost var start := stocks;
      var todo := stocks.Keys;
      while todo != {}
        invariant todo <= start.Keys && stocks.Keys == start.Keys
        invariant forall k :: k in stocks ==>
          (stocks[k] == if k in todo then start[k] else start[k].(price := NextPrice(start[k].price, draw(k), 10.0)))
        invariant funds == old(funds) && volatility == old(volatility)
        decreases todo
      {
        var k :| k in todo;
        var s := stocks[k];
        stocks := stocks[k := s.(price := NextPrice(s.price, draw(k), 10.0))];
        todo := todo - {k};
      }
      assert stocks == MovedStocks(start, draw);
    }

    /** The second loop of `simulatePriceMovement`, over the funds. */
    method MoveFundNavs(draw: string -> real)
      requires Valid()
      modifies this
      ensures Valid()
      ensures funds == MovedFunds(old(funds), draw)
      ensures stocks == old(stocks) && volatility == old(volatility)
    {
      ghost var start := funds;
      var todo := funds.Keys;
      while todo != {}
        invariant todo <= start.Keys && funds.Keys == start.Keys
        invariant forall k :: k in funds ==>
          (funds[k] == if k in todo then start[k] else start[k].(nav := NextPrice(start[k].nav, draw(k), 5.0)))
        invariant stocks == old(stocks) && volatility == old(volatility)
        decreases todo
      {
        var k :| k in todo;
        var f := funds[k];
        funds := funds[k := f.(nav := NextPrice(f.nav, draw(k), 5.0))];
        todo := todo - {k};
      }
      assert funds == MovedFunds(start, draw);
    }

    /** `loadSnapshot`: `file` is `None` when the file cannot be opened, and
        then nothing changes. Otherwise both maps are cleared first, so the
        result does not depend on what was listed before, and a bad number
        stops the load with the earlier lines applied. */
    method LoadSnapshot(file: Option<seq<SnapshotLine>>) returns (ok: bool)
      requires Valid()
      modifies this
      ensures Valid() && volatility == old(volatility)
      ensures file.None? ==> !ok && stocks == old(stocks) && funds == old(funds)
      ensures file.Some? ==>
        (Listing(stocks, funds), ok) == LoadSnapshotLines(Listing(map[], map[]), file.value)
    {
      if file.None? {
        return false;
      }
      stocks := map[];
      funds := map[];
      var lines := file.value;
      var i := 0;
      while i < |lines|
        invariant 0 <= i <= |lines|
        invariant Valid() && volatility == old(volatility)
        invariant LoadSnapshotLines(Listing(map[], map[]), lines) == LoadSnapshotLines(Listing(stocks, funds), lines[i..])
      {
        assert lines[i..][1..] == lines[i + 1..];
        var line := lines[i];
        if line.tag == "STOCK" {
          if line.price.None? || line.shares.None? {
            return false;
          }
          AddStock(Stock(line.name, line.symbol, line.price.value, line.shares.value));
        } else if line.tag == "FUND" {
          if line.price.None? || line.units.None? {
            return false;
          }
          AddFund(Fund(line.name, line.symbol, line.price.value, line.units.value));
        }
        i := i + 1;
      }
      return true;
    }
  }
}
