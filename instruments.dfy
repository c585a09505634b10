/** The value types of C++/code/sharemarket.cpp: the clamp helper, `Stock`,
    `MutualFund`, `Holding`, and the clamped random-walk step applied to a price.
    Doubles are modelled as reals. */
module Instruments {

  /** The tolerance `1e-9` used for "enough to sell" and "fully sold". */
  const Epsilon: real := 0.000000001

  /** `typeName()` of a stock, also stored in holdings and log entries. */
  const StockType: string := "Stock"
  /** `typeName()` of a mutual fund. */
  const FundType: string := "MutualFund"

  /** `clamp_double(v, lo, hi)`. */
  function Clamp(v: real, lo: real, hi: real): (r: real)
    ensures lo <= hi ==> lo <= r <= hi
    ensures lo <= v <= hi ==> r == v
    ensures r == v || r == lo || r == hi
  {
    if v < lo then lo else if v > hi then hi else v
  }

  /** `static_cast<int>(q) == q` for a positive quantity: the quantity is a
      whole number of units (overflow of the cast is not modelled). */
  predicate IsWhole(q: real)
  {
    q.Floor as real == q
  }

  /** Share counts are whole, and a quantity strictly between two consecutive
      integers is not: the cast truncates it to the lower one, which differs
      from the quantity. */
  lemma WholeQuantities(n: int, q: real)
    ensures IsWhole(n as real) && (n as real).Floor == n
    ensures n as real < q < (n + 1) as real ==> q.Floor == n && !IsWhole(q)
  {
  }

  /** `Stock`: price per share and the (integer) number of shares the market
      still has available. */
  datatype Stock = Stock(name: string, symbol: string, price: real, available: int)
  {
    /** `changeAvailable(delta)`: add `delta`, and reset to 0 if the result is
        negative. */
    function ChangeAvailable(delta: int): (s: Stock)
      ensures s.available >= 0
      ensures available + delta >= 0 ==> s.available == available + delta
      ensures available + delta < 0 ==> s.available == 0
      ensures s.name == name && s.symbol == symbol && s.price == price
    {
      var a := available + delta;
      this.(available := if a < 0 then 0 else a)
    }
  }

  /** `MutualFund`: net asset value per unit and the (fractional) number of
      units the market still has available. */
  datatype Fund = Fund(name: string, symbol: string, nav: real, units: real)
  {
    /** `changeUnits(d)`: add `d`, and reset to 0 if the result is negative. */
    function ChangeUnits(d: real): (f: Fund)
      ensures f.units >= 0.0
      ensures units + d >= 0.0 ==> f.units == units + d
      ensures units + d < 0.0 ==> f.units == 0.0
      ensures f.name == name && f.symbol == symbol && f.nav == nav
    {
      var u := units + d;
      this.(units := if u < 0.0 then 0.0 else u)
    }
  }

  /** What `findInvestment` points to: a stock or a fund, seen through the
      `Investment` interface. */
  datatype Instrument = Equity(stock: Stock) | MutualFund(fund: Fund)
  {
    function CurrentPrice(): real
    {
      match this
      case Equity(s) => s.price
      case MutualFund(f) => f.nav
    }

    function TypeName(): string
    {
      if Equity? then StockType else FundType
    }

    function Name(): string
    {
      match this
      case Equity(s) => s.name
      case MutualFund(f) => f.name
    }
  }

  /** An investor's position in one symbol. `kind` is the type name recorded
      when the holding was created (or read from a file), not necessarily
      `StockType` or `FundType`. */
  datatype Holding = Holding(symbol: string, name: string, kind: string, quantity: real, avgPrice: real)

  /** One step of the random walk in `simulatePriceMovement`: move the price by
      the fraction `pct` and clamp it into `[0.01, prev * ceiling + 10]` (the
      ceiling factor is 10 for stocks and 5 for funds). Whatever the draw, the
      new price lies in that range whenever the range is not empty, which it
      is not for any price above -0.999 / ceiling. */
  function NextPrice(prev: real, pct: real, ceiling: real): (p: real)
    ensures 0.01 <= prev * ceiling + 10.0 ==> 0.01 <= p <= prev * ceiling + 10.0
    ensures 0.01 <= prev * (1.0 + pct) <= prev * ceiling + 10.0 ==> p == prev * (1.0 + pct)
  {
    Clamp(prev * (1.0 + pct), 0.01, prev * ceiling + 10.0)
  }
}
