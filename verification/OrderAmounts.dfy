/**
  The integer amounts of limit and market orders (buildSendOrder and buildMarketSendOrder in
  pkg/polymarket/connector.go), in 64-bit arithmetic, from the raw six-decimal integers on.
*/
module OrderAmounts {
  import opened Common
  import opened GoStrings

  const UNIT := 1_000_000
  const MAKER_TRUNC := 10000
  const TAKER_TRUNC := 100

  datatype Amounts = Amounts(maker: Int64, taker: Int64) | InvalidSide | DividesByZero

  function Mul(a: Int64, b: Int64): Int64 { Wrap64(a * b) }

  function Div(a: Int64, b: Int64): Int64
    requires b != 0
  {
    Wrap64(TruncDiv(a, b))
  }

  function Truncate(a: Int64, step: Int64): Int64
    requires step != 0
  {
    Mul(Div(a, step), step)
  }

  function LimitAmounts(side: string, size: Int64, price: Int64): Amounts {
    var quote := Div(Mul(size, price), UNIT);
    if Upper(side) == "BUY" then Amounts(quote, size)
    else if Upper(side) == "SELL" then Amounts(size, quote)
    else InvalidSide
  }

  /** For BUY, size is the USDC to spend; for SELL, the shares to sell. */
  function MarketAmounts(side: string, size: Int64, price: Int64): Amounts {
    if Upper(side) == "BUY" then
      if price == 0 then DividesByZero
      else
        var shares := Div(Mul(size, UNIT), price);
        Amounts(Truncate(size, MAKER_TRUNC), Truncate(shares, TAKER_TRUNC))
    else if Upper(side) == "SELL" then
      var usdc := Div(Mul(size, price), UNIT);
      Amounts(Truncate(size, MAKER_TRUNC), Truncate(usdc, TAKER_TRUNC))
    else InvalidSide
  }

  /** A side is BUY or SELL in any case; everything else is refused, by both kinds of order. */
  lemma SidesSpelledOut(side: string, size: Int64, price: Int64)
    ensures Upper(side) == "BUY" <==> SameIgnoringCase(side, "BUY")
    ensures Upper(side) == "SELL" <==> SameIgnoringCase(side, "SELL")
    ensures LimitAmounts(side, size, price) == InvalidSide <==>
              !SameIgnoringCase(side, "BUY") && !SameIgnoringCase(side, "SELL")
    ensures MarketAmounts(side, size, price) == InvalidSide <==>
              !SameIgnoringCase(side, "BUY") && !SameIgnoringCase(side, "SELL")
  {
    UpperIsWord(side, "BUY");
    UpperIsWord(side, "SELL");
  }

  // ---------------------------------------------------------------- ranges

  const MAX_SIZE := 9223372036854

  /** MAX_SIZE is exactly the largest size for which size * price fits for every price up to one dollar. */
  lemma RangeIsTight(size: nat)
    ensures size <= MAX_SIZE <==>
              forall price: int {:trigger size * price} :: 1 <= price <= UNIT ==> InInt64(size * price)
  {
    forall price: int | size <= MAX_SIZE && 1 <= price <= UNIT ensures InInt64(size * price) {
      MulLe(size, price, UNIT);
    }
    if size > MAX_SIZE {
      var p := UNIT;
      assert !InInt64(size * p);
    }
  }

  /** Where the product fits, the code's division is floor division. */
  lemma DivFloor(a: Int64, b: Int64)
    requires 0 <= a && 0 < b
    ensures var q := Div(a, b); 0 <= q <= a && q * b <= a < (q + 1) * b
  {
    QuotientBounds(a, b);
    QuotientBrackets(a, b);
  }

  /** For any sign, the code's quotient is less than one divisor off. */
  lemma DivNear(a: Int64, b: Int64)
    requires 0 < b
    ensures 0 <= a ==> 0 <= Div(a, b) && a - b < Div(a, b) * b <= a
    ensures a < 0 ==> a <= Div(a, b) * b < a + b
  {
    var n := if a >= 0 then a as int else -(a as int);
    QuotientBounds(n, b);
    QuotientBrackets(n, b);
    assert Div(a, b) == if a >= 0 then n / b else -(n / b);
  }

  /** A product that has wrapped is off by at least 2^64. */
  lemma WrapsFar(p: nat)
    requires !InInt64(p)
    ensures p - Wrap64(p) >= TWO_64
  {
  }

  /** The quotient the code takes of a product is the exact one, rounded down, if and only if the product fits. */
  lemma QuotientIff(p: nat, b: Int64)
    requires 0 < b
    ensures var q := Div(Wrap64(p), b); q * b <= p < (q + 1) * b <==> InInt64(p)
  {
    var q := Div(Wrap64(p), b);
    if InInt64(p) {
      DivFloor(p, b);
    } else {
      WrapsFar(p);
      DivNear(Wrap64(p), b);
      assert (q + 1) * b == q * b + b;
    }
  }

  lemma TruncateNear(a: Int64, step: Int64)
    requires step == MAKER_TRUNC || step == TAKER_TRUNC
    ensures a - step < Truncate(a, step) < a + step && Truncate(a, step) % step == 0
    ensures 0 <= a ==> 0 <= Truncate(a, step) <= a
  {
    DivNear(a, step);
    OnStep(a, Div(a, step), step);
  }

  lemma OnStep(a: Int64, q: Int64, step: int)
    requires step == MAKER_TRUNC || step == TAKER_TRUNC
    requires if 0 <= a then 0 <= q && a - step < q * step <= a else a <= q * step < a + step
    ensures Mul(q, step) == q * step && (q * step) % step == 0
    ensures 0 <= a ==> 0 <= q * step
  {
    if step == MAKER_TRUNC {
      assert q * step == q * 10000;
    } else {
      assert q * step == q * 100;
    }
  }

  /** The same quotient after its truncation to the taker's precision, for divisors of no more than 17 digits. */
  lemma TruncatedQuotientIff(p: nat, b: Int64)
    requires 0 < b <= 10000000000000000
    ensures var t := Truncate(Div(Wrap64(p), b), TAKER_TRUNC);
            t * b <= p < (t + TAKER_TRUNC) * b <==> InInt64(p)
  {
    var q := Div(Wrap64(p), b);
    var t := Truncate(q, TAKER_TRUNC);
    TruncateNear(q, TAKER_TRUNC);
    if InInt64(p) {
      DivFloor(p, b);
      CutFits(p, b, q, t);
    } else {
      WrapsFar(p);
      DivNear(Wrap64(p), b);
      CutOverflows(p, Wrap64(p), b, q, t);
    }
  }

  lemma CutFits(p: int, b: int, q: int, t: int)
    requires 0 < b && 0 <= t <= q < t + TAKER_TRUNC
    requires q * b <= p < (q + 1) * b
    ensures t * b <= p < (t + TAKER_TRUNC) * b
  {
    MulLe(b, t, q);
    MulLe(b, q + 1, t + TAKER_TRUNC);
    Commute(b, t);
    Commute(b, q);
    Commute(b, q + 1);
    Commute(b, t + TAKER_TRUNC);
  }

  lemma CutOverflows(p: int, w: int, b: int, q: int, t: int)
    requires 0 < b <= 10000000000000000 && p - w >= TWO_64
    requires q * b < w + b && q - TAKER_TRUNC < t < q + TAKER_TRUNC
    ensures p >= (t + TAKER_TRUNC) * b
  {
    var x := t - q + TAKER_TRUNC;
    MulLe(b, x, 200);
    Commute(b, x);
    assert (t + TAKER_TRUNC) * b == q * b + x * b by {
      assert t + TAKER_TRUNC == q + x;
    }
  }

  lemma Commute(a: int, b: int)
    ensures a * b == b * a
  {
  }

  // ---------------------------------------------------------------- limit orders

  /** The share side of a limit order is the size; the USDC side is size * price rounded down to the unit if and
      only if that product fits in 64 bits. */
  lemma LimitQuoteIsFloorIff(side: string, size: Int64, price: Int64)
    requires 0 <= size && 0 <= price && (Upper(side) == "BUY" || Upper(side) == "SELL")
    ensures var a := LimitAmounts(side, size, price);
            && a.Amounts?
            && var (quote, shares) := if Upper(side) == "BUY" then (a.maker, a.taker) else (a.taker, a.maker);
            && shares == size
            && (quote * UNIT <= size * price < (quote + 1) * UNIT <==> InInt64(size * price))
  {
    MulLe(size, 0, price);
    QuotientIff(size * price, UNIT);
  }

  /** A limit BUY never pays more than its price per share, wrapped or not; a limit SELL asks for its full price
      if and only if the product fits and is a whole number of units. */
  lemma LimitKeepsPriceIff(side: string, size: Int64, price: Int64)
    requires 0 <= size && 0 <= price
    ensures Upper(side) == "BUY" ==>
              var a := LimitAmounts(side, size, price); a.maker * UNIT <= a.taker * price
    ensures Upper(side) == "SELL" ==>
              var a := LimitAmounts(side, size, price);
              a.maker * price <= a.taker * UNIT <==> InInt64(size * price) && size * price % UNIT == 0
  {
    MulLe(size, 0, price);
    var p := size * price;
    DivNear(Wrap64(p), UNIT);
    if InInt64(p) {
      DivFloor(p, UNIT);
    } else {
      WrapsFar(p);
    }
  }

  // ---------------------------------------------------------------- market orders

  /** A market BUY spends what was asked cut to the venue's precision, at every price.  The shares it asks for are
      the exact quotient cut to the venue's precision if and only if the scaled amount fits in 64 bits; then it
      pays no more per share than asked, up to that cut. */
  lemma MarketBuyBounds(side: string, usdc: Int64, price: Int64)
    requires 0 <= usdc && 0 < price && Upper(side) == "BUY"
    ensures var a := MarketAmounts(side, usdc, price);
            && a.Amounts?
            && 0 <= a.maker <= usdc < a.maker + MAKER_TRUNC && a.maker % MAKER_TRUNC == 0
            && a.taker % TAKER_TRUNC == 0
            && (InInt64(usdc * UNIT) ==>
                  && 0 <= a.taker && a.taker * price <= usdc * UNIT
                  && a.maker * UNIT < price * (a.taker + TAKER_TRUNC))
    ensures var shares := Div(Mul(usdc, UNIT), price);
            shares * price <= usdc * UNIT < (shares + 1) * price <==> InInt64(usdc * UNIT)
    ensures price <= 10000000000000000 ==>
              var a := MarketAmounts(side, usdc, price);
              (a.taker * price <= usdc * UNIT < (a.taker + TAKER_TRUNC) * price <==> InInt64(usdc * UNIT))
  {
    var shares := Div(Mul(usdc, UNIT), price);
    QuotientIff(usdc * UNIT, price);
    TruncateNear(usdc, MAKER_TRUNC);
    TruncateNear(shares, TAKER_TRUNC);
    if price <= 10000000000000000 {
      TruncatedQuotientIff(usdc * UNIT, price);
    }
    if InInt64(usdc * UNIT) {
      DivFloor(usdc * UNIT, price);
      BuyCore(usdc, price, shares, Truncate(usdc, MAKER_TRUNC), Truncate(shares, TAKER_TRUNC));
    }
  }

  lemma BuyCore(usdc: int, price: int, shares: int, maker: int, taker: int)
    requires 0 <= price && 0 <= taker <= shares < taker + TAKER_TRUNC && maker <= usdc
    requires shares * price <= usdc * UNIT < (shares + 1) * price
    ensures taker * price <= usdc * UNIT && maker * UNIT < price * (taker + TAKER_TRUNC)
  {
    MulLe(price, taker, shares);
    MulLe(price, shares + 1, taker + TAKER_TRUNC);
    Commute(price, taker);
    Commute(price, shares);
    Commute(price, shares + 1);
  }

  /** A market SELL sells what was asked cut to the venue's precision; the USDC it asks for is the worth of the
      shares cut to the venue's precision if and only if the product fits in 64 bits. */
  lemma MarketSellBounds(side: string, shares: Int64, price: Int64)
    requires 0 <= shares && 0 <= price && Upper(side) == "SELL"
    ensures var a := MarketAmounts(side, shares, price);
            && a.Amounts?
            && 0 <= a.maker <= shares < a.maker + MAKER_TRUNC && a.maker % MAKER_TRUNC == 0
            && a.taker % TAKER_TRUNC == 0
            && (a.taker * UNIT <= shares * price < (a.taker + TAKER_TRUNC) * UNIT <==> InInt64(shares * price))
            && (InInt64(shares * price) ==> 0 <= a.taker && a.maker * price < (a.taker + TAKER_TRUNC) * UNIT)
  {
    MulLe(shares, 0, price);
    TruncatedQuotientIff(shares * price, UNIT);
    var usdc := Div(Mul(shares, price), UNIT);
    TruncateNear(shares, MAKER_TRUNC);
    TruncateNear(usdc, TAKER_TRUNC);
    if InInt64(shares * price) {
      DivFloor(shares * price, UNIT);
      SmallerProduct(Truncate(shares, MAKER_TRUNC), shares, price);
    }
  }

  lemma SmallerProduct(a: int, b: int, c: int)
    requires 0 <= a <= b && 0 <= c
    ensures a * c <= b * c
  {
    MulLe(c, a, b);
    Commute(c, a);
    Commute(c, b);
  }

  // ---------------------------------------------------------------- the price of a market order

  /** What truncating x toward zero to a multiple of d drops, with the sign of x. */
  function Dropped(x: int, d: int): int
    requires 0 < d
  {
    TruncRem(x, d)
  }

  /** The multiple of d at or next below a number is the number less its remainder. */
  lemma MultipleBelow(x: nat, k: nat, d: int)
    requires 0 < d && k * d <= x < (k + 1) * d
    ensures x % d == x - k * d
  {
    var q := x / d;
    QuotientBrackets(x, d);
    if q < k {
      SmallerProduct(q + 1, k, d);
    } else if k < q {
      SmallerProduct(k + 1, q, d);
    }
  }

  /** Dividing by b and then cutting to a hundred drops what one cut to 100 * b drops. */
  lemma CutOnce(n: nat, b: nat)
    requires 0 < b
    ensures n / b / 100 * 100 * b == n - n % (100 * b)
  {
    var q := n / b;
    var k := q / 100;
    QuotientBrackets(n, b);
    QuotientBounds(n, b);
    CutFits(n, b, q, 100 * k);
    Regroup(k, b);
    Regroup(k + 1, b);
    MultipleBelow(n, k, 100 * b);
  }

  lemma Regroup(k: int, b: int)
    ensures (100 * k) * b == k * (100 * b)
  {
  }

  /** The taker amount of a market order, for any 64-bit w divided by b. */
  lemma TakerIsCut(w: Int64, b: Int64)
    requires 0 < b
    ensures Truncate(Div(w, b), TAKER_TRUNC) * b == w - Dropped(w, TAKER_TRUNC * b)
  {
    var n: nat := if w >= 0 then w as int else -(w as int);
    QuotientBounds(n, b);
    CutOnce(n, b);
    var q := n / b;
    var cut := q / 100 * 100;
    assert Div(w, b) == if w >= 0 then q else -q;
    assert Truncate(Div(w, b), TAKER_TRUNC) == if w >= 0 then cut else -cut by {
      TruncateNear(Div(w, b), TAKER_TRUNC);
      assert Div(Div(w, b), 100) == if w >= 0 then q / 100 else -(q / 100);
    }
    Negate(cut, b);
  }

  lemma Negate(a: int, b: int)
    ensures (-a) * b == -(a * b)
  {
  }

  /** The multiple of a maker step just below a number is the number less its remainder. */
  lemma OnGrid(x: int, y: int)
    requires y <= x < y + MAKER_TRUNC && y % MAKER_TRUNC == 0
    ensures y == x - x % MAKER_TRUNC
  {
  }

  /** What a market BUY loses on the taker side: by wrapping, if it does, and by the truncation of the shares. */
  function BuyLoses(usdc: Int64, price: Int64): int
    requires 0 < price
  {
    usdc * UNIT - Mul(usdc, UNIT) + Dropped(Mul(usdc, UNIT), TAKER_TRUNC * price)
  }

  function SellLoses(shares: Int64, price: Int64): int {
    shares * price - Mul(shares, price) + Dropped(Mul(shares, price), TAKER_TRUNC * UNIT)
  }

  /** The promise of a market BUY, to pay at most its price per share, exactly: for all amounts and prices, those
      that overflow included, it is kept if and only if what the taker side loses is covered by what the
      truncation of the USDC drops. */
  lemma BuyKeepsPriceIff(side: string, usdc: Int64, price: Int64)
    requires 0 <= usdc && 0 < price && Upper(side) == "BUY"
    ensures var a := MarketAmounts(side, usdc, price);
            a.maker * UNIT <= a.taker * price <==> BuyLoses(usdc, price) <= (usdc % MAKER_TRUNC) * UNIT
  {
    MarketBuyBounds(side, usdc, price);
    OnGrid(usdc, MarketAmounts(side, usdc, price).maker);
    TakerIsCut(Mul(usdc, UNIT), price);
  }

  /** The promise of a market SELL, to take at least its price per share, exactly and on all inputs: it is kept if
      and only if what the USDC side loses is covered by the worth of the shares its truncation drops. */
  lemma SellKeepsPriceIff(side: string, shares: Int64, price: Int64)
    requires 0 <= shares && 0 <= price && Upper(side) == "SELL"
    ensures var a := MarketAmounts(side, shares, price);
            a.maker * price <= a.taker * UNIT <==> SellLoses(shares, price) <= (shares % MAKER_TRUNC) * price
    ensures var a := MarketAmounts(side, shares, price);
            a.taker * UNIT <= a.maker * price <==> (shares % MAKER_TRUNC) * price <= SellLoses(shares, price)
  {
    MarketSellBounds(side, shares, price);
    var a := MarketAmounts(side, shares, price);
    OnGrid(shares, a.maker);
    TakerIsCut(Mul(shares, price), UNIT);
    Distribute(a.maker, shares % MAKER_TRUNC, price);
  }

  lemma Distribute(a: int, b: int, c: int)
    ensures (a + b) * c == a * c + b * c
  {
  }

  /** Concrete failures of both promises: one dollar at 0.30 pays for 3.3333 shares, more than 0.30 each; and
      0.01 shares at 0.3333 go for 0.0033 dollars. */
  lemma OrdinaryOrdersMissTheirPrice()
    ensures MarketAmounts("BUY", 1000000, 300000) == Amounts(1000000, 3333300)
    ensures 1000000 * UNIT > 3333300 * 300000
    ensures MarketAmounts("SELL", 10000, 333300) == Amounts(10000, 3300)
    ensures 10000 * 333300 > 3300 * UNIT
  {
    assert Upper("BUY") == "BUY" && Upper("SELL") == "SELL";
  }

  /** Off the grid a SELL can also ask for more than its price. */
  lemma SellOffGridAsksMore()
    ensures MarketAmounts("SELL", 19999, UNIT) == Amounts(10000, 19900)
    ensures 19900 * UNIT > 10000 * UNIT
  {
    assert Upper("SELL") == "SELL";
  }

  /** An overflowing limit order: 20 million shares at half a dollar are quoted at a negative amount. */
  lemma OverflowingLimitOrder()
    ensures LimitAmounts("SELL", 20000000000000, 500000).taker == -8446744073709
  {
    assert Upper("SELL") == "SELL";
    assert Mul(20000000000000, 500000) == -8446744073709551616;
  }

  // ---------------------------------------------------------------- from prices to raw prices

  /** int64(price * 1_000_000) over exact numbers: truncation toward zero. */
  function Raw(price: real): int {
    if price >= 0.0 then (price * 1000000.0).Floor else -((-price * 1000000.0).Floor)
  }

  /** Raw units are millionths, rounded toward zero. */
  lemma RawIsMillionths(price: real)
    ensures price >= 0.0 ==> Raw(price) as real <= price * 1000000.0 < Raw(price) as real + 1.0
    ensures price < 0.0 ==> Raw(price) as real - 1.0 < price * 1000000.0 <= Raw(price) as real
  {
  }

  /** Building a market order fails to return for exactly the BUYs priced below one raw unit, negative prices
      included: the price is cut to zero and divided by. */
  lemma MarketBuyFailsIff(side: string, size: Int64, price: real)
    requires InInt64(Raw(price))
    ensures MarketAmounts(side, size, Raw(price)) == DividesByZero
       <==> Upper(side) == "BUY" && -0.000001 < price < 0.000001
  {
    assert Raw(price) == 0 <==> -1.0 < price * 1000000.0 < 1.0;
  }
}
