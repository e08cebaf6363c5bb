/** Values shared by the executor and the gateways: assets, balances, markets,
    orders and reports (include/triangular/execution/execution.hpp), and the
    double-entry effect of a cumulative order report on a set of balances. */
module Trading {
  import opened Basics

  type Asset = string
  const USDT: Asset := "USDT"

  /** An asset-to-amount dictionary; a missing key reads as zero. */
  type Balances = map<Asset, real>

  function Get(b: Balances, a: Asset): real {
    if a in b then b[a] else 0.0
  }

  function Credit(b: Balances, a: Asset, x: real): Balances {
    b[a := Get(b, a) + x]
  }

  /** Exchange filters; zero means "no bound" for the price, maximum quantity
      and maximum notional filters. */
  datatype Market = Market(base: Asset, quote: Asset, tick: real, step: real,
                           minQty: real, maxQty: real, minPrice: real, maxPrice: real,
                           minNotional: real, maxNotional: real)

  /** What holds of every market once load_markets has read its filters and
      validate_arbitrage has accepted its assets. */
  ghost predicate ValidMarket(m: Market) {
    && m.base != m.quote
    && m.tick > 0.0 && m.step > 0.0
    && m.minQty >= 0.0 && m.maxQty >= 0.0 && m.minPrice >= 0.0 && m.maxPrice >= 0.0
    && m.minNotional >= 0.0 && m.maxNotional >= 0.0
  }

  // include/triangular/orderbook.hpp: legs, round trips and opportunities.

  /** buy: quote -> base at the ask; otherwise base -> quote at the bid. */
  datatype TradeLeg = TradeLeg(index: nat, buy: bool)
  type TradePath = seq<TradeLeg>
  datatype TradeGroup = TradeGroup(symbolIndices: seq<nat>, paths: seq<TradePath>)

  const LEGS := 3

  datatype Opportunity = Opportunity(groupIndex: nat, path: TradePath, prices: seq<real>, quantities: seq<real>,
                                     bookUpdateIds: seq<int>, receiveSequences: seq<nat>,
                                     inputUsdt: real, outputUsdt: real, profitUsdt: real, netReturn: real)

  datatype OrderStatus = Open | PartiallyFilled | Filled | Canceled | Expired | Rejected | Unknown

  predicate Terminal(s: OrderStatus) {
    s.Filled? || s.Canceled? || s.Expired? || s.Rejected?
  }

  /** "<wall clock>-<cycle number>-<order number>", kept as its three parts. */
  datatype ClientId = ClientId(wall: int, cycle: nat, order: nat)

  datatype OrderRequest = OrderRequest(clientId: ClientId, symbolIndex: nat, buy: bool,
                                       price: real, quantity: real, initialClear: bool)

  /** Fills and commissions are cumulative for the order. */
  datatype OrderReport = OrderReport(clientId: ClientId, revision: nat, status: OrderStatus,
                                     filledQty: real, filledQuote: real, commissions: Balances,
                                     accountingComplete: bool)

  const EMPTY_REPORT := OrderReport(ClientId(0, 0, 0), 0, Unknown, 0.0, 0.0, map[], true)

  /** Top of one order book: mantissas with shared decimal exponents. */
  datatype Book = Book(bidPrice: int, bidQty: int, askPrice: int, askQty: int,
                       priceExponent: int, qtyExponent: int, updateId: int,
                       receivedNs: int, receiveSequence: nat)

  function PowerOfTen(e: int): (p: real)
    ensures p > 0.0
    decreases if e < 0 then -e else e
  {
    if e == 0 then 1.0 else if e > 0 then 10.0 * PowerOfTen(e - 1) else PowerOfTen(e + 1) / 10.0
  }

  function PriceOf(book: Book, buy: bool): real {
    (if buy then book.askPrice else book.bidPrice) as real * PowerOfTen(book.priceExponent)
  }

  function QuantityOf(book: Book, buy: bool): real {
    (if buy then book.askQty else book.bidQty) as real * PowerOfTen(book.qtyExponent)
  }

  /** Largest multiple of step that does not exceed value. */
  function Down(value: real, step: real): real
    requires step > 0.0
  {
    (value / step).Floor as real * step
  }

  function Up(value: real, step: real): real
    requires step > 0.0
  {
    -((-(value / step)).Floor as real) * step
  }

  function Nearest(value: real, step: real): real
    requires step > 0.0
  {
    (value / step + 0.5).Floor as real * step
  }

  function Steps(n: int, step: real): real { n as real * step }

  lemma ScaleLe(a: real, b: real, step: real)
    requires a <= b && step >= 0.0
    ensures a * step <= b * step
  {}

  lemma ProductSign(x: real, y: real)
    requires x >= 0.0 && y >= 0.0
    ensures x * y >= 0.0
  {}

  /** If n is the whole part of value / step, then value lies in [n, n + 1) steps. */
  lemma WholeSteps(q: real, n: real, step: real, value: real)
    requires step > 0.0 && n <= q < n + 1.0 && q * step == value
    ensures n * step <= value
    ensures value < n * step + step
  {
    var e := q - n;
    assert q == n + e;
    assert value == n * step + e * step;
    assert e * step < 1.0 * step;
  }

  /** A whole number of steps. */
  ghost predicate OnGrid(x: real, step: real) { exists n: int :: Steps(n, step) == x }

  /** The last grid point not above value, the first not below it, and the one at
      most half a step away (of two, the upper). */
  ghost predicate RoundedDown(x: real, value: real, step: real) { OnGrid(x, step) && x <= value < x + step }
  ghost predicate RoundedUp(x: real, value: real, step: real) { OnGrid(x, step) && x - step < value <= x }
  ghost predicate RoundedNear(x: real, value: real, step: real) {
    OnGrid(x, step) && value - step / 2.0 < x <= value + step / 2.0
  }

  lemma DownBounds(value: real, step: real)
    requires step > 0.0
    ensures RoundedDown(Down(value, step), value, step)
    ensures Down(value, step) <= value
    ensures value < Down(value, step) + step
  {
    assert Steps((value / step).Floor, step) == Down(value, step);
    var q := value / step;
    assert q * step == value;
    WholeSteps(q, q.Floor as real, step, value);
  }

  lemma UpBounds(value: real, step: real)
    requires step > 0.0
    ensures RoundedUp(Up(value, step), value, step)
    ensures value <= Up(value, step)
    ensures Up(value, step) < value + step
  {
    var q := -(value / step);
    assert q * step == -value;
    WholeSteps(q, q.Floor as real, step, -value);
    var n := q.Floor;
    assert (-n) as real == -(n as real);
    assert Steps(-n, step) == Up(value, step);
  }

  lemma NearestBounds(value: real, step: real)
    requires step > 0.0
    ensures RoundedNear(Nearest(value, step), value, step)
  {
    var q := value / step + 0.5;
    assert value / step * step == value;
    assert q * step == value + step / 2.0;
    WholeSteps(q, q.Floor as real, step, value + step / 2.0);
    assert Steps(q.Floor, step) == Nearest(value, step);
  }

  /** Two points of a grid are equal or a step apart. */
  lemma GridGap(x: real, y: real, step: real)
    requires step > 0.0 && OnGrid(x, step) && OnGrid(y, step) && x < y
    ensures x + step <= y
  {
    var n, m :| Steps(n, step) == x && Steps(m, step) == y;
    if m <= n { ScaleLe(m as real, n as real, step); }
    ScaleLe((n + 1) as real, m as real, step);
    assert (n + 1) as real * step == Steps(n, step) + step;
  }

  /** Each way of rounding has one result. */
  lemma RoundedOnce(x: real, y: real, value: real, step: real)
    requires step > 0.0
    ensures RoundedDown(x, value, step) && RoundedDown(y, value, step) ==> x == y
    ensures RoundedUp(x, value, step) && RoundedUp(y, value, step) ==> x == y
    ensures RoundedNear(x, value, step) && RoundedNear(y, value, step) ==> x == y
  {
    if OnGrid(x, step) && OnGrid(y, step) {
      if x < y { GridGap(x, y, step); }
      if y < x { GridGap(y, x, step); }
    }
  }

  /** What is on the grid already stays as it is. */
  lemma RoundingIsIdle(value: real, step: real)
    requires step > 0.0 && OnGrid(value, step)
    ensures Down(value, step) == Up(value, step) == Nearest(value, step) == value
  {
    DownBounds(value, step);
    UpBounds(value, step);
    NearestBounds(value, step);
    RoundedOnce(value, Down(value, step), value, step);
    RoundedOnce(value, Up(value, step), value, step);
    RoundedOnce(value, Nearest(value, step), value, step);
  }

  lemma DownMonotone(x: real, y: real, step: real)
    requires step > 0.0 && x <= y
    ensures Down(x, step) <= Down(y, step)
  {
    assert x / step <= y / step;
    ScaleLe((x / step).Floor as real, (y / step).Floor as real, step);
  }

  /** A whole number of steps is left alone by Down. */
  lemma DownOfMultiple(value: real, n: int, step: real)
    requires step > 0.0 && value == n as real * step
    ensures Down(value, step) == value
  {
    assert value / step == n as real;
  }

  lemma DownIdempotent(value: real, step: real)
    requires step > 0.0
    ensures Down(Down(value, step), step) == Down(value, step)
  {
    DownOfMultiple(Down(value, step), (value / step).Floor, step);
  }

  /** A smaller price buys at least as many whole steps with the same amount. */
  lemma CheaperBuysMore(amount: real, low: real, high: real, step: real)
    requires 0.0 < low <= high && amount >= 0.0 && step > 0.0
    ensures Down(amount / high, step) <= Down(amount / low, step)
  {
    assert amount / high <= amount / low;
    DownMonotone(amount / high, amount / low, step);
  }

  /** First failing exchange filter of execution.cpp's valid(), in its order. */
  datatype FilterCode = NonpositivePrice | NonpositiveQuantity | PriceBelowMin | PriceAboveMax
                      | QuantityBelowMin | QuantityAboveMax | NotionalBelowMin | NotionalAboveMax

  function FilterFailure(m: Market, price: real, quantity: real): Option<FilterCode> {
    if price <= 0.0 then Some(NonpositivePrice)
    else if quantity <= 0.0 then Some(NonpositiveQuantity)
    else if m.minPrice != 0.0 && price < m.minPrice then Some(PriceBelowMin)
    else if m.maxPrice != 0.0 && price > m.maxPrice then Some(PriceAboveMax)
    else if quantity < m.minQty then Some(QuantityBelowMin)
    else if m.maxQty != 0.0 && quantity > m.maxQty then Some(QuantityAboveMax)
    else if price * quantity < m.minNotional then Some(NotionalBelowMin)
    else if m.maxNotional != 0.0 && price * quantity > m.maxNotional then Some(NotionalAboveMax)
    else None
  }

  /** The exchange takes an order of this price and size. */
  ghost predicate PassesFilters(m: Market, price: real, quantity: real) {
    && price > 0.0 && quantity > 0.0
    && (m.minPrice != 0.0 ==> m.minPrice <= price) && (m.maxPrice != 0.0 ==> price <= m.maxPrice)
    && m.minQty <= quantity && (m.maxQty != 0.0 ==> quantity <= m.maxQty)
    && m.minNotional <= price * quantity && (m.maxNotional != 0.0 ==> price * quantity <= m.maxNotional)
  }

  /** What each code complains of. */
  ghost predicate Breaks(m: Market, price: real, quantity: real, code: FilterCode) {
    match code
    case NonpositivePrice => price <= 0.0
    case NonpositiveQuantity => quantity <= 0.0
    case PriceBelowMin => m.minPrice != 0.0 && price < m.minPrice
    case PriceAboveMax => m.maxPrice != 0.0 && m.maxPrice < price
    case QuantityBelowMin => quantity < m.minQty
    case QuantityAboveMax => m.maxQty != 0.0 && m.maxQty < quantity
    case NotionalBelowMin => price * quantity < m.minNotional
    case NotionalAboveMax => m.maxNotional != 0.0 && m.maxNotional < price * quantity
  }

  /** The codes in the order in which they are looked at. */
  function Severity(code: FilterCode): nat {
    match code
    case NonpositivePrice => 0
    case NonpositiveQuantity => 1
    case PriceBelowMin => 2
    case PriceAboveMax => 3
    case QuantityBelowMin => 4
    case QuantityAboveMax => 5
    case NotionalBelowMin => 6
    case NotionalAboveMax => 7
  }

  ghost predicate FirstFault(m: Market, price: real, quantity: real, code: FilterCode) {
    Breaks(m, price, quantity, code)
    && forall other :: Breaks(m, price, quantity, other) ==> Severity(code) <= Severity(other)
  }

  /** No failure exactly for an order that passes, and otherwise the first fault. */
  lemma FiltersMean(m: Market, price: real, quantity: real)
    ensures FilterFailure(m, price, quantity).None? <==> PassesFilters(m, price, quantity)
    ensures FilterFailure(m, price, quantity).Some? ==>
              FirstFault(m, price, quantity, FilterFailure(m, price, quantity).value)
  {
    var failure := FilterFailure(m, price, quantity);
    if failure.Some? {
      forall other | Breaks(m, price, quantity, other) ensures Severity(failure.value) <= Severity(other) {}
    }
  }

  // ---------------------------------------------------------------- the ledger

  /** What a cumulative report says the order has done to asset a so far:
      the bought or sold base, the paid or received quote, and the fee. */
  function Effect(req: OrderRequest, m: Market, rep: OrderReport, a: Asset): real {
    (if a == m.base then (if req.buy then rep.filledQty else -rep.filledQty) else 0.0)
    + (if a == m.quote then (if req.buy then -rep.filledQuote else rep.filledQuote) else 0.0)
    - Get(rep.commissions, a)
  }

  /** Change the code applies to asset a when it moves from one report to the
      next: fees are differenced only over the keys of the new report. */
  function BookedChange(req: OrderRequest, m: Market, value: OrderReport, previous: OrderReport, a: Asset): real {
    var filled := value.filledQty - previous.filledQty;
    var quoted := value.filledQuote - previous.filledQuote;
    (if a == m.base then (if req.buy then filled else -filled) else 0.0)
    + (if a == m.quote then (if req.buy then -quoted else quoted) else 0.0)
    - (if a in value.commissions then value.commissions[a] - Get(previous.commissions, a) else 0.0)
  }

  function Booked(h: Balances, req: OrderRequest, m: Market, value: OrderReport, previous: OrderReport): Balances {
    map a | a in h.Keys + {m.base, m.quote} + value.commissions.Keys ::
      Get(h, a) + BookedChange(req, m, value, previous, a)
  }

  /** The fee part of the accounting: one subtraction per key of the new report. */
  method BookFees(h: Balances, now: Balances, before: Balances) returns (h': Balances)
    ensures h'.Keys == h.Keys + now.Keys
    ensures forall a :: Get(h', a) == Get(h, a) - (if a in now then now[a] - Get(before, a) else 0.0)
  {
    h' := h;
    var rest := now.Keys;
    while rest != {}
      invariant rest <= now.Keys
      invariant h'.Keys == h.Keys + (now.Keys - rest)
      invariant forall a :: Get(h', a) == Get(h, a) - (if a in now && a !in rest then now[a] - Get(before, a) else 0.0)
      decreases rest
    {
      var asset :| asset in rest;
      h' := Credit(h', asset, -(now[asset] - Get(before, asset)));
      rest := rest - {asset};
    }
  }

  /** The in-place accounting both ArbitrageExecutor::Impl::report and
      BinanceGateway::Impl::apply_report perform on their dictionary. */
  method BookReport(h: Balances, req: OrderRequest, m: Market, value: OrderReport, previous: OrderReport)
    returns (h': Balances)
    requires m.base != m.quote
    ensures h' == Booked(h, req, m, value, previous) && BooksTo(req, m, value, previous, h, h')
  {
    BookedBooksTo(req, m, value, previous, h);
    hide BooksTo;
    var filledDelta := value.filledQty - previous.filledQty;
    var quoteDelta := value.filledQuote - previous.filledQuote;
    h' := Credit(h, m.base, if req.buy then filledDelta else -filledDelta);
    h' := Credit(h', m.quote, if req.buy then -quoteDelta else quoteDelta);
    ghost var traded := h';
    h' := BookFees(h', value.commissions, previous.commissions);
    forall a ensures Get(h', a) == Get(Booked(h, req, m, value, previous), a) {
      BookedPointwise(h, req, m, value, previous, a);
      TradedPointwise(h, req, m, filledDelta, quoteDelta, traded, a);
    }
    SameBalances(h', Booked(h, req, m, value, previous));
  }

  lemma TradedPointwise(h: Balances, req: OrderRequest, m: Market, filled: real, quoted: real, traded: Balances,
                        a: Asset)
    requires m.base != m.quote
    requires traded == Credit(Credit(h, m.base, if req.buy then filled else -filled),
                              m.quote, if req.buy then -quoted else quoted)
    ensures Get(traded, a) == Get(h, a) + (if a == m.base then (if req.buy then filled else -filled) else 0.0)
                                        + (if a == m.quote then (if req.buy then -quoted else quoted) else 0.0)
  {}

  lemma SameBalances(x: Balances, y: Balances)
    requires x.Keys == y.Keys
    requires forall a :: Get(x, a) == Get(y, a)
    ensures x == y
  {
    forall a | a in x.Keys ensures x[a] == y[a] {
      assert Get(x, a) == Get(y, a);
    }
  }

  lemma BookedPointwise(h: Balances, req: OrderRequest, m: Market, value: OrderReport, previous: OrderReport, a: Asset)
    ensures Get(Booked(h, req, m, value, previous), a) == Get(h, a) + BookedChange(req, m, value, previous, a)
  {}

  /** No fee the previous report charged is missing from the new one. */
  ghost predicate KeepsFees(previous: OrderReport, value: OrderReport) {
    forall a :: a in previous.commissions && a !in value.commissions ==> previous.commissions[a] == 0.0
  }

  /** What is booked of every asset: the trade and the fees beyond the last report. */
  ghost predicate BooksTo(req: OrderRequest, m: Market, value: OrderReport, last: OrderReport, h: Balances,
                          h': Balances)
  {
    var base, quote := value.filledQty - last.filledQty, value.filledQuote - last.filledQuote;
    forall a :: Get(h', a) == Get(h, a)
      + (if a == m.base then (if req.buy then base else -base) else 0.0)
      + (if a == m.quote then (if req.buy then -quote else quote) else 0.0)
      - (if a in value.commissions then value.commissions[a] - Get(last.commissions, a) else 0.0)
  }

  lemma BookedBooksTo(req: OrderRequest, m: Market, value: OrderReport, last: OrderReport, h: Balances)
    ensures BooksTo(req, m, value, last, h, Booked(h, req, m, value, last))
  {
    forall a { BookedPointwise(h, req, m, value, last, a); }
    hide Booked;
  }

  /** Exactness of one booking: the ledger moves by the difference of the two
      cumulative effects, on every asset, precisely when the new report still
      lists every fee the old one charged. */
  lemma BookingIsExactIffFeesKept(h: Balances, req: OrderRequest, m: Market, value: OrderReport, previous: OrderReport)
    ensures (forall a :: Get(Booked(h, req, m, value, previous), a)
                         == Get(h, a) + Effect(req, m, value, a) - Effect(req, m, previous, a))
            <==> KeepsFees(previous, value)
  {
    var h' := Booked(h, req, m, value, previous);
    if KeepsFees(previous, value) {
      forall a ensures Get(h', a) == Get(h, a) + Effect(req, m, value, a) - Effect(req, m, previous, a) {
        BookedPointwise(h, req, m, value, previous, a);
      }
    } else {
      var a :| a in previous.commissions && a !in value.commissions && previous.commissions[a] != 0.0;
      BookedPointwise(h, req, m, value, previous, a);
      assert Get(h', a) != Get(h, a) + Effect(req, m, value, a) - Effect(req, m, previous, a);
    }
  }

  /** Booking a chain of reports one after the other. */
  function BookAll(h: Balances, req: OrderRequest, m: Market, previous: OrderReport,
                   accepted: seq<OrderReport>): Balances
    decreases |accepted|
  {
    if accepted == [] then h
    else BookAll(Booked(h, req, m, accepted[0], previous), req, m, accepted[0], accepted[1..])
  }

  ghost predicate KeepsFeesThroughout(previous: OrderReport, accepted: seq<OrderReport>)
    decreases |accepted|
  {
    accepted == [] || (KeepsFees(previous, accepted[0]) && KeepsFeesThroughout(accepted[0], accepted[1..]))
  }

  function LastReport(previous: OrderReport, accepted: seq<OrderReport>): OrderReport {
    if accepted == [] then previous else accepted[|accepted| - 1]
  }

  /** Fees of asset a that a chain of reports dropped from its lists: charged by
      one report, no longer mentioned by the next. */
  function DroppedFees(previous: OrderReport, accepted: seq<OrderReport>, a: Asset): real
    decreases |accepted|
  {
    if accepted == [] then 0.0
    else (if a in previous.commissions && a !in accepted[0].commissions then previous.commissions[a] else 0.0)
         + DroppedFees(accepted[0], accepted[1..], a)
  }

  lemma BookedOnce(h: Balances, req: OrderRequest, m: Market, value: OrderReport, previous: OrderReport, a: Asset)
    ensures Get(Booked(h, req, m, value, previous), a)
            == Get(h, a) + Effect(req, m, value, a) - Effect(req, m, previous, a) - DroppedFees(previous, [value], a)
  {
    BookedPointwise(h, req, m, value, previous, a);
    assert DroppedFees(value, [value][1..], a) == 0.0;
  }

  /** Cumulative reports telescope: after any chain of bookings the balances
      have moved by the effect of the last report, less the fees the chain
      dropped on the way. */
  lemma {:induction false} BookingTelescopes(h: Balances, req: OrderRequest, m: Market, previous: OrderReport,
                                             accepted: seq<OrderReport>, a: Asset)
    ensures Get(BookAll(h, req, m, previous, accepted), a)
            == Get(h, a) + Effect(req, m, LastReport(previous, accepted), a) - Effect(req, m, previous, a)
               - DroppedFees(previous, accepted, a)
    decreases |accepted|
  {
    if accepted != [] {
      var h1 := Booked(h, req, m, accepted[0], previous);
      BookedOnce(h, req, m, accepted[0], previous, a);
      assert DroppedFees(previous, [accepted[0]], a) + DroppedFees(accepted[0], accepted[1..], a)
          == DroppedFees(previous, accepted, a);
      BookingTelescopes(h1, req, m, accepted[0], accepted[1..], a);
      assert LastReport(previous, accepted) == LastReport(accepted[0], accepted[1..]);
    }
  }

  lemma {:induction false} KeptFeesAreNotDropped(previous: OrderReport, accepted: seq<OrderReport>, a: Asset)
    requires KeepsFeesThroughout(previous, accepted)
    ensures DroppedFees(previous, accepted, a) == 0.0
    decreases |accepted|
  {
    if accepted != [] { KeptFeesAreNotDropped(accepted[0], accepted[1..], a); }
  }
}
