/** The simulated exchange of src/execution/paper_gateway.cpp: a wallet, the
    reports already given out, and the liquidity already taken from each book. */
module PaperExchange {
  import opened Basics
  import opened Trading

  /** Liquidity used on one side of one book, for one book update. */
  datatype Usage = Usage(updateId: int, used: real)
  type Side = (nat, bool)

  datatype Desk = Desk(wallet: Balances, orders: map<ClientId, OrderReport>, consumed: map<Side, Usage>)

  datatype Terms = Terms(markets: seq<Market>, fee: real)

  ghost predicate ValidTerms(t: Terms) {
    && 0.0 <= t.fee < 1.0
    && forall i :: 0 <= i < |t.markets| ==> ValidMarket(t.markets[i])
  }

  predicate WellFormedOrder(m: Market, req: OrderRequest)
    requires m.step > 0.0 && m.tick > 0.0
  {
    && req.quantity > 0.0 && req.price > 0.0
    && Down(req.quantity, m.step) == req.quantity && Down(req.price, m.tick) == req.price
    && req.quantity >= m.minQty && !(m.maxQty > 0.0 && req.quantity > m.maxQty)
    && !(m.minPrice > 0.0 && req.price < m.minPrice) && !(m.maxPrice > 0.0 && req.price > m.maxPrice)
    && req.quantity * req.price >= m.minNotional
    && !(m.maxNotional > 0.0 && req.quantity * req.price > m.maxNotional)
  }

  /** Usage of a side, forgotten when the book has moved to another update. */
  function UsageFor(consumed: map<Side, Usage>, side: Side, updateId: int): Usage {
    if side in consumed && consumed[side].updateId == updateId then consumed[side] else Usage(updateId, 0.0)
  }

  function Times(x: real, y: real): real { x * y }

  function Min(x: real, y: real): real { if y < x then y else x }

  function Record(d: Desk, r: OrderReport): Desk {
    d.(orders := d.orders[r.clientId := r])
  }

  function Answer(req: OrderRequest, status: OrderStatus): OrderReport {
    OrderReport(req.clientId, 1, status, 0.0, 0.0, map[], true)
  }

  /** Best-level price and what the level still offers this side. */
  datatype Quote = Quote(price: real, available: real)

  function QuoteFor(d: Desk, req: OrderRequest, book: Book): Quote {
    Quote(PriceOf(book, req.buy),
          QuantityOf(book, req.buy) - UsageFor(d.consumed, (req.symbolIndex, req.buy), book.updateId).used)
  }

  predicate Unmatched(req: OrderRequest, q: Quote) {
    || q.price <= 0.0 || q.available <= 0.0
    || (if req.buy then q.price > req.price else q.price < req.price)
    || (!req.initialClear && q.available < req.quantity)
  }

  function Spent(m: Market, req: OrderRequest): Asset { if req.buy then m.quote else m.base }
  function Received(m: Market, req: OrderRequest): Asset { if req.buy then m.base else m.quote }

  /** The report and the wallet of a trade of base units worth quote. */
  function TradeReport(m: Market, fee: real, req: OrderRequest, base: real, quote: real): OrderReport {
    OrderReport(req.clientId, 1, if base == req.quantity then Filled else Expired, base, quote,
                map[Received(m, req) := Times(if req.buy then base else quote, fee)], true)
  }

  function TradeWallet(m: Market, fee: real, wallet: Balances, req: OrderRequest, base: real, quote: real): Balances {
    Credit(Credit(wallet, Spent(m, req), -(if req.buy then quote else base)),
           Received(m, req), Times(if req.buy then base else quote, 1.0 - fee))
  }

  function Cost(req: OrderRequest, base: real, quote: real): real { if req.buy then quote else base }

  /** Exchange of base units worth quote, if the wallet covers it. */
  function Trade(m: Market, fee: real, d: Desk, req: OrderRequest, usage: Usage, base: real, quote: real)
    : (Desk, OrderReport)
  {
    if base <= 0.0 || Get(d.wallet, Spent(m, req)) < Cost(req, base, quote) then
      (Record(d, Answer(req, Rejected)), Answer(req, Rejected))
    else
      var r := TradeReport(m, fee, req, base, quote);
      (Record(d.(wallet := TradeWallet(m, fee, d.wallet, req, base, quote),
                 consumed := d.consumed[(req.symbolIndex, req.buy) := Usage(usage.updateId, usage.used + base)]), r), r)
  }

  function Touched(d: Desk, req: OrderRequest, book: Book): Desk {
    var side := (req.symbolIndex, req.buy);
    d.(consumed := d.consumed[side := UsageFor(d.consumed, side, book.updateId)])
  }

  function Fillable(m: Market, req: OrderRequest, q: Quote): real
    requires m.step > 0.0
  {
    Down(Min(req.quantity, q.available), m.step)
  }

  /** A well-formed order against the best level of its book. */
  function Match(m: Market, fee: real, d: Desk, req: OrderRequest, book: Book): (Desk, OrderReport)
    requires m.step > 0.0
  {
    var q := QuoteFor(d, req, book);
    var d1 := Touched(d, req, book);
    if Unmatched(req, q) then (Record(d1, Answer(req, Expired)), Answer(req, Expired))
    else
      var base := Fillable(m, req, q);
      Trade(m, fee, d1, req, UsageFor(d.consumed, (req.symbolIndex, req.buy), book.updateId), base,
            Times(base, q.price))
  }

  /** One submission; book is what books.get returns for the symbol. */
  function Fill(t: Terms, d: Desk, req: OrderRequest, book: Option<Book>): (Desk, OrderReport)
    requires ValidTerms(t)
  {
    if req.clientId in d.orders then (d, d.orders[req.clientId])
    else if req.symbolIndex >= |t.markets| || !WellFormedOrder(t.markets[req.symbolIndex], req) || book.None? then
      (Record(d, Answer(req, Rejected)), Answer(req, Rejected))
    else Match(t.markets[req.symbolIndex], t.fee, d, req, book.value)
  }

  /** The gateway object; every order updates its three dictionaries in place. */
  class PaperGateway {
    const terms: Terms
    var wallet: Balances
    var orders: map<ClientId, OrderReport>
    var consumed: map<Side, Usage>

    function View(): Desk
      reads this
    {
      Desk(wallet, orders, consumed)
    }

    constructor (t: Terms, balances: Balances)
      requires ValidTerms(t)
      ensures terms == t && View() == Desk(balances, map[], map[])
    {
      terms := t;
      wallet, orders, consumed := balances, map[], map[];
    }

    method FillOrder(req: OrderRequest, book: Option<Book>) returns (r: OrderReport)
      requires ValidTerms(terms)
      modifies this
      ensures (View(), r) == Fill(terms, old(View()), req, book)
      ensures Serves(terms, old(View()), req, book, View(), r)
    {
      FillServes(terms, View(), req, book);
      hide Serves;
      if req.clientId in orders {
        return orders[req.clientId];
      }
      r := Answer(req, Rejected);
      if req.symbolIndex < |terms.markets| && WellFormedOrder(terms.markets[req.symbolIndex], req) && book.Some? {
        var m := terms.markets[req.symbolIndex];
        var price := PriceOf(book.value, req.buy);
        var side := (req.symbolIndex, req.buy);
        var usage := UsageFor(consumed, side, book.value.updateId);
        consumed := consumed[side := usage];
        var available := QuantityOf(book.value, req.buy) - usage.used;
        if Unmatched(req, Quote(price, available)) {
          r := Answer(req, Expired);
        } else {
          r := Execute(m, req, usage, Fillable(m, req, Quote(price, available)), price);
        }
      }
      orders := orders[req.clientId := r];
    }

    /** The settlement half of fill(): wallet and usage move only when covered. */
    method Execute(m: Market, req: OrderRequest, usage: Usage, base: real, price: real) returns (r: OrderReport)
      modifies this`wallet, this`consumed
      ensures (View().(orders := old(orders)[req.clientId := r]), r)
              == Trade(m, terms.fee, old(View()), req, usage, base, Times(base, price))
    {
      var quote := Times(base, price);
      var spend, receive := m.base, m.quote;
      var cost, proceeds := base, quote;
      if req.buy {
        spend, receive, cost, proceeds := m.quote, m.base, quote, base;
      }
      if base <= 0.0 || Get(wallet, spend) < cost {
        return Answer(req, Rejected);
      }
      wallet := Credit(wallet, spend, -cost);
      wallet := Credit(wallet, receive, Times(proceeds, 1.0 - terms.fee));
      consumed := consumed[(req.symbolIndex, req.buy) := usage.(used := usage.used + base)];
      r := OrderReport(req.clientId, 1, if base == req.quantity then Filled else Expired,
                       base, quote, map[receive := Times(proceeds, terms.fee)], true);
    }
  }

  // ------------------------------------------------------------ one order

  ghost predicate NonNegative(b: Balances) {
    forall a :: a in b ==> b[a] >= 0.0
  }

  ghost predicate Sound(d: Desk) {
    && NonNegative(d.wallet)
    && forall s :: s in d.consumed ==> d.consumed[s].used >= 0.0
  }

  lemma TradeKeepsSound(m: Market, fee: real, d: Desk, req: OrderRequest, usage: Usage, base: real, quote: real)
    requires Sound(d) && usage.used >= 0.0 && fee < 1.0 && (base > 0.0 ==> quote >= 0.0)
    ensures Sound(Trade(m, fee, d, req, usage, base, quote).0)
  {
    hide Times;
    if base > 0.0 && Get(d.wallet, Spent(m, req)) >= Cost(req, base, quote) {
      TimesSign(if req.buy then base else quote, 1.0 - fee);
      var paid := Credit(d.wallet, Spent(m, req), -Cost(req, base, quote));
      CreditKeepsNonNegative(d.wallet, Spent(m, req), -Cost(req, base, quote));
      CreditKeepsNonNegative(paid, Received(m, req), Times(if req.buy then base else quote, 1.0 - fee));
    }
    hide NonNegative, Credit, Get;
  }

  lemma TimesSign(x: real, y: real)
    requires x >= 0.0 && y >= 0.0
    ensures Times(x, y) >= 0.0
  {
    ProductSign(x, y);
  }

  lemma CreditKeepsNonNegative(b: Balances, a: Asset, x: real)
    requires NonNegative(b) && Get(b, a) + x >= 0.0
    ensures NonNegative(Credit(b, a, x))
    ensures x >= 0.0 ==> forall c :: Get(Credit(b, a, x), c) >= Get(b, c)
    ensures forall c :: Get(b, c) >= 0.0
  {}

  /** Solvency: whatever the order and the book, no balance and no usage goes negative. */
  lemma FillKeepsSound(t: Terms, d: Desk, req: OrderRequest, book: Option<Book>)
    requires ValidTerms(t) && Sound(d)
    ensures Sound(Fill(t, d, req, book).0)
  {
    hide Fillable, WellFormedOrder, PriceOf, QuantityOf;
    if Reaches(t, d, req, book) {
      var m, q := t.markets[req.symbolIndex], QuoteFor(d, req, book.value);
      var base := Fillable(m, req, q);
      if base > 0.0 { ProductSign(base, q.price); }
      TradeKeepsSound(m, t.fee, Touched(d, req, book.value), req,
                      UsageFor(d.consumed, (req.symbolIndex, req.buy), book.value.updateId), base,
                      Times(base, q.price));
    }
  }

  /** The order is new, well formed and marketable: fill() gets as far as Trade. */
  ghost predicate Reaches(t: Terms, d: Desk, req: OrderRequest, book: Option<Book>)
    requires ValidTerms(t)
  {
    && req.clientId !in d.orders && req.symbolIndex < |t.markets|
    && WellFormedOrder(t.markets[req.symbolIndex], req) && book.Some?
    && !Unmatched(req, QuoteFor(d, req, book.value))
  }

  /** Double entry: a new order moves the wallet by exactly what its report says,
      on every asset; a repeated one moves nothing. */
  lemma FillBooksItsReport(t: Terms, d: Desk, req: OrderRequest, book: Option<Book>, a: Asset)
    requires ValidTerms(t) && req.symbolIndex < |t.markets|
    ensures var (d', r) := Fill(t, d, req, book);
            Get(d'.wallet, a) == Get(d.wallet, a)
              + (if req.clientId in d.orders then 0.0 else Effect(req, t.markets[req.symbolIndex], r, a))
  {
    hide Fillable, WellFormedOrder, PriceOf, QuantityOf;
    if Reaches(t, d, req, book) {
      var m, q := t.markets[req.symbolIndex], QuoteFor(d, req, book.value);
      var base := Fillable(m, req, q);
      TradeBooksItsReport(m, t.fee, Touched(d, req, book.value), req,
                          UsageFor(d.consumed, (req.symbolIndex, req.buy), book.value.updateId), base,
                          Times(base, q.price), a);
    }
  }

  lemma TradeBooksItsReport(m: Market, fee: real, d: Desk, req: OrderRequest, usage: Usage, base: real, quote: real,
                            a: Asset)
    requires m.base != m.quote
    ensures var (d', r) := Trade(m, fee, d, req, usage, base, quote);
            Get(d'.wallet, a) == Get(d.wallet, a) + Effect(req, m, r, a)
  {
    var proceeds := if req.buy then base else quote;
    assert proceeds * (1.0 - fee) == proceeds - proceeds * fee;
  }

  /** Everything a caller can rely on in the report of a new order: an ordinary
      (fill-or-kill) order fills completely or not at all, an immediate-or-cancel
      one at most what it asked for; no fill crosses the limit or takes more
      than the level still offers. */
  ghost predicate FairReport(d: Desk, req: OrderRequest, book: Option<Book>, r: OrderReport) {
    && r.clientId == req.clientId && r.revision == 1 && r.accountingComplete
    && (r.status.Filled? || r.status.Expired? || r.status.Rejected?)
    && (r.status.Filled? <==> r.filledQty == req.quantity && r.filledQty > 0.0)
    && (!req.initialClear ==> r.filledQty == 0.0 || r.filledQty == req.quantity)
    && (r.status.Rejected? ==> r.filledQty == 0.0)
    && r.filledQty >= 0.0 && r.filledQuote >= 0.0
    && (r.filledQty == 0.0 ==> r.filledQuote == 0.0 && r.commissions == map[])
    && (r.filledQty != 0.0 ==>
          && book.Some?
          && 0.0 < r.filledQty <= req.quantity
          && r.filledQty <= QuoteFor(d, req, book.value).available
          && r.filledQuote == r.filledQty * PriceOf(book.value, req.buy)
          && (if req.buy then r.filledQuote <= r.filledQty * req.price else r.filledQuote >= r.filledQty * req.price))
  }

  lemma AnswerIsFair(d: Desk, req: OrderRequest, book: Option<Book>, status: OrderStatus)
    requires status.Expired? || status.Rejected?
    ensures FairReport(d, req, book, Answer(req, status))
  {}

  lemma TradeIsFair(m: Market, fee: real, d: Desk, req: OrderRequest, book: Book, base: real, quote: real)
    requires var q := QuoteFor(d, req, book);
             && 0.0 < base <= req.quantity && base <= q.available && (req.initialClear || base == req.quantity)
             && quote == base * q.price && !Unmatched(req, q)
    ensures FairReport(d, req, Some(book), TradeReport(m, fee, req, base, quote))
  {
    hide QuantityOf, UsageFor;
    var price := PriceOf(book, req.buy);
    ScaleLe(if req.buy then price else req.price, if req.buy then req.price else price, base);
    ProductSign(base, price);
  }

  lemma FillOutcome(t: Terms, d: Desk, req: OrderRequest, book: Option<Book>)
    requires ValidTerms(t) && req.clientId !in d.orders
    ensures FairReport(d, req, book, Fill(t, d, req, book).1)
  {
    hide Fillable, WellFormedOrder, PriceOf, QuantityOf, FairReport, TradeReport, TradeWallet, Cost;
    AnswerIsFair(d, req, book, Expired);
    AnswerIsFair(d, req, book, Rejected);
    if Reaches(t, d, req, book) {
      var m, q := t.markets[req.symbolIndex], QuoteFor(d, req, book.value);
      FillableBounds(m, req, q);
      var base := Fillable(m, req, q);
      if base > 0.0 { TradeIsFair(m, t.fee, d, req, book.value, base, Times(base, q.price)); }
    }
  }

  lemma FillableBounds(m: Market, req: OrderRequest, q: Quote)
    requires m.step > 0.0 && m.tick > 0.0 && WellFormedOrder(m, req)
    ensures Fillable(m, req, q) <= req.quantity && Fillable(m, req, q) <= q.available
    ensures req.quantity > 0.0 && (req.quantity <= q.available ==> Fillable(m, req, q) == req.quantity)
  {
    DownBounds(Min(req.quantity, q.available), m.step);
  }

  /** When a new fill-or-kill order is certain to fill completely. */
  lemma FillsWhenCovered(t: Terms, d: Desk, req: OrderRequest, book: Book)
    requires ValidTerms(t) && !req.initialClear && Reaches(t, d, req, Some(book))
    requires var m := t.markets[req.symbolIndex];
             Get(d.wallet, Spent(m, req)) >= Cost(req, req.quantity, req.quantity * PriceOf(book, req.buy))
    ensures var r := Fill(t, d, req, Some(book)).1;
            r.status.Filled? && r.filledQty == req.quantity && r.filledQuote == req.quantity * PriceOf(book, req.buy)
  {
    hide Fillable, WellFormedOrder, PriceOf, QuantityOf;
    FillableBounds(t.markets[req.symbolIndex], req, QuoteFor(d, req, book));
  }

  /** The exchange's filters, with sizes and prices on their grids; zero means no
      bound. */
  ghost predicate Conforms(m: Market, req: OrderRequest) {
    && 0.0 < req.quantity && OnGrid(req.quantity, m.step) && 0.0 < req.price && OnGrid(req.price, m.tick)
    && m.minQty <= req.quantity && (0.0 < m.maxQty ==> req.quantity <= m.maxQty)
    && (0.0 < m.minPrice ==> m.minPrice <= req.price) && (0.0 < m.maxPrice ==> req.price <= m.maxPrice)
    && m.minNotional <= req.quantity * req.price && (0.0 < m.maxNotional ==> req.quantity * req.price <= m.maxNotional)
  }

  lemma WellFormedMeans(m: Market, req: OrderRequest)
    requires m.step > 0.0 && m.tick > 0.0
    ensures WellFormedOrder(m, req) <==> Conforms(m, req)
  {
    if OnGrid(req.quantity, m.step) { RoundingIsIdle(req.quantity, m.step); }
    if OnGrid(req.price, m.tick) { RoundingIsIdle(req.price, m.tick); }
    DownBounds(req.quantity, m.step);
    DownBounds(req.price, m.tick);
    hide Down, OnGrid;
  }

  /** What has been taken of this side under this update. */
  ghost function TakenOf(d: Desk, req: OrderRequest, book: Book): real {
    var side := (req.symbolIndex, req.buy);
    if side in d.consumed && d.consumed[side].updateId == book.updateId then d.consumed[side].used else 0.0
  }

  /** Nothing is traded: an answer without a fill. */
  ghost predicate Declines(d: Desk, req: OrderRequest, status: OrderStatus, d': Desk, r: OrderReport) {
    d'.wallet == d.wallet && r == OrderReport(req.clientId, 1, status, 0.0, 0.0, map[], true)
  }

  /** base units change hands at a price: the wallet pays the cost and receives
      the proceeds less the fee, which the report lists. */
  ghost predicate Settles(m: Market, fee: real, d: Desk, req: OrderRequest, base: real, price: real, d': Desk,
                          r: OrderReport)
  {
    var spent, received := if req.buy then m.quote else m.base, if req.buy then m.base else m.quote;
    var cost, proceeds := if req.buy then Times(base, price) else base, if req.buy then base else Times(base, price);
    && r == OrderReport(req.clientId, 1, if base == req.quantity then Filled else Expired, base, Times(base, price),
                        map[received := Times(proceeds, fee)], true)
    && forall a :: Get(d'.wallet, a) == Get(d.wallet, a) - (if a == spent then cost else 0.0)
                                        + (if a == received then Times(proceeds, 1.0 - fee) else 0.0)
  }

  /** A conforming order against a book: out of reach or short of the level it
      expires; otherwise the whole steps that fit are traded, if there are any
      and the wallet has what they cost. */
  ghost predicate Matches(m: Market, fee: real, d: Desk, req: OrderRequest, book: Book, d': Desk, r: OrderReport) {
    var price, left := PriceOf(book, req.buy), QuantityOf(book, req.buy) - TakenOf(d, req, book);
    var side, spent := (req.symbolIndex, req.buy), if req.buy then m.quote else m.base;
    if price <= 0.0 || left <= 0.0 || (if req.buy then req.price < price else price < req.price)
       || (!req.initialClear && left < req.quantity) then
      Declines(d, req, Expired, d', r) && d'.consumed == d.consumed[side := Usage(book.updateId, TakenOf(d, req, book))]
    else exists base ::
      && RoundedDown(base, if left < req.quantity then left else req.quantity, m.step)
      && (if base <= 0.0 || Get(d.wallet, spent) < (if req.buy then Times(base, price) else base) then
            && Declines(d, req, Rejected, d', r)
            && d'.consumed == d.consumed[side := Usage(book.updateId, TakenOf(d, req, book))]
          else
            && Settles(m, fee, d, req, base, price, d', r)
            && d'.consumed == d.consumed[side := Usage(book.updateId, TakenOf(d, req, book) + base)])
  }

  /** One submission in the exchange's terms. */
  ghost predicate Serves(t: Terms, d: Desk, req: OrderRequest, book: Option<Book>, d': Desk, r: OrderReport) {
    if req.clientId in d.orders then d' == d && r == d.orders[req.clientId]
    else
      && d'.orders == d.orders[req.clientId := r]
      && (if req.symbolIndex >= |t.markets| || !Conforms(t.markets[req.symbolIndex], req) || book.None? then
            Declines(d, req, Rejected, d', r) && d'.consumed == d.consumed
          else Matches(t.markets[req.symbolIndex], t.fee, d, req, book.value, d', r))
  }

  lemma TradeSettles(m: Market, fee: real, d: Desk, req: OrderRequest, usage: Usage, base: real, price: real)
    requires m.base != m.quote && base > 0.0
    requires Get(d.wallet, if req.buy then m.quote else m.base) >= (if req.buy then Times(base, price) else base)
    ensures var (d', r) := Trade(m, fee, d, req, usage, base, Times(base, price));
            && Settles(m, fee, d, req, base, price, d', r) && d'.orders == d.orders[req.clientId := r]
            && d'.consumed == d.consumed[(req.symbolIndex, req.buy) := Usage(usage.updateId, usage.used + base)]
  {
    hide Times;
  }

  lemma MatchMatches(m: Market, fee: real, d: Desk, req: OrderRequest, book: Book)
    requires ValidMarket(m)
    ensures var (d', r) := Match(m, fee, d, req, book);
            Matches(m, fee, d, req, book, d', r) && d'.orders == d.orders[req.clientId := r]
  {
    hide PriceOf, QuantityOf, Down, Settles, TradeReport, TradeWallet, Times;
    var q := QuoteFor(d, req, book);
    var base := Fillable(m, req, q);
    DownBounds(Min(req.quantity, q.available), m.step);
    assert RoundedDown(base, if q.available < req.quantity then q.available else req.quantity, m.step);
    var usage := UsageFor(d.consumed, (req.symbolIndex, req.buy), book.updateId);
    if base > 0.0 && Get(d.wallet, Spent(m, req)) >= Cost(req, base, Times(base, q.price)) {
      TradeSettles(m, fee, Touched(d, req, book), req, usage, base, q.price);
      SettlesFrom(m, fee, Touched(d, req, book), d, req, base, q.price, Match(m, fee, d, req, book).0,
                  Match(m, fee, d, req, book).1);
    }
  }

  lemma SettlesFrom(m: Market, fee: real, d1: Desk, d: Desk, req: OrderRequest, base: real, price: real, d': Desk,
                    r: OrderReport)
    requires d1.wallet == d.wallet
    ensures Settles(m, fee, d1, req, base, price, d', r) <==> Settles(m, fee, d, req, base, price, d', r)
  {}

  lemma FillServes(t: Terms, d: Desk, req: OrderRequest, book: Option<Book>)
    requires ValidTerms(t)
    ensures var (d', r) := Fill(t, d, req, book); Serves(t, d, req, book, d', r)
  {
    hide WellFormedOrder, Conforms, Match, Matches;
    if req.symbolIndex < |t.markets| {
      WellFormedMeans(t.markets[req.symbolIndex], req);
      if book.Some? { MatchMatches(t.markets[req.symbolIndex], t.fee, d, req, book.value); }
    }
  }

  /** A whole fill is the trade of the full quantity at the book's price. */
  lemma WholeFillReport(t: Terms, d: Desk, req: OrderRequest, book: Book)
    requires ValidTerms(t) && req.clientId !in d.orders && req.symbolIndex < |t.markets| && req.quantity > 0.0
    requires Fill(t, d, req, Some(book)).1.filledQty == req.quantity
    ensures Fill(t, d, req, Some(book)).1
         == TradeReport(t.markets[req.symbolIndex], t.fee, req, req.quantity,
                        Times(req.quantity, PriceOf(book, req.buy)))
  {
    hide WellFormedOrder, PriceOf, QuantityOf, Fillable;
  }

  /** An order uses up liquidity on its own side of its own book only. */
  lemma OtherSidesStay(t: Terms, d: Desk, req: OrderRequest, book: Option<Book>, side: Side, updateId: int)
    requires ValidTerms(t) && side != (req.symbolIndex, req.buy)
    ensures UsageFor(Fill(t, d, req, book).0.consumed, side, updateId) == UsageFor(d.consumed, side, updateId)
  {
    hide WellFormedOrder, PriceOf, QuantityOf, Fillable, TradeWallet, TradeReport;
  }

  // ------------------------------------------------------------ all request sequences

  datatype Arrival = Arrival(req: OrderRequest, book: Option<Book>)

  function Run(t: Terms, d: Desk, arrivals: seq<Arrival>): Desk
    requires ValidTerms(t)
    decreases |arrivals|
  {
    if arrivals == [] then d
    else Run(t, Fill(t, d, arrivals[0].req, arrivals[0].book).0, arrivals[1..])
  }

  lemma {:induction false} RunKeepsSound(t: Terms, d: Desk, arrivals: seq<Arrival>)
    requires ValidTerms(t) && Sound(d)
    ensures Sound(Run(t, d, arrivals))
    decreases |arrivals|
  {
    if arrivals != [] {
      FillKeepsSound(t, d, arrivals[0].req, arrivals[0].book);
      RunKeepsSound(t, Fill(t, d, arrivals[0].req, arrivals[0].book).0, arrivals[1..]);
    }
  }

  /** Idempotence over whole histories: once a client id has been answered, any
      later submission of it, after any other orders and against any book, gives
      the same report and leaves the desk as it was. */
  lemma {:induction false} ResubmissionChangesNothing(t: Terms, d: Desk, first: Arrival, between: seq<Arrival>,
                                                      again: Arrival)
    requires ValidTerms(t) && first.req.clientId == again.req.clientId
    ensures var answered := Fill(t, d, first.req, first.book);
            var later := Run(t, answered.0, between);
            Fill(t, later, again.req, again.book) == (later, answered.1)
  {
    var answered := Fill(t, d, first.req, first.book);
    AnswersAreKept(t, answered.0, between, first.req.clientId);
  }

  lemma {:induction false} AnswersAreKept(t: Terms, d: Desk, arrivals: seq<Arrival>, id: ClientId)
    requires ValidTerms(t) && id in d.orders
    ensures id in Run(t, d, arrivals).orders && Run(t, d, arrivals).orders[id] == d.orders[id]
    decreases |arrivals|
  {
    if arrivals != [] {
      AnswersAreKept(t, Fill(t, d, arrivals[0].req, arrivals[0].book).0, arrivals[1..], id);
    }
  }

  function SideOf(arrival: Arrival): Side { (arrival.req.symbolIndex, arrival.req.buy) }

  /** Quantity newly filled on one side by one arrival. */
  function NewFill(t: Terms, d: Desk, arrival: Arrival, side: Side): real
    requires ValidTerms(t)
  {
    if arrival.req.clientId in d.orders || SideOf(arrival) != side then 0.0
    else Fill(t, d, arrival.req, arrival.book).1.filledQty
  }

  function TotalFilled(t: Terms, d: Desk, arrivals: seq<Arrival>, side: Side): real
    requires ValidTerms(t)
    decreases |arrivals|
  {
    if arrivals == [] then 0.0
    else NewFill(t, d, arrivals[0], side)
         + TotalFilled(t, Fill(t, d, arrivals[0].req, arrivals[0].book).0, arrivals[1..], side)
  }

  /** Every book this side is matched against carries the same update id and quantity. */
  ghost predicate SameDisplay(arrivals: seq<Arrival>, side: Side, updateId: int, displayed: real) {
    forall i :: 0 <= i < |arrivals| && SideOf(arrivals[i]) == side && arrivals[i].book.Some? ==>
      arrivals[i].book.value.updateId == updateId && QuantityOf(arrivals[i].book.value, side.1) == displayed
  }

  /** On its own side a new order uses up what it fills. */
  lemma OwnSideUsed(t: Terms, d: Desk, req: OrderRequest, book: Option<Book>)
    requires ValidTerms(t) && req.clientId !in d.orders
    ensures var side, (d', r) := (req.symbolIndex, req.buy), Fill(t, d, req, book);
            forall u :: (book.Some? ==> book.value.updateId == u) ==>
              UsageFor(d'.consumed, side, u).used == UsageFor(d.consumed, side, u).used + r.filledQty
  {
    hide WellFormedOrder, PriceOf, QuantityOf, Fillable, TradeWallet;
  }

  lemma UsageAfter(t: Terms, d: Desk, arrival: Arrival, side: Side, updateId: int, displayed: real)
    requires ValidTerms(t) && SameDisplay([arrival], side, updateId, displayed)
    ensures var d' := Fill(t, d, arrival.req, arrival.book).0;
            UsageFor(d'.consumed, side, updateId).used == UsageFor(d.consumed, side, updateId).used
                                                          + NewFill(t, d, arrival, side)
    ensures NewFill(t, d, arrival, side) >= 0.0
    ensures NewFill(t, d, arrival, side) > 0.0 ==>
              UsageFor(d.consumed, side, updateId).used + NewFill(t, d, arrival, side) <= displayed
  {
    assert SideOf(arrival) == side && arrival.book.Some? ==>
        [arrival][0].book.value.updateId == updateId && QuantityOf([arrival][0].book.value, side.1) == displayed;
    if arrival.req.clientId in d.orders {
      assert Fill(t, d, arrival.req, arrival.book).0 == d;
    } else {
      FillOutcome(t, d, arrival.req, arrival.book);
      hide Fill, UsageFor, QuantityOf;
      if SideOf(arrival) == side {
        OwnSideUsed(t, d, arrival.req, arrival.book);
      } else {
        OtherSidesStay(t, d, arrival.req, arrival.book, side, updateId);
      }
    }
  }

  /** The same displayed level is never sold twice: while one update id stands,
      the fills on that side add up to at most the quantity displayed. */
  lemma {:induction false} LevelNeverOverfilled(t: Terms, d: Desk, arrivals: seq<Arrival>, side: Side, updateId: int,
                                                displayed: real)
    requires ValidTerms(t) && Sound(d) && SameDisplay(arrivals, side, updateId, displayed)
    ensures TotalFilled(t, d, arrivals, side) >= 0.0
    ensures TotalFilled(t, d, arrivals, side) > 0.0 ==>
              UsageFor(d.consumed, side, updateId).used + TotalFilled(t, d, arrivals, side) <= displayed
    decreases |arrivals|
  {
    if arrivals != [] {
      var d' := Fill(t, d, arrivals[0].req, arrivals[0].book).0;
      UsageAfter(t, d, arrivals[0], side, updateId, displayed);
      FillKeepsSound(t, d, arrivals[0].req, arrivals[0].book);
      LevelNeverOverfilled(t, d', arrivals[1..], side, updateId, displayed);
    }
  }
}
