/** OrderBookManager of src/orderbook.cpp: the book slots and the edge scanner,
    over reals. Rates, liquidity and outputs are exact here; the code computes
    them in long double. */
module OrderBooks {
  import opened Basics
  import opened Trading
  import Triangles

  datatype Params = Params(groups: seq<TradeGroup>, maxUsdt: real, fee: real, threshold: real)

  /** What the OrderBookManager constructor checks; fee is the kept fraction. */
  ghost predicate ValidParams(p: Params, slots: nat) {
    && p.maxUsdt > 0.0 && 0.0 < p.fee <= 1.0 && p.threshold >= 0.0
    && (forall g :: 0 <= g < |p.groups| ==> ValidGroup(p.groups[g], slots))
  }

  ghost predicate ValidGroup(group: TradeGroup, slots: nat) {
    && (forall i :: 0 <= i < |group.symbolIndices| ==> group.symbolIndices[i] < slots)
    && (forall p :: 0 <= p < |group.paths| ==> ValidPath(group.paths[p], slots))
  }

  ghost predicate ValidPath(path: TradePath, slots: nat) {
    |path| == LEGS && forall i :: 0 <= i < LEGS ==> path[i].index < slots
  }

  type Books = seq<Option<Book>>

  // ------------------------------------------------------------ the meaning of a path

  /** Both numbers of the top level a leg trades against are usable. */
  predicate Tradable(books: Books, leg: TradeLeg)
    requires leg.index < |books|
  {
    && books[leg.index].Some?
    && (if leg.buy then books[leg.index].value.askPrice else books[leg.index].value.bidPrice) > 0
    && (if leg.buy then books[leg.index].value.askQty else books[leg.index].value.bidQty) > 0
  }

  function Rate(books: Books, leg: TradeLeg): (r: real)
    requires leg.index < |books| && Tradable(books, leg)
    ensures r > 0.0
  {
    Positive((if leg.buy then books[leg.index].value.askPrice else books[leg.index].value.bidPrice) as real,
             Trading.PowerOfTen(books[leg.index].value.priceExponent));
    PriceOf(books[leg.index].value, leg.buy)
  }

  function Liquidity(books: Books, leg: TradeLeg): (q: real)
    requires leg.index < |books| && Tradable(books, leg)
    ensures q > 0.0
  {
    Positive((if leg.buy then books[leg.index].value.askQty else books[leg.index].value.bidQty) as real,
             Trading.PowerOfTen(books[leg.index].value.qtyExponent));
    QuantityOf(books[leg.index].value, leg.buy)
  }

  lemma Positive(x: real, y: real)
    requires x > 0.0 && y > 0.0
    ensures x * y > 0.0
  {}

  lemma PositiveQuotient(x: real, y: real)
    requires x > 0.0 && y > 0.0
    ensures x / y > 0.0
  {}

  ghost predicate Available(books: Books, path: TradePath, n: nat)
    requires ValidPath(path, |books|) && n <= LEGS
  {
    forall i :: 0 <= i < n ==> Tradable(books, path[i])
  }

  /** What one unit of a leg's input asset becomes, before the fee. */
  function Conversion(books: Books, leg: TradeLeg): (c: real)
    requires leg.index < |books| && Tradable(books, leg)
    ensures c > 0.0
  {
    PositiveQuotient(1.0, Rate(books, leg));
    if leg.buy then 1.0 / Rate(books, leg) else Rate(books, leg)
  }

  /** Amount of the asset in hand after n legs, per USDT put in: the product of
      the conversions, each reduced by the fee. */
  ghost function Flow(books: Books, path: TradePath, fee: real, n: nat): (f: real)
    requires ValidPath(path, |books|) && n <= LEGS && Available(books, path, n) && fee > 0.0
    ensures f > 0.0
    decreases n
  {
    if n == 0 then 1.0
    else
      var f := Flow(books, path, fee, n - 1);
      Positive(f, Conversion(books, path[n - 1]));
      Positive(f * Conversion(books, path[n - 1]), fee);
      f * Conversion(books, path[n - 1]) * fee
  }

  /** Base quantity leg i trades, per USDT put in. */
  ghost function UnitQuantity(books: Books, path: TradePath, fee: real, i: nat): (q: real)
    requires ValidPath(path, |books|) && i < LEGS && Available(books, path, i + 1) && fee > 0.0
    ensures q > 0.0
  {
    PositiveQuotient(Flow(books, path, fee, i), Rate(books, path[i]));
    if path[i].buy then Flow(books, path, fee, i) / Rate(books, path[i]) else Flow(books, path, fee, i)
  }

  /** Every leg of a round trip with this input fits its top level. */
  ghost predicate Fits(books: Books, path: TradePath, fee: real, n: nat, input: real)
    requires ValidPath(path, |books|) && n <= LEGS && Available(books, path, n) && fee > 0.0
  {
    forall i :: 0 <= i < n ==> input * UnitQuantity(books, path, fee, i) <= Liquidity(books, path[i])
  }

  /** The largest input within the cap that fits every leg. */
  ghost predicate LargestFit(books: Books, path: TradePath, p: Params, n: nat, input: real)
    requires ValidPath(path, |books|) && n <= LEGS && Available(books, path, n) && p.fee > 0.0
  {
    && 0.0 < input <= p.maxUsdt && Fits(books, path, p.fee, n, input)
    && (forall x :: input < x <= p.maxUsdt ==> !Fits(books, path, p.fee, n, x))
  }

  ghost predicate Qualifies(books: Books, path: TradePath, p: Params)
    requires ValidPath(path, |books|) && p.fee > 0.0
  {
    Available(books, path, LEGS) && Flow(books, path, p.fee, LEGS) - 1.0 > p.threshold
  }

  /** What a reported opportunity promises about its path. */
  ghost predicate Sound(books: Books, p: Params, o: Opportunity)
    requires ValidPath(o.path, |books|) && p.fee > 0.0
  {
    && Qualifies(books, o.path, p)
    && LargestFit(books, o.path, p, LEGS, o.inputUsdt)
    && o.outputUsdt == o.inputUsdt * Flow(books, o.path, p.fee, LEGS)
    && o.profitUsdt == o.outputUsdt - o.inputUsdt && o.netReturn == Flow(books, o.path, p.fee, LEGS) - 1.0
    && |o.prices| == LEGS && |o.quantities| == LEGS && |o.bookUpdateIds| == LEGS && |o.receiveSequences| == LEGS
    && (forall i :: 0 <= i < LEGS ==>
          && o.prices[i] == Rate(books, o.path[i])
          && o.quantities[i] == o.inputUsdt * UnitQuantity(books, o.path, p.fee, i)
          && o.bookUpdateIds[i] == books[o.path[i].index].value.updateId
          && o.receiveSequences[i] == books[o.path[i].index].value.receiveSequence)
  }

  // ------------------------------------------------------------ one path

  /** One leg of the product: the code multiplies after dividing by the rate. */
  lemma LegFlow(books: Books, path: TradePath, fee: real, i: nat)
    requires ValidPath(path, |books|) && i < LEGS && Available(books, path, i + 1) && fee > 0.0
    ensures var q := UnitQuantity(books, path, fee, i);
            Flow(books, path, fee, i + 1) == (if path[i].buy then q else q * Rate(books, path[i])) * fee
  {
    hide Flow, Rate, Tradable;
    FlowStep(books, path, fee, i);
    LegStep(Flow(books, path, fee, i), Rate(books, path[i]), Conversion(books, path[i]), path[i].buy, fee,
            Flow(books, path, fee, i + 1));
  }

  lemma FlowStep(books: Books, path: TradePath, fee: real, i: nat)
    requires ValidPath(path, |books|) && i < LEGS && Available(books, path, i + 1) && fee > 0.0
    ensures Flow(books, path, fee, i + 1) == Flow(books, path, fee, i) * Conversion(books, path[i]) * fee
  {
    hide Rate, Tradable, Conversion;
  }

  lemma LegStep(f: real, r: real, c: real, buy: bool, fee: real, f': real)
    requires r > 0.0 && c == (if buy then 1.0 / r else r) && f' == f * c * fee
    ensures f' == (if buy then f / r else f * r) * fee
  {
    if buy {
      Reciprocal(f, r);
      assert f * c == f / r;
    }
  }

  lemma Reciprocal(f: real, r: real)
    requires r > 0.0
    ensures f * (1.0 / r) == f / r
  {
    assert 1.0 / r * r == 1.0;
    assert f / r * r == f;
  }

  lemma LimitStep(limit: real, liquidity: real, quantity: real, x: real)
    requires quantity > 0.0 && liquidity > 0.0
    ensures x * quantity <= liquidity <==> x <= liquidity / quantity
    ensures liquidity / quantity > 0.0
  {
    assert liquidity / quantity * quantity == liquidity;
    if x <= liquidity / quantity {
      ScaleLe(x, liquidity / quantity, quantity);
    } else {
      assert (x - liquidity / quantity) * quantity > 0.0;
    }
  }

  /** The limit after one more leg is again the largest fit. */
  lemma LimitKept(books: Books, path: TradePath, p: Params, n: nat, limit: real)
    requires ValidPath(path, |books|) && n < LEGS && Available(books, path, n + 1) && p.fee > 0.0
    requires LargestFit(books, path, p, n, limit)
    ensures var q, l := UnitQuantity(books, path, p.fee, n), Liquidity(books, path[n]);
            LargestFit(books, path, p, n + 1, if l / q < limit then l / q else limit)
  {
    hide Rate, Liquidity, Flow, UnitQuantity, Tradable;
    var q, l := UnitQuantity(books, path, p.fee, n), Liquidity(books, path[n]);
    var limit' := if l / q < limit then l / q else limit;
    LimitStep(limit, l, q, limit');
    forall i | 0 <= i < n ensures limit' * UnitQuantity(books, path, p.fee, i) <= Liquidity(books, path[i]) {
      ScaleLe(limit', limit, UnitQuantity(books, path, p.fee, i));
    }
    var m := n + 1;
    forall x ensures limit' < x <= p.maxUsdt ==> !Fits(books, path, p.fee, m, x) {
      LimitStep(limit, l, q, x);
      if limit < x <= p.maxUsdt { assert !Fits(books, path, p.fee, n, x); }
    }
  }

  /** The leg loop of scan_edge for one path. */
  method EvaluatePath(books: Books, p: Params, groupIndex: nat, path: TradePath) returns (found: bool, o: Opportunity)
    requires ValidPath(path, |books|) && p.maxUsdt > 0.0 && 0.0 < p.fee <= 1.0
    ensures found <==> Qualifies(books, path, p)
    ensures found ==> o.groupIndex == groupIndex && o.path == path && Sound(books, p, o)
  {
    hide Flow, UnitQuantity, Rate, Liquidity, Tradable, LargestFit, Conversion;
    found := false;
    o := Opportunity(groupIndex, path, [0.0, 0.0, 0.0], [0.0, 0.0, 0.0], [0, 0, 0], [0, 0, 0], 0.0, 0.0, 0.0, 0.0);
    var prices, units, ids, sequences := [], [], [], [];
    var output, inputLimit := 1.0, p.maxUsdt;
    StartOfPath(books, path, p);
    var i := 0;
    while i < LEGS
      invariant 0 <= i <= LEGS && Available(books, path, i)
      invariant output == Flow(books, path, p.fee, i)
      invariant LargestFit(books, path, p, i, inputLimit)
      invariant |prices| == |units| == |ids| == |sequences| == i
      invariant forall k :: 0 <= k < i ==>
                  prices[k] == Rate(books, path[k]) && units[k] == UnitQuantity(books, path, p.fee, k)
      invariant forall k :: 0 <= k < i ==> books[path[k].index].Some? && ids[k] == books[path[k].index].value.updateId
                                           && sequences[k] == books[path[k].index].value.receiveSequence
    {
      var leg := path[i];
      if !Tradable(books, leg) { return; }
      Slot(books, leg);
      assert Available(books, path, i + 1);
      var rate, liquidity := Rate(books, leg), Liquidity(books, leg);
      var baseQty := if leg.buy then output / rate else output;
      UnitIs(books, path, p.fee, i);
      LegFlow(books, path, p.fee, i);
      LimitKept(books, path, p, i, inputLimit);
      inputLimit := if liquidity / baseQty < inputLimit then liquidity / baseQty else inputLimit;
      prices, units := prices + [rate], units + [baseQty];
      ids, sequences := ids + [books[leg.index].value.updateId], sequences + [books[leg.index].value.receiveSequence];
      output := (if leg.buy then baseQty else baseQty * rate) * p.fee;
      i := i + 1;
    }
    if output - 1.0 <= p.threshold { return; }
    found := true;
    o := Opportunity(groupIndex, path, prices, Scaled(units, inputLimit), ids, sequences,
                     inputLimit, inputLimit * output, inputLimit * output - inputLimit, output - 1.0);
  }

  lemma Slot(books: Books, leg: TradeLeg)
    requires leg.index < |books| && Tradable(books, leg)
    ensures books[leg.index].Some?
  {}

  lemma UnitIs(books: Books, path: TradePath, fee: real, i: nat)
    requires ValidPath(path, |books|) && i < LEGS && Available(books, path, i + 1) && fee > 0.0
    ensures UnitQuantity(books, path, fee, i)
         == if path[i].buy then Flow(books, path, fee, i) / Rate(books, path[i]) else Flow(books, path, fee, i)
  {}

  lemma StartOfPath(books: Books, path: TradePath, p: Params)
    requires ValidPath(path, |books|) && p.fee > 0.0 && p.maxUsdt > 0.0
    ensures Available(books, path, 0) && Flow(books, path, p.fee, 0) == 1.0 && LargestFit(books, path, p, 0, p.maxUsdt)
  {}

  function Scaled(units: seq<real>, input: real): (r: seq<real>)
    ensures |r| == |units| && forall i :: 0 <= i < |r| ==> r[i] == input * units[i]
  {
    seq(|units|, i requires 0 <= i < |units| => input * units[i])
  }

  // ------------------------------------------------------------ what an edge is worth

  /** The books of a path exist and show a price and a quantity on the side each
      leg trades against. */
  ghost predicate Quoted(books: Books, path: TradePath)
    requires ValidPath(path, |books|)
  {
    forall i :: 0 <= i < LEGS ==>
      && books[path[i].index].Some?
      && PriceOf(books[path[i].index].value, path[i].buy) > 0.0
      && QuantityOf(books[path[i].index].value, path[i].buy) > 0.0
  }

  /** One leg at a price: a purchase spends the amount in hand, a sale delivers it,
      and the fee is kept from what is received. */
  ghost predicate LegTraded(buy: bool, price: real, fee: real, amount: real, quantity: real, received: real) {
    if buy then quantity * price == amount && received == quantity * fee
    else quantity == amount && received == quantity * price * fee
  }

  /** The path traded at the books' prices. */
  ghost predicate TradedThrough(books: Books, path: TradePath, fee: real, amounts: seq<real>, quantities: seq<real>)
    requires ValidPath(path, |books|) && Quoted(books, path)
  {
    && |amounts| == LEGS + 1 && |quantities| == LEGS
    && forall i :: 0 <= i < LEGS ==>
         LegTraded(path[i].buy, PriceOf(books[path[i].index].value, path[i].buy), fee,
                   amounts[i], quantities[i], amounts[i + 1])
  }

  lemma TradableMeans(books: Books, leg: TradeLeg)
    requires leg.index < |books|
    ensures Tradable(books, leg) <==>
              && books[leg.index].Some? && PriceOf(books[leg.index].value, leg.buy) > 0.0
              && QuantityOf(books[leg.index].value, leg.buy) > 0.0
  {
    if books[leg.index].Some? {
      var book := books[leg.index].value;
      var price, qty := if leg.buy then book.askPrice else book.bidPrice, if leg.buy then book.askQty else book.bidQty;
      SignOfProduct(price as real, Trading.PowerOfTen(book.priceExponent));
      SignOfProduct(qty as real, Trading.PowerOfTen(book.qtyExponent));
    }
  }

  lemma SignOfProduct(x: real, y: real)
    requires y > 0.0
    ensures x * y > 0.0 <==> x > 0.0
  {
    if x <= 0.0 { ScaleLe(x, 0.0, y); }
  }

  lemma AvailableIsQuoted(books: Books, path: TradePath)
    requires ValidPath(path, |books|)
    ensures Available(books, path, LEGS) <==> Quoted(books, path)
  {
    forall i | 0 <= i < LEGS { TradableMeans(books, path[i]); }
    hide Tradable, PriceOf, QuantityOf;
  }

  lemma RateIsPrice(books: Books, leg: TradeLeg)
    requires leg.index < |books| && Tradable(books, leg)
    ensures books[leg.index].Some? && Rate(books, leg) == PriceOf(books[leg.index].value, leg.buy) > 0.0
    ensures Liquidity(books, leg) == QuantityOf(books[leg.index].value, leg.buy) > 0.0
  {}

  ghost function Share(x: real, y: real): real { x * y }

  /** One leg of it, in the terms of Flow and UnitQuantity. */
  lemma TradedLeg(books: Books, path: TradePath, fee: real, x: real, quantity: real, received: real, i: nat)
    requires ValidPath(path, |books|) && i < LEGS && Available(books, path, i + 1) && fee > 0.0
    ensures books[path[i].index].Some?
    ensures LegTraded(path[i].buy, PriceOf(books[path[i].index].value, path[i].buy), fee,
                      Share(x, Flow(books, path, fee, i)), quantity, received)
       <==> quantity == Share(x, UnitQuantity(books, path, fee, i))
            && received == Share(x, Flow(books, path, fee, i + 1))
  {
    hide Flow, UnitQuantity, Rate, Tradable, PriceOf, LegTraded, Share;
    RateIsPrice(books, path[i]);
    LegFlow(books, path, fee, i);
    UnitIs(books, path, fee, i);
    hide Available;
    LegInHand(path[i].buy, x, Flow(books, path, fee, i), Rate(books, path[i]), fee,
              UnitQuantity(books, path, fee, i), Flow(books, path, fee, i + 1), quantity, received);
  }

  lemma LegInHand(buy: bool, x: real, flow: real, price: real, fee: real, unit: real, flow': real, q: real, out: real)
    requires price > 0.0
    requires unit == (if buy then flow / price else flow) && flow' == (if buy then unit else unit * price) * fee
    ensures LegTraded(buy, price, fee, Share(x, flow), q, out) <==> q == Share(x, unit) && out == Share(x, flow')
  {
    if buy {
      assert unit * price == flow;
      assert x * unit * price == x * flow;
      SameProduct(q, x * unit, price);
      assert x * flow' == x * unit * fee;
    } else {
      assert x * flow' == x * flow * price * fee;
    }
  }

  lemma SameProduct(x: real, y: real, k: real)
    requires k > 0.0
    ensures x * k == y * k <==> x == y
  {
    if x < y { ProductGap(x, y, k); }
    if y < x { ProductGap(y, x, k); }
  }

  lemma ProductGap(x: real, y: real, k: real)
    requires k > 0.0 && x < y
    ensures x * k < y * k
  {}

  /** Trading the path from x makes Flow of it, with UnitQuantity at each leg. */
  lemma TradedIsFlow(books: Books, path: TradePath, fee: real, amounts: seq<real>, quantities: seq<real>)
    requires ValidPath(path, |books|) && Available(books, path, LEGS) && Quoted(books, path) && fee > 0.0
    requires |amounts| == LEGS + 1 && |quantities| == LEGS
    ensures TradedThrough(books, path, fee, amounts, quantities) <==>
              forall i :: 0 <= i < LEGS ==>
                && quantities[i] == Share(amounts[0], UnitQuantity(books, path, fee, i))
                && amounts[i + 1] == Share(amounts[0], Flow(books, path, fee, i + 1))
  {
    assert amounts[0] == Share(amounts[0], Flow(books, path, fee, 0));
    hide Flow, UnitQuantity, PriceOf, Tradable, LegTraded, Share;
    TradedLeg(books, path, fee, amounts[0], quantities[0], amounts[1], 0);
    TradedLeg(books, path, fee, amounts[0], quantities[1], amounts[2], 1);
    TradedLeg(books, path, fee, amounts[0], quantities[2], amounts[3], 2);
  }

  /** Trading the path at these prices, from some amount, gains more than the
      threshold on it. */
  ghost predicate Gainful(books: Books, path: TradePath, p: Params)
    requires ValidPath(path, |books|)
  {
    Quoted(books, path) && exists amounts, quantities ::
      TradedThrough(books, path, p.fee, amounts, quantities) && GainsFrom(amounts, p.threshold)
  }

  ghost predicate GainsFrom(amounts: seq<real>, threshold: real) {
    |amounts| == LEGS + 1 && amounts[0] > 0.0 && amounts[LEGS] - amounts[0] > amounts[0] * threshold
  }

  ghost function AmountsFrom(books: Books, path: TradePath, fee: real, x: real): (amounts: seq<real>)
    requires ValidPath(path, |books|) && Available(books, path, LEGS) && fee > 0.0
    ensures |amounts| == LEGS + 1 && forall i :: 0 <= i <= LEGS ==> amounts[i] == Share(x, Flow(books, path, fee, i))
  {
    seq(LEGS + 1, i requires 0 <= i <= LEGS => Share(x, Flow(books, path, fee, i)))
  }

  ghost function QuantitiesFrom(books: Books, path: TradePath, fee: real, x: real): (quantities: seq<real>)
    requires ValidPath(path, |books|) && Available(books, path, LEGS) && fee > 0.0
    ensures |quantities| == LEGS
    ensures forall i :: 0 <= i < LEGS ==> quantities[i] == Share(x, UnitQuantity(books, path, fee, i))
  {
    seq(LEGS, i requires 0 <= i < LEGS => Share(x, UnitQuantity(books, path, fee, i)))
  }

  lemma TradedFrom(books: Books, path: TradePath, fee: real, x: real)
    requires ValidPath(path, |books|) && Available(books, path, LEGS) && Quoted(books, path) && fee > 0.0
    ensures TradedThrough(books, path, fee, AmountsFrom(books, path, fee, x), QuantitiesFrom(books, path, fee, x))
    ensures AmountsFrom(books, path, fee, x)[0] == x
  {
    assert Share(x, Flow(books, path, fee, 0)) == x;
    hide Flow, UnitQuantity, Share;
    TradedIsFlow(books, path, fee, AmountsFrom(books, path, fee, x), QuantitiesFrom(books, path, fee, x));
  }

  lemma GainOfFlow(x: real, flow: real, threshold: real)
    requires x > 0.0
    ensures Share(x, flow) - x > x * threshold <==> flow - 1.0 > threshold
  {
    GainAsProduct(x, flow, threshold);
    SignOfProduct(flow - 1.0 - threshold, x);
    hide Share;
  }

  lemma GainAsProduct(x: real, flow: real, threshold: real)
    ensures Share(x, flow) - x - x * threshold == (flow - 1.0 - threshold) * x
  {}

  /** A path qualifies exactly if trading it gains. */
  lemma QualifiesMeans(books: Books, path: TradePath, p: Params)
    requires ValidPath(path, |books|) && p.fee > 0.0
    ensures Qualifies(books, path, p) <==> Gainful(books, path, p)
  {
    AvailableIsQuoted(books, path);
    hide Flow, UnitQuantity, Tradable, Share, Quoted, TradedThrough;
    if Qualifies(books, path, p) {
      TradedFrom(books, path, p.fee, 1.0);
      GainOfFlow(1.0, Flow(books, path, p.fee, LEGS), p.threshold);
      assert GainsFrom(AmountsFrom(books, path, p.fee, 1.0), p.threshold);
    }
    if Gainful(books, path, p) {
      var amounts, quantities :|
        TradedThrough(books, path, p.fee, amounts, quantities) && GainsFrom(amounts, p.threshold);
      assert |quantities| == LEGS by { TradedShape(books, path, p.fee, amounts, quantities); }
      TradedIsFlow(books, path, p.fee, amounts, quantities);
      assert amounts[2 + 1] == Share(amounts[0], Flow(books, path, p.fee, 2 + 1));
      GainOfFlow(amounts[0], Flow(books, path, p.fee, LEGS), p.threshold);
    }
  }

  lemma TradedShape(books: Books, path: TradePath, fee: real, amounts: seq<real>, quantities: seq<real>)
    requires ValidPath(path, |books|) && Quoted(books, path) && TradedThrough(books, path, fee, amounts, quantities)
    ensures |amounts| == LEGS + 1 && |quantities| == LEGS
  {}

  /** An edge as its reader may take it: traded at its prices from its input it
      ends with its output and gains more than the threshold; every leg fits its
      level, and the input is the cap unless some leg takes its whole level. */
  ghost predicate PaysOff(books: Books, p: Params, o: Opportunity)
    requires ValidPath(o.path, |books|)
  {
    && Quoted(books, o.path) && |o.prices| == LEGS && |o.quantities| == LEGS
    && (exists amounts :: TradedThrough(books, o.path, p.fee, amounts, o.quantities) && GainsFrom(amounts, p.threshold)
                          && amounts[0] == o.inputUsdt && amounts[LEGS] == o.outputUsdt)
    && (forall i :: 0 <= i < LEGS ==>
          && o.prices[i] == PriceOf(books[o.path[i].index].value, o.path[i].buy)
          && o.quantities[i] <= QuantityOf(books[o.path[i].index].value, o.path[i].buy))
    && o.profitUsdt == o.outputUsdt - o.inputUsdt
    && 0.0 < o.inputUsdt <= p.maxUsdt
    && (o.inputUsdt == p.maxUsdt
        || exists i :: 0 <= i < LEGS && o.quantities[i] == QuantityOf(books[o.path[i].index].value, o.path[i].buy))
  }

  /** Where the largest fit is below the cap, some leg takes its whole level: any
      slack in all three would leave room for more. */
  lemma LimitedByALevel(books: Books, path: TradePath, p: Params, input: real)
    requires ValidPath(path, |books|) && Available(books, path, LEGS) && p.fee > 0.0
    requires LargestFit(books, path, p, LEGS, input) && input < p.maxUsdt
    ensures exists i :: 0 <= i < LEGS && input * UnitQuantity(books, path, p.fee, i) == Liquidity(books, path[i])
  {
    hide Flow, UnitQuantity, Liquidity, Tradable, Rate;
    var u0, l0 := UnitQuantity(books, path, p.fee, 0), Liquidity(books, path[0]);
    var u1, l1 := UnitQuantity(books, path, p.fee, 1), Liquidity(books, path[1]);
    var u2, l2 := UnitQuantity(books, path, p.fee, 2), Liquidity(books, path[2]);
    assert input * u0 <= l0 && input * u1 <= l1 && input * u2 <= l2;
    if input * u0 < l0 && input * u1 < l1 && input * u2 < l2 {
      var x := SlackLeavesRoom(input, u0, l0, u1, l1, u2, l2, p.maxUsdt);
      FitsThree(books, path, p.fee, x);
    }
  }

  lemma FitsThree(books: Books, path: TradePath, fee: real, x: real)
    requires ValidPath(path, |books|) && Available(books, path, LEGS) && fee > 0.0
    requires x * UnitQuantity(books, path, fee, 0) <= Liquidity(books, path[0])
    requires x * UnitQuantity(books, path, fee, 1) <= Liquidity(books, path[1])
    requires x * UnitQuantity(books, path, fee, 2) <= Liquidity(books, path[2])
    ensures Fits(books, path, fee, LEGS, x)
  {
    hide Flow, UnitQuantity, Liquidity, Tradable, Rate;
  }

  lemma SlackLeavesRoom(input: real, u0: real, l0: real, u1: real, l1: real, u2: real, l2: real, cap: real)
    returns (x: real)
    requires u0 > 0.0 && u1 > 0.0 && u2 > 0.0 && input < cap
    requires input * u0 < l0 && input * u1 < l1 && input * u2 < l2
    ensures input < x <= cap && x * u0 <= l0 && x * u1 <= l1 && x * u2 <= l2
  {
    var x0 := Room(input, u0, l0);
    var x1 := Room(input, u1, l1);
    var x2 := Room(input, u2, l2);
    x := Least(Least(x0, x1), Least(x2, cap));
    ScaleLe(x, x0, u0);
    ScaleLe(x, x1, u1);
    ScaleLe(x, x2, u2);
  }

  function Least(x: real, y: real): real { if x < y then x else y }

  lemma Room(input: real, unit: real, level: real) returns (x: real)
    requires unit > 0.0 && input * unit < level
    ensures x > input && x * unit == level
  {
    x := level / unit;
    if x <= input { ScaleLe(x, input, unit); }
  }

  lemma EdgeQuantities(books: Books, p: Params, o: Opportunity)
    requires ValidPath(o.path, |books|) && p.fee > 0.0 && Sound(books, p, o)
    ensures o.quantities == QuantitiesFrom(books, o.path, p.fee, o.inputUsdt)
  {
    hide Flow, UnitQuantity, Tradable, Rate, Liquidity, LargestFit;
    var quantities := QuantitiesFrom(books, o.path, p.fee, o.inputUsdt);
    forall i | 0 <= i < LEGS ensures quantities[i] == o.quantities[i] {}
  }

  lemma SoundPaysOff(books: Books, p: Params, o: Opportunity)
    requires ValidPath(o.path, |books|) && p.fee > 0.0 && Sound(books, p, o)
    ensures PaysOff(books, p, o)
  {
    hide Flow, UnitQuantity, Tradable, Rate, Liquidity, PriceOf, QuantityOf, Quoted, TradedThrough, LargestFit;
    var x := o.inputUsdt;
    AvailableIsQuoted(books, o.path);
    TradedFrom(books, o.path, p.fee, x);
    EdgeQuantities(books, p, o);
    EdgeFits(books, p, o);
    GainOfFlow(x, Flow(books, o.path, p.fee, LEGS), p.threshold);
    var amounts := AmountsFrom(books, o.path, p.fee, x);
    assert GainsFrom(amounts, p.threshold) && amounts[LEGS] == o.outputUsdt;
  }

  lemma EdgeFits(books: Books, p: Params, o: Opportunity)
    requires ValidPath(o.path, |books|) && p.fee > 0.0 && Sound(books, p, o) && Quoted(books, o.path)
    ensures 0.0 < o.inputUsdt <= p.maxUsdt
    ensures forall i :: 0 <= i < LEGS ==>
              && o.prices[i] == PriceOf(books[o.path[i].index].value, o.path[i].buy)
              && o.quantities[i] <= QuantityOf(books[o.path[i].index].value, o.path[i].buy)
    ensures o.inputUsdt == p.maxUsdt
            || exists i :: 0 <= i < LEGS && o.quantities[i] == QuantityOf(books[o.path[i].index].value, o.path[i].buy)
  {
    hide Flow, UnitQuantity, Tradable, Rate, Liquidity, PriceOf, QuantityOf, Qualifies, Fits;
    forall i | 0 <= i < LEGS { EdgeLevel(books, p, o, i); }
    if o.inputUsdt < p.maxUsdt {
      LimitedByALevel(books, o.path, p, o.inputUsdt);
      var i :| 0 <= i < LEGS
               && o.inputUsdt * UnitQuantity(books, o.path, p.fee, i) == Liquidity(books, o.path[i]);
      EdgeLevel(books, p, o, i);
    }
  }

  lemma EdgeLevel(books: Books, p: Params, o: Opportunity, i: nat)
    requires ValidPath(o.path, |books|) && p.fee > 0.0 && Sound(books, p, o) && Quoted(books, o.path) && i < LEGS
    ensures |o.prices| == |o.quantities| == LEGS && Tradable(books, o.path[i])
    ensures var level := QuantityOf(books[o.path[i].index].value, o.path[i].buy);
            && o.prices[i] == PriceOf(books[o.path[i].index].value, o.path[i].buy)
            && o.quantities[i] <= level == Liquidity(books, o.path[i])
            && o.quantities[i] == o.inputUsdt * UnitQuantity(books, o.path, p.fee, i)
  {
    hide Flow, UnitQuantity, Tradable, Rate, Liquidity, PriceOf, QuantityOf;
    RateIsPrice(books, o.path[i]);
  }

  // ------------------------------------------------------------ the manager

  datatype Scan = OutOfRange | NoEdge | Edge(o: Opportunity)

  /** Path k of group g qualifies for an update of this symbol. */
  ghost predicate Candidate(books: Books, p: Params, index: nat, g: nat, k: nat)
    requires ValidParams(p, |books|)
  {
    && g < |p.groups| && index in p.groups[g].symbolIndices && k < |p.groups[g].paths|
    && Qualifies(books, p.groups[g].paths[k], p)
  }

  /** The same in the terms of trading it. */
  ghost predicate HasEdge(books: Books, p: Params, index: nat, g: nat, k: nat)
    requires ValidParams(p, |books|)
  {
    && g < |p.groups| && index in p.groups[g].symbolIndices && k < |p.groups[g].paths|
    && Gainful(books, p.groups[g].paths[k], p)
  }

  lemma CandidateHasEdge(books: Books, p: Params, index: nat, g: nat, k: nat)
    requires ValidParams(p, |books|)
    ensures Candidate(books, p, index, g, k) <==> HasEdge(books, p, index, g, k)
  {
    if g < |p.groups| && k < |p.groups[g].paths| {
      assert ValidGroup(p.groups[g], |books|);
      QualifiesMeans(books, p.groups[g].paths[k], p);
    }
    hide Qualifies, Gainful;
  }

  /** o is for path k of group g. */
  ghost predicate IsFor(p: Params, o: Opportunity, g: nat, k: nat) {
    o.groupIndex == g && g < |p.groups| && k < |p.groups[g].paths| && o.path == p.groups[g].paths[k]
  }

  ghost predicate Populated(books: Books, n: nat) {
    n == |set i | 0 <= i < |books| && books[i].Some?|
  }

  class OrderBookManager {
    const params: Params
    var orderbooks: Books
    var populated: nat
    var received: nat

    ghost predicate Valid()
      reads this
    {
      ValidParams(params, |orderbooks|) && Populated(orderbooks, populated)
    }

    constructor (p: Params, symbols: nat)
      requires ValidParams(p, symbols)
      ensures Valid() && params == p && received == 0
      ensures |orderbooks| == symbols && forall i :: 0 <= i < symbols ==> orderbooks[i].None?
    {
      params := p;
      orderbooks := seq(symbols, i => None);
      populated, received := 0, 0;
      new;
      assert (set i | 0 <= i < |orderbooks| && orderbooks[i].Some?) == {};
    }

    /** at() throws on an unknown slot, changing nothing. */
    method Update(index: nat, book: Book) returns (threw: bool)
      requires Valid()
      modifies this
      ensures Valid()
      ensures threw <==> index >= |old(orderbooks)|
      ensures orderbooks == if threw then old(orderbooks) else old(orderbooks)[index := Some(book)]
      ensures received == old(received) + (if threw then 0 else 1)
    {
      if index >= |orderbooks| { return true; }
      ghost var before := set i | 0 <= i < |orderbooks| && orderbooks[i].Some?;
      if orderbooks[index].None? { populated := populated + 1; }
      orderbooks := orderbooks[index := Some(book)];
      received := received + 1;
      assert (set i | 0 <= i < |orderbooks| && orderbooks[i].Some?) == before + {index};
      threw := false;
    }

    /** scan_edge: sound, maximal and complete. The edge found is the first
        gainful path in scan order, sized as large as the cap and the books
        allow; no edge means that no path of any group with this symbol gains. */
    method ScanEdge(index: nat) returns (r: Scan)
      requires Valid()
      ensures r.OutOfRange? <==> index >= |orderbooks|
      ensures r.NoEdge? ==> forall g: nat, k: nat :: !HasEdge(orderbooks, params, index, g, k)
      ensures r.Edge? ==> ValidPath(r.o.path, |orderbooks|)
                          && Sound(orderbooks, params, r.o) && PaysOff(orderbooks, params, r.o)
      ensures r.Edge? ==> exists g: nat, k: nat ::
                && IsFor(params, r.o, g, k) && HasEdge(orderbooks, params, index, g, k)
                && (forall g': nat, k': nat :: g' < g || (g' == g && k' < k) ==>
                      !HasEdge(orderbooks, params, index, g', k'))
    {
      r := FindEdge(index);
      forall g: nat, k: nat
        ensures Candidate(orderbooks, params, index, g, k) <==> HasEdge(orderbooks, params, index, g, k)
      {
        CandidateHasEdge(orderbooks, params, index, g, k);
      }
      hide Candidate, HasEdge, Sound, PaysOff;
      if r.Edge? { SoundPaysOff(orderbooks, params, r.o); }
    }

    /** The loops of it. */
    method FindEdge(index: nat) returns (r: Scan)
      requires Valid()
      ensures r.OutOfRange? <==> index >= |orderbooks|
      ensures r.NoEdge? ==> forall g: nat, k: nat :: !Candidate(orderbooks, params, index, g, k)
      ensures r.Edge? ==> ValidPath(r.o.path, |orderbooks|) && Sound(orderbooks, params, r.o)
      ensures r.Edge? ==> exists g: nat, k: nat ::
                && IsFor(params, r.o, g, k) && Candidate(orderbooks, params, index, g, k)
                && (forall g': nat, k': nat :: g' < g || (g' == g && k' < k) ==>
                      !Candidate(orderbooks, params, index, g', k'))
    {
      if index >= |orderbooks| { return OutOfRange; }
      var g := 0;
      while g < |params.groups|
        invariant 0 <= g <= |params.groups|
        invariant forall g': nat, k': nat :: g' < g ==> !Candidate(orderbooks, params, index, g', k')
      {
        var group := params.groups[g];
        assert ValidGroup(group, |orderbooks|);
        if index in group.symbolIndices {
          var k := 0;
          while k < |group.paths|
            invariant 0 <= k <= |group.paths|
            invariant forall k': nat :: k' < k ==> !Candidate(orderbooks, params, index, g, k')
          {
            assert ValidPath(group.paths[k], |orderbooks|);
            var found, o := EvaluatePath(orderbooks, params, g, group.paths[k]);
            if found {
              assert IsFor(params, o, g, k) && Candidate(orderbooks, params, index, g, k);
              return Edge(o);
            }
            k := k + 1;
          }
        }
        g := g + 1;
      }
      r := NoEdge;
    }
  }

  // ------------------------------------------------------------ opposite directions

  /** Bid at most ask, in the mantissas both sides share. */
  ghost predicate Uncrossed(books: Books, leg: TradeLeg)
    requires leg.index < |books|
  {
    books[leg.index].Some? ==> books[leg.index].value.bidPrice <= books[leg.index].value.askPrice
  }

  /** Converting there and back over an uncrossed book never gains. */
  lemma ThereAndBack(books: Books, leg: TradeLeg)
    requires leg.index < |books| && Tradable(books, leg) && Tradable(books, Triangles.Flip(leg))
          && Uncrossed(books, leg)
    ensures Conversion(books, leg) * Conversion(books, Triangles.Flip(leg)) <= 1.0
  {
    var book := books[leg.index].value;
    var bid, ask := PriceOf(book, false), PriceOf(book, true);
    ScaleLe(book.bidPrice as real, book.askPrice as real, Trading.PowerOfTen(book.priceExponent));
    assert Rate(books, TradeLeg(leg.index, true)) == ask && Rate(books, TradeLeg(leg.index, false)) == bid;
    hide PriceOf, Rate;
    AtMostOne(bid, ask);
  }

  lemma AtMostOne(bid: real, ask: real)
    requires 0.0 < bid <= ask
    ensures bid * (1.0 / ask) <= 1.0 && (1.0 / ask) * bid <= 1.0
  {
    PositiveQuotient(1.0, ask);
    ScaleLe(bid, ask, 1.0 / ask);
    assert ask * (1.0 / ask) == 1.0;
  }

  lemma ProductAtMostOne(x: real, y: real)
    requires 0.0 <= x <= 1.0 && 0.0 <= y <= 1.0
    ensures 0.0 <= x * y <= 1.0
  {
    ProductSign(x, y);
    ProductSign(1.0 - x, y);
    assert (1.0 - x) * y == y - x * y;
  }

  /** The value of a path in closed form. */
  lemma FlowProduct(books: Books, path: TradePath, fee: real)
    requires ValidPath(path, |books|) && Available(books, path, LEGS) && fee > 0.0
    ensures Flow(books, path, fee, LEGS)
         == Conversion(books, path[0]) * Conversion(books, path[1]) * Conversion(books, path[2]) * (fee * fee * fee)
  {
    hide Conversion, Tradable;
    Regroup(Conversion(books, path[0]), Conversion(books, path[1]), Conversion(books, path[2]), fee,
            Flow(books, path, fee, 1), Flow(books, path, fee, 2), Flow(books, path, fee, 3));
  }

  lemma Regroup(c0: real, c1: real, c2: real, fee: real, f1: real, f2: real, f3: real)
    requires f1 == 1.0 * c0 * fee && f2 == f1 * c1 * fee && f3 == f2 * c2 * fee
    ensures f3 == c0 * c1 * c2 * (fee * fee * fee)
  {}

  lemma PairUp(a0: real, a1: real, a2: real, b0: real, b1: real, b2: real, f: real, x: real, y: real)
    requires x == a0 * a1 * a2 * f && y == b2 * b1 * b0 * f
    requires 0.0 <= a0 * b0 <= 1.0 && 0.0 <= a1 * b1 <= 1.0 && 0.0 <= a2 * b2 <= 1.0 && 0.0 <= f <= 1.0
    ensures x * y <= 1.0
  {
    var p0, p1, p2 := a0 * b0, a1 * b1, a2 * b2;
    ProductAtMostOne(p0, p1);
    ProductAtMostOne(p0 * p1, p2);
    ProductAtMostOne(f, f);
    ProductAtMostOne(p0 * p1 * p2, f * f);
    Rearranged(a0, a1, a2, b0, b1, b2, f, x, y, p0, p1, p2);
  }

  lemma Rearranged(a0: real, a1: real, a2: real, b0: real, b1: real, b2: real, f: real, x: real, y: real,
                   p0: real, p1: real, p2: real)
    requires x == a0 * a1 * a2 * f && y == b2 * b1 * b0 * f && p0 == a0 * b0 && p1 == a1 * b1 && p2 == a2 * b2
    ensures x * y == p0 * p1 * p2 * (f * f)
  {
    var a, b := a0 * a1 * a2, b2 * b1 * b0;
    assert a * b == p0 * p1 * p2;
    assert x * y == (a * b) * (f * f);
  }

  lemma LegThereAndBack(books: Books, leg: TradeLeg)
    requires leg.index < |books| && Tradable(books, leg) && Tradable(books, Triangles.Flip(leg))
          && Uncrossed(books, leg)
    ensures 0.0 <= Conversion(books, leg) * Conversion(books, Triangles.Flip(leg)) <= 1.0
  {
    ThereAndBack(books, leg);
    Positive(Conversion(books, leg), Conversion(books, Triangles.Flip(leg)));
  }

  /** With every book uncrossed, a round trip and its reverse multiply to at
      most one, so at most one direction is worth more than it costs. */
  lemma OppositePathsMultiplyToAtMostOne(books: Books, path: TradePath, fee: real)
    requires ValidPath(path, |books|) && 0.0 < fee <= 1.0
    requires Available(books, path, LEGS) && Available(books, Triangles.Reversed(path), LEGS)
    requires forall i :: 0 <= i < LEGS ==> Uncrossed(books, path[i])
    ensures Flow(books, path, fee, LEGS) * Flow(books, Triangles.Reversed(path), fee, LEGS) <= 1.0
  {
    hide Conversion, Flow, Tradable;
    var back := Triangles.Reversed(path);
    FlowProduct(books, path, fee);
    FlowProduct(books, back, fee);
    assert Tradable(books, back[0]) && Tradable(books, back[1]) && Tradable(books, back[2]);
    LegThereAndBack(books, path[0]);
    LegThereAndBack(books, path[1]);
    LegThereAndBack(books, path[2]);
    ProductAtMostOne(fee, fee);
    ProductAtMostOne(fee * fee, fee);
    PairUp(Conversion(books, path[0]), Conversion(books, path[1]), Conversion(books, path[2]),
           Conversion(books, back[2]), Conversion(books, back[1]), Conversion(books, back[0]), fee * fee * fee,
           Flow(books, path, fee, LEGS), Flow(books, back, fee, LEGS));
  }

  /** So the scanner can never find an edge in both directions of a group. */
  lemma NeverBothDirections(books: Books, p: Params, path: TradePath)
    requires ValidPath(path, |books|) && ValidParams(p, |books|)
    requires forall i :: 0 <= i < LEGS ==> Uncrossed(books, path[i])
    ensures Qualifies(books, path, p) ==> !Qualifies(books, Triangles.Reversed(path), p)
  {
    hide Flow, Tradable;
    var back := Triangles.Reversed(path);
    if Qualifies(books, path, p) && Available(books, back, LEGS) {
      OppositePathsMultiplyToAtMostOne(books, path, p.fee);
      OtherAtMostOne(Flow(books, path, p.fee, LEGS), Flow(books, back, p.fee, LEGS));
    }
  }

  /** Both paths of a group that validate_arbitrage built never qualify together. */
  lemma NeverBothPathsOfAGroup(books: Books, p: Params, pairs: seq<Triangles.Pair>, ix: seq<nat>, group: TradeGroup)
    requires ValidParams(p, |books|) && Triangles.SoundGroup(pairs, ix, group) && ValidGroup(group, |books|)
    requires forall i :: 0 <= i < LEGS ==> Uncrossed(books, group.paths[0][i])
    ensures !(Qualifies(books, group.paths[0], p) && Qualifies(books, group.paths[1], p))
  {
    NeverBothDirections(books, p, group.paths[0]);
  }

  lemma OtherAtMostOne(x: real, y: real)
    requires x > 1.0 && y > 0.0 && x * y <= 1.0
    ensures y <= 1.0
  {
    ScaleLe(1.0, x, y);
  }
}
