/** From a depth message to a cycle: decode_partial_depth of src/orderbook.cpp,
    ingest() of src/receiver.cpp and the callback of src/main.cpp. JSON and the
    stream name are outside; a message arrives as its number texts. */
module MarketFeed {
  import opened Basics
  import opened Trading
  import opened Decimals
  import opened OrderBooks
  import opened ExecutorObject
  import Execution
  import ExecutorContract

  // ------------------------------------------------------------ the numbers of a book

  /** Powers of ten, whichever way the exponent points. */
  lemma {:induction false} PowersAgree(n: int)
    requires n >= 0
    ensures PowerOfTen(n) == Pow10(n) as real
    ensures PowerOfTen(-n) * Pow10(n) as real == 1.0
    decreases n
  {
    if n > 0 {
      PowersAgree(n - 1);
      var p, q := Pow10(n - 1), PowerOfTen(-(n - 1));
      assert PowerOfTen(-n) == q / 10.0 && Pow10(n) == 10 * p;
      TenthTimesTen(q, p as real);
    }
  }

  lemma TenthTimesTen(q: real, p: real)
    ensures q / 10.0 * (10.0 * p) == q * p
  {}

  lemma ScaledDown(mantissa: int, scale: int)
    requires scale >= 0
    ensures mantissa as real * PowerOfTen(-scale) == Value(Decimal(mantissa, scale))
  {
    PowersAgree(scale);
    Inverse(mantissa as real, PowerOfTen(-scale), Pow10(scale) as real);
  }

  lemma Inverse(x: real, q: real, p: real)
    requires p > 0.0 && q * p == 1.0
    ensures x * q == x / p
  {
    assert x / p * p == x;
    assert x * q == x / p * p * q;
    assert x / p * p * q == x / p * (p * q);
  }

  /** A pair of texts as decimal_pair aligns them. */
  lemma AlignedTexts(bid: string, ask: string, p: Pair)
    requires Aligned(Denoted(bid), Denoted(ask), p)
    ensures p.bid as real * PowerOfTen(p.exponent) == TextValue(bid)
    ensures p.ask as real * PowerOfTen(p.exponent) == TextValue(ask)
  {
    hide PowerOfTen, Pow10, Numeral, Digits, FractionLength, Value;
    AlignedIsExact(Denoted(bid), Denoted(ask), p);
    ScaledDown(p.bid, -p.exponent);
    ScaledDown(p.ask, -p.exponent);
  }

  // ------------------------------------------------------------ decode_partial_depth

  datatype Level = Level(price: string, qty: string)

  datatype Error = BadUpdateId | BadSide | BadNumber(error: Decimals.Error)

  const MAX_LEVELS := 20

  ghost predicate GoodSide(side: seq<Level>) {
    1 <= |side| <= 20 && forall i :: 0 <= i < |side| ==> Accepted(side[i].price) && Accepted(side[i].qty)
  }

  /** Both texts can be brought to the longer one's number of decimals in int64. */
  ghost predicate Alignable(bid: string, ask: string) {
    && Accepted(bid) && Accepted(ask)
    && var scale := if FractionLength(bid) < FractionLength(ask) then FractionLength(ask) else FractionLength(bid);
       && Numeral(Digits(bid)) * Pow10(scale - FractionLength(bid)) <= 0x7FFF_FFFF_FFFF_FFFF
       && Numeral(Digits(ask)) * Pow10(scale - FractionLength(ask)) <= 0x7FFF_FFFF_FFFF_FFFF
  }

  method ReadSide(side: seq<Level>) returns (fault: Option<Error>)
    ensures fault.None? <==> GoodSide(side)
  {
    hide Accepted, WellFormed, Numeral, Digits, FractionLength, CleanUpTo;
    if side == [] || |side| > MAX_LEVELS { return Some(BadSide); }
    for i := 0 to |side|
      invariant forall k :: 0 <= k < i ==> Accepted(side[k].price) && Accepted(side[k].qty)
    {
      var price := ParseText(side[i].price);
      if price.Err? { return Some(BadNumber(price.error)); }
      var qty := ParseText(side[i].qty);
      if qty.Err? { return Some(BadNumber(qty.error)); }
    }
    fault := None;
  }

  method ParseText(text: string) returns (r: Result<Decimal, Decimals.Error>)
    ensures r.Ok? <==> Accepted(text)
    ensures r.Ok? ==> r.value == Denoted(text)
  {
    AcceptedTexts(text);
    hide WellFormed, Numeral, Digits, FractionLength, CleanUpTo;
    r := Parse(text);
  }

  /** decimal_pair(), with what its numbers are worth. */
  method AlignTexts(bid: string, ask: string) returns (r: Result<Pair, Decimals.Error>)
    ensures r.Ok? <==> Alignable(bid, ask)
    ensures r.Ok? ==> r.value.bid as real * PowerOfTen(r.value.exponent) == TextValue(bid)
                      && r.value.ask as real * PowerOfTen(r.value.exponent) == TextValue(ask)
  {
    r := ParsePair(bid, ask);
    hide WellFormed, Numeral, Digits, FractionLength, PowerOfTen, Pow10, Aligned, TextValue;
    if r.Ok? { AlignedTexts(bid, ask, r.value); }
  }

  /** The book is accepted exactly when every level's numbers are decimals and the
      best ones align; its prices and quantities are the numbers of the texts. */
  method DecodeDepth(updateId: int, bids: seq<Level>, asks: seq<Level>, receivedNs: int, sequence: nat)
    returns (r: Result<Book, Error>)
    ensures r.Ok? <==>
              && 0 <= updateId <= 0x7FFF_FFFF_FFFF_FFFF && GoodSide(bids) && GoodSide(asks)
              && Alignable(bids[0].price, asks[0].price) && Alignable(bids[0].qty, asks[0].qty)
    ensures r.Ok? ==> Shows(r.value, bids[0], asks[0])
    ensures r.Ok? ==> r.value.updateId == updateId && r.value.receivedNs == receivedNs
                      && r.value.receiveSequence == sequence
  {
    hide Alignable, Accepted, TextValue, PowerOfTen;
    if updateId < 0 || updateId > INT64_MAX { return Err(BadUpdateId); }
    var fault := ReadSide(bids);
    if fault.Some? { return Err(fault.value); }
    fault := ReadSide(asks);
    if fault.Some? { return Err(fault.value); }
    var prices := AlignTexts(bids[0].price, asks[0].price);
    if prices.Err? { return Err(BadNumber(prices.error)); }
    var quantities := AlignTexts(bids[0].qty, asks[0].qty);
    if quantities.Err? { return Err(BadNumber(quantities.error)); }
    r := Ok(Book(prices.value.bid, quantities.value.bid, prices.value.ask, quantities.value.ask,
                 prices.value.exponent, quantities.value.exponent, updateId, receivedNs, sequence));
  }

  /** Selling meets the best bid, buying the best ask, in price and in quantity. */
  ghost predicate Shows(book: Book, bid: Level, ask: Level) {
    && PriceOf(book, false) == TextValue(bid.price) && PriceOf(book, true) == TextValue(ask.price)
    && QuantityOf(book, false) == TextValue(bid.qty) && QuantityOf(book, true) == TextValue(ask.qty)
  }

  /** The number of a text, digit by digit. */
  lemma FiftyThousand()
    ensures TextValue("50000.12") == 50000.12
  {
    assert "50000" + "." + "12" == "50000.12";
    ValueAroundTheDot("50000", "12");
    FiveDigits("50000");
    TwoDigits("12");
    assert Pow10(2) == 100;
    hide Numeral, TextValue, Pow10;
  }

  lemma WholeNumber()
    ensures TextValue("36789") == 36789.0
  {
    ValueAroundTheDot("36789", "");
    FiveDigits("36789");
  }

  lemma TwoDigits(t: string)
    requires AllDigits(t) && |t| == 2
    ensures Numeral(t) == 10 * DigitOf(t[0]) + DigitOf(t[1])
  {
    assert t[..1][..0] == "";
    assert Numeral(t[..1]) == DigitOf(t[0]);
  }

  lemma FiveDigits(t: string)
    requires AllDigits(t) && |t| == 5
    ensures Numeral(t) == 10000 * DigitOf(t[0]) + 1000 * DigitOf(t[1]) + 100 * DigitOf(t[2]) + 10 * DigitOf(t[3])
                          + DigitOf(t[4])
  {
    TwoDigits(t[..2]);
    assert t[..3][..2] == t[..2] && t[..4][..3] == t[..3];
    assert Numeral(t[..3]) == 10 * Numeral(t[..2]) + DigitOf(t[2]);
    assert Numeral(t[..4]) == 10 * Numeral(t[..3]) + DigitOf(t[3]);
  }

  // ------------------------------------------------------------ ingest()

  /** Scanner and executor read the same configuration. */
  ghost predicate Wired(setup: Execution.Setup, p: Params) {
    p.groups == setup.groups && p.maxUsdt == setup.maxArbitrage && p.fee == 1.0 - setup.commission
  }

  /** The executor is free to take a candidate. */
  ghost predicate Ready(setup: Execution.Setup, s: Execution.Exec) {
    s.state.Idle? && !s.stopping && (setup.maxCycles == 0 || s.tally.submittedCycles < setup.maxCycles)
  }

  /** Whatever the scanner reports, a free executor takes. */
  lemma EdgesAreTaken(setup: Execution.Setup, s: Execution.Exec, books: Books, p: Params, o: Opportunity, g: nat,
                      k: nat)
    requires Wired(setup, p) && IsFor(p, o, g, k) && ValidParams(p, |books|)
    requires OrderBooks.ValidPath(o.path, |books|) && OrderBooks.Sound(books, p, o)
    ensures ExecutorContract.Takes(setup, s, o) <==> Ready(setup, s)
  {
    SoundEdge(books, p, o);
    hide OrderBooks.Sound, ValidParams;
  }

  lemma SoundEdge(books: Books, p: Params, o: Opportunity)
    requires p.fee > 0.0 && OrderBooks.ValidPath(o.path, |books|) && OrderBooks.Sound(books, p, o)
    ensures 0.0 < o.inputUsdt <= p.maxUsdt && |o.prices| == LEGS
  {
    hide Flow, UnitQuantity, Rate;
  }

  ghost predicate GoodMessage(updateId: int, bids: seq<Level>, asks: seq<Level>) {
    && 0 <= updateId <= 0x7FFF_FFFF_FFFF_FFFF && GoodSide(bids) && GoodSide(asks)
    && Alignable(bids[0].price, asks[0].price) && Alignable(bids[0].qty, asks[0].qty)
  }

  /** One message: a bad one, or one for an unknown symbol, changes nothing; a
      good one becomes its symbol's book, and exactly if some path with that
      symbol then has an edge and the executor is free, a cycle begins, for the
      best input of such a path. */
  method Ingest(manager: OrderBookManager, executor: Executor, index: Option<nat>, updateId: int, bids: seq<Level>,
                asks: seq<Level>, receivedNs: int, sequence: nat, wall: int)
    returns (taken: bool)
    requires manager.Valid() && executor.Valid() && Wired(executor.setup, manager.params)
    requires index.Some? ==> index.value < |manager.orderbooks|
    modifies manager, executor
    ensures manager.Valid() && executor.Valid()
    ensures var good := index.Some? && GoodMessage(updateId, bids, asks);
            && (!good ==>
                  !taken && executor.View() == old(executor.View()) && manager.orderbooks == old(manager.orderbooks))
            && (good ==>
                  && |manager.orderbooks| == |old(manager.orderbooks)| && manager.orderbooks[index.value].Some?
                  && manager.orderbooks == old(manager.orderbooks)[index.value := manager.orderbooks[index.value]]
                  && Shows(manager.orderbooks[index.value].value, bids[0], asks[0])
                  && (taken <==> Ready(executor.setup, old(executor.View()))
                                 && EdgeThrough(manager.orderbooks, manager.params, index.value)))
    ensures taken ==>
              && executor.state.Validating? && executor.cycle.budget == executor.cycle.opportunity.inputUsdt
              && OrderBooks.ValidPath(executor.cycle.opportunity.path, |manager.orderbooks|)
              && PaysOff(manager.orderbooks, manager.params, executor.cycle.opportunity)
    ensures !taken ==> executor.state == old(executor.state) && executor.sent == old(executor.sent)
    ensures index.Some? && !EdgeThrough(manager.orderbooks, manager.params, index.value) ==>
              executor.View() == old(executor.View())
  {
    hide GoodSide, Alignable, Shows, OrderBooks.Sound, PaysOff, Wired, Gainful;
    if index.None? { return false; }
    var book := DecodeDepth(updateId, bids, asks, receivedNs, sequence);
    if book.Err? { return false; }
    var threw := manager.Update(index.value, book.value);
    var scan := manager.ScanEdge(index.value);
    if !scan.Edge? { return false; }
    ghost var g: nat, k: nat :| IsFor(manager.params, scan.o, g, k)
                                && HasEdge(manager.orderbooks, manager.params, index.value, g, k);
    EdgesAreTaken(executor.setup, executor.View(), manager.orderbooks, manager.params, scan.o, g, k);
    SoundEdge(manager.orderbooks, manager.params, scan.o);
    taken := executor.TryStart(scan.o, wall);
  }

  ghost predicate EdgeThrough(books: Books, p: Params, index: nat)
    requires ValidParams(p, |books|)
  {
    exists g: nat, k: nat :: HasEdge(books, p, index, g, k)
  }
}
