/** validate_arbitrage of src/orderbook.cpp: from configured symbol triples and
    exchange metadata to the two USDT round trips of every group. */
module Triangles {
  import opened Basics
  import opened Trading

  datatype Pair = Pair(base: Asset, quote: Asset)
  datatype Entry = Entry(symbol: string, trading: bool, spotAllowed: bool, pair: Pair)

  datatype Error = SymbolUnavailable(symbol: string) | InvalidAssets(symbol: string) | UnknownSymbol(symbol: string)
                 | NotAClosedLoop | CannotConstructPath | PathNotClosed | NotTwoUsdtMarkets

  predicate Touches(p: Pair, a: Asset) { a == p.base || a == p.quote }

  function Ends(p: Pair): set<Asset> { {p.base, p.quote} }

  /** Asset a leg consumes and asset it yields. */
  function In(p: Pair, buy: bool): Asset { if buy then p.quote else p.base }
  function Out(p: Pair, buy: bool): Asset { if buy then p.base else p.quote }

  function Other(p: Pair, a: Asset): Asset { if a == p.quote then p.base else p.quote }

  // ------------------------------------------------------------ three markets

  /** Three symbol positions with proper, distinct-ended markets. */
  ghost predicate ThreeMarkets(pairs: seq<Pair>, ix: seq<nat>) {
    && |ix| == LEGS
    && (forall k :: 0 <= k < LEGS ==> ix[k] < |pairs| && pairs[ix[k]].base != pairs[ix[k]].quote)
    && ix[0] != ix[1] && ix[0] != ix[2] && ix[1] != ix[2]
  }

  function P(pairs: seq<Pair>, ix: seq<nat>, k: nat): Pair
    requires |ix| == LEGS && k < LEGS && forall i :: 0 <= i < LEGS ==> ix[i] < |pairs|
  {
    pairs[ix[k]]
  }

  function Assets(pairs: seq<Pair>, ix: seq<nat>): set<Asset>
    requires ThreeMarkets(pairs, ix)
  {
    Ends(P(pairs, ix, 0)) + Ends(P(pairs, ix, 1)) + Ends(P(pairs, ix, 2))
  }

  /** A closed loop of three assets: any two of the markets share exactly one
      asset, and the three shared assets differ. */
  ghost predicate Triangle(pairs: seq<Pair>, ix: seq<nat>)
    requires ThreeMarkets(pairs, ix)
  {
    exists x, y, z :: LoopOver(pairs, ix, x, y, z)
  }

  ghost predicate Joins(p: Pair, x: Asset, y: Asset) {
    (p.base == x && p.quote == y) || (p.base == y && p.quote == x)
  }

  /** Market 0 joins x and y, market 1 joins y and z, market 2 joins z and x. */
  ghost predicate LoopOver(pairs: seq<Pair>, ix: seq<nat>, x: Asset, y: Asset, z: Asset)
    requires ThreeMarkets(pairs, ix)
  {
    && x != y && y != z && z != x
    && Joins(P(pairs, ix, 0), x, y) && Joins(P(pairs, ix, 1), y, z) && Joins(P(pairs, ix, 2), z, x)
  }

  /** How often an asset occurs among the first k market ends. */
  function Degree(pairs: seq<Pair>, ix: seq<nat>, k: nat, a: Asset): nat
    requires ThreeMarkets(pairs, ix) && k <= LEGS
  {
    if k == 0 then 0
    else Degree(pairs, ix, k - 1, a)
         + (if P(pairs, ix, k - 1).base == a then 1 else 0) + (if P(pairs, ix, k - 1).quote == a then 1 else 0)
  }

  function Bump(degree: map<Asset, nat>, a: Asset): map<Asset, nat> {
    degree[a := (if a in degree then degree[a] else 0) + 1]
  }

  /** The degree check: three assets, each met twice. */
  method ClosedLoop(pairs: seq<Pair>, ix: seq<nat>) returns (closed: bool)
    requires ThreeMarkets(pairs, ix)
    ensures closed <==> Triangle(pairs, ix)
  {
    var degree: map<Asset, nat> := map[];
    var k := 0;
    while k < LEGS
      invariant 0 <= k <= LEGS
      invariant forall a ::
                  && (a in degree <==> Degree(pairs, ix, k, a) > 0)
                  && (a in degree ==> degree[a] == Degree(pairs, ix, k, a))
    {
      degree := Bump(degree, P(pairs, ix, k).base);
      degree := Bump(degree, P(pairs, ix, k).quote);
      k := k + 1;
    }
    forall a ensures a in degree <==> a in Assets(pairs, ix) { DegreeByEnds(pairs, ix, a); }
    assert degree.Keys == Assets(pairs, ix);
    closed := |degree| == 3 && forall a :: a in degree ==> degree[a] == 2;
    assert |degree| == |degree.Keys|;
    hide Degree, Assets, Triangle;
    if closed {
      DegreesForceTriangle(pairs, ix);
    }
    if Triangle(pairs, ix) {
      TriangleHasDegrees(pairs, ix);
      forall a | a in degree ensures degree[a] == 2 { assert a in Assets(pairs, ix); }
    }
  }

  lemma TriangleHasDegrees(pairs: seq<Pair>, ix: seq<nat>)
    requires ThreeMarkets(pairs, ix) && Triangle(pairs, ix)
    ensures |Assets(pairs, ix)| == 3
    ensures forall a :: a in Assets(pairs, ix) ==> Degree(pairs, ix, LEGS, a) == 2
  {
    var x, y, z :| LoopOver(pairs, ix, x, y, z);
    EndsOf(P(pairs, ix, 0), x, y);
    EndsOf(P(pairs, ix, 1), y, z);
    EndsOf(P(pairs, ix, 2), z, x);
    assert Assets(pairs, ix) == {x, y, z};
    hide Joins, Ends, P, Degree;
    forall a | a in Assets(pairs, ix) ensures Degree(pairs, ix, LEGS, a) == 2 {
      DegreeByEnds(pairs, ix, a);
    }
  }

  lemma EndsOf(p: Pair, x: Asset, y: Asset)
    requires Joins(p, x, y)
    ensures Ends(p) == {x, y}
  {}

  lemma DegreeByEnds(pairs: seq<Pair>, ix: seq<nat>, a: Asset)
    requires ThreeMarkets(pairs, ix)
    ensures Degree(pairs, ix, LEGS, a)
         == (if a in Ends(P(pairs, ix, 0)) then 1 else 0) + (if a in Ends(P(pairs, ix, 1)) then 1 else 0)
          + (if a in Ends(P(pairs, ix, 2)) then 1 else 0)
  {
    assert Degree(pairs, ix, 1, a) == if a in Ends(P(pairs, ix, 0)) then 1 else 0;
    assert Degree(pairs, ix, 2, a) == Degree(pairs, ix, 1, a) + if a in Ends(P(pairs, ix, 1)) then 1 else 0;
    assert Degree(pairs, ix, 3, a) == Degree(pairs, ix, 2, a) + if a in Ends(P(pairs, ix, 2)) then 1 else 0;
  }

  /** Market 0 has ends x and y. Each occurs once more, and not in the same
      market (that would leave the remaining market two assets of degree one);
      so one of the other markets continues from y and the last closes at x. */
  lemma DegreesForceTriangle(pairs: seq<Pair>, ix: seq<nat>)
    requires ThreeMarkets(pairs, ix) && |Assets(pairs, ix)| == 3
    requires forall a :: a in Assets(pairs, ix) ==> Degree(pairs, ix, LEGS, a) == 2
    ensures Triangle(pairs, ix)
  {
    var p0, p1, p2 := P(pairs, ix, 0), P(pairs, ix, 1), P(pairs, ix, 2);
    forall a | a in Assets(pairs, ix)
      ensures (if Touches(p0, a) then 1 else 0) + (if Touches(p1, a) then 1 else 0)
            + (if Touches(p2, a) then 1 else 0) == 2
    {
      DegreeByEnds(pairs, ix, a);
    }
    assert p1.base in Assets(pairs, ix) && p1.quote in Assets(pairs, ix);
    assert p2.base in Assets(pairs, ix) && p2.quote in Assets(pairs, ix);
    assert p0.base in Assets(pairs, ix) && p0.quote in Assets(pairs, ix);
    // y: the end of market 0 met again in market 1
    var y := if Touches(p1, p0.base) then p0.base else p0.quote;
    var x, z := Other(p0, y), Other(p1, y);
    assert LoopOver(pairs, ix, x, y, z);
  }

  // ------------------------------------------------------------ the walk

  ghost predicate Continues(pairs: seq<Pair>, path: TradePath) {
    && |path| == LEGS && (forall i :: 0 <= i < LEGS ==> path[i].index < |pairs|)
    && Out(pairs[path[0].index], path[0].buy) == In(pairs[path[1].index], path[1].buy)
    && Out(pairs[path[1].index], path[1].buy) == In(pairs[path[2].index], path[2].buy)
  }

  /** A USDT round trip that trades each of the three markets once. */
  ghost predicate RoundTrip(pairs: seq<Pair>, ix: seq<nat>, path: TradePath)
  {
    && Continues(pairs, path)
    && In(pairs[path[0].index], path[0].buy) == USDT
    && Out(pairs[path[2].index], path[2].buy) == USDT
    && (forall i :: 0 <= i < LEGS ==> path[i].index in ix)
    && path[0].index != path[1].index && path[1].index != path[2].index && path[0].index != path[2].index
  }

  function Flip(leg: TradeLeg): TradeLeg { TradeLeg(leg.index, !leg.buy) }

  function Reversed(path: TradePath): TradePath
    requires |path| == LEGS
  {
    [Flip(path[2]), Flip(path[1]), Flip(path[0])]
  }

  /** The next market: the one of the two left that touches the asset in hand. */
  function Second(pairs: seq<Pair>, ix: seq<nat>, first: nat): nat
    requires ThreeMarkets(pairs, ix) && first < LEGS
  {
    var a := Other(P(pairs, ix, first), USDT);
    if Touches(P(pairs, ix, (first + 1) % 3), a) then (first + 1) % 3 else (first + 2) % 3
  }

  function PathFrom(pairs: seq<Pair>, ix: seq<nat>, first: nat): TradePath
    requires ThreeMarkets(pairs, ix) && first < LEGS
  {
    var second := Second(pairs, ix, first);
    var third := 3 - first - second;
    var a := Other(P(pairs, ix, first), USDT);
    var b := Other(P(pairs, ix, second), a);
    [TradeLeg(ix[first], P(pairs, ix, first).quote == USDT),
     TradeLeg(ix[second], P(pairs, ix, second).quote == a),
     TradeLeg(ix[third], P(pairs, ix, third).quote == b)]
  }

  /** Seen from a market with a USDT end, the three markets are
      USDT - v, v - w, w - USDT. */
  lemma Roles(pairs: seq<Pair>, ix: seq<nat>, first: nat) returns (second: nat, third: nat, v: Asset, w: Asset)
    requires ThreeMarkets(pairs, ix) && Triangle(pairs, ix) && first < LEGS && Touches(P(pairs, ix, first), USDT)
    ensures second < LEGS && third < LEGS && first != second && second != third && third == 3 - first - second
    ensures v != USDT && w != USDT && v != w
    ensures Joins(P(pairs, ix, first), USDT, v) && Joins(P(pairs, ix, second), v, w)
         && Joins(P(pairs, ix, third), w, USDT)
  {
    var x, y, z :| LoopOver(pairs, ix, x, y, z);
    if first == 0 {
      second, v, w := if USDT == x then 1 else 2, if USDT == x then y else x, z;
    } else if first == 1 {
      second, v, w := if USDT == y then 2 else 0, if USDT == y then z else y, x;
    } else {
      second, v, w := if USDT == z then 0 else 1, if USDT == z then x else z, y;
    }
    third := 3 - first - second;
  }

  lemma JoinsOther(p: Pair, x: Asset, y: Asset)
    requires Joins(p, x, y) && x != y
    ensures Other(p, x) == y
    ensures forall a :: Touches(p, a) <==> a == x || a == y
  {}

  lemma RolesGiveThePath(pairs: seq<Pair>, ix: seq<nat>, first: nat, second: nat, third: nat, v: Asset, w: Asset)
    requires ThreeMarkets(pairs, ix) && first < LEGS && second < LEGS && third == 3 - first - second && third < LEGS
    requires first != second && second != third && first != third
    requires v != USDT && w != USDT && v != w
    requires Joins(P(pairs, ix, first), USDT, v) && Joins(P(pairs, ix, second), v, w)
          && Joins(P(pairs, ix, third), w, USDT)
    ensures second == Second(pairs, ix, first)
    ensures PathFrom(pairs, ix, first)
         == [TradeLeg(ix[first], P(pairs, ix, first).quote == USDT),
             TradeLeg(ix[second], P(pairs, ix, second).quote == v),
             TradeLeg(ix[third], P(pairs, ix, third).quote == w)]
  {
    JoinsOther(P(pairs, ix, first), USDT, v);
    JoinsOther(P(pairs, ix, second), v, w);
    JoinsOther(P(pairs, ix, third), w, USDT);
    hide Joins, Other, Touches;
  }

  lemma PathIsRoundTrip(pairs: seq<Pair>, ix: seq<nat>, first: nat)
    requires ThreeMarkets(pairs, ix) && Triangle(pairs, ix) && first < LEGS && Touches(P(pairs, ix, first), USDT)
    ensures RoundTrip(pairs, ix, PathFrom(pairs, ix, first))
  {
    var second, third, v, w := Roles(pairs, ix, first);
    RolesGiveThePath(pairs, ix, first, second, third, v, w);
    hide PathFrom, Triangle;
  }

  /** The candidate loop: the first unused market that touches the asset in hand. */
  method NextMarket(pairs: seq<Pair>, ix: seq<nat>, used: seq<bool>, current: Asset)
    returns (found: bool, candidate: nat)
    requires ThreeMarkets(pairs, ix) && |used| == LEGS
    ensures found ==> candidate < LEGS && !used[candidate] && Touches(P(pairs, ix, candidate), current)
    ensures found ==> forall k :: 0 <= k < candidate ==> used[k] || !Touches(P(pairs, ix, k), current)
    ensures !found ==> forall k :: 0 <= k < LEGS ==> used[k] || !Touches(P(pairs, ix, k), current)
  {
    candidate := 0;
    while candidate < LEGS
      invariant 0 <= candidate <= LEGS
      invariant forall k :: 0 <= k < candidate ==> used[k] || !Touches(P(pairs, ix, k), current)
    {
      if !used[candidate] && Touches(P(pairs, ix, candidate), current) { return true, candidate; }
      candidate := candidate + 1;
    }
    found := false;
  }

  /** The path of PathFrom, and why at each step exactly one unused market
      touches the asset in hand. */
  lemma WalkPlan(pairs: seq<Pair>, ix: seq<nat>, first: nat) returns (second: nat, third: nat, v: Asset, w: Asset)
    requires ThreeMarkets(pairs, ix) && Triangle(pairs, ix) && first < LEGS && Touches(P(pairs, ix, first), USDT)
    ensures second < LEGS && third < LEGS && first != second && second != third && third == 3 - first - second
    ensures Other(P(pairs, ix, first), USDT) == v
    ensures Touches(P(pairs, ix, second), v) && !Touches(P(pairs, ix, third), v) && Other(P(pairs, ix, second), v) == w
    ensures Touches(P(pairs, ix, third), w) && Other(P(pairs, ix, third), w) == USDT
    ensures PathFrom(pairs, ix, first)
         == [TradeLeg(ix[first], P(pairs, ix, first).quote == USDT),
             TradeLeg(ix[second], P(pairs, ix, second).quote == v),
             TradeLeg(ix[third], P(pairs, ix, third).quote == w)]
  {
    hide Triangle, PathFrom;
    second, third, v, w := Roles(pairs, ix, first);
    RolesGiveThePath(pairs, ix, first, second, third, v, w);
    JoinsOther(P(pairs, ix, first), USDT, v);
    JoinsOther(P(pairs, ix, second), v, w);
    JoinsOther(P(pairs, ix, third), w, USDT);
  }

  /** The greedy search for the path that starts with market first. */
  method Walk(pairs: seq<Pair>, ix: seq<nat>, first: nat) returns (r: Result<TradePath, Error>)
    requires ThreeMarkets(pairs, ix) && Triangle(pairs, ix) && first < LEGS && Touches(P(pairs, ix, first), USDT)
    ensures r == Ok(PathFrom(pairs, ix, first))
  {
    hide Triangle, PathFrom, Touches, Other, P;
    ghost var second, third, v, w := WalkPlan(pairs, ix, first);
    var firstBuy := P(pairs, ix, first).quote == USDT;
    var path := [TradeLeg(ix[first], firstBuy), TradeLeg(0, false), TradeLeg(0, false)];
    var used := [false, false, false][first := true];
    var current := Other(P(pairs, ix, first), USDT);
    var leg := 1;
    while leg < LEGS
      invariant 1 <= leg <= LEGS && |path| == LEGS && |used| == LEGS
      invariant path[0] == TradeLeg(ix[first], firstBuy)
      invariant leg > 1 ==> path[1] == TradeLeg(ix[second], P(pairs, ix, second).quote == v)
      invariant leg > 2 ==> path[2] == TradeLeg(ix[third], P(pairs, ix, third).quote == w)
      invariant used[first] && used[second] == (leg > 1) && used[third] == (leg > 2)
      invariant current == if leg == 1 then v else if leg == 2 then w else USDT
    {
      ghost var target := if leg == 1 then second else third;
      var found, candidate := NextMarket(pairs, ix, used, current);
      assert !used[target] && Touches(P(pairs, ix, target), current);
      assert candidate == target;
      if !found { return Err(CannotConstructPath); }
      path := path[leg := TradeLeg(ix[candidate], current == P(pairs, ix, candidate).quote)];
      current := Other(P(pairs, ix, candidate), current);
      used := used[candidate := true];
      leg := leg + 1;
    }
    if current != USDT { return Err(PathNotClosed); }
    assert path == [path[0], path[1], path[2]];
    r := Ok(path);
  }

  /** The first-conversion candidates among the first k markets. */
  function PathsBefore(pairs: seq<Pair>, ix: seq<nat>, k: nat): seq<TradePath>
    requires ThreeMarkets(pairs, ix) && k <= LEGS
  {
    if k == 0 then []
    else PathsBefore(pairs, ix, k - 1)
         + (if Touches(P(pairs, ix, k - 1), USDT) then [PathFrom(pairs, ix, k - 1)] else [])
  }

  ghost predicate Loops(pairs: seq<Pair>, ix: seq<nat>) {
    ThreeMarkets(pairs, ix) && Triangle(pairs, ix) && USDT in Assets(pairs, ix)
  }

  /** The group is a pair of opposite USDT round trips over the triple's markets. */
  ghost predicate SoundGroup(pairs: seq<Pair>, ix: seq<nat>, group: TradeGroup) {
    && group.symbolIndices == ix && |group.paths| == 2
    && RoundTrip(pairs, ix, group.paths[0]) && RoundTrip(pairs, ix, group.paths[1])
    && group.paths[1] == Reversed(group.paths[0])
  }

  /** The first path starts with the earlier of the two USDT markets. */
  ghost predicate InOrder(ix: seq<nat>, paths: seq<TradePath>) {
    && |ix| == LEGS && |paths| == 2 && |paths[0]| == LEGS && |paths[1]| == LEGS
    && exists f, g :: 0 <= f < g < LEGS && paths[0][0].index == ix[f] && paths[1][0].index == ix[g]
  }

  /** One configured triple, from degree check to the pair of paths. */
  method BuildGroup(pairs: seq<Pair>, ix: seq<nat>) returns (r: Result<TradeGroup, Error>)
    requires ThreeMarkets(pairs, ix)
    ensures r.Ok? <==> Loops(pairs, ix)
    ensures r.Ok? ==> SoundGroup(pairs, ix, r.value) && InOrder(ix, r.value.paths)
    ensures r.Err? ==> r.error == if Triangle(pairs, ix) then NotTwoUsdtMarkets else NotAClosedLoop
  {
    var closed := ClosedLoop(pairs, ix);
    if !closed { return Err(NotAClosedLoop); }
    var paths := [];
    var first := 0;
    while first < LEGS
      invariant 0 <= first <= LEGS
      invariant paths == PathsBefore(pairs, ix, first)
    {
      if P(pairs, ix, first).base == USDT || P(pairs, ix, first).quote == USDT {
        var walked := Walk(pairs, ix, first);
        paths := paths + [walked.value];
      }
      first := first + 1;
    }
    TwoOrNone(pairs, ix);
    if |paths| != 2 { return Err(NotTwoUsdtMarkets); }
    PathsAreOpposite(pairs, ix);
    r := Ok(TradeGroup(ix, paths));
  }

  lemma PathsUnrolled(pairs: seq<Pair>, ix: seq<nat>)
    requires ThreeMarkets(pairs, ix)
    ensures PathsBefore(pairs, ix, LEGS)
         == (if Touches(P(pairs, ix, 0), USDT) then [PathFrom(pairs, ix, 0)] else [])
          + (if Touches(P(pairs, ix, 1), USDT) then [PathFrom(pairs, ix, 1)] else [])
          + (if Touches(P(pairs, ix, 2), USDT) then [PathFrom(pairs, ix, 2)] else [])
  {
    assert PathsBefore(pairs, ix, 1) == if Touches(P(pairs, ix, 0), USDT) then [PathFrom(pairs, ix, 0)] else [];
    assert PathsBefore(pairs, ix, 2) == PathsBefore(pairs, ix, 1)
        + if Touches(P(pairs, ix, 1), USDT) then [PathFrom(pairs, ix, 1)] else [];
  }

  /** In a closed loop USDT is an end of two markets or of none. */
  lemma TwoOrNone(pairs: seq<Pair>, ix: seq<nat>)
    requires ThreeMarkets(pairs, ix) && Triangle(pairs, ix)
    ensures |PathsBefore(pairs, ix, LEGS)| == if USDT in Assets(pairs, ix) then 2 else 0
  {
    hide PathFrom;
    PathsUnrolled(pairs, ix);
    TriangleHasDegrees(pairs, ix);
    DegreeByEnds(pairs, ix, USDT);
  }

  /** The two paths of a group are USDT round trips over its three markets, and
      each is the other walked backwards with every side flipped. */
  lemma PathsAreOpposite(pairs: seq<Pair>, ix: seq<nat>)
    requires ThreeMarkets(pairs, ix) && Triangle(pairs, ix) && USDT in Assets(pairs, ix)
    ensures var paths := PathsBefore(pairs, ix, LEGS);
            && |paths| == 2
            && RoundTrip(pairs, ix, paths[0]) && RoundTrip(pairs, ix, paths[1])
            && paths[1] == Reversed(paths[0]) && InOrder(ix, paths)
  {
    TwoOrNone(pairs, ix);
    PathsUnrolled(pairs, ix);
    var f := if Touches(P(pairs, ix, 0), USDT) then 0 else 1;
    var g := if f == 0 && Touches(P(pairs, ix, 1), USDT) then 1 else 2;
    assert PathsBefore(pairs, ix, LEGS) == [PathFrom(pairs, ix, f), PathFrom(pairs, ix, g)] by {
      hide PathFrom, RoundTrip, Triangle;
    }
    assert PathFrom(pairs, ix, f)[0].index == ix[f] && PathFrom(pairs, ix, g)[0].index == ix[g];
    PathIsRoundTrip(pairs, ix, f);
    PathIsRoundTrip(pairs, ix, g);
    hide PathFrom, RoundTrip, Triangle;
    OppositeWalks(pairs, ix, f, g);
  }

  lemma OppositeWalks(pairs: seq<Pair>, ix: seq<nat>, f: nat, g: nat)
    requires ThreeMarkets(pairs, ix) && Triangle(pairs, ix) && f < LEGS && g < LEGS && f != g
    requires Touches(P(pairs, ix, f), USDT) && Touches(P(pairs, ix, g), USDT)
    ensures PathFrom(pairs, ix, g) == Reversed(PathFrom(pairs, ix, f))
  {
    var second, third, v, w := Roles(pairs, ix, f);
    RolesGiveThePath(pairs, ix, f, second, third, v, w);
    assert g == third;
    RolesGiveThePath(pairs, ix, g, second, f, w, v);
    hide PathFrom, Triangle;
  }

  // ------------------------------------------------------------ the whole configuration

  predicate Configured(symbols: seq<string>, e: Entry) { e.symbol in symbols }

  predicate ProperAssets(p: Pair) { p.base != "" && p.quote != "" && p.base != p.quote }

  /** What is wrong with one metadata entry of a configured symbol. */
  function EntryFault(e: Entry): Option<Error> {
    if !e.trading || !e.spotAllowed then Some(SymbolUnavailable(e.symbol))
    else if !ProperAssets(e.pair) then Some(InvalidAssets(e.symbol))
    else None
  }

  /** emplace keeps the first entry of a symbol. */
  function FirstPair(entries: seq<Entry>, symbol: string): Option<Pair> {
    if entries == [] then None
    else
      var before := FirstPair(entries[..|entries| - 1], symbol);
      if before.Some? then before
      else if entries[|entries| - 1].symbol == symbol then Some(entries[|entries| - 1].pair) else None
  }

  /** Tradable on the spot market, with two assets that have names of their own. */
  ghost predicate Proper(e: Entry) {
    e.trading && e.spotAllowed && e.pair.base != "" && e.pair.quote != "" && e.pair.base != e.pair.quote
  }

  ghost predicate Has(entries: seq<Entry>, symbol: string) {
    exists i :: 0 <= i < |entries| && entries[i].symbol == symbol
  }

  /** The first n entries of configured symbols are in order. */
  ghost predicate ProperUpTo(symbols: seq<string>, entries: seq<Entry>, n: nat)
    requires n <= |entries|
  {
    forall i :: 0 <= i < n && entries[i].symbol in symbols ==> Proper(entries[i])
  }

  ghost predicate MetadataOk(symbols: seq<string>, entries: seq<Entry>) {
    ProperUpTo(symbols, entries, |entries|) && forall k :: 0 <= k < |symbols| ==> Has(entries, symbols[k])
  }

  /** i is the first entry that is not in order. */
  ghost predicate FirstImproper(symbols: seq<string>, entries: seq<Entry>, i: nat) {
    i < |entries| && entries[i].symbol in symbols && !Proper(entries[i]) && ProperUpTo(symbols, entries, i)
  }

  /** What each metadata error complains of. */
  ghost predicate MetadataFault(symbols: seq<string>, entries: seq<Entry>, e: Error) {
    match e
    case SymbolUnavailable(s) =>
      exists i: nat :: FirstImproper(symbols, entries, i) && entries[i].symbol == s
                  && !(entries[i].trading && entries[i].spotAllowed)
    case InvalidAssets(s) =>
      exists i: nat :: FirstImproper(symbols, entries, i) && entries[i].symbol == s
                  && entries[i].trading && entries[i].spotAllowed
    case UnknownSymbol(s) =>
      && ProperUpTo(symbols, entries, |entries|)
      && exists k :: 0 <= k < |symbols| && symbols[k] == s && !Has(entries, s)
                     && forall j :: 0 <= j < k ==> Has(entries, symbols[j])
    case _ => false
  }

  /** The assets that the first entry of a symbol gives it. */
  ghost predicate PairFor(entries: seq<Entry>, symbol: string, p: Pair) {
    exists i :: 0 <= i < |entries| && entries[i].symbol == symbol && entries[i].pair == p
                && forall j :: 0 <= j < i ==> entries[j].symbol != symbol
  }

  lemma FaultMeans(e: Entry)
    ensures EntryFault(e).None? <==> Proper(e)
    ensures Proper(e) ==> ProperAssets(e.pair)
    ensures EntryFault(e) == Some(SymbolUnavailable(e.symbol)) <==> !(e.trading && e.spotAllowed)
    ensures EntryFault(e) == Some(InvalidAssets(e.symbol)) <==> !Proper(e) && e.trading && e.spotAllowed
  {}

  lemma {:induction false} FirstPairMeans(entries: seq<Entry>, symbol: string)
    ensures FirstPair(entries, symbol).Some? <==> Has(entries, symbol)
    ensures FirstPair(entries, symbol).Some? ==> PairFor(entries, symbol, FirstPair(entries, symbol).value)
    decreases |entries|
  {
    if entries != [] {
      var n := |entries| - 1;
      var front := entries[..n];
      FirstPairMeans(front, symbol);
      assert forall i :: 0 <= i < n ==> front[i] == entries[i];
      if Has(front, symbol) {
        var i :| 0 <= i < n && front[i].symbol == symbol && front[i].pair == FirstPair(front, symbol).value
                 && forall j :: 0 <= j < i ==> front[j].symbol != symbol;
        assert entries[i].symbol == symbol;
      } else if entries[n].symbol == symbol {
        assert forall j :: 0 <= j < n ==> entries[j].symbol != symbol;
      }
    }
  }

  lemma OkMeans(symbols: seq<string>, entries: seq<Entry>)
    ensures MetadataOk(symbols, entries) ==> forall k :: 0 <= k < |symbols| ==> FirstPair(entries, symbols[k]).Some?
  {
    forall k | 0 <= k < |symbols| ensures Has(entries, symbols[k]) <==> FirstPair(entries, symbols[k]).Some? {
      FirstPairMeans(entries, symbols[k]);
    }
  }

  /** One pair per configured symbol: what the markets dictionary holds. */
  ghost function PairsOf(symbols: seq<string>, entries: seq<Entry>): (pairs: seq<Pair>)
    requires MetadataOk(symbols, entries)
    ensures |pairs| == |symbols|
  {
    OkMeans(symbols, entries);
    seq(|symbols|, k requires 0 <= k < |symbols| => FirstPair(entries, symbols[k]).value)
  }

  lemma PairsOfMeans(symbols: seq<string>, entries: seq<Entry>)
    requires MetadataOk(symbols, entries)
    ensures forall k :: 0 <= k < |symbols| ==> PairFor(entries, symbols[k], PairsOf(symbols, entries)[k])
  {
    forall k | 0 <= k < |symbols| ensures PairFor(entries, symbols[k], PairsOf(symbols, entries)[k]) {
      FirstPairMeans(entries, symbols[k]);
    }
  }

  /** The markets dictionary, one symbol at a time. */
  method ReadMarkets(symbols: seq<string>, entries: seq<Entry>) returns (r: Result<seq<Pair>, Error>)
    ensures r.Ok? <==> MetadataOk(symbols, entries)
    ensures r.Ok? ==>
              && r.value == PairsOf(symbols, entries)
              && forall k :: 0 <= k < |r.value| ==> PairFor(entries, symbols[k], r.value[k]) && ProperAssets(r.value[k])
    ensures r.Err? ==> MetadataFault(symbols, entries, r.error)
  {
    hide Proper;
    var markets: map<string, Pair> := map[];
    var i := 0;
    while i < |entries|
      invariant 0 <= i <= |entries|
      invariant ProperUpTo(symbols, entries, i)
      invariant forall s :: s in symbols ==>
                  FirstPair(entries[..i], s) == (if s in markets then Some(markets[s]) else None)
    {
      assert entries[..i + 1][..i] == entries[..i];
      if Configured(symbols, entries[i]) {
        FaultMeans(entries[i]);
        var fault := EntryFault(entries[i]);
        if fault.Some? {
          assert FirstImproper(symbols, entries, i);
          return Err(fault.value);
        }
        if entries[i].symbol !in markets { markets := markets[entries[i].symbol := entries[i].pair]; }
      }
      i := i + 1;
    }
    assert entries[..|entries|] == entries;
    var pairs: seq<Pair> := [];
    var k := 0;
    while k < |symbols|
      invariant 0 <= k <= |symbols| && |pairs| == k
      invariant forall j :: 0 <= j < k ==> Has(entries, symbols[j])
      invariant forall j :: 0 <= j < k ==>
                  FirstPair(entries, symbols[j]) == Some(pairs[j]) && PairFor(entries, symbols[j], pairs[j])
                  && ProperAssets(pairs[j])
    {
      FirstPairMeans(entries, symbols[k]);
      if symbols[k] !in markets { return Err(UnknownSymbol(symbols[k])); }
      FirstPairIsProper(symbols, entries, symbols[k]);
      pairs := pairs + [markets[symbols[k]]];
      k := k + 1;
    }
    r := Ok(pairs);
  }

  lemma FirstPairIsProper(symbols: seq<string>, entries: seq<Entry>, symbol: string)
    requires ProperUpTo(symbols, entries, |entries|) && symbol in symbols && Has(entries, symbol)
    ensures FirstPair(entries, symbol).Some? && ProperAssets(FirstPair(entries, symbol).value)
  {
    FirstPairMeans(entries, symbol);
    var i :| 0 <= i < |entries| && entries[i].symbol == symbol && entries[i].pair == FirstPair(entries, symbol).value;
    FaultMeans(entries[i]);
  }

  /** Triples as load_config leaves them: three distinct known symbols each. */
  ghost predicate LoadedTriples(n: nat, triples: seq<seq<nat>>) {
    forall g :: 0 <= g < |triples| ==>
      && |triples[g]| == LEGS && (forall k :: 0 <= k < LEGS ==> triples[g][k] < n)
      && triples[g][0] != triples[g][1] && triples[g][0] != triples[g][2] && triples[g][1] != triples[g][2]
  }

  /** validate_arbitrage: accepted exactly when the metadata is in order and
      every triple is a three-asset loop through USDT; the two "cannot happen"
      errors of the walk are never returned. */
  method Validate(symbols: seq<string>, triples: seq<seq<nat>>, entries: seq<Entry>)
    returns (r: Result<seq<TradeGroup>, Error>)
    requires LoadedTriples(|symbols|, triples)
    ensures r.Ok? <==> MetadataOk(symbols, entries)
                       && forall g :: 0 <= g < |triples| ==> Loops(PairsOf(symbols, entries), triples[g])
    ensures r.Ok? ==> |r.value| == |triples|
                      && forall g :: 0 <= g < |triples| ==>
                           SoundGroup(PairsOf(symbols, entries), triples[g], r.value[g])
                           && InOrder(triples[g], r.value[g].paths)
    ensures r.Err? ==> if !MetadataOk(symbols, entries) then MetadataFault(symbols, entries, r.error)
                       else FirstUnsound(PairsOf(symbols, entries), triples, r.error)
    ensures r != Err(CannotConstructPath) && r != Err(PathNotClosed)
  {
    var markets := ReadMarkets(symbols, entries);
    if markets.Err? { return Err(markets.error); }
    ThreeMarketsEach(markets.value, triples);
    r := BuildGroups(markets.value, triples);
  }

  lemma ThreeMarketsEach(pairs: seq<Pair>, triples: seq<seq<nat>>)
    requires LoadedTriples(|pairs|, triples)
    requires forall k :: 0 <= k < |pairs| ==> ProperAssets(pairs[k])
    ensures forall g :: 0 <= g < |triples| ==> ThreeMarkets(pairs, triples[g])
  {}

  /** The first triple that is no loop through USDT, and whether it is a loop. */
  ghost predicate FirstUnsound(pairs: seq<Pair>, triples: seq<seq<nat>>, e: Error) {
    exists g :: 0 <= g < |triples| && (forall i :: 0 <= i < g ==> Loops(pairs, triples[i]))
                && ThreeMarkets(pairs, triples[g]) && !Loops(pairs, triples[g])
                && e == if Triangle(pairs, triples[g]) then NotTwoUsdtMarkets else NotAClosedLoop
  }

  method BuildGroups(pairs: seq<Pair>, triples: seq<seq<nat>>) returns (r: Result<seq<TradeGroup>, Error>)
    requires forall g :: 0 <= g < |triples| ==> ThreeMarkets(pairs, triples[g])
    ensures r.Ok? <==> forall g :: 0 <= g < |triples| ==> Loops(pairs, triples[g])
    ensures r.Ok? ==> |r.value| == |triples|
                      && forall g :: 0 <= g < |triples| ==>
                           SoundGroup(pairs, triples[g], r.value[g]) && InOrder(triples[g], r.value[g].paths)
    ensures r.Err? ==> FirstUnsound(pairs, triples, r.error)
  {
    hide Loops, SoundGroup, Triangle, ThreeMarkets, InOrder;
    var groups: seq<TradeGroup> := [];
    var g := 0;
    while g < |triples|
      invariant 0 <= g <= |triples| && |groups| == g
      invariant forall i :: 0 <= i < g ==> Loops(pairs, triples[i])
      invariant forall i :: 0 <= i < g ==>
                  SoundGroup(pairs, triples[i], groups[i]) && InOrder(triples[i], groups[i].paths)
    {
      var group := BuildGroup(pairs, triples[g]);
      if group.Err? { return Err(group.error); }
      groups := groups + [group.value];
      g := g + 1;
    }
    r := Ok(groups);
  }
}
