/** build_graph and find_triangles of src/required_asset.py, and why every
    triangle listed for USDT passes the executor's own validation. */
module RequiredAsset {
  import opened Basics
  import opened Trading
  import opened Ordering
  import Triangles

  datatype Listing = Listing(base: Asset, quote: Asset, symbol: string)

  predicate Between(l: Listing, a: Asset, b: Asset) {
    (l.base == a && l.quote == b) || (l.base == b && l.quote == a)
  }

  /** The symbol of the last listing between two assets. */
  function SymbolFor(listings: seq<Listing>, a: Asset, b: Asset): Option<string> {
    if listings == [] then None
    else if Between(listings[|listings| - 1], a, b) then Some(listings[|listings| - 1].symbol)
    else SymbolFor(listings[..|listings| - 1], a, b)
  }

  predicate Linked(listings: seq<Listing>, a: Asset, b: Asset) { SymbolFor(listings, a, b).Some? }

  lemma {:induction false} SymbolForIsListed(listings: seq<Listing>, a: Asset, b: Asset)
    ensures SymbolFor(listings, a, b) == SymbolFor(listings, b, a)
    ensures Linked(listings, a, b) <==> exists l :: l in listings && Between(l, a, b)
    ensures Linked(listings, a, b) ==>
              exists l :: l in listings && Between(l, a, b) && l.symbol == SymbolFor(listings, a, b).value
  {
    if listings != [] {
      var front, last := listings[..|listings| - 1], listings[|listings| - 1];
      assert listings == front + [last];
      SymbolForIsListed(front, a, b);
      if Between(last, a, b) { assert last in listings; }
    }
  }

  // ------------------------------------------------------------ the graph

  datatype Graph = Graph(order: seq<Asset>, pairSymbol: map<(Asset, Asset), string>, neighbors: map<Asset, set<Asset>>)

  function SymbolIn(g: Graph, a: Asset, b: Asset): Option<string> {
    if (a, b) in g.pairSymbol then Some(g.pairSymbol[(a, b)]) else None
  }

  function NeighborsOf(g: Graph, a: Asset): set<Asset> { if a in g.neighbors then g.neighbors[a] else {} }

  ghost predicate GraphOf(g: Graph, listings: seq<Listing>) {
    && (forall a, b :: SymbolIn(g, a, b) == SymbolFor(listings, a, b))
    && (forall a, b :: b in NeighborsOf(g, a) <==> Linked(listings, a, b))
    && (forall a :: a in g.order <==> a in g.neighbors)
  }

  /** setdefault(a, set()).add(b), with the key order a dictionary keeps. */
  function AddNeighbor(g: Graph, a: Asset, b: Asset): Graph {
    g.(order := if a in g.neighbors then g.order else g.order + [a],
       neighbors := g.neighbors[a := NeighborsOf(g, a) + {b}])
  }

  method BuildGraph(listings: seq<Listing>) returns (g: Graph)
    ensures GraphOf(g, listings) && Adjacency(g, listings)
  {
    g := Graph([], map[], map[]);
    for i := 0 to |listings|
      invariant GraphOf(g, listings[..i])
    {
      var l := listings[i];
      assert listings[..i + 1][..i] == listings[..i];
      ghost var was := g;
      g := g.(pairSymbol := g.pairSymbol[(l.base, l.quote) := l.symbol][(l.quote, l.base) := l.symbol]);
      g := AddNeighbor(g, l.base, l.quote);
      g := AddNeighbor(g, l.quote, l.base);
      OneMoreListing(was, g, listings[..i + 1]);
    }
    assert listings[..|listings|] == listings;
    GraphMeans(g, listings);
    hide GraphOf, Adjacency;
  }

  lemma OneMoreListing(was: Graph, g: Graph, listings: seq<Listing>)
    requires listings != [] && GraphOf(was, listings[..|listings| - 1])
    requires var l := listings[|listings| - 1];
      var symbols := was.pairSymbol[(l.base, l.quote) := l.symbol][(l.quote, l.base) := l.symbol];
      g == AddNeighbor(AddNeighbor(was.(pairSymbol := symbols), l.base, l.quote), l.quote, l.base)
    ensures GraphOf(g, listings)
  {
    var l := listings[|listings| - 1];
    forall a, b ensures SymbolIn(g, a, b) == SymbolFor(listings, a, b) {
      assert SymbolIn(was, a, b) == SymbolFor(listings[..|listings| - 1], a, b);
    }
    forall a, b ensures b in NeighborsOf(g, a) <==> Linked(listings, a, b) {
      assert b in NeighborsOf(was, a) <==> Linked(listings[..|listings| - 1], a, b);
      assert b in NeighborsOf(g, a) <==> b in NeighborsOf(was, a) || Between(l, a, b);
    }
  }

  // ------------------------------------------------------------ the enumeration

  /** A key the search can meet, from one of its assets. */
  ghost predicate KeyFrom(listings: seq<Listing>, key: set<Asset>, a: Asset, b: Asset, c: Asset) {
    key == {a, b, c} && b != c && Linked(listings, a, b) && Linked(listings, b, c) && Linked(listings, a, c)
  }

  ghost predicate Found(listings: seq<Listing>, key: set<Asset>) { exists a, b, c :: KeyFrom(listings, key, a, b, c) }

  predicate Wanted(required: set<Asset>, key: set<Asset>) { required == {} || key * required != {} }

  /** String order by code point, as sorted uses it. */
  predicate TextAtMost(s: string, t: string) {
    s == [] || (t != [] && (s[0] < t[0] || (s[0] == t[0] && TextAtMost(s[1..], t[1..]))))
  }

  /** The row for a key: the symbols of its three markets, sorted. */
  ghost predicate RowFor(listings: seq<Listing>, key: set<Asset>, row: seq<string>) {
    exists a, b, c ::
      && KeyFrom(listings, key, a, b, c)
      && row == Sort([SymbolFor(listings, a, b).value, SymbolFor(listings, b, c).value,
                      SymbolFor(listings, a, c).value], TextAtMost)
  }

  /** What has been seen, and the rows written for it, one for each wanted key. */
  ghost predicate Progress(listings: seq<Listing>, required: set<Asset>, seen: set<set<Asset>>, keys: seq<set<Asset>>,
                           rows: seq<seq<string>>)
  {
    && (forall key :: key in seen ==> Found(listings, key))
    && (forall key :: key in keys <==> key in seen && Wanted(required, key))
    && (forall i, j :: 0 <= i < j < |keys| ==> keys[i] != keys[j])
    && |rows| == |keys| && (forall i :: 0 <= i < |keys| ==> RowFor(listings, keys[i], rows[i]))
  }

  ghost predicate Exhausted(listings: seq<Listing>, a: Asset, seen: set<set<Asset>>) {
    forall key, b, c :: KeyFrom(listings, key, a, b, c) ==> key in seen
  }

  /** A set in the arbitrary order its iteration takes. */
  method Enumerate(s: set<Asset>) returns (listed: seq<Asset>)
    ensures forall x :: x in listed <==> x in s
    ensures forall i, j :: 0 <= i < j < |listed| ==> listed[i] != listed[j]
  {
    listed := [];
    var left := s;
    while left != {}
      invariant left <= s
      invariant forall x :: x in listed <==> x in s && x !in left
      invariant forall i, j :: 0 <= i < j < |listed| ==> listed[i] != listed[j]
      decreases |left|
    {
      assert (forall x :: x !in left) ==> left == {};
      var x :| x in left;
      listed := listed + [x];
      left := left - {x};
    }
  }

  /** The innermost body: one pair of neighbours of a. */
  method Consider(ghost listings: seq<Listing>, g: Graph, required: set<Asset>, a: Asset, b: Asset, c: Asset,
                  seen: set<set<Asset>>, ghost keys: seq<set<Asset>>, rows: seq<seq<string>>)
    returns (nowSeen: set<set<Asset>>, ghost nowKeys: seq<set<Asset>>, nowRows: seq<seq<string>>)
    requires GraphOf(g, listings) && Progress(listings, required, seen, keys, rows)
    requires b in NeighborsOf(g, a) && c in NeighborsOf(g, a) && b != c
    ensures Progress(listings, required, nowSeen, nowKeys, nowRows)
    ensures seen <= nowSeen
    ensures Linked(listings, b, c) ==> {a, b, c} in nowSeen
  {
    nowSeen, nowKeys, nowRows := seen, keys, rows;
    if c in NeighborsOf(g, b) {
      var key := {a, b, c};
      assert KeyFrom(listings, key, a, b, c);
      if key in seen { return; }
      nowSeen := seen + {key};
      if !Wanted(required, key) { return; }
      assert SymbolIn(g, a, b).Some? && SymbolIn(g, b, c).Some? && SymbolIn(g, a, c).Some?;
      var row := Sort([g.pairSymbol[(a, b)], g.pairSymbol[(b, c)], g.pairSymbol[(a, c)]], TextAtMost);
      assert RowFor(listings, key, row);
      nowRows := rows + [row];
      nowKeys := keys + [key];
    }
  }

  /** The pairs of neighbours of one asset. */
  method ScanAsset(ghost listings: seq<Listing>, g: Graph, required: set<Asset>, a: Asset,
                   seen: set<set<Asset>>, ghost keys: seq<set<Asset>>, rows: seq<seq<string>>)
    returns (nowSeen: set<set<Asset>>, ghost nowKeys: seq<set<Asset>>, nowRows: seq<seq<string>>)
    requires GraphOf(g, listings) && Progress(listings, required, seen, keys, rows)
    ensures Progress(listings, required, nowSeen, nowKeys, nowRows)
    ensures seen <= nowSeen && Exhausted(listings, a, nowSeen)
  {
    var near := Enumerate(NeighborsOf(g, a));
    nowSeen, nowKeys, nowRows := seen, keys, rows;
    hide Progress;
    for i := 0 to |near|
      invariant Progress(listings, required, nowSeen, nowKeys, nowRows) && seen <= nowSeen
      invariant forall p, q :: 0 <= p < i && p < q < |near| && Linked(listings, near[p], near[q])
                  ==> {a, near[p], near[q]} in nowSeen
    {
      for j := i + 1 to |near|
        invariant Progress(listings, required, nowSeen, nowKeys, nowRows) && seen <= nowSeen
        invariant forall p, q :: 0 <= p < i && p < q < |near| && Linked(listings, near[p], near[q])
                    ==> {a, near[p], near[q]} in nowSeen
        invariant forall q :: i < q < j && Linked(listings, near[i], near[q]) ==> {a, near[i], near[q]} in nowSeen
      {
        nowSeen, nowKeys, nowRows := Consider(listings, g, required, a, near[i], near[j], nowSeen, nowKeys, nowRows);
      }
    }
    forall key, b, c | KeyFrom(listings, key, a, b, c) ensures key in nowSeen {
      var p :| 0 <= p < |near| && near[p] == b;
      var q :| 0 <= q < |near| && near[q] == c;
      SymbolForIsListed(listings, b, c);
      if p < q {
        assert Linked(listings, near[p], near[q]);
      } else {
        assert Linked(listings, near[q], near[p]) && key == {a, near[q], near[p]};
      }
    }
  }

  /** The rows stand for pairwise different keys, which are exactly the wanted
      ones among those the search can meet. */
  ghost predicate OneRowEach(listings: seq<Listing>, required: set<Asset>, rows: seq<seq<string>>,
                             keys: seq<set<Asset>>)
  {
    && |rows| == |keys| && (forall i :: 0 <= i < |keys| ==> RowFor(listings, keys[i], rows[i]))
    && (forall i, j :: 0 <= i < j < |keys| ==> keys[i] != keys[j])
    && (forall key :: key in keys <==> Found(listings, key) && Wanted(required, key))
  }

  /** find_triangles: every wanted key has exactly one row, and nothing else
      has one, whatever order the sets are iterated in. */
  method FindTriangles(ghost listings: seq<Listing>, g: Graph, required: set<Asset>) returns (rows: seq<seq<string>>)
    requires GraphOf(g, listings)
    ensures exists keys :: OneRowEach(listings, required, rows, keys) && Triangulated(listings, required, rows, keys)
  {
    var seen: set<set<Asset>> := {};
    rows := [];
    ghost var keys: seq<set<Asset>> := [];
    for i := 0 to |g.order|
      invariant Progress(listings, required, seen, keys, rows)
      invariant forall k :: 0 <= k < i ==> Exhausted(listings, g.order[k], seen)
    {
      seen, keys, rows := ScanAsset(listings, g, required, g.order[i], seen, keys, rows);
    }
    forall key | Found(listings, key) ensures key in seen {
      var a, b, c :| KeyFrom(listings, key, a, b, c);
      assert b in NeighborsOf(g, a);
      var k :| 0 <= k < |g.order| && g.order[k] == a;
      assert Exhausted(listings, g.order[k], seen);
    }
    assert OneRowEach(listings, required, rows, keys);
    RowsMean(listings, required, rows, keys);
    hide Progress, OneRowEach, Triangulated, Exhausted;
  }

  // ------------------------------------------------------------ what is listed

  /** Three assets, each two of which trade against each other. */
  ghost predicate Clique(listings: seq<Listing>, key: set<Asset>) {
    |key| == 3 && forall x, y :: x in key && y in key && x != y ==> Linked(listings, x, y)
  }

  lemma ThreeApart(a: Asset, b: Asset, c: Asset)
    ensures |{a, b, c}| == 3 <==> a != b && b != c && a != c
  {
    if a == b { assert {a, b, c} == {b, c}; }
    if b == c { assert {a, b, c} == {a, c}; }
    if a == c { assert {a, b, c} == {a, b}; }
  }

  lemma PickThree(key: set<Asset>) returns (a: Asset, b: Asset, c: Asset)
    requires |key| == 3
    ensures key == {a, b, c} && a != b && b != c && a != c
  {
    a :| a in key;
    assert |key - {a}| == 2;
    b :| b in key - {a};
    assert |key - {a} - {b}| == 1;
    c :| c in key - {a} - {b};
    assert |key - {a} - {b} - {c}| == 0;
    assert key == {a, b, c};
  }

  lemma FoundIsClique(listings: seq<Listing>, key: set<Asset>, a: Asset, b: Asset, c: Asset)
    requires |key| == 3 && KeyFrom(listings, key, a, b, c)
    ensures Clique(listings, key)
  {
    SymbolForIsListed(listings, a, b);
    SymbolForIsListed(listings, b, c);
    SymbolForIsListed(listings, a, c);
    ThreeApart(a, b, c);
    hide SymbolFor;
  }

  /** Of three assets, exactly the cliques are found. */
  lemma FoundIffClique(listings: seq<Listing>, key: set<Asset>)
    requires |key| == 3
    ensures Found(listings, key) <==> Clique(listings, key)
  {
    hide SymbolFor, Linked;
    if Found(listings, key) {
      var a, b, c :| KeyFrom(listings, key, a, b, c);
      FoundIsClique(listings, key, a, b, c);
    }
    if Clique(listings, key) {
      var a, b, c := PickThree(key);
      assert KeyFrom(listings, key, a, b, c);
    }
  }

  /** A market of an asset against itself whose asset trades elsewhere too. */
  ghost predicate StraySelfMarket(listings: seq<Listing>, required: set<Asset>) {
    exists a, c :: a != c && Linked(listings, a, a) && Linked(listings, a, c) && Wanted(required, {a, c})
  }

  /** Only cliques are listed, exactly unless some wanted market trades an asset
      against itself; the exchange has none. */
  lemma OnlyCliquesUnlessSelfMarket(listings: seq<Listing>, required: set<Asset>)
    ensures (forall key :: Found(listings, key) && Wanted(required, key) ==> Clique(listings, key))
       <==> !StraySelfMarket(listings, required)
  {
    if StraySelfMarket(listings, required) {
      var a, c :| a != c && Linked(listings, a, a) && Linked(listings, a, c) && Wanted(required, {a, c});
      ThreeApart(a, a, c);
      assert {a, a, c} == {a, c};
      assert KeyFrom(listings, {a, c}, a, a, c);
    }
    forall key | Found(listings, key) && Wanted(required, key) && !Clique(listings, key)
      ensures StraySelfMarket(listings, required)
    {
      var a, b, c :| KeyFrom(listings, key, a, b, c);
      FoundIffCliqueOr(listings, key, a, b, c);
    }
  }

  lemma FoundIffCliqueOr(listings: seq<Listing>, key: set<Asset>, a: Asset, b: Asset, c: Asset)
    requires KeyFrom(listings, key, a, b, c)
    ensures Clique(listings, key) || (a == b && key == {a, c}) || (a == c && key == {a, b})
    ensures a == b || a == c || (a != b && b != c && a != c && Clique(listings, key))
  {
    if a != b && a != c {
      ThreeApart(a, b, c);
      assert Found(listings, key);
      FoundIffClique(listings, key);
    }
  }

  // ------------------------------------------------------------ rows

  lemma {:induction false} TextIsAntisymmetric(s: string, t: string)
    requires TextAtMost(s, t) && TextAtMost(t, s)
    ensures s == t
  {
    if s != [] && t != [] {
      TextIsAntisymmetric(s[1..], t[1..]);
      assert s == [s[0]] + s[1..] && t == [t[0]] + t[1..];
    }
  }

  lemma {:induction false} TextIsTotal(s: string, t: string)
    ensures TextAtMost(s, t) || TextAtMost(t, s)
  {
    if s != [] && t != [] { TextIsTotal(s[1..], t[1..]); }
  }

  lemma {:induction false} TextIsTransitive(s: string, t: string, u: string)
    requires TextAtMost(s, t) && TextAtMost(t, u)
    ensures TextAtMost(s, u)
  {
    if s != [] && s[0] == t[0] == u[0] { TextIsTransitive(s[1..], t[1..], u[1..]); }
  }

  lemma TextOrders()
    ensures Orders(TextAtMost)
  {
    forall s, t ensures TextAtMost(s, t) || TextAtMost(t, s) { TextIsTotal(s, t); }
    forall s, t, u | TextAtMost(s, t) && TextAtMost(t, u) ensures TextAtMost(s, u) { TextIsTransitive(s, t, u); }
  }

  function Edges(listings: seq<Listing>, a: Asset, b: Asset, c: Asset): seq<string>
    requires Linked(listings, a, b) && Linked(listings, b, c) && Linked(listings, a, c)
  {
    [SymbolFor(listings, a, b).value, SymbolFor(listings, b, c).value, SymbolFor(listings, a, c).value]
  }

  /** The row of a triangle does not depend on where the search met it. */
  lemma RowIsUnique(listings: seq<Listing>, key: set<Asset>, row: seq<string>, other: seq<string>)
    requires |key| == 3 && RowFor(listings, key, row) && RowFor(listings, key, other)
    ensures row == other && SortedBy(row, TextAtMost)
  {
    var a, b, c :| KeyFrom(listings, key, a, b, c) && row == Sort(Edges(listings, a, b, c), TextAtMost);
    var x, y, z :| KeyFrom(listings, key, x, y, z) && other == Sort(Edges(listings, x, y, z), TextAtMost);
    SameEdges(listings, key, a, b, c, x, y, z);
    TextOrders();
    SortSorts(Edges(listings, a, b, c), TextAtMost);
    SortSorts(Edges(listings, x, y, z), TextAtMost);
    forall s, t | TextAtMost(s, t) && TextAtMost(t, s) ensures s == t { TextIsAntisymmetric(s, t); }
    SortedIsUnique(row, other, TextAtMost);
  }

  lemma SameEdges(listings: seq<Listing>, key: set<Asset>, a: Asset, b: Asset, c: Asset, x: Asset, y: Asset, z: Asset)
    requires |key| == 3 && KeyFrom(listings, key, a, b, c) && KeyFrom(listings, key, x, y, z)
    ensures multiset(Edges(listings, a, b, c)) == multiset(Edges(listings, x, y, z))
  {
    ThreeApart(a, b, c);
    ThreeApart(x, y, z);
    SymbolForIsListed(listings, a, b);
    SymbolForIsListed(listings, b, c);
    SymbolForIsListed(listings, a, c);
    hide SymbolFor;
    Rearranged(key, a, b, c, x, y, z);
    SameBag(Edges(listings, a, b, c), Edges(listings, x, y, z));
  }

  lemma Rearranged(key: set<Asset>, a: Asset, b: Asset, c: Asset, x: Asset, y: Asset, z: Asset)
    requires key == {a, b, c} == {x, y, z} && x != y && y != z && x != z
    ensures (x, y, z) in {(a, b, c), (a, c, b), (b, a, c), (b, c, a), (c, a, b), (c, b, a)}
  {
    assert x in key && y in key && z in key;
  }

  function Times(u: string, v: string, w: string, x: string): nat {
    (if u == x then 1 else 0) + (if v == x then 1 else 0) + (if w == x then 1 else 0)
  }

  lemma ThreeTimes(s: seq<string>, x: string)
    requires |s| == 3
    ensures multiset(s)[x] == Times(s[0], s[1], s[2], x)
  {
    assert s == ([s[0]] + [s[1]]) + [s[2]];
  }

  lemma SameBag(s: seq<string>, t: seq<string>)
    requires |s| == |t| == 3
    requires forall x :: Times(s[0], s[1], s[2], x) == Times(t[0], t[1], t[2], x)
    ensures multiset(s) == multiset(t)
  {
    forall x ensures multiset(s)[x] == multiset(t)[x] {
      ThreeTimes(s, x);
      ThreeTimes(t, x);
    }
  }

  // ------------------------------------------------------------ in the listings' own terms

  /** Some market trades a against b. */
  ghost predicate Traded(listings: seq<Listing>, a: Asset, b: Asset) {
    exists i :: 0 <= i < |listings| && ((listings[i].base == a && listings[i].quote == b)
                                        || (listings[i].base == b && listings[i].quote == a))
  }

  /** symbol is the last market that does. */
  ghost predicate Market(listings: seq<Listing>, a: Asset, b: Asset, symbol: string) {
    exists i :: 0 <= i < |listings| && listings[i].symbol == symbol
                && ((listings[i].base == a && listings[i].quote == b)
                    || (listings[i].base == b && listings[i].quote == a))
                && !Traded(listings[i + 1..], a, b)
  }

  /** The two adjacency maps. */
  ghost predicate Adjacency(g: Graph, listings: seq<Listing>) {
    && (forall a, b :: (a, b) in g.pairSymbol <==> Traded(listings, a, b))
    && (forall a, b :: (a, b) in g.pairSymbol ==> Market(listings, a, b, g.pairSymbol[(a, b)]))
    && (forall a, b :: a in g.neighbors && b in g.neighbors[a] <==> Traded(listings, a, b))
  }

  /** s comes no later than t in a dictionary: a prefix of it, or smaller at the
      first place where they differ. */
  ghost predicate Precedes(s: string, t: string) {
    s <= t || exists k: nat :: LessAt(s, t, k)
  }

  /** The search meets these assets: two different ones that trade against each
      other and against a third. */
  ghost predicate Met(listings: seq<Listing>, key: set<Asset>) {
    exists a, b, c :: key == {a, b, c} && b != c
                      && Traded(listings, a, b) && Traded(listings, b, c) && Traded(listings, a, c)
  }

  /** The three markets between some such assets, in dictionary order. */
  ghost predicate MarketsOf(listings: seq<Listing>, key: set<Asset>, row: seq<string>) {
    && |row| == 3 && Precedes(row[0], row[1]) && Precedes(row[1], row[2])
    && exists a, b, c, ab, bc, ac ::
         && key == {a, b, c} && b != c && multiset(row) == multiset{ab, bc, ac}
         && Market(listings, a, b, ab) && Market(listings, b, c, bc) && Market(listings, a, c, ac)
  }

  ghost predicate Triangulated(listings: seq<Listing>, required: set<Asset>, rows: seq<seq<string>>,
                               keys: seq<set<Asset>>)
  {
    && |rows| == |keys| && (forall i :: 0 <= i < |keys| ==> MarketsOf(listings, keys[i], rows[i]))
    && (forall i, j :: 0 <= i < j < |keys| ==> keys[i] != keys[j])
    && (forall key :: key in keys
          <==> Met(listings, key) && (required == {} || exists x :: x in required && x in key))
  }

  lemma {:induction false} SymbolForMeans(listings: seq<Listing>, a: Asset, b: Asset)
    ensures Linked(listings, a, b) <==> Traded(listings, a, b)
    ensures Linked(listings, a, b) ==> Market(listings, a, b, SymbolFor(listings, a, b).value)
  {
    if listings != [] {
      var front, last := listings[..|listings| - 1], listings[|listings| - 1];
      assert listings == front + [last];
      SymbolForMeans(front, a, b);
      TradedSnoc(front, last, a, b);
      if Between(last, a, b) {
        assert listings[|front| + 1..] == [];
      } else if Linked(front, a, b) {
        MarketStays(front, last, a, b, SymbolFor(front, a, b).value);
      }
      hide Traded;
    }
  }

  lemma TradedSnoc(front: seq<Listing>, last: Listing, a: Asset, b: Asset)
    ensures Traded(front + [last], a, b) <==> Traded(front, a, b) || Between(last, a, b)
  {
    var ls := front + [last];
    assert ls[|front|] == last && forall i :: 0 <= i < |front| ==> ls[i] == front[i];
  }

  lemma MarketStays(front: seq<Listing>, last: Listing, a: Asset, b: Asset, symbol: string)
    requires Market(front, a, b, symbol) && !Between(last, a, b)
    ensures Market(front + [last], a, b, symbol)
  {
    hide Traded;
    var ls := front + [last];
    var i :| 0 <= i < |front| && front[i].symbol == symbol
             && ((front[i].base == a && front[i].quote == b) || (front[i].base == b && front[i].quote == a))
             && !Traded(front[i + 1..], a, b);
    TradedSnoc(front[i + 1..], last, a, b);
    assert ls[i] == front[i] && ls[i + 1..] == front[i + 1..] + [last];
  }

  lemma GraphMeans(g: Graph, listings: seq<Listing>)
    requires GraphOf(g, listings)
    ensures Adjacency(g, listings)
  {
    hide SymbolFor, Traded, Market;
    forall a, b
      ensures (a, b) in g.pairSymbol <==> Traded(listings, a, b)
      ensures (a, b) in g.pairSymbol ==> Market(listings, a, b, g.pairSymbol[(a, b)])
      ensures a in g.neighbors && b in g.neighbors[a] <==> Traded(listings, a, b)
    {
      SymbolForMeans(listings, a, b);
      assert SymbolIn(g, a, b) == SymbolFor(listings, a, b);
      assert b in NeighborsOf(g, a) <==> Linked(listings, a, b);
    }
  }

  lemma {:induction false} TextMeans(s: string, t: string)
    ensures TextAtMost(s, t) <==> Precedes(s, t)
  {
    if s != [] && t != [] {
      TextMeans(s[1..], t[1..]);
      if s[0] == t[0] {
        PrecedesStep(s, t);
      } else if s[0] < t[0] {
        assert LessAt(s, t, 0);
      } else {
        assert !(s <= t);
        forall k: nat ensures !LessAt(s, t, k) {
          if 0 < k < |s| && k < |t| { assert s[..k][0] == s[0] && t[..k][0] == t[0]; }
        }
      }
    }
  }

  /** s and t differ at place k first, and there s is smaller. */
  ghost predicate LessAt(s: string, t: string, k: nat) {
    k < |s| && k < |t| && s[..k] == t[..k] && s[k] < t[k]
  }

  lemma LessAtStep(s: string, t: string, k: nat)
    requires s != [] && t != [] && s[0] == t[0]
    ensures LessAt(s, t, k + 1) <==> LessAt(s[1..], t[1..], k)
  {
    if k < |s| - 1 && k < |t| - 1 {
      assert s[..k + 1] == [s[0]] + s[1..][..k] && t[..k + 1] == [t[0]] + t[1..][..k];
      assert s[1..][..k] == s[..k + 1][1..] && t[1..][..k] == t[..k + 1][1..];
    }
  }

  lemma PrecedesStep(s: string, t: string)
    requires s != [] && t != [] && s[0] == t[0]
    ensures Precedes(s, t) <==> Precedes(s[1..], t[1..])
  {
    assert s == [s[0]] + s[1..] && t == [t[0]] + t[1..];
    assert s <= t <==> s[1..] <= t[1..];
    forall k: nat ensures LessAt(s, t, k + 1) <==> LessAt(s[1..], t[1..], k) { LessAtStep(s, t, k); }
    assert !LessAt(s, t, 0);
    hide LessAt;
    if k: nat :| LessAt(s, t, k) { assert LessAt(s[1..], t[1..], k - 1); }
    if k: nat :| LessAt(s[1..], t[1..], k) { assert LessAt(s, t, k + 1); }
  }

  lemma RowMeans(listings: seq<Listing>, key: set<Asset>, row: seq<string>)
    requires RowFor(listings, key, row)
    ensures MarketsOf(listings, key, row)
  {
    var a, b, c :| KeyFrom(listings, key, a, b, c) && row == Sort(Edges(listings, a, b, c), TextAtMost);
    SymbolForMeans(listings, a, b);
    SymbolForMeans(listings, b, c);
    SymbolForMeans(listings, a, c);
    SortedBag(Edges(listings, a, b, c));
    TextOrders();
    SortSorts(Edges(listings, a, b, c), TextAtMost);
    hide Sort, SymbolFor, TextAtMost, Precedes, Market;
    TextMeans(row[0], row[1]);
    TextMeans(row[1], row[2]);
    var ab, bc, ac := SymbolFor(listings, a, b).value, SymbolFor(listings, b, c).value, SymbolFor(listings, a, c).value;
    assert Edges(listings, a, b, c) == [ab, bc, ac] && multiset([ab, bc, ac]) == multiset{ab, bc, ac};
  }

  lemma FoundMeans(listings: seq<Listing>, key: set<Asset>)
    ensures Found(listings, key) <==> Met(listings, key)
  {
    forall a, b ensures Linked(listings, a, b) <==> Traded(listings, a, b) { SymbolForMeans(listings, a, b); }
    hide Linked, Traded;
    if Found(listings, key) {
      var a, b, c :| KeyFrom(listings, key, a, b, c);
    }
    if Met(listings, key) {
      var a, b, c :| key == {a, b, c} && b != c
                     && Traded(listings, a, b) && Traded(listings, b, c) && Traded(listings, a, c);
      assert KeyFrom(listings, key, a, b, c);
    }
  }

  lemma WantedMeans(required: set<Asset>, key: set<Asset>)
    ensures Wanted(required, key) <==> required == {} || exists x :: x in required && x in key
  {
    if key * required != {} {
      var x :| x in key * required;
      assert x in required && x in key;
    }
    if x :| x in required && x in key { assert x in key * required; }
  }

  lemma RowsMean(listings: seq<Listing>, required: set<Asset>, rows: seq<seq<string>>, keys: seq<set<Asset>>)
    requires OneRowEach(listings, required, rows, keys)
    ensures Triangulated(listings, required, rows, keys)
  {
    hide Found, Met, Wanted, RowFor, MarketsOf;
    forall i | 0 <= i < |keys| ensures MarketsOf(listings, keys[i], rows[i]) { RowMeans(listings, keys[i], rows[i]); }
    forall key
      ensures key in keys <==> Met(listings, key) && (required == {} || exists x :: x in required && x in key)
    {
      FoundMeans(listings, key);
      WantedMeans(required, key);
    }
  }

  // ------------------------------------------------------------ accepted by the executor

  /** No symbol is listed twice and no market trades an asset against itself. */
  ghost predicate ProperListings(listings: seq<Listing>) {
    && (forall i, j :: 0 <= i < j < |listings| ==> listings[i].symbol != listings[j].symbol)
    && (forall i :: 0 <= i < |listings| ==> listings[i].base != listings[i].quote)
  }

  /** The configured names have, in the exchange's answer, the assets they were
      listed with. */
  ghost predicate SameMarkets(listings: seq<Listing>, names: seq<string>, pairs: seq<Triangles.Pair>) {
    && |pairs| == |names|
    && forall k, l :: 0 <= k < |names| && l in listings && l.symbol == names[k] ==>
         pairs[k] == Triangles.Pair(l.base, l.quote)
  }

  /** ix names the row's three symbols. */
  predicate Names(names: seq<string>, ix: seq<nat>, row: seq<string>) {
    |ix| == 3 && |row| == 3 && forall k :: 0 <= k < 3 ==> ix[k] < |names| && names[ix[k]] == row[k]
  }

  lemma EdgeJoins(listings: seq<Listing>, names: seq<string>, pairs: seq<Triangles.Pair>, k: nat, a: Asset, b: Asset)
    requires ProperListings(listings) && SameMarkets(listings, names, pairs) && k < |names|
    requires Linked(listings, a, b) && SymbolFor(listings, a, b).value == names[k]
    ensures Triangles.Joins(pairs[k], a, b) && a != b
  {
    SymbolForIsListed(listings, a, b);
    var l :| l in listings && Between(l, a, b) && l.symbol == names[k];
  }

  /** A row listed for USDT is a closed loop through USDT, so validate_arbitrage
      accepts it and builds its two paths. */
  lemma ListedRowLoops(listings: seq<Listing>, names: seq<string>, pairs: seq<Triangles.Pair>, ix: seq<nat>,
                       key: set<Asset>, row: seq<string>)
    requires ProperListings(listings) && SameMarkets(listings, names, pairs)
    requires Wanted({USDT}, key) && RowFor(listings, key, row) && Names(names, ix, row)
    ensures Triangles.Loops(pairs, ix)
  {
    var a, b, c :| KeyFrom(listings, key, a, b, c) && row == Sort(Edges(listings, a, b, c), TextAtMost);
    SortedBag(Edges(listings, a, b, c));
    assert USDT in key by { assert key * {USDT} != {}; }
    var edges := Edges(listings, a, b, c);
    hide ProperListings, SameMarkets, Sort;
    RowPositions(row, edges);
    EdgesLoop(listings, names, pairs, ix, row, a, b, c);
  }

  lemma SortedBag(s: seq<string>)
    ensures multiset(Sort(s, TextAtMost)) == multiset(s) && |Sort(s, TextAtMost)| == |s|
  {
    TextOrders();
    SortSorts(s, TextAtMost);
    SortKeepsMembers(s, TextAtMost);
  }

  lemma EdgesLoop(listings: seq<Listing>, names: seq<string>, pairs: seq<Triangles.Pair>, ix: seq<nat>,
                  row: seq<string>, a: Asset, b: Asset, c: Asset)
    requires ProperListings(listings) && SameMarkets(listings, names, pairs) && Names(names, ix, row)
    requires Linked(listings, a, b) && Linked(listings, b, c) && Linked(listings, a, c) && USDT in {a, b, c}
    requires exists i: nat, j: nat, k: nat :: Positions(row, Edges(listings, a, b, c), i, j, k)
    ensures Triangles.Loops(pairs, ix)
  {
    hide ProperListings, SymbolFor, Triangles.Loops;
    var i: nat, j: nat, k: nat :| Positions(row, Edges(listings, a, b, c), i, j, k);
    EdgeJoins(listings, names, pairs, ix[i], a, b);
    EdgeJoins(listings, names, pairs, ix[j], b, c);
    EdgeJoins(listings, names, pairs, ix[k], a, c);
    LoopsFromEdges(pairs, ix, i, j, k, a, b, c);
  }

  predicate Positions(row: seq<string>, edges: seq<string>, i: nat, j: nat, k: nat) {
    && |row| == |edges| == 3 && i < 3 && j < 3 && k < 3 && i != j && j != k && i != k
    && row[i] == edges[0] && row[j] == edges[1] && row[k] == edges[2]
  }

  lemma RowPositions(row: seq<string>, edges: seq<string>)
    requires |row| == |edges| == 3 && multiset(row) == multiset(edges)
    ensures exists i: nat, j: nat, k: nat :: Positions(row, edges, i, j, k)
  {
    forall x ensures Times(row[0], row[1], row[2], x) == Times(edges[0], edges[1], edges[2], x) {
      ThreeTimes(row, x);
      ThreeTimes(edges, x);
    }
    SameThree(row[0], row[1], row[2], edges[0], edges[1], edges[2]);
    hide Times;
    if row[0] == edges[0] && row[1] == edges[1] && row[2] == edges[2] { assert Positions(row, edges, 0, 1, 2); }
    else if row[0] == edges[0] && row[2] == edges[1] && row[1] == edges[2] { assert Positions(row, edges, 0, 2, 1); }
    else if row[1] == edges[0] && row[0] == edges[1] && row[2] == edges[2] { assert Positions(row, edges, 1, 0, 2); }
    else if row[1] == edges[0] && row[2] == edges[1] && row[0] == edges[2] { assert Positions(row, edges, 1, 2, 0); }
    else if row[2] == edges[0] && row[0] == edges[1] && row[1] == edges[2] { assert Positions(row, edges, 2, 0, 1); }
    else { assert Positions(row, edges, 2, 1, 0); }
  }

  lemma SameThree(r: string, s: string, t: string, p: string, q: string, u: string)
    requires forall x :: Times(r, s, t, x) == Times(p, q, u, x)
    ensures (r == p && ((s == q && t == u) || (s == u && t == q)))
         || (s == p && ((r == q && t == u) || (r == u && t == q)))
         || (t == p && ((r == q && s == u) || (r == u && s == q)))
  {
    assert Times(r, s, t, p) == Times(p, q, u, p);
    assert Times(r, s, t, q) == Times(p, q, u, q);
    assert Times(r, s, t, u) == Times(p, q, u, u);
  }

  lemma LoopsFromEdges(pairs: seq<Triangles.Pair>, ix: seq<nat>, i: nat, j: nat, k: nat, a: Asset, b: Asset, c: Asset)
    requires |ix| == 3 && i < 3 && j < 3 && k < 3 && i != j && j != k && i != k
    requires forall n :: 0 <= n < 3 ==> ix[n] < |pairs|
    requires a != b && b != c && a != c && USDT in {a, b, c}
    requires Triangles.Joins(pairs[ix[i]], a, b) && Triangles.Joins(pairs[ix[j]], b, c)
          && Triangles.Joins(pairs[ix[k]], a, c)
    ensures Triangles.Loops(pairs, ix)
  {
    BothWays(pairs[ix[i]], a, b);
    BothWays(pairs[ix[j]], b, c);
    BothWays(pairs[ix[k]], a, c);
    hide Triangles.Joins, Triangles.Loops;
    if i == 0 && j == 1 { LoopsAround(pairs, ix, a, b, c); }
    else if i == 0 { LoopsAround(pairs, ix, b, a, c); }
    else if i == 1 && j == 0 { LoopsAround(pairs, ix, c, b, a); }
    else if i == 1 { LoopsAround(pairs, ix, c, a, b); }
    else if j == 0 { LoopsAround(pairs, ix, b, c, a); }
    else { LoopsAround(pairs, ix, a, c, b); }
  }

  lemma BothWays(p: Triangles.Pair, a: Asset, b: Asset)
    requires Triangles.Joins(p, a, b)
    ensures Triangles.Joins(p, b, a)
    ensures a != b ==> p.base != p.quote
    ensures Triangles.Ends(p) == {a, b}
  {}

  lemma Elsewhere(p: Triangles.Pair, q: Triangles.Pair, x: Asset, y: Asset, z: Asset)
    requires Triangles.Joins(p, x, y) && Triangles.Joins(q, y, z) && x != z && x != y
    ensures p != q
  {}

  lemma LoopsAround(pairs: seq<Triangles.Pair>, ix: seq<nat>, x: Asset, y: Asset, z: Asset)
    requires |ix| == 3 && forall n :: 0 <= n < 3 ==> ix[n] < |pairs|
    requires x != y && y != z && z != x && USDT in {x, y, z}
    requires Triangles.Joins(pairs[ix[0]], x, y) && Triangles.Joins(pairs[ix[1]], y, z)
    requires Triangles.Joins(pairs[ix[2]], z, x)
    ensures Triangles.Loops(pairs, ix)
  {
    var p, q, r := pairs[ix[0]], pairs[ix[1]], pairs[ix[2]];
    BothWays(p, x, y);
    BothWays(q, y, z);
    BothWays(r, z, x);
    Elsewhere(p, q, x, y, z);
    Elsewhere(q, r, y, z, x);
    Elsewhere(r, p, z, x, y);
    hide Triangles.Joins, Triangles.Ends;
    assert Triangles.ThreeMarkets(pairs, ix);
    assert Triangles.LoopOver(pairs, ix, x, y, z);
    assert Triangles.Assets(pairs, ix) == {x, y, z};
  }
}
