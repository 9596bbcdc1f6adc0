/**
  Rendering a book as sorted levels, and what the best level of the local book says about the
  exchange (comparePrice, bookLevels and the 50-level snapshot of pkg/binance/binance.go).
*/
module BookLevels {
  import opened Common
  import opened OrderBook
  import opened Sorting
  import DepthFeed

  /** A float64 as far as `<` can tell; rounding plays no part in the order. */
  datatype Float = NaN | NegInf | Finite(r: real) | PosInf

  /** strconv.ParseFloat: None when it returns an error. */
  type Parser = string -> Option<Float>

  predicate FloatLess(a: Float, b: Float) {
    match (a, b)
    case (NaN, _) => false
    case (_, NaN) => false
    case (NegInf, _) => b != NegInf
    case (PosInf, _) => false
    case (Finite(x), Finite(y)) => x < y
    case (Finite(_), _) => b == PosInf
  }

  function ComparePrice(parse: Parser, a: string, b: string): int {
    var fa, fb := parse(a), parse(b);
    if fa.Some? && fb.Some? then
      if FloatLess(fa.value, fb.value) then -1 else if FloatLess(fb.value, fa.value) then 1 else 0
    else if StringLess(a, b) then -1 else if StringLess(b, a) then 1 else 0
  }

  /** The less function bookLevels hands to the sort. */
  predicate Before(parse: Parser, ascending: bool, a: string, b: string) {
    if ascending then ComparePrice(parse, a, b) < 0 else ComparePrice(parse, a, b) > 0
  }

  predicate IsNumber(parse: Parser, p: string) {
    parse(p).Some? && parse(p).value != NaN
  }

  /** No two prices of the set are numbers of different size. */
  ghost predicate NumbersTie(parse: Parser, prices: set<string>) {
    forall x, y :: x in prices && y in prices && parse(x).Some? && parse(y).Some? ==>
      !FloatLess(parse(x).value, parse(y).value)
  }

  /** The price sets comparePrice orders properly.  A price that does not parse may stand, as a string, between
      two that do only if these are in the same order as numbers; and next to a NaN all numbers must tie. */
  ghost predicate Sortable(parse: Parser, prices: set<string>) {
    && (forall u, x, y :: u in prices && x in prices && y in prices ==>
          parse(u).None? && parse(x).Some? && parse(y).Some? && StringLess(x, u) && StringLess(u, y) ==>
            FloatLess(parse(x).value, parse(y).value))
    && ((exists n :: n in prices && parse(n) == Some(NaN)) ==> NumbersTie(parse, prices))
  }

  /** In particular: all numbers, or nothing that parses. */
  lemma UniformPricesSortable(parse: Parser, prices: set<string>)
    requires (forall p :: p in prices ==> IsNumber(parse, p)) || (forall p :: p in prices ==> parse(p).None?)
    ensures Sortable(parse, prices)
  {
  }

  /** The laws of a strict weak order at three prices. */
  predicate OrderedAt(parse: Parser, ascending: bool, a: string, b: string, c: string) {
    && !Before(parse, ascending, a, a)
    && (Before(parse, ascending, a, b) ==> !Before(parse, ascending, b, a))
    && (Before(parse, ascending, a, b) && Before(parse, ascending, b, c) ==> Before(parse, ascending, a, c))
    && (!Before(parse, ascending, a, b) && !Before(parse, ascending, b, c) ==> !Before(parse, ascending, a, c))
  }

  ghost predicate IsStrictWeakOrder(parse: Parser, ascending: bool, prices: set<string>) {
    forall a, b, c :: a in prices && b in prices && c in prices ==> OrderedAt(parse, ascending, a, b, c)
  }

  /** Descending order is ascending order read backwards. */
  lemma Mirror(parse: Parser, a: string, b: string)
    ensures Before(parse, false, a, b) == Before(parse, true, b, a)
  {
    StringLessOrder(a, b, a);
  }

  lemma AscendingOrder(parse: Parser, prices: set<string>, a: string, b: string, c: string)
    requires Sortable(parse, prices) && a in prices && b in prices && c in prices
    ensures OrderedAt(parse, true, a, b, c)
  {
    StringLessOrder(a, b, c);
    StringLessOrder(c, b, a);
    StringLessOrder(a, c, b);
    StringLessOrder(c, a, b);
    StringLessOrder(b, c, a);
    StringLessOrder(b, a, c);
    StringLessOrder(a, a, a);
  }

  lemma StrictWeakOrder(parse: Parser, ascending: bool, prices: set<string>, a: string, b: string, c: string)
    requires Sortable(parse, prices) && a in prices && b in prices && c in prices
    ensures OrderedAt(parse, ascending, a, b, c)
  {
    AscendingOrder(parse, prices, a, b, c);
    AscendingOrder(parse, prices, c, b, a);
    Mirror(parse, a, a);
    Mirror(parse, a, b);
    Mirror(parse, b, a);
    Mirror(parse, b, c);
    Mirror(parse, a, c);
  }

  /** What the order of three prices forces, when one of them does not parse or is NaN. */
  lemma OrderForces(parse: Parser, ascending: bool, x: string, u: string, y: string)
    requires OrderedAt(parse, ascending, x, u, y) && OrderedAt(parse, ascending, y, u, x)
    requires parse(x).Some? && parse(y).Some?
    ensures parse(u).None? && StringLess(x, u) && StringLess(u, y) ==> FloatLess(parse(x).value, parse(y).value)
    ensures parse(u) == Some(NaN) ==> !FloatLess(parse(x).value, parse(y).value)
  {
    Mirror(parse, x, u);
    Mirror(parse, u, y);
    Mirror(parse, x, y);
    Mirror(parse, u, x);
    Mirror(parse, y, u);
    Mirror(parse, y, x);
  }

  /** comparePrice, in either direction, is a strict weak order on a set of prices if and only if the set is
      sortable. */
  lemma StrictWeakOrderIff(parse: Parser, ascending: bool, prices: set<string>)
    ensures IsStrictWeakOrder(parse, ascending, prices) <==> Sortable(parse, prices)
  {
    if Sortable(parse, prices) {
      forall a, b, c | a in prices && b in prices && c in prices ensures OrderedAt(parse, ascending, a, b, c) {
        StrictWeakOrder(parse, ascending, prices, a, b, c);
      }
    }
    if IsStrictWeakOrder(parse, ascending, prices) {
      forall u, x, y | u in prices && x in prices && y in prices && parse(x).Some? && parse(y).Some?
        ensures parse(u).None? && StringLess(x, u) && StringLess(u, y) ==> FloatLess(parse(x).value, parse(y).value)
        ensures parse(u) == Some(NaN) ==> !FloatLess(parse(x).value, parse(y).value)
      {
        OrderForces(parse, ascending, x, u, y);
      }
    }
  }

  /** On mixed prices it is not: one unparsable price closes a cycle. */
  lemma MixedPricesCycle(parse: Parser)
    requires parse("9") == Some(Finite(9.0)) && parse("10") == Some(Finite(10.0)) && parse("1x") == None
    ensures Before(parse, true, "9", "10") && Before(parse, true, "10", "1x") && Before(parse, true, "1x", "9")
  {
    assert "10"[1..] == "0" && "1x"[1..] == "x";
    assert StringLess("10"[1..], "1x"[1..]);
  }

  /** Nor is it when "NaN", which ParseFloat accepts, is among the prices: ties stop being transitive. */
  lemma NaNBreaksTies(parse: Parser)
    requires parse("1") == Some(Finite(1.0)) && parse("2") == Some(Finite(2.0)) && parse("NaN") == Some(NaN)
    ensures !Before(parse, true, "2", "NaN") && !Before(parse, true, "NaN", "1") && Before(parse, true, "1", "2")
    ensures ComparePrice(parse, "2", "NaN") == ComparePrice(parse, "NaN", "1") == 0
  {
    assert FloatLess(Finite(1.0), Finite(2.0));
  }

  // ---------------------------------------------------------------- bookLevels

  ghost predicate DistinctPrices(levels: seq<Level>) {
    forall i, j :: 0 <= i < j < |levels| ==> levels[i].price != levels[j].price
  }

  /** The entries of m, each once, in some order. */
  ghost predicate Permutes(m: Side, levels: seq<Level>) {
    && DistinctPrices(levels)
    && (forall l :: l in levels <==> l.price in m && m[l.price] == l.qty)
  }

  ghost predicate BestFirst(parse: Parser, ascending: bool, levels: seq<Level>) {
    forall i, j :: 0 <= i < j < |levels| ==> !Before(parse, ascending, levels[j].price, levels[i].price)
  }

  ghost function Prices(levels: seq<Level>): set<string> {
    set l | l in levels :: l.price
  }

  function Insert(parse: Parser, ascending: bool, l: Level, levels: seq<Level>): (r: seq<Level>)
    ensures |r| == |levels| + 1
    ensures forall x :: x in r <==> x == l || x in levels
  {
    if levels == [] then [l]
    else if Before(parse, ascending, l.price, levels[0].price) then [l] + levels
    else [levels[0]] + Insert(parse, ascending, l, levels[1..])
  }

  lemma {:induction false} InsertKeepsDistinct(parse: Parser, ascending: bool, l: Level, levels: seq<Level>)
    requires DistinctPrices(levels) && forall x :: x in levels ==> x.price != l.price
    ensures DistinctPrices(Insert(parse, ascending, l, levels))
  {
    if levels != [] && !Before(parse, ascending, l.price, levels[0].price) {
      InsertKeepsDistinct(parse, ascending, l, levels[1..]);
      var rest := Insert(parse, ascending, l, levels[1..]);
      forall x | x in rest ensures x.price != levels[0].price {
        if x != l {
          var i :| 0 <= i < |levels[1..]| && levels[1..][i] == x;
          assert levels[i + 1] == x;
        }
      }
    }
  }

  /** A level put before the best of a list sorted best first is not beaten by any level of the list. */
  lemma HeadInserted(parse: Parser, ascending: bool, l: Level, levels: seq<Level>, prices: set<string>, j: nat)
    requires Sortable(parse, prices) && l.price in prices && Prices(levels) <= prices
    requires BestFirst(parse, ascending, levels) && j < |levels|
    requires Before(parse, ascending, l.price, levels[0].price)
    ensures !Before(parse, ascending, levels[j].price, l.price)
  {
    assert levels[0].price in Prices(levels) && levels[j].price in Prices(levels);
    StrictWeakOrder(parse, ascending, prices, levels[j].price, l.price, levels[0].price);
    StrictWeakOrder(parse, ascending, prices, l.price, levels[0].price, l.price);
  }

  /** A level put further down leaves the best one unbeaten. */
  lemma TailInserted(parse: Parser, ascending: bool, l: Level, levels: seq<Level>, j: nat)
    requires BestFirst(parse, ascending, levels) && levels != []
    requires !Before(parse, ascending, l.price, levels[0].price) && j <= |levels| - 1
    ensures !Before(parse, ascending, Insert(parse, ascending, l, levels[1..])[j].price, levels[0].price)
  {
    var x := Insert(parse, ascending, l, levels[1..])[j];
    assert x in Insert(parse, ascending, l, levels[1..]);
    if x != l {
      var i :| 0 <= i < |levels[1..]| && levels[1..][i] == x;
      assert levels[i + 1] == x;
    }
  }

  lemma {:induction false} InsertKeepsOrder(parse: Parser, ascending: bool, l: Level, levels: seq<Level>,
                                            prices: set<string>)
    requires Sortable(parse, prices) && l.price in prices && Prices(levels) <= prices
    requires BestFirst(parse, ascending, levels)
    ensures BestFirst(parse, ascending, Insert(parse, ascending, l, levels))
  {
    if levels != [] {
      if Before(parse, ascending, l.price, levels[0].price) {
        forall j | 0 <= j < |levels| ensures !Before(parse, ascending, levels[j].price, l.price) {
          HeadInserted(parse, ascending, l, levels, prices, j);
        }
      } else {
        assert Prices(levels[1..]) <= Prices(levels);
        InsertKeepsOrder(parse, ascending, l, levels[1..], prices);
        forall j | 0 <= j <= |levels| - 1
          ensures !Before(parse, ascending, Insert(parse, ascending, l, levels[1..])[j].price, levels[0].price)
        {
          TailInserted(parse, ascending, l, levels, j);
        }
      }
    }
  }

  /** Stands for sort.Slice: a permutation always, ordered whenever the prices are sortable. */
  method SortSlice(parse: Parser, ascending: bool, levels: seq<Level>) returns (r: seq<Level>)
    requires DistinctPrices(levels)
    ensures DistinctPrices(r) && forall l :: l in r <==> l in levels
    ensures Sortable(parse, Prices(levels)) ==> BestFirst(parse, ascending, r)
  {
    r := [];
    for i := 0 to |levels|
      invariant DistinctPrices(r) && forall l :: l in r <==> l in levels[..i]
      invariant Sortable(parse, Prices(levels)) ==> BestFirst(parse, ascending, r)
    {
      assert levels[..i + 1] == levels[..i] + [levels[i]];
      InsertKeepsDistinct(parse, ascending, levels[i], r);
      if Sortable(parse, Prices(levels)) {
        assert levels[i] in levels;
        InsertKeepsOrder(parse, ascending, levels[i], r, Prices(levels));
      }
      r := Insert(parse, ascending, levels[i], r);
    }
    assert levels[..|levels|] == levels;
  }

  method BookLevels(parse: Parser, m: Side, ascending: bool) returns (levels: seq<Level>)
    ensures Permutes(m, levels)
    ensures Sortable(parse, m.Keys) ==> BestFirst(parse, ascending, levels)
  {
    levels := [];
    var todo := m.Keys;
    while todo != {}
      invariant todo <= m.Keys && DistinctPrices(levels)
      invariant forall l :: l in levels <==> l.price in m && l.price !in todo && m[l.price] == l.qty
      decreases todo
    {
      var p :| p in todo;
      levels := levels + [Level(p, m[p])];
      todo := todo - {p};
    }
    assert Prices(levels) == m.Keys by {
      forall p | p in m.Keys ensures p in Prices(levels) {
        assert Level(p, m[p]) in levels;
      }
    }
    levels := SortSlice(parse, ascending, levels);
  }

  /** A permutation has as many levels as the map has entries. */
  lemma {:induction false} PermutesCounts(m: Side, levels: seq<Level>)
    requires Permutes(m, levels)
    ensures |levels| == |m|
  {
    assert forall p :: p in m ==> Level(p, m[p]) in levels;
    if levels == [] {
      assert m.Keys == {};
    } else {
      var n := |levels| - 1;
      var l, init, rest := levels[n], levels[..n], m - {levels[n].price};
      assert l in levels;
      forall x ensures x in init <==> x.price in rest && rest[x.price] == x.qty {
        assert x in levels <==> x in init || x == l;
      }
      PermutesCounts(rest, init);
      assert m.Keys == rest.Keys + {l.price};
    }
  }

  /** Rendered numbers fall for bids and rise for asks. */
  lemma RenderedInOrder(parse: Parser, levels: seq<Level>, i: nat, j: nat, x: real, y: real)
    requires i < j < |levels| && parse(levels[i].price) == Some(Finite(x)) && parse(levels[j].price) == Some(Finite(y))
    ensures BestFirst(parse, false, levels) ==> x >= y
    ensures BestFirst(parse, true, levels) ==> x <= y
  {
  }

  // ---------------------------------------------------------------- the best level

  /** The limit query parameter of the snapshot request. */
  const SNAPSHOT_LIMIT := 50

  predicate Better(parse: Parser, s: SideName, a: string, b: string) {
    Before(parse, s == Asks, a, b)
  }

  /** On numbers better means higher for bids and lower for asks, infinities included. */
  lemma BetterIff(parse: Parser, a: string, b: string, x: real, y: real)
    requires parse(a) == Some(Finite(x)) && parse(b) == Some(Finite(y))
    ensures Better(parse, Bids, a, b) <==> x > y
    ensures Better(parse, Asks, a, b) <==> x < y
    ensures FloatLess(NegInf, Finite(x)) && FloatLess(Finite(x), PosInf) && FloatLess(NegInf, PosInf)
    ensures !FloatLess(Finite(x), NegInf) && !FloatLess(PosInf, Finite(x)) && !FloatLess(PosInf, NegInf)
  {
  }

  /** As soon as one of two prices does not parse they compare as strings. */
  lemma BeforeAsStrings(parse: Parser, a: string, b: string)
    requires parse(a).None? || parse(b).None?
    ensures Before(parse, true, a, b) <==> exists i: nat :: LessAt(a, b, i)
    ensures Before(parse, false, a, b) <==> exists i: nat :: LessAt(b, a, i)
  {
    StringLessIff(a, b);
    StringLessIff(b, a);
    StringLessOrder(a, b, a);
  }

  ghost predicate NumericFeed(parse: Parser, h: History) {
    forall j: nat :: IsNumber(parse, h(j).price)
  }

  /** `seed` is the SNAPSHOT_LIMIT best levels of the exchange at k: whatever it omits is worse than all of it. */
  ghost predicate TopLevels(parse: Parser, h: History, s: SideName, k: nat, seed: Side) {
    && SubMap(h, s, seed, k)
    && forall p :: At(h, s, p, k).Some? && p !in seed ==>
         |seed| >= SNAPSHOT_LIMIT && forall q :: q in seed ==> Better(parse, s, q, p)
  }

  predicate Listed(pairs: seq<seq<string>>, p: string) {
    exists i :: 0 <= i < |pairs| && |pairs[i]| >= 2 && pairs[i][0] == p
  }

  /** A response as the request with limit=50 asks for it: distinct live levels with their quantities, and
      whatever it leaves out is worse than all of its 50. */
  ghost predicate TopRows(parse: Parser, h: History, s: SideName, k: nat, pairs: seq<seq<string>>) {
    && (forall i :: 0 <= i < |pairs| ==> |pairs[i]| >= 2 && At(h, s, pairs[i][0], k) == Some(pairs[i][1]))
    && (forall i, j :: 0 <= i < j < |pairs| ==> pairs[i][0] != pairs[j][0])
    && forall p :: At(h, s, p, k).Some? && !Listed(pairs, p) ==>
         |pairs| >= 50 && forall i :: 0 <= i < |pairs| ==> Better(parse, s, pairs[i][0], p)
  }

  /** Distinct rows become as many levels. */
  lemma {:induction false} RowsCount(pairs: seq<seq<string>>)
    requires forall i :: 0 <= i < |pairs| ==> |pairs[i]| >= 2 && pairs[i][1] != "0"
    requires forall i, j :: 0 <= i < j < |pairs| ==> pairs[i][0] != pairs[j][0]
    ensures |LevelMap(pairs)| == |pairs|
    ensures forall p :: p in LevelMap(pairs) <==> Listed(pairs, p)
  {
    if pairs != [] {
      var n := |pairs| - 1;
      RowsCount(pairs[..n]);
      assert !Listed(pairs[..n], pairs[n][0]);
      forall p ensures Listed(pairs, p) <==> Listed(pairs[..n], p) || p == pairs[n][0] {
        if i :| 0 <= i < |pairs| && |pairs[i]| >= 2 && pairs[i][0] == p {
          assert i == n || pairs[..n][i] == pairs[i];
        }
      }
    }
  }

  /** So the map made of such a response is the best 50 levels. */
  lemma TopRowsGiveTopLevels(parse: Parser, h: History, s: SideName, k: nat, pairs: seq<seq<string>>)
    requires LiveQuantities(h) && TopRows(parse, h, s, k, pairs)
    ensures TopLevels(parse, h, s, k, LevelMap(pairs))
  {
    forall i | 0 <= i < |pairs| ensures pairs[i][1] != "0" {
      LiveValue(h, s, pairs[i][0], k);
    }
    RowsCount(pairs);
    assert SnapshotRows(h, s, k, pairs);
    LevelMapRows(h, s, k, pairs);
  }

  /** The prices a seed speaks for: all of them if it is short, else those at or better than its worst. */
  ghost predicate Covered(parse: Parser, s: SideName, seed: Side, p: string) {
    |seed| < SNAPSHOT_LIMIT || exists w :: w in seed && !Better(parse, s, w, p)
  }

  lemma {:induction false} LivePricesAreNumbers(parse: Parser, h: History, s: SideName, p: string, k: nat)
    requires NumericFeed(parse, h) && At(h, s, p, k).Some?
    ensures IsNumber(parse, p)
  {
    if !(h(k).side == s && h(k).price == p) {
      LivePricesAreNumbers(parse, h, s, p, k - 1);
    }
  }

  /** Inside the seed's coverage the local side stays exact for as long as it is followed, up to removals that
      were not recognised, and lacks no live level. */
  lemma CoverageStaysExact(parse: Parser, h: History, s: SideName, m: Side, last: nat, seed: Seed, from: int,
                           tok: string, p: string)
    requires SideTracks(h, s, m, last, seed, from, tok)
    requires TopLevels(parse, h, s, seed.id, seed.On(s))
    requires Covered(parse, s, seed.On(s), p)
    ensures ExactAt(h, s, m, p, last) <==> !IsPhantom(h, s, last, from, tok, p)
    ensures At(h, s, p, last).Some? ==> p in m
  {
    assert ExactAt(h, s, seed.On(s), p, seed.id);
    RightAtIff(h, s, m, last, seed, from, tok, p);
  }

  lemma HeadIsBest(parse: Parser, ascending: bool, m: Side, levels: seq<Level>, p: string)
    requires Permutes(m, levels) && BestFirst(parse, ascending, levels) && levels != []
    ensures p in m ==> !Before(parse, ascending, p, levels[0].price)
  {
    StringLessOrder(p, p, p);
    if p in m {
      assert Level(p, m[p]) in levels;
    }
  }

  /** The exact law of the first rendered level: no live level of the exchange beats it if and only if none
      beats it among those the seed left out and no update has been about since. */
  lemma FirstLevelBestIff(parse: Parser, h: History, s: SideName, m: Side, last: nat, seed: Seed, from: int,
                          tok: string, levels: seq<Level>)
    requires SideTracks(h, s, m, last, seed, from, tok)
    requires Permutes(m, levels) && BestFirst(parse, s == Asks, levels) && levels != []
    ensures (forall p :: At(h, s, p, last).Some? ==> !Better(parse, s, p, levels[0].price)) <==>
              forall p :: Omitted(h, s, seed, p) && !Touched(h, s, p, from, last) ==>
                !Better(parse, s, p, levels[0].price)
  {
    forall p
      ensures At(h, s, p, last).Some? && Better(parse, s, p, levels[0].price) <==>
                Omitted(h, s, seed, p) && !Touched(h, s, p, from, last) && Better(parse, s, p, levels[0].price)
    {
      MissingIff(h, s, m, last, seed, from, tok, p);
      HeadIsBest(parse, s == Asks, m, levels, p);
    }
  }

  /** What beats a covered price is covered. */
  lemma BetterIsCovered(parse: Parser, h: History, s: SideName, seed: Seed, p: string, top: string)
    requires NumericFeed(parse, h) && SubMap(h, s, seed.On(s), seed.id)
    requires Covered(parse, s, seed.On(s), top) && Better(parse, s, p, top)
    requires IsNumber(parse, p) && IsNumber(parse, top)
    ensures Covered(parse, s, seed.On(s), p)
  {
    if |seed.On(s)| >= SNAPSHOT_LIMIT {
      var w :| w in seed.On(s) && !Better(parse, s, w, top);
      LivePricesAreNumbers(parse, h, s, w, seed.id);
      UniformPricesSortable(parse, {w, p, top});
      StrictWeakOrder(parse, s == Asks, {w, p, top}, w, p, top);
      StrictWeakOrder(parse, s == Asks, {w, p, top}, w, top, p);
      StrictWeakOrder(parse, s == Asks, {w, p, top}, p, top, w);
    }
  }

  /** The first rendered level is the exchange's true best, with its true quantity, as long as it lies
      inside the seed's coverage and is no level whose removal was not recognised. */
  lemma FirstLevelIsTrueBest(parse: Parser, h: History, s: SideName, m: Side, last: nat, seed: Seed, from: int,
                             tok: string, levels: seq<Level>, p: string)
    requires NumericFeed(parse, h)
    requires SideTracks(h, s, m, last, seed, from, tok)
    requires TopLevels(parse, h, s, seed.id, seed.On(s))
    requires Permutes(m, levels) && BestFirst(parse, s == Asks, levels) && levels != []
    requires Covered(parse, s, seed.On(s), levels[0].price) && IsNumber(parse, levels[0].price)
    ensures At(h, s, levels[0].price, last) ==
              if IsPhantom(h, s, last, from, tok, levels[0].price) then None else Some(levels[0].qty)
    ensures At(h, s, p, last).Some? ==> !Better(parse, s, p, levels[0].price)
  {
    var top := levels[0].price;
    assert levels[0] in levels;
    RightAtIff(h, s, m, last, seed, from, tok, top);
    if At(h, s, p, last).Some? && Better(parse, s, p, top) {
      LivePricesAreNumbers(parse, h, s, p, last);
      BetterIsCovered(parse, h, s, seed, p, top);
      HeadIsBest(parse, s == Asks, m, levels, p);
      CoverageStaysExact(parse, h, s, m, last, seed, from, tok, p);
    }
  }

  /** Every level of a followed side has a number for its price. */
  lemma HeldPricesAreNumbers(parse: Parser, h: History, s: SideName, m: Side, last: nat, seed: Seed, from: int,
                             tok: string, p: string)
    requires NumericFeed(parse, h) && SideTracks(h, s, m, last, seed, from, tok) && p in m
    ensures IsNumber(parse, p)
  {
    assert Lookup(m, p).Some?;
    if j: nat :| from < j <= last && 0 < j && h(j).side == s && h(j).price == p {
      assert IsNumber(parse, h(j).price);
    } else {
      LivePricesAreNumbers(parse, h, s, p, seed.id);
    }
  }

  // ---------------------------------------------------------------- over whole runs

  ghost predicate TopFetch(parse: Parser, feed: DepthFeed.Feed, step: DepthFeed.Step) {
    step.Fetch? && step.resp.Some? ==>
      var r := step.resp.value;
      && 0 <= r.id
      && TopRows(parse, feed(step.symbol), Bids, r.id, r.bids)
      && TopRows(parse, feed(step.symbol), Asks, r.id, r.asks)
  }

  ghost predicate TopRun(parse: Parser, feed: DepthFeed.Feed, steps: seq<DepthFeed.Step>) {
    forall i :: 0 <= i < |steps| ==> TopFetch(parse, feed, steps[i])
  }

  ghost predicate TopSeed(parse: Parser, feed: DepthFeed.Feed, symbol: string, e: DepthFeed.Entry) {
    e.book.snapshotted ==>
      && TopLevels(parse, feed(symbol), Bids, e.seed.id, e.seed.bids)
      && TopLevels(parse, feed(symbol), Asks, e.seed.id, e.seed.asks)
  }

  ghost predicate SeedsAreTop(parse: Parser, feed: DepthFeed.Feed, m: DepthFeed.Manager) {
    forall symbol :: symbol in m.books ==> TopSeed(parse, feed, symbol, m.books[symbol])
  }

  lemma NextSeedsAreTop(parse: Parser, feed: DepthFeed.Feed, m: DepthFeed.Manager, step: DepthFeed.Step)
    requires DepthFeed.AllLive(feed)
    requires SeedsAreTop(parse, feed, m) && TopFetch(parse, feed, step)
    ensures SeedsAreTop(parse, feed, DepthFeed.Next(m, step))
  {
    var m' := DepthFeed.Next(m, step);
    if step.Fetch? && step.resp.Some? {
      var r := step.resp.value;
      TopRowsGiveTopLevels(parse, feed(step.symbol), Bids, r.id, r.bids);
      TopRowsGiveTopLevels(parse, feed(step.symbol), Asks, r.id, r.asks);
    }
    forall symbol | symbol in m'.books ensures TopSeed(parse, feed, symbol, m'.books[symbol]) {
      if symbol in m.books {
        assert TopSeed(parse, feed, symbol, m.books[symbol]);
      }
    }
  }

  /** Snapshots that are the best 50 levels stay the seeds, whatever else happens. */
  lemma {:induction false} RunSeedsAreTop(parse: Parser, feed: DepthFeed.Feed, steps: seq<DepthFeed.Step>)
    requires DepthFeed.AllLive(feed) && TopRun(parse, feed, steps)
    ensures SeedsAreTop(parse, feed, DepthFeed.Run(steps))
  {
    if steps != [] {
      var init, last := steps[..|steps| - 1], steps[|steps| - 1];
      assert TopRun(parse, feed, init) by {
        assert forall i :: 0 <= i < |init| ==> init[i] == steps[i];
      }
      assert TopFetch(parse, feed, last);
      RunSeedsAreTop(parse, feed, init);
      NextSeedsAreTop(parse, feed, DepthFeed.Run(init), last);
    }
  }

  /** `levels` is what bookLevels may render of a side. */
  ghost predicate Renders(parse: Parser, s: SideName, m: Side, levels: seq<Level>) {
    Permutes(m, levels) && BestFirst(parse, s == Asks, levels) && levels != []
  }

  /** Over every run: no live level of the exchange at lastUpdateID beats the first level rendered of a seeded
      side if and only if none beats it among those its snapshot left out and no update has been about since. */
  lemma RenderedBestIff(parse: Parser, feed: DepthFeed.Feed, tok: string, steps: seq<DepthFeed.Step>,
                        symbol: string, s: SideName, levels: seq<Level>)
    requires DepthFeed.AllLive(feed) && DepthFeed.FaithfulRun(feed, tok, steps) && DepthFeed.Seeded(steps, symbol)
    requires Renders(parse, s, DepthFeed.Run(steps).books[symbol].book.On(s), levels)
    ensures var e, h := DepthFeed.Run(steps).books[symbol], feed(symbol);
            var k, seed, from := e.book.lastUpdateID, e.seed, e.from;
            && 0 <= k
            && ((forall p :: At(h, s, p, k).Some? ==> !Better(parse, s, p, levels[0].price)) <==>
                forall p :: Omitted(h, s, seed, p) && !Touched(h, s, p, from, k) ==>
                  !Better(parse, s, p, levels[0].price))
  {
    DepthFeed.RunTracks(feed, tok, steps);
    var e := DepthFeed.Run(steps).books[symbol];
    FirstLevelBestIff(parse, feed(symbol), s, e.book.On(s), e.book.lastUpdateID, e.seed, e.from, tok, levels);
  }

  /** Over every run whose snapshots are the best 50 levels: the first level rendered of a seeded side is the
      exchange's best at lastUpdateID while it is inside the coverage of the last snapshot, unless it is a level
      whose removal was not recognised. */
  lemma RenderedBestInEveryRun(parse: Parser, feed: DepthFeed.Feed, tok: string, steps: seq<DepthFeed.Step>,
                               symbol: string, s: SideName, levels: seq<Level>, p: string)
    requires DepthFeed.AllLive(feed) && NumericFeed(parse, feed(symbol))
    requires DepthFeed.FaithfulRun(feed, tok, steps) && TopRun(parse, feed, steps)
    requires DepthFeed.Seeded(steps, symbol)
    requires Renders(parse, s, DepthFeed.Run(steps).books[symbol].book.On(s), levels)
    requires Covered(parse, s, DepthFeed.Run(steps).books[symbol].seed.On(s), levels[0].price)
    ensures var e, h := DepthFeed.Run(steps).books[symbol], feed(symbol);
            var k, seed, from := e.book.lastUpdateID, e.seed, e.from;
            && 0 <= k
            && At(h, s, levels[0].price, k) ==
                 (if IsPhantom(h, s, k, from, tok, levels[0].price) then None else Some(levels[0].qty))
            && (At(h, s, p, k).Some? ==> !Better(parse, s, p, levels[0].price))
  {
    DepthFeed.RunTracks(feed, tok, steps);
    RunSeedsAreTop(parse, feed, steps);
    var e := DepthFeed.Run(steps).books[symbol];
    var h, m, k := feed(symbol), e.book.On(s), e.book.lastUpdateID;
    assert TopSeed(parse, feed, symbol, e);
    assert levels[0] in levels;
    HeldPricesAreNumbers(parse, h, s, m, k, e.seed, e.from, tok, levels[0].price);
    FirstLevelIsTrueBest(parse, h, s, m, k, e.seed, e.from, tok, levels, p);
  }
}
