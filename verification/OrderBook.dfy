/**
  The locally maintained order book of one symbol (pkg/binance/binance.go), and the
  exchange history it is meant to follow.

  The exchange is an unbounded history of single-level updates, numbered from 1; a book
  at update id k is the fold of the first k of them.  A diff frame [U, u] carries, for
  every price touched in U..u, the value that price has at u.
*/
module OrderBook {
  import opened Common

  datatype Level = Level(price: string, qty: string)

  /** price -> quantity, both kept as the decimal strings the venue sends. */
  type Side = map<string, string>

  datatype SideName = Bids | Asks

  // ---------------------------------------------------------------- the exchange

  /** One exchange update: the new quantity at a price, or None when the level goes away. */
  datatype Update = Update(side: SideName, price: string, qty: Option<string>)

  /** Update number i is h(i), for i >= 1. */
  type History = nat -> Update

  /** What the exchange holds at a price after its first k updates. */
  ghost function At(h: History, s: SideName, p: string, k: nat): Option<string> {
    if k == 0 then None
    else if h(k).side == s && h(k).price == p then h(k).qty
    else At(h, s, p, k - 1)
  }

  /** Some update numbered in (lo, hi] is about this price. */
  ghost predicate Touched(h: History, s: SideName, p: string, lo: int, hi: int) {
    exists j: nat :: lo < j <= hi && 0 < j && h(j).side == s && h(j).price == p
  }

  lemma {:induction false} UntouchedIsStable(h: History, s: SideName, p: string, lo: nat, hi: nat)
    requires lo <= hi && !Touched(h, s, p, lo, hi)
    ensures At(h, s, p, hi) == At(h, s, p, lo)
    decreases hi
  {
    if lo < hi {
      UntouchedIsStable(h, s, p, lo, hi - 1);
    }
  }

  // ---------------------------------------------------------------- the code's maps

  /** The quantities applyLevels treats as "delete this level". */
  predicate IsRemoval(qty: string) {
    qty == "0" || qty == ""
  }

  function ApplyLevel(m: Side, l: Level): Side {
    if IsRemoval(l.qty) then m - {l.price} else m[l.price := l.qty]
  }

  function ApplyLevels(m: Side, levels: seq<Level>): Side {
    if levels == [] then m
    else ApplyLevel(ApplyLevels(m, levels[..|levels| - 1]), levels[|levels| - 1])
  }

  /** Rows with fewer than two columns are skipped; only "0" is dropped here, not "". */
  function LevelMap(pairs: seq<seq<string>>): Side {
    if pairs == [] then map[]
    else
      var m := LevelMap(pairs[..|pairs| - 1]);
      var p := pairs[|pairs| - 1];
      if |p| < 2 || p[1] == "0" then m else m[p[0] := p[1]]
  }

  method ApplyLevelsLoop(m: Side, levels: seq<Level>) returns (r: Side)
    ensures r == ApplyLevels(m, levels)
  {
    r := m;
    for i := 0 to |levels|
      invariant r == ApplyLevels(m, levels[..i])
    {
      assert levels[..i + 1][..i] == levels[..i];
      if levels[i].qty == "0" || levels[i].qty == "" {
        r := r - {levels[i].price};
      } else {
        r := r[levels[i].price := levels[i].qty];
      }
    }
    assert levels[..|levels|] == levels;
  }

  method LevelMapLoop(pairs: seq<seq<string>>) returns (r: Side)
    ensures r == LevelMap(pairs)
  {
    r := map[];
    for i := 0 to |pairs|
      invariant r == LevelMap(pairs[..i])
    {
      assert pairs[..i + 1][..i] == pairs[..i];
      if |pairs[i]| < 2 {
        continue;
      }
      if pairs[i][1] != "0" {
        r := r[pairs[i][0] := pairs[i][1]];
      }
    }
    assert pairs[..|pairs|] == pairs;
  }

  /** The last level at a price. */
  ghost predicate LastAt(levels: seq<Level>, i: nat, p: string) {
    i < |levels| && levels[i].price == p && forall j :: i < j < |levels| ==> levels[j].price != p
  }

  /** The last level at a price decides: gone for "0" or "", else its quantity.  A price without a level is
      untouched. */
  lemma {:induction false} LastLevelWins(m: Side, levels: seq<Level>, i: nat, p: string)
    requires LastAt(levels, i, p)
    ensures Lookup(ApplyLevels(m, levels), p) ==
              if levels[i].qty == "0" || levels[i].qty == "" then None else Some(levels[i].qty)
  {
    var init := levels[..|levels| - 1];
    if i < |init| {
      assert init[i] == levels[i] && forall j :: i < j < |init| ==> init[j] == levels[j];
      LastLevelWins(m, init, i, p);
    }
  }

  /** Row i stores a quantity at p: it has both columns and the quantity is not "0". */
  predicate Stores(pairs: seq<seq<string>>, i: nat, p: string) {
    i < |pairs| && |pairs[i]| >= 2 && pairs[i][0] == p && pairs[i][1] != "0"
  }

  ghost predicate LastRow(pairs: seq<seq<string>>, i: nat, p: string) {
    Stores(pairs, i, p) && forall j :: i < j < |pairs| ==> !Stores(pairs, j, p)
  }

  /** The snapshot's map holds exactly the rows: at each price the quantity of the last row that stores one. */
  lemma {:induction false} LevelMapHolds(pairs: seq<seq<string>>, p: string)
    ensures p in LevelMap(pairs) <==> exists i: nat :: LastRow(pairs, i, p)
    ensures forall i: nat :: LastRow(pairs, i, p) ==> Lookup(LevelMap(pairs), p) == Some(pairs[i][1])
  {
    if pairs != [] {
      var n := |pairs| - 1;
      var init := pairs[..n];
      LevelMapHolds(init, p);
      assert forall i :: 0 <= i < n ==> (Stores(init, i, p) <==> Stores(pairs, i, p));
      if Stores(pairs, n, p) {
        assert LastRow(pairs, n, p);
      } else {
        assert forall i: nat :: LastRow(init, i, p) <==> LastRow(pairs, i, p);
      }
    }
  }

  ghost predicate Mentions(levels: seq<Level>, p: string) {
    exists l :: l in levels && l.price == p
  }

  /** A price no level mentions keeps its value; a price whose every mention carries q ends up
      absent when q is a removal token and at q otherwise. */
  lemma {:induction false} ApplyLevelsAt(m: Side, levels: seq<Level>, p: string, q: string)
    requires forall l :: l in levels && l.price == p ==> l.qty == q
    ensures !Mentions(levels, p) ==> Lookup(ApplyLevels(m, levels), p) == Lookup(m, p)
    ensures Mentions(levels, p) ==>
              Lookup(ApplyLevels(m, levels), p) == if IsRemoval(q) then None else Some(q)
  {
    if levels != [] {
      var init, last := levels[..|levels| - 1], levels[|levels| - 1];
      assert levels == init + [last];
      ApplyLevelsAt(m, init, p, q);
    }
  }

  // ---------------------------------------------------------------- what frames carry

  /** How a feed with removal token `tok` writes down a value. */
  predicate Encodes(tok: string, qty: string, v: Option<string>) {
    match v
    case None => qty == tok
    case Some(q) => qty == q
  }

  /** Quantities of levels that exist are never removal tokens. */
  ghost predicate LiveQuantities(h: History) {
    forall j: nat :: h(j).qty.Some? ==> !IsRemoval(h(j).qty.value)
  }

  /** `levels` is one side of a faithful diff frame covering updates (before, final]: exactly the touched
      prices, each with its value at `final`. */
  ghost predicate Carries(h: History, s: SideName, before: int, final: nat, levels: seq<Level>, tok: string) {
    && (forall l :: l in levels ==>
          Touched(h, s, l.price, before, final) && Encodes(tok, l.qty, At(h, s, l.price, final)))
    && (forall p :: Touched(h, s, p, before, final) ==> Mentions(levels, p))
  }

  /** `pairs` is one side of a REST snapshot taken at update id k: some of the live levels. */
  ghost predicate SnapshotRows(h: History, s: SideName, k: nat, pairs: seq<seq<string>>) {
    forall r :: r in pairs && |r| >= 2 ==> At(h, s, r[0], k) == Some(r[1])
  }

  // ---------------------------------------------------------------- tracking

  ghost predicate SubMap(h: History, s: SideName, m: Side, k: nat) {
    forall p :: p in m ==> At(h, s, p, k) == Some(m[p])
  }

  ghost predicate ExactAt(h: History, s: SideName, m: Side, p: string, k: nat) {
    Lookup(m, p) == At(h, s, p, k)
  }

  /** The snapshot a book was last seeded from. */
  datatype Seed = Seed(id: nat, bids: Side, asks: Side) {
    function On(s: SideName): Side {
      if s == Bids then bids else asks
    }
  }

  /** What a followed side holds where the exchange has v: a removal the code does not recognise leaves a level
      whose quantity is the token. */
  function Held(tok: string, v: Option<string>): Option<string> {
    if v.None? && !IsRemoval(tok) then Some(tok) else v
  }

  /** What one side holds at update id `last`, price by price, for a feed with removal token tok.  `from` is the
      update id the followed range reaches back to: the least of the seed's id and of the ids just before the
      diffs applied since.  A price touched in (from, last] is at the exchange's value, as far as the token
      tells; any other is as the seed had it. */
  ghost predicate SideTracks(h: History, s: SideName, m: Side, last: nat, seed: Seed, from: int, tok: string) {
    && from <= seed.id <= last
    && SubMap(h, s, seed.On(s), seed.id)
    && forall p ::
         Lookup(m, p) == if Touched(h, s, p, from, last) then Held(tok, At(h, s, p, last)) else Lookup(seed.On(s), p)
  }

  /** The exact law of a followed side.  It is right at a price, about presence and absence alike, if and only if
      an update in the followed range is about it and no unrecognised removal came last, or none is and the seed
      was right; and whatever level it holds is the exchange's or one whose removal was not recognised. */
  lemma RightAtIff(h: History, s: SideName, m: Side, last: nat, seed: Seed, from: int, tok: string, p: string)
    requires SideTracks(h, s, m, last, seed, from, tok)
    ensures ExactAt(h, s, m, p, last) <==>
              if Touched(h, s, p, from, last) then IsRemoval(tok) || At(h, s, p, last).Some?
              else ExactAt(h, s, seed.On(s), p, seed.id)
    ensures p in m ==>
              At(h, s, p, last) == if IsPhantom(h, s, last, from, tok, p) then None else Some(m[p])
  {
    assert p in m ==> Lookup(m, p) == Some(m[p]);
    assert p in seed.On(s) ==> ExactAt(h, s, seed.On(s), p, seed.id);
    if !Touched(h, s, p, from, last) {
      assert !Touched(h, s, p, seed.id, last);
      UntouchedIsStable(h, s, p, seed.id, last);
    }
  }

  /** The level went away in the followed range with a token the code does not know. */
  ghost predicate IsPhantom(h: History, s: SideName, last: nat, from: int, tok: string, p: string) {
    Touched(h, s, p, from, last) && At(h, s, p, last).None? && !IsRemoval(tok)
  }

  /** The seed left out a level the exchange held. */
  ghost predicate Omitted(h: History, s: SideName, seed: Seed, p: string) {
    At(h, s, p, seed.id).Some? && p !in seed.On(s)
  }

  /** A live level is missing from the local side exactly when the seed omitted it and no update in the
      followed range is about it; a level that is gone is still there exactly when its removal was not
      recognised. */
  lemma MissingIff(h: History, s: SideName, m: Side, last: nat, seed: Seed, from: int, tok: string, p: string)
    requires SideTracks(h, s, m, last, seed, from, tok)
    ensures At(h, s, p, last).Some? && p !in m <==> Omitted(h, s, seed, p) && !Touched(h, s, p, from, last)
    ensures At(h, s, p, last).None? && p in m <==> IsPhantom(h, s, last, from, tok, p)
  {
    RightAtIff(h, s, m, last, seed, from, tok, p);
    if !Touched(h, s, p, from, last) {
      assert !Touched(h, s, p, seed.id, last);
      UntouchedIsStable(h, s, p, seed.id, last);
    }
  }

  /** The local side is the full book exactly when every level the seed omitted has been touched and every
      removal was recognised. */
  lemma FullBookIff(h: History, s: SideName, m: Side, last: nat, seed: Seed, from: int, tok: string)
    requires SideTracks(h, s, m, last, seed, from, tok)
    ensures (forall p :: ExactAt(h, s, m, p, last)) <==>
              forall p ::
                && (Omitted(h, s, seed, p) ==> Touched(h, s, p, from, last))
                && !IsPhantom(h, s, last, from, tok, p)
  {
    forall p
      ensures ExactAt(h, s, m, p, last) <==>
                && (Omitted(h, s, seed, p) ==> Touched(h, s, p, from, last))
                && !IsPhantom(h, s, last, from, tok, p)
    {
      RightAtIff(h, s, m, last, seed, from, tok, p);
      assert p in seed.On(s) ==> ExactAt(h, s, seed.On(s), p, seed.id);
    }
  }

  lemma {:induction false} LevelMapRows(h: History, s: SideName, k: nat, pairs: seq<seq<string>>)
    requires SnapshotRows(h, s, k, pairs)
    ensures SubMap(h, s, LevelMap(pairs), k)
  {
    if pairs != [] {
      var init, last := pairs[..|pairs| - 1], pairs[|pairs| - 1];
      assert pairs == init + [last];
      LevelMapRows(h, s, k, init);
    }
  }

  lemma {:induction false} LiveValue(h: History, s: SideName, p: string, k: nat)
    requires LiveQuantities(h)
    ensures At(h, s, p, k).Some? ==> !IsRemoval(At(h, s, p, k).value)
  {
    if k != 0 {
      LiveValue(h, s, p, k - 1);
    }
  }

  /** Overlapping ranges are harmless: applying a diff [first, final] to a side at `last`, with
      before <= last < final, gives the side's value at u at every touched price, as far as the removal token
      tells, and changes nothing elsewhere. */
  lemma DiffAtPrice(h: History, s: SideName, m: Side, last: nat, before: int, final: nat, levels: seq<Level>,
                    tok: string, p: string)
    requires LiveQuantities(h)
    requires before <= last < final
    requires Carries(h, s, before, final, levels, tok)
    ensures Touched(h, s, p, before, final) ==> Lookup(ApplyLevels(m, levels), p) == Held(tok, At(h, s, p, final))
    ensures !Touched(h, s, p, before, final) ==>
              Lookup(ApplyLevels(m, levels), p) == Lookup(m, p) && At(h, s, p, final) == At(h, s, p, last)
  {
    LiveValue(h, s, p, final);
    var v := At(h, s, p, final);
    ApplyLevelsAt(m, levels, p, if v.Some? then v.value else tok);
    if !Touched(h, s, p, before, final) {
      UntouchedIsStable(h, s, p, last, final);
    }
  }

  lemma DiffKeepsTracking(h: History, s: SideName, m: Side, last: nat, seed: Seed, from: int,
                          before: int, final: nat, levels: seq<Level>, tok: string)
    requires LiveQuantities(h)
    requires SideTracks(h, s, m, last, seed, from, tok)
    requires before <= last < final
    requires Carries(h, s, before, final, levels, tok)
    ensures SideTracks(h, s, ApplyLevels(m, levels), final, seed, Min(from, before), tok)
  {
    var m', from' := ApplyLevels(m, levels), Min(from, before);
    forall p
      ensures Lookup(m', p) ==
                if Touched(h, s, p, from', final) then Held(tok, At(h, s, p, final)) else Lookup(seed.On(s), p)
    {
      DiffAtPrice(h, s, m, last, before, final, levels, tok, p);
      TouchedSplits(h, s, p, from, last, before, final);
    }
  }

  /** Overlapping ranges: (min(from, before), final] is the union of (from, last] and (before, final]. */
  lemma TouchedSplits(h: History, s: SideName, p: string, from: int, last: int, before: int, final: int)
    requires before <= last <= final
    ensures Touched(h, s, p, Min(from, before), final)
       <==> Touched(h, s, p, from, last) || Touched(h, s, p, before, final)
  {
    if j: nat :| Min(from, before) < j <= final && 0 < j && h(j).side == s && h(j).price == p {
      assert j > before || j <= last;
    }
  }

  /** "Touched since the seed" would be too narrow a law: a first diff that overlaps the seed fills in a level
      the seed omitted although no later update is about it. */
  lemma OverlapFillsIn(h: History)
    requires h(1) == Update(Bids, "5", Some("7")) && h(2) == Update(Asks, "9", Some("1"))
    ensures var seed := Seed(1, map[], map[]);
            && SideTracks(h, Bids, map[], 1, seed, 1, "0") && Omitted(h, Bids, seed, "5")
            && Carries(h, Bids, 0, 2, [Level("5", "7")], "0")
            && ExactAt(h, Bids, ApplyLevels(map[], [Level("5", "7")]), "5", 2) && !Touched(h, Bids, "5", 1, 2)
  {
    var levels := [Level("5", "7")];
    assert Touched(h, Bids, "5", 0, 2) && levels[0] in levels;
    ApplyLevelsAt(map[], levels, "5", "7");
  }

  /** The feed's removal token decides whether a diff can be followed.  For any feed, the touched prices
      are exact after the diff if and only if the token is one applyLevels knows or no touched level went away. */
  lemma RemovalTokenMatters(h: History, s: SideName, m: Side, before: int, final: nat, levels: seq<Level>, tok: string)
    requires LiveQuantities(h)
    requires Carries(h, s, before, final, levels, tok)
    ensures (forall p :: Touched(h, s, p, before, final) ==> ExactAt(h, s, ApplyLevels(m, levels), p, final))
       <==> IsRemoval(tok) || forall l :: l in levels ==> At(h, s, l.price, final).Some?
  {
    forall p | Touched(h, s, p, before, final)
      ensures ExactAt(h, s, ApplyLevels(m, levels), p, final) <==> IsRemoval(tok) || At(h, s, p, final).Some?
    {
      LiveValue(h, s, p, final);
      var v := At(h, s, p, final);
      ApplyLevelsAt(m, levels, p, if v.Some? then v.value else tok);
    }
    if !IsRemoval(tok) && exists l :: l in levels && At(h, s, l.price, final).None? {
      var l :| l in levels && At(h, s, l.price, final).None?;
      assert Touched(h, s, l.price, before, final);
      assert !ExactAt(h, s, ApplyLevels(m, levels), l.price, final);
    }
  }

  /** A concrete failure: a feed that removes with "0.00000000" leaves the level in the local book. */
  lemma PaddedZeroLeavesLevel(h: History)
    requires h(1) == Update(Bids, "5", Some("7")) && h(2) == Update(Bids, "5", None)
    ensures Carries(h, Bids, 1, 2, [Level("5", "0.00000000")], "0.00000000")
    ensures At(h, Bids, "5", 2) == None
    ensures Lookup(ApplyLevels(map["5" := "7"], [Level("5", "0.00000000")]), "5") == Some("0.00000000")
  {
    var levels := [Level("5", "0.00000000")];
    assert Touched(h, Bids, "5", 1, 2);
    forall p | Touched(h, Bids, p, 1, 2) ensures Mentions(levels, p) {
      assert p == "5";
      assert levels[0] in levels;
    }
    ApplyLevelsAt(map["5" := "7"], levels, "5", "0.00000000");
    assert levels[0] in levels;
  }

  // ---------------------------------------------------------------- one book

  datatype BookState = BookState(snapshotted: bool, lastUpdateID: int, bids: Side, asks: Side) {
    function On(s: SideName): Side {
      if s == Bids then bids else asks
    }
  }

  const EMPTY_BOOK := BookState(false, 0, map[], map[])

  datatype Diff = Diff(first: int, final: int, bids: seq<Level>, asks: seq<Level>)

  /** A decoded REST response. */
  datatype Snapshot = Snapshot(id: int, bids: seq<seq<string>>, asks: seq<seq<string>>)

  /** What handleDepth does with a depth frame: hand it to the partial path, ignore it, drop it and fetch a
      snapshot, ignore it as old, re-seed, or apply it. */
  datatype Outcome = PartialPath | NotSubscribed | NeedsSeed | Stale | Gap | Applied

  function DiffOutcome(b: BookState, d: Diff): Outcome {
    if !b.snapshotted then NeedsSeed
    else if d.final <= b.lastUpdateID then Stale
    else if d.first > b.lastUpdateID + 1 then Gap
    else Applied
  }

  function AfterDiff(b: BookState, d: Diff): BookState {
    match DiffOutcome(b, d)
    case Gap => b.(snapshotted := false)
    case Applied => BookState(true, d.final, ApplyLevels(b.bids, d.bids), ApplyLevels(b.asks, d.asks))
    case _ => b
  }

  /** A diff that comes a second time is stale: it changes nothing. */
  lemma DiffTwice(b: BookState, d: Diff)
    requires DiffOutcome(b, d) == Applied
    ensures DiffOutcome(AfterDiff(b, d), d) == Stale && AfterDiff(AfterDiff(b, d), d) == AfterDiff(b, d)
  {
  }

  /** A seeded book treats a diff by its ids alone: as old up to its own id, as a gap past the next, and in
      between each side takes its own levels. */
  lemma DiffById(b: BookState, d: Diff, s: SideName, i: nat, p: string)
    requires b.snapshotted && d.first <= d.final
    ensures d.final <= b.lastUpdateID ==> AfterDiff(b, d) == b
    ensures d.first > b.lastUpdateID + 1 ==> !AfterDiff(b, d).snapshotted && AfterDiff(b, d).On(s) == b.On(s)
    ensures d.first <= b.lastUpdateID + 1 <= d.final ==>
              var levels := if s == Bids then d.bids else d.asks;
              && AfterDiff(b, d).lastUpdateID == d.final
              && (LastAt(levels, i, p) ==>
                    Lookup(AfterDiff(b, d).On(s), p) ==
                      if levels[i].qty == "0" || levels[i].qty == "" then None else Some(levels[i].qty))
  {
    var levels := if s == Bids then d.bids else d.asks;
    if LastAt(levels, i, p) {
      LastLevelWins(b.On(s), levels, i, p);
    }
  }

  function AfterSnapshot(b: BookState, resp: Option<Snapshot>): BookState {
    match resp
    case None => b
    case Some(r) => BookState(true, r.id, LevelMap(r.bids), LevelMap(r.asks))
  }

  /** A successful fetch makes the book the response: its id, and on each side the rows of that side. */
  lemma SnapshotByRows(b: BookState, r: Snapshot, s: SideName, p: string)
    ensures var b', rows := AfterSnapshot(b, Some(r)), if s == Bids then r.bids else r.asks;
            && b'.snapshotted && b'.lastUpdateID == r.id
            && (p in b'.On(s) <==> exists i: nat :: LastRow(rows, i, p))
            && (forall i: nat :: LastRow(rows, i, p) ==> Lookup(b'.On(s), p) == Some(rows[i][1]))
  {
    LevelMapHolds(if s == Bids then r.bids else r.asks, p);
  }

  class Book {
    var snapshotted: bool
    var lastUpdateID: int
    var bids: Side
    var asks: Side

    ghost function View(): BookState
      reads this
    {
      BookState(snapshotted, lastUpdateID, bids, asks)
    }

    constructor ()
      ensures View() == EMPTY_BOOK
    {
      snapshotted, lastUpdateID, bids, asks := false, 0, map[], map[];
    }

    /** The locked part of handleDepth. */
    method HandleDiff(d: Diff) returns (o: Outcome)
      modifies this
      ensures o == old(DiffOutcome(View(), d))
      ensures View() == old(AfterDiff(View(), d))
    {
      if !snapshotted {
        return NeedsSeed;
      }
      if d.final <= lastUpdateID {
        return Stale;
      }
      if d.first > lastUpdateID + 1 {
        snapshotted := false;
        return Gap;
      }
      bids := ApplyLevelsLoop(bids, d.bids);
      asks := ApplyLevelsLoop(asks, d.asks);
      lastUpdateID := d.final;
      return Applied;
    }

    /** snapshotDepthBook under the book's lock; None stands for a failed fetch. */
    method TakeSnapshot(resp: Option<Snapshot>)
      modifies this
      ensures View() == old(AfterSnapshot(View(), resp))
    {
      if resp.Some? {
        bids := LevelMapLoop(resp.value.bids);
        asks := LevelMapLoop(resp.value.asks);
        lastUpdateID := resp.value.id;
        snapshotted := true;
      }
    }

    method Reset()
      modifies this
      ensures View() == old(View()).(snapshotted := false)
    {
      snapshotted := false;
    }
  }

  // ---------------------------------------------------------------- one book over any frames

  ghost predicate FaithfulDiff(h: History, d: Diff, tok: string) {
    && 1 <= d.first <= d.final
    && Carries(h, Bids, d.first - 1, d.final, d.bids, tok)
    && Carries(h, Asks, d.first - 1, d.final, d.asks, tok)
  }

  ghost predicate FaithfulSnapshot(h: History, r: Snapshot) {
    && 0 <= r.id
    && SnapshotRows(h, Bids, r.id, r.bids)
    && SnapshotRows(h, Asks, r.id, r.asks)
  }

  ghost function SeedOf(r: Snapshot): Seed
    requires 0 <= r.id
  {
    Seed(r.id, LevelMap(r.bids), LevelMap(r.asks))
  }

  ghost predicate BookTracks(h: History, b: BookState, seed: Seed, from: int, tok: string) {
    b.snapshotted ==>
      && 0 <= b.lastUpdateID
      && SideTracks(h, Bids, b.bids, b.lastUpdateID, seed, from, tok)
      && SideTracks(h, Asks, b.asks, b.lastUpdateID, seed, from, tok)
  }

  /** How far back the followed range reaches once the diff has been handled. */
  function FromAfter(b: BookState, from: int, d: Diff): int {
    if DiffOutcome(b, d) == Applied then Min(from, d.first - 1) else from
  }

  /** A faithful diff keeps a seeded book true to the exchange.  The book is given up exactly when updates are
      missing between it and the diff, and otherwise never goes back in time. */
  lemma DiffTracks(h: History, b: BookState, seed: Seed, from: int, d: Diff, tok: string)
    requires LiveQuantities(h)
    requires BookTracks(h, b, seed, from, tok) && FaithfulDiff(h, d, tok)
    ensures BookTracks(h, AfterDiff(b, d), seed, FromAfter(b, from, d), tok)
    ensures b.snapshotted ==> (AfterDiff(b, d).snapshotted <==> d.first <= b.lastUpdateID + 1)
    ensures b.snapshotted && d.first <= b.lastUpdateID + 1 ==>
              AfterDiff(b, d).lastUpdateID == if d.final > b.lastUpdateID then d.final else b.lastUpdateID
  {
    if DiffOutcome(b, d) == Applied {
      DiffKeepsTracking(h, Bids, b.bids, b.lastUpdateID, seed, from, d.first - 1, d.final, d.bids, tok);
      DiffKeepsTracking(h, Asks, b.asks, b.lastUpdateID, seed, from, d.first - 1, d.final, d.asks, tok);
    }
  }

  lemma SnapshotTracks(h: History, b: BookState, r: Snapshot, tok: string)
    requires FaithfulSnapshot(h, r)
    ensures BookTracks(h, AfterSnapshot(b, Some(r)), SeedOf(r), r.id, tok)
  {
    LevelMapRows(h, Bids, r.id, r.bids);
    LevelMapRows(h, Asks, r.id, r.asks);
  }
}
