/**
  A book deeper than its snapshot (snapshotDepthBook in pkg/binance/binance.go): the input on which the
  locally maintained book is not the full order book.
*/
module DeepBook {
  import opened Common
  import opened GoStrings
  import opened OrderBook
  import opened BookLevels
  import DepthFeed

  /** Bids at 1, 2, ..., n + 1, then asks: one bid more than a snapshot of n levels holds. */
  function Ladder(n: nat): History {
    (j: nat) => if 1 <= j <= n + 1 then Update(Bids, Digits(j), Some("1")) else Update(Asks, "100", Some("1"))
  }

  /** The n rows from price 2 up. */
  function LadderRows(n: nat): seq<seq<string>> {
    if n == 0 then [] else LadderRows(n - 1) + [[Digits(n + 1), "1"]]
  }

  ghost predicate OnLadder(p: string, lo: nat, hi: nat) {
    exists i: nat :: lo <= i <= hi && p == Digits(i)
  }

  lemma DigitsDiffer(i: nat, j: nat)
    requires i != j
    ensures Digits(i) != Digits(j)
  {
    DigitsRoundTrip(i);
    DigitsRoundTrip(j);
  }

  lemma {:induction false} LadderHolds(n: nat, k: nat, i: nat)
    requires 1 <= i <= k <= n + 1
    ensures At(Ladder(n), Bids, Digits(i), k) == Some("1")
  {
    if i < k {
      DigitsDiffer(i, k);
      LadderHolds(n, k - 1, i);
    }
  }

  lemma {:induction false} LadderOnly(n: nat, p: string, k: nat)
    requires k <= n + 1 && At(Ladder(n), Bids, p, k).Some?
    ensures OnLadder(p, 1, k)
  {
    if p != Digits(k) {
      LadderOnly(n, p, k - 1);
    }
  }

  lemma {:induction false} LadderSeed(n: nat)
    ensures |LevelMap(LadderRows(n))| == n
    ensures forall p :: p in LevelMap(LadderRows(n)) <==> OnLadder(p, 2, n + 1)
  {
    if n > 0 {
      LadderSeed(n - 1);
      forall i: nat | 2 <= i <= n ensures Digits(i) != Digits(n + 1) {
        DigitsDiffer(i, n + 1);
      }
      var before := LadderRows(n - 1);
      assert LadderRows(n)[..|LadderRows(n)| - 1] == before;
      assert LevelMap(LadderRows(n)) == LevelMap(before)[Digits(n + 1) := "1"];
      assert !OnLadder(Digits(n + 1), 2, n);
      forall p ensures OnLadder(p, 2, n + 1) <==> OnLadder(p, 2, n) || p == Digits(n + 1) {
        if i: nat :| 2 <= i <= n + 1 && p == Digits(i) {
          assert i <= n ==> OnLadder(p, 2, n);
        }
      }
    }
  }

  lemma {:induction false} LadderRowsAreTrue(n: nat, m: nat)
    requires m <= n
    ensures SnapshotRows(Ladder(n), Bids, n + 1, LadderRows(m))
  {
    if m > 0 {
      LadderRowsAreTrue(n, m - 1);
      LadderHolds(n, n + 1, m + 1);
    }
  }

  ghost predicate ParsesDigits(parse: Parser) {
    forall i: nat :: parse(Digits(i)) == Some(Finite(i as real))
  }

  lemma LadderOmitsWorst(parse: Parser, n: nat, p: string, q: string)
    requires ParsesDigits(parse) && OnLadder(p, 1, n + 1) && !OnLadder(p, 2, n + 1) && OnLadder(q, 2, n + 1)
    ensures Better(parse, Bids, q, p)
  {
    var i: nat :| 1 <= i <= n + 1 && p == Digits(i);
    var j: nat :| 2 <= j <= n + 1 && q == Digits(j);
    assert i == 1;
    assert parse(p) == Some(Finite(1 as real)) && parse(q) == Some(Finite(j as real));
  }

  lemma {:induction false} LadderRow(n: nat, i: nat)
    requires i < n
    ensures |LadderRows(n)| == n && LadderRows(n)[i] == [Digits(i + 2), "1"]
  {
    if i < n - 1 {
      LadderRow(n - 1, i);
    } else if n > 1 {
      LadderRow(n - 1, 0);
    }
  }

  lemma LadderRowIsLive(n: nat, i: nat)
    requires i < n
    ensures |LadderRows(n)| == n && LadderRows(n)[i] == [Digits(i + 2), "1"]
    ensures At(Ladder(n), Bids, Digits(i + 2), n + 1) == Some("1")
  {
    LadderRow(n, i);
    LadderHolds(n, n + 1, i + 2);
  }

  lemma LadderRowBeats(parse: Parser, n: nat, p: string, i: nat)
    requires ParsesDigits(parse) && i < n
    requires At(Ladder(n), Bids, p, n + 1).Some? && !Listed(LadderRows(n), p)
    ensures Better(parse, Bids, Digits(i + 2), p)
  {
    LadderOnly(n, p, n + 1);
    OnLadderIsListed(n, p);
    assert OnLadder(Digits(i + 2), 2, n + 1);
    LadderOmitsWorst(parse, n, p, Digits(i + 2));
  }

  lemma OnLadderIsListed(n: nat, p: string)
    ensures OnLadder(p, 2, n + 1) ==> Listed(LadderRows(n), p)
  {
    if k: nat :| 2 <= k <= n + 1 && p == Digits(k) {
      LadderRow(n, k - 2);
      assert LadderRows(n)[k - 2][0] == p;
    }
  }

  lemma LadderRowsAreLive(n: nat)
    ensures |LadderRows(n)| == n
    ensures forall i :: 0 <= i < n ==>
              LadderRows(n)[i] == [Digits(i + 2), "1"] && At(Ladder(n), Bids, LadderRows(n)[i][0], n + 1) == Some("1")
  {
    if n > 0 {
      LadderRowIsLive(n, 0);
    }
    forall i | 0 <= i < n
      ensures LadderRows(n)[i] == [Digits(i + 2), "1"] && At(Ladder(n), Bids, LadderRows(n)[i][0], n + 1) == Some("1")
    {
      LadderRowIsLive(n, i);
    }
  }

  lemma LadderRowsDiffer(n: nat)
    ensures |LadderRows(n)| == n
    ensures forall i, j :: 0 <= i < j < n ==> LadderRows(n)[i] != [] && LadderRows(n)[j] != []
    ensures forall i, j :: 0 <= i < j < n && LadderRows(n)[i] != [] && LadderRows(n)[j] != [] ==>
              LadderRows(n)[i][0] != LadderRows(n)[j][0]
  {
    LadderRowsAreLive(n);
    forall i, j | 0 <= i < j < n ensures LadderRows(n)[i][0] != LadderRows(n)[j][0] {
      DigitsDiffer(i + 2, j + 2);
    }
  }

  /** The best n of the ladder are a correct response to a request for n levels. */
  lemma LadderRowsAreTop(parse: Parser, n: nat)
    requires n >= 50 && ParsesDigits(parse)
    ensures TopRows(parse, Ladder(n), Bids, n + 1, LadderRows(n))
  {
    var rows := LadderRows(n);
    LadderRowsAreLive(n);
    LadderRowsDiffer(n);
    forall p, i | At(Ladder(n), Bids, p, n + 1).Some? && !Listed(rows, p) && 0 <= i < n
      ensures Better(parse, Bids, rows[i][0], p)
    {
      LadderRowBeats(parse, n, p, i);
    }
  }

  const LADDER_ASK := Level("100", "1")

  lemma LadderDiffIsTrue(n: nat)
    ensures FaithfulDiff(Ladder(n), Diff(n + 2, n + 2, [], [LADDER_ASK]), "0")
  {
    var levels := [LADDER_ASK];
    var j := n + 2;
    assert Ladder(n)(j) == Update(Asks, "100", Some("1"));
    assert Touched(Ladder(n), Asks, "100", n + 1, n + 2) && levels[0] in levels;
  }

  /** The book after subscribing, fetching and one diff. */
  lemma LadderRun(n: nat, fetch: DepthFeed.Step, diff: DepthFeed.Step)
    requires fetch.Fetch? && fetch.symbol == "btc" && fetch.resp.Some? && fetch.resp.value.id == n + 1
    requires diff == DepthFeed.DiffFrame("btc", Diff(n + 2, n + 2, [], [LADDER_ASK]))
    ensures var m := DepthFeed.Run([DepthFeed.Subscribe(["btc"]), fetch, diff]);
            && "btc" in m.books && m.books["btc"].book.snapshotted && m.books["btc"].book.lastUpdateID == n + 2
            && m.books["btc"].book.bids == LevelMap(fetch.resp.value.bids)
  {
    var subscribe := DepthFeed.Subscribe(["btc"]);
    assert [subscribe, fetch, diff][..2] == [subscribe, fetch] && [subscribe, fetch][..1] == [subscribe];
    assert [subscribe][..0] == [];
    assert ["btc"][0] in ["btc"];
    var none, a, b := DepthFeed.Run([]), DepthFeed.Run([subscribe]), DepthFeed.Run([subscribe, fetch]);
    assert none == DepthFeed.NO_BOOKS;
    assert a == DepthFeed.Next(none, subscribe) && "btc" in a.streams && a.partial == {};
    assert b == DepthFeed.Next(a, fetch) && "btc" in b.streams && b.partial == {};
  }

  /** The frames of the failing run are all true to the exchange. */
  lemma LadderIsFaithful(n: nat)
    ensures LiveQuantities(Ladder(n))
    ensures FaithfulSnapshot(Ladder(n), Snapshot(n + 1, LadderRows(n), []))
    ensures FaithfulDiff(Ladder(n), Diff(n + 2, n + 2, [], [LADDER_ASK]), "0")
  {
    LadderDiffIsTrue(n);
    LadderRowsAreTrue(n, n);
  }

  /** The cheapest bid is live and not among the rows. */
  lemma LadderLacksOne(n: nat)
    ensures At(Ladder(n), Bids, Digits(1), n + 2) == Some("1") && Digits(1) !in LevelMap(LadderRows(n))
  {
    LadderHolds(n, n + 1, 1);
    var j := n + 2;
    assert Ladder(n)(j).side == Asks;
    LadderSeed(n);
    forall i: nat | 2 <= i <= n + 1 ensures Digits(i) != Digits(1) {
      DigitsDiffer(i, 1);
    }
    assert !OnLadder(Digits(1), 2, n + 1);
  }

  /** Concrete failure of the "full order book", for the code's limit and any larger one: every frame is
      faithful and the snapshot holds the exchange's n best bids, yet the followed book lacks the bid at "1". */
  lemma DeepBookIsNotFull(parse: Parser, n: nat)
    requires n >= 50 && ParsesDigits(parse)
    ensures var fetch := DepthFeed.Fetch("btc", Some(Snapshot(n + 1, LadderRows(n), [])));
            var diff := DepthFeed.DiffFrame("btc", Diff(n + 2, n + 2, [], [LADDER_ASK]));
            var steps := [DepthFeed.Subscribe(["btc"]), fetch, diff];
            var m := DepthFeed.Run(steps);
            && LiveQuantities(Ladder(n)) && DepthFeed.FaithfulRun(symbol => Ladder(n), "0", steps)
            && TopRows(parse, Ladder(n), Bids, n + 1, LadderRows(n))
            && "btc" in m.books && m.books["btc"].book.snapshotted && m.books["btc"].book.lastUpdateID == n + 2
            && At(Ladder(n), Bids, Digits(1), n + 2) == Some("1") && Digits(1) !in m.books["btc"].book.bids
  {
    LadderRowsAreTop(parse, n);
    LadderLacksOne(n);
    var fetch := DepthFeed.Fetch("btc", Some(Snapshot(n + 1, LadderRows(n), [])));
    var diff := DepthFeed.DiffFrame("btc", Diff(n + 2, n + 2, [], [LADDER_ASK]));
    LadderRun(n, fetch, diff);
    LadderRunIsFaithful(n, fetch, diff);
  }

  lemma LadderRunIsFaithful(n: nat, fetch: DepthFeed.Step, diff: DepthFeed.Step)
    requires fetch == DepthFeed.Fetch("btc", Some(Snapshot(n + 1, LadderRows(n), [])))
    requires diff == DepthFeed.DiffFrame("btc", Diff(n + 2, n + 2, [], [LADDER_ASK]))
    ensures DepthFeed.FaithfulRun(symbol => Ladder(n), "0", [DepthFeed.Subscribe(["btc"]), fetch, diff])
  {
    LadderIsFaithful(n);
    var feed: DepthFeed.Feed := symbol => Ladder(n);
    var one := [DepthFeed.Subscribe(["btc"])];
    var two, three := one + [fetch], one + [fetch] + [diff];
    assert three == [DepthFeed.Subscribe(["btc"]), fetch, diff];
    assert one[..0] == [] && two[..1] == one && three[..2] == two;
    assert DepthFeed.FaithfulRun(feed, "0", one);
    assert DepthFeed.FaithfulRun(feed, "0", two);
    assert DepthFeed.FaithfulRun(feed, "0", three);
  }
}
