/** Hyperliquid subscription objects: validation, identity keys and construction (pkg/hyperliquid/channels.go). */
module HyperChannels {
  import opened Common
  import opened GoStrings

  const L2BOOK := "l2Book"
  const TRADES := "trades"
  const BBO := "bbo"
  const ASSET_CTX := "activeAssetCtx"
  const ALL_MIDS := "allMids"
  const CANDLE := "candle"

  const SUBSCRIBABLE := [L2BOOK, TRADES, BBO, ASSET_CTX, ALL_MIDS, CANDLE]

  const INTERVALS := ["1m", "3m", "5m", "15m", "30m", "1h", "2h", "4h", "8h", "12h", "1d", "3d", "1w", "1M"]

  datatype SubParams = SubParams(interval: string, nSigFigs: int, mantissa: int, fast: bool)

  datatype Subscription = Subscription(kind: string, coin: string, p: SubParams)

  predicate ValidParams(kind: string, p: SubParams) {
    if kind == CANDLE then
      p.interval in INTERVALS && p.nSigFigs == 0 && p.mantissa == 0 && !p.fast
    else if kind == L2BOOK then
      && p.interval == ""
      && (p.nSigFigs == 0 || 2 <= p.nSigFigs <= 5)
      && (p.mantissa == 0 || (p.nSigFigs == 5 && p.mantissa in {1, 2, 5}))
    else
      p == SubParams("", 0, 0, false)
  }

  predicate CoinChar(c: char) {
    c != '"' && c != '\\' && !IsSpace(c) && !IsControl(c)
  }

  predicate ValidCoin(coin: string) {
    coin != "" && coin == TrimSpace(coin) && forall c :: c in coin ==> CoinChar(c)
  }

  /** The checks Subscribe makes before it registers anything. */
  predicate Accepted(s: Subscription) {
    && s.kind in SUBSCRIBABLE
    && ValidParams(s.kind, s.p)
    && if s.kind == ALL_MIDS then s.coin == "" else ValidCoin(s.coin)
  }

  /** The closed sets, spelled out: channels and, per channel, the parameters the venue documents.  Zero and false
      mean unset; the order book may be thinned to 2..5 figures, and at 5 by a mantissa of 1, 2 or 5. */
  lemma ParamsSpelledOut(kind: string, p: SubParams)
    ensures kind in SUBSCRIBABLE <==>
              || kind == "l2Book" || kind == "trades" || kind == "bbo"
              || kind == "activeAssetCtx" || kind == "allMids" || kind == "candle"
    ensures kind == "candle" ==>
              (ValidParams(kind, p) <==>
                 && p.nSigFigs == 0 && p.mantissa == 0 && !p.fast
                 && p.interval in {"1m", "3m", "5m", "15m", "30m", "1h", "2h",
                                   "4h", "8h", "12h", "1d", "3d", "1w", "1M"})
    ensures kind == "l2Book" ==>
              (ValidParams(kind, p) <==>
                 && p.interval == ""
                 && (p.nSigFigs, p.mantissa) in {(0, 0), (2, 0), (3, 0), (4, 0), (5, 0), (5, 1), (5, 2), (5, 5)})
    ensures kind != "candle" && kind != "l2Book" ==>
              (ValidParams(kind, p) <==> p.interval == "" && p.nSigFigs == 0 && p.mantissa == 0 && !p.fast)
  {
    assert forall i :: i in INTERVALS <==> exists j :: 0 <= j < |INTERVALS| && INTERVALS[j] == i;
  }

  /** A coin is accepted exactly when it is not empty and none of its characters is white space, a control
      character, a quote or a backslash: nothing that could leave the JSON string it is put in. */
  lemma CoinSpelledOut(coin: string)
    ensures ValidCoin(coin) <==>
              coin != "" && forall i :: 0 <= i < |coin| ==>
                var c := coin[i];
                !IsSpace(c) && c >= ' ' && c != '"' && c != '\\' && !('\U{7f}' <= c <= '\U{9f}')
  {
    assert forall i :: 0 <= i < |coin| ==> coin[i] in coin;
    if coin != "" && forall i :: 0 <= i < |coin| ==> !IsSpace(coin[i]) {
      TrimSpaceTrims(coin);
    }
  }

  /** strings.Join of the non-empty parts with ':'. */
  function Key(s: Subscription): string {
    var withCoin := if s.coin != "" then s.kind + ":" + s.coin else s.kind;
    if s.p.interval != "" then withCoin + ":" + s.p.interval else withCoin
  }

  /** A key is the parts there are, with colons between them. */
  lemma KeysSpelledOut(s: Subscription)
    ensures s.coin != "" && s.p.interval != "" ==> Key(s) == s.kind + ":" + s.coin + ":" + s.p.interval
    ensures s.coin != "" && s.p.interval == "" ==> Key(s) == s.kind + ":" + s.coin
    ensures s.coin == "" && s.p.interval == "" ==> Key(s) == s.kind
  {
  }

  lemma NoColons()
    ensures forall kind :: kind in SUBSCRIBABLE ==> ':' !in kind
    ensures forall i :: i in INTERVALS ==> ':' !in i && i != ""
  {
  }

  /** The identity part after the channel name, for a channel that takes coins. */
  function Rest(s: Subscription): string {
    if s.p.interval != "" then s.coin + ":" + s.p.interval else s.coin
  }

  lemma KeyShape(s: Subscription)
    requires Accepted(s)
    ensures s.kind == ALL_MIDS ==> Key(s) == ALL_MIDS && ':' !in Key(s)
    ensures s.kind != ALL_MIDS ==> Key(s) == s.kind + ":" + Rest(s) && ':' in Key(s)
    ensures s.kind == CANDLE <==> s.p.interval != ""
  {
    NoColons();
    if s.kind != ALL_MIDS {
      assert Key(s) == s.kind + ":" + Rest(s);
      assert Key(s)[|s.kind|] == ':';
    }
  }

  /** A key determines channel, coin and interval over everything Subscribe accepts, although coins
      may themselves contain ':'. */
  lemma KeyIsInjective(a: Subscription, b: Subscription)
    requires Accepted(a) && Accepted(b) && Key(a) == Key(b)
    ensures a.kind == b.kind && a.coin == b.coin && a.p.interval == b.p.interval
  {
    NoColons();
    KeyShape(a);
    KeyShape(b);
    if a.kind != ALL_MIDS {
      FirstSplits(a.kind, Rest(a), b.kind, Rest(b), ':');
      if a.kind == CANDLE {
        LastSplits(a.coin, a.p.interval, b.coin, b.p.interval, ':');
      }
    }
  }

  /** Outside that set keys do collide: an interval smuggled into the channel name. */
  lemma UnvalidatedKeysCollide()
    ensures Key(Subscription("candle:BTC", "", SubParams("1m", 0, 0, false)))
         == Key(Subscription(CANDLE, "BTC", SubParams("1m", 0, 0, false)))
  {
    assert "candle" + ":" + "BTC" == "candle:BTC";
  }

  // ---------------------------------------------------------------- BuildSubscriptions

  predicate Distinct(coins: seq<string>) {
    forall i, j :: 0 <= i < j < |coins| ==> TrimSpace(coins[i]) != TrimSpace(coins[j])
  }

  /** The requests BuildSubscriptions accepts. */
  predicate Buildable(kind: string, coins: seq<string>, p: SubParams) {
    && kind in SUBSCRIBABLE
    && ValidParams(kind, p)
    && if kind == ALL_MIDS then coins == []
       else coins != [] && (forall c :: c in coins ==> ValidCoin(TrimSpace(c))) && Distinct(coins)
  }

  function Built(kind: string, coins: seq<string>, p: SubParams): seq<Subscription> {
    if kind == ALL_MIDS then [Subscription(kind, "", SubParams("", 0, 0, false))]
    else seq(|coins|, i requires 0 <= i < |coins| => Subscription(kind, TrimSpace(coins[i]), p))
  }

  /** One object per coin, in order, with the trimmed coin and the parameters as they were given. */
  lemma BuiltAsAsked(kind: string, coins: seq<string>, p: SubParams)
    requires Buildable(kind, coins, p)
    ensures kind == ALL_MIDS ==> Built(kind, coins, p) == [Subscription("allMids", "", SubParams("", 0, 0, false))]
    ensures kind != ALL_MIDS ==>
              && |Built(kind, coins, p)| == |coins|
              && forall i :: 0 <= i < |coins| ==>
                   var s := Built(kind, coins, p)[i];
                   s.kind == kind && s.coin == TrimSpace(coins[i]) && s.p == p
  {
  }

  /** What is refused besides malformed channels, parameters and coins: coins for the channel that takes none, no
      coins for the others, and a coin that comes twice, whatever the blanks around it. */
  lemma RefusedRequests(kind: string, coins: seq<string>, p: SubParams, i: nat, j: nat)
    ensures kind == "allMids" && coins != [] ==> !Buildable(kind, coins, p)
    ensures kind != "allMids" && coins == [] ==> !Buildable(kind, coins, p)
    ensures kind != "allMids" && i < j < |coins| && TrimSpace(coins[i]) == TrimSpace(coins[j]) ==>
              !Buildable(kind, coins, p)
    ensures kind == "trades" && p == SubParams("", 0, 0, false) && |coins| == 1 && ValidCoin(TrimSpace(coins[0])) ==>
              Buildable(kind, coins, p)
  {
  }

  method BuildSubscriptions(kind: string, coins: seq<string>, p: SubParams) returns (r: Result<seq<Subscription>>)
    ensures r.Ok? <==> Buildable(kind, coins, p)
    ensures r.Ok? ==> r.value == Built(kind, coins, p)
  {
    if kind !in SUBSCRIBABLE {
      return Err("unknown channel");
    }
    if !ValidParams(kind, p) {
      return Err("bad parameters");
    }
    if kind == ALL_MIDS {
      if coins != [] {
        return Err("channel takes no coin");
      }
      return Ok([Subscription(kind, "", SubParams("", 0, 0, false))]);
    }
    if coins == [] {
      return Err("channel needs at least one coin");
    }
    var subs := [];
    var seen := {};
    for i := 0 to |coins|
      invariant subs == Built(kind, coins[..i], p)
      invariant seen == set c | c in coins[..i] :: TrimSpace(c)
      invariant (forall c :: c in coins[..i] ==> ValidCoin(TrimSpace(c))) && Distinct(coins[..i])
    {
      assert coins[..i + 1] == coins[..i] + [coins[i]];
      var coin := TrimSpace(coins[i]);
      if !ValidCoin(coin) {
        assert coins[i] in coins;
        return Err("malformed coin");
      }
      if coin in seen {
        var c :| c in coins[..i] && TrimSpace(c) == coin;
        var j :| 0 <= j < i && coins[j] == c;
        return Err("duplicate coin");
      }
      assert forall j :: 0 <= j < i ==> coins[..i][j] in coins[..i];
      seen := seen + {coin};
      subs := subs + [Subscription(kind, coin, p)];
    }
    assert coins[..|coins|] == coins;
    return Ok(subs);
  }

  /** Everything it builds passes Subscribe's own validation, under pairwise distinct keys. */
  lemma BuiltAreAccepted(kind: string, coins: seq<string>, p: SubParams, i: nat, j: nat)
    requires Buildable(kind, coins, p)
    requires i <= j < |Built(kind, coins, p)|
    ensures Accepted(Built(kind, coins, p)[i]) && Accepted(Built(kind, coins, p)[j])
    ensures Key(Built(kind, coins, p)[i]) == Key(Built(kind, coins, p)[j]) <==> i == j
  {
    if kind != ALL_MIDS {
      assert coins[i] in coins && coins[j] in coins;
      if Key(Built(kind, coins, p)[i]) == Key(Built(kind, coins, p)[j]) {
        KeyIsInjective(Built(kind, coins, p)[i], Built(kind, coins, p)[j]);
      }
    }
  }
}
