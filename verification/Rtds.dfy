/**
  The RTDS subscription registry (pkg/polymarket/rtds.go): per-topic symbol sets behind
  string keys, incremental frames while connected, and a full rebuild on every connect.
*/
module Rtds {
  import opened Common
  import opened GoStrings
  import opened Sorting

  const CRYPTO := "crypto_prices"
  const CHAINLINK := "crypto_prices_chainlink"
  const EQUITY := "equity_prices"
  const TWAP := "prices.crypto.chainlink.twap"
  const TWAP30 := "crypto_prices_twap_thirty"
  const TWAP60 := "crypto_prices_twap_sixty"

  /** Symbols are compared trimmed and lower-cased. */
  function Normalize(s: string): string {
    Lower(TrimSpace(s))
  }

  lemma NormalizeTwice(s: string)
    ensures Normalize(Normalize(s)) == Normalize(s)
  {
    TrimSpaceTrims(s);
    TrimSpaceTrims(Normalize(s));
    assert Lower(Normalize(s)) == Normalize(s);
  }

  /** What normalizing identifies: symbols that are the same but for the white space around them and the case of
      their letters.  It leaves no capital, and a trimmed symbol without capitals as it is. */
  lemma NormalizeIff(a: string, b: string)
    ensures Normalize(a) == Normalize(b) <==> SameIgnoringCase(TrimSpace(a), TrimSpace(b))
    ensures SameIgnoringCase(TrimSpace(a), Normalize(a)) && forall c :: c in Normalize(a) ==> !('A' <= c <= 'Z')
    ensures Trimmed(a) && (forall c :: c in a ==> !('A' <= c <= 'Z')) ==> Normalize(a) == a
  {
    LowerIff(TrimSpace(a), TrimSpace(b));
    TrimSpaceTrims(a);
  }

  // ---------------------------------------------------------------- keys

  function SubsKey(topic: string, window: int): string {
    if window > 0 then topic + "|" + Itoa(window) else topic
  }

  function SplitSubsKey(key: string): (string, int) {
    var i := LastIndex(key, '|');
    if i >= 0 then (key[..i], AtoiValue(key[i + 1..])) else (key, 0)
  }

  lemma LastBar(key: string, n: nat)
    requires n < |key| && key[n] == '|' && '|' !in key[n + 1..]
    ensures LastIndex(key, '|') == n
  {
    forall j | n < j < |key| ensures key[j] != '|' {
      assert key[n + 1..][j - n - 1] == key[j];
    }
  }

  /** splitSubsKey undoes subsKey for every topic when the window is positive. */
  lemma SplitInvertsPositive(topic: string, window: Int64)
    requires window > 0
    ensures SplitSubsKey(SubsKey(topic, window)) == (topic, window)
  {
    var key, digits := SubsKey(topic, window), Itoa(window);
    assert key[..|topic|] == topic && key[|topic| + 1..] == digits;
    LastBar(key, |topic|);
    AtoiInvertsItoa(window);
  }

  /** With no window it does so exactly for the topics that contain no '|'. */
  lemma SplitInvertsUnwindowedIff(topic: string, window: int)
    requires window <= 0
    ensures SplitSubsKey(SubsKey(topic, window)) == (topic, 0) <==> '|' !in topic
  {
    var i := LastIndex(topic, '|');
    if i >= 0 {
      assert topic[i] in topic;
      assert |topic[..i]| < |topic|;
    }
  }

  function TwapWireTopic(window: int): string {
    if window == 30 then TWAP30 else if window == 60 then TWAP60 else ""
  }

  function TwapWindow(topic: string): int {
    if topic == TWAP30 then 30 else if topic == TWAP60 then 60 else 0
  }

  lemma TwapWindowInverts(window: int, topic: string)
    ensures TwapWindow(TwapWireTopic(window)) == if window == 30 || window == 60 then window else 0
    ensures TwapWindow(topic) != 0 ==> TwapWireTopic(TwapWindow(topic)) == topic
  {
    assert |TWAP30| != |TWAP60|;
  }

  // ---------------------------------------------------------------- feeds and entries

  /** What a caller subscribes to. */
  datatype Feed = Binance | Chainlink | Equity | Twap(window: Int64)

  function TopicOf(f: Feed): string {
    match f
    case Binance => CRYPTO
    case Chainlink => CHAINLINK
    case Equity => EQUITY
    case Twap(_) => TWAP
  }

  function KeyOf(f: Feed): string {
    if f.Twap? then SubsKey(TWAP, f.window) else TopicOf(f)
  }

  /** Non-positive TWAP windows share one key. */
  function Canon(f: Feed): Feed {
    if f.Twap? && f.window < 0 then Twap(0) else f
  }

  lemma TopicsDiffer()
    ensures CRYPTO != CHAINLINK && CRYPTO != EQUITY && CRYPTO != TWAP
    ensures CHAINLINK != EQUITY && CHAINLINK != TWAP && EQUITY != TWAP
    ensures '|' !in CRYPTO && '|' !in CHAINLINK && '|' !in EQUITY && '|' !in TWAP
  {
    assert |CRYPTO| == 13 && |EQUITY| == 13 && CRYPTO[0] != EQUITY[0];
  }

  lemma SplitKeyOf(f: Feed)
    ensures SplitSubsKey(KeyOf(f)) == (TopicOf(f), if f.Twap? && f.window > 0 then f.window else 0)
  {
    TopicsDiffer();
    if f.Twap? && f.window > 0 {
      SplitInvertsPositive(TWAP, f.window);
    } else {
      SplitInvertsUnwindowedIff(TopicOf(f), 0);
    }
  }

  /** Two feeds share a key exactly when they are the same feed, up to unsupported windows <= 0. */
  lemma KeyOfInjective(f: Feed, g: Feed)
    ensures KeyOf(f) == KeyOf(g) <==> Canon(f) == Canon(g)
  {
    TopicsDiffer();
    SplitKeyOf(f);
    SplitKeyOf(g);
  }

  /** One entry of a subscription frame; the filter is the symbol inside the JSON filter string. */
  datatype Entry = Entry(topic: string, msgType: string, filter: Option<string>)

  function BinanceEntries(): set<Entry> { {Entry(CRYPTO, "update", None)} }

  function TwapEntries(window: int): set<Entry> {
    var wire := TwapWireTopic(window);
    if wire == "" then {} else {Entry(wire, "update", None)}
  }

  function FilteredEntries(topic: string, symbols: set<string>): set<Entry> {
    set s | s in symbols && Normalize(s) != "" :: Entry(topic, "*", Some(Normalize(s)))
  }

  datatype TopicState = TopicState(windowSeconds: int, symbols: set<string>)

  type Subs = map<string, TopicState>

  /** One round of the switch in allEntries. */
  function KeyEntries(key: string, symbols: set<string>): set<Entry> {
    var (topic, window) := SplitSubsKey(key);
    if symbols == {} then {}
    else if topic == CRYPTO then BinanceEntries()
    else if topic == TWAP then TwapEntries(window)
    else if topic == CHAINLINK then FilteredEntries(CHAINLINK, symbols)
    else if topic == EQUITY then FilteredEntries(EQUITY, symbols)
    else {}
  }

  function AllEntries(subs: Subs): set<Entry> {
    set key, e | key in subs && e in KeyEntries(key, subs[key].symbols) :: e
  }

  // ---------------------------------------------------------------- the rebuilt frame

  function FilteredList(topic: string, symbols: seq<string>): seq<Entry> {
    if symbols == [] then []
    else
      var s := Normalize(symbols[|symbols| - 1]);
      FilteredList(topic, symbols[..|symbols| - 1]) + if s == "" then [] else [Entry(topic, "*", Some(s))]
  }

  /** One round of the switch, with the symbols in the order they are listed. */
  function KeyList(key: string, symbols: seq<string>): seq<Entry> {
    var (topic, window) := SplitSubsKey(key);
    if symbols == [] then []
    else if topic == CRYPTO then [Entry(CRYPTO, "update", None)]
    else if topic == TWAP then
      if TwapWireTopic(window) == "" then [] else [Entry(TwapWireTopic(window), "update", None)]
    else if topic == CHAINLINK then FilteredList(CHAINLINK, symbols)
    else if topic == EQUITY then FilteredList(EQUITY, symbols)
    else []
  }

  lemma {:induction false} FilteredListIs(topic: string, symbols: seq<string>, e: Entry)
    ensures e in FilteredList(topic, symbols) <==> e in FilteredEntries(topic, set s | s in symbols)
  {
    if symbols != [] {
      var init, last := symbols[..|symbols| - 1], symbols[|symbols| - 1];
      assert symbols == init + [last];
      FilteredListIs(topic, init, e);
      assert (set s | s in symbols) == (set s | s in init) + {last};
    }
  }

  lemma KeyListIs(key: string, symbols: set<string>, list: seq<string>, e: Entry)
    requires IsSorted(symbols, list)
    ensures e in KeyList(key, list) <==> e in KeyEntries(key, symbols)
  {
    var (topic, window) := SplitSubsKey(key);
    if list == [] {
      assert symbols == {};
      assert KeyList(key, list) == [] && KeyEntries(key, symbols) == {};
    } else {
      assert list[0] in symbols;
      if topic == CRYPTO {
        assert KeyList(key, list) == [Entry(CRYPTO, "update", None)];
        assert KeyEntries(key, symbols) == BinanceEntries();
      } else if topic == TWAP {
        assert KeyEntries(key, symbols) == TwapEntries(window);
      } else if topic == CHAINLINK || topic == EQUITY {
        assert KeyList(key, list) == FilteredList(topic, list);
        assert KeyEntries(key, symbols) == FilteredEntries(topic, symbols);
        assert symbols == set s | s in list;
        FilteredListIs(topic, list, e);
      }
    }
  }

  /** The entries of a filtered feed follow the order of its symbols. */
  lemma {:induction false} FilteredInOrder(topic: string, symbols: seq<string>, i: nat)
    requires forall s :: s in symbols ==> s != "" && Normalize(s) == s
    ensures |FilteredList(topic, symbols)| == |symbols|
    ensures i < |symbols| ==> FilteredList(topic, symbols)[i] == Entry(topic, "*", Some(symbols[i]))
  {
    if symbols != [] {
      var n := |symbols| - 1;
      var last := symbols[n];
      assert last in symbols && forall s :: s in symbols[..n] ==> s in symbols;
      FilteredInOrder(topic, symbols[..n], i);
      assert FilteredList(topic, symbols) == FilteredList(topic, symbols[..n]) + [Entry(topic, "*", Some(last))];
    }
  }

  /** The frame of a rebuild: keys in increasing order, under each key its symbols in increasing order. */
  ghost predicate IsRebuild(subs: Subs, keys: seq<string>, lists: seq<seq<string>>, frame: seq<Entry>) {
    && |keys| == |lists|
    && (forall i :: 0 <= i < |keys| ==> keys[i] in subs && IsSorted(subs[keys[i]].symbols, lists[i]))
    && frame == Rounds(keys, lists)
  }

  function Rounds(keys: seq<string>, lists: seq<seq<string>>): seq<Entry>
    requires |keys| == |lists|
  {
    if keys == [] then []
    else
      Rounds(keys[..|keys| - 1], lists[..|lists| - 1]) + KeyList(keys[|keys| - 1], lists[|lists| - 1])
  }

  lemma SortedKeysAreKeys(subs: Subs, keys: seq<string>)
    requires IsSorted(subs.Keys, keys)
    ensures forall i :: 0 <= i < |keys| ==> keys[i] in subs
  {
    assert forall i :: 0 <= i < |keys| ==> keys[i] in keys;
  }

  lemma RebuildExtends(subs: Subs, keys: seq<string>, lists: seq<seq<string>>, frame: seq<Entry>,
                       key: string, list: seq<string>)
    requires IsRebuild(subs, keys, lists, frame) && key in subs && IsSorted(subs[key].symbols, list)
    ensures IsRebuild(subs, keys + [key], lists + [list], frame + KeyList(key, list))
  {
    assert (keys + [key])[..|keys|] == keys && (lists + [list])[..|lists|] == lists;
  }

  lemma RebuildRound(subs: Subs, keys: seq<string>, i: nat, lists: seq<seq<string>>, frame: seq<Entry>,
                     list: seq<string>)
    requires i < |keys| && keys[i] in subs && IsSorted(subs[keys[i]].symbols, list)
    requires IsRebuild(subs, keys[..i], lists, frame)
    ensures IsRebuild(subs, keys[..i + 1], lists + [list], frame + KeyList(keys[i], list))
  {
    RebuildExtends(subs, keys[..i], lists, frame, keys[i], list);
    assert keys[..i + 1] == keys[..i] + [keys[i]];
  }

  lemma {:induction false} RoundsHold(subs: Subs, keys: seq<string>, lists: seq<seq<string>>, frame: seq<Entry>,
                                      e: Entry)
    requires IsRebuild(subs, keys, lists, frame)
    ensures e in frame <==> exists i :: 0 <= i < |keys| && e in KeyEntries(keys[i], subs[keys[i]].symbols)
  {
    if keys != [] {
      var n := |keys| - 1;
      RoundsHold(subs, keys[..n], lists[..n], Rounds(keys[..n], lists[..n]), e);
      KeyListIs(keys[n], subs[keys[n]].symbols, lists[n], e);
      if i :| 0 <= i < n && e in KeyEntries(keys[..n][i], subs[keys[..n][i]].symbols) {
        assert keys[..n][i] == keys[i];
      }
      if i :| 0 <= i < |keys| && e in KeyEntries(keys[i], subs[keys[i]].symbols) {
        assert i == n || keys[..n][i] == keys[i];
      }
    }
  }

  /** The rebuilt frame holds exactly the entries of the registry. */
  lemma RebuildHoldsAll(subs: Subs, keys: seq<string>, lists: seq<seq<string>>, frame: seq<Entry>)
    requires IsSorted(subs.Keys, keys) && IsRebuild(subs, keys, lists, frame)
    ensures (set e | e in frame) == AllEntries(subs)
  {
    forall e ensures e in frame <==> e in AllEntries(subs) {
      RoundsHold(subs, keys, lists, frame, e);
      if e in AllEntries(subs) {
        var key :| key in subs && e in KeyEntries(key, subs[key].symbols);
        assert key in keys;
        var i :| 0 <= i < |keys| && keys[i] == key;
      }
    }
  }

  /** It is the same frame whatever order the maps were walked in. */
  lemma RebuildIsUnique(subs: Subs, keys: seq<string>, lists: seq<seq<string>>, frame: seq<Entry>,
                        keys': seq<string>, lists': seq<seq<string>>, frame': seq<Entry>)
    requires IsSorted(subs.Keys, keys) && IsRebuild(subs, keys, lists, frame)
    requires IsSorted(subs.Keys, keys') && IsRebuild(subs, keys', lists', frame')
    ensures frame == frame'
  {
    SortedIsUnique(subs.Keys, keys, keys');
    forall i | 0 <= i < |keys| ensures lists[i] == lists'[i] {
      SortedIsUnique(subs[keys[i]].symbols, lists[i], lists'[i]);
    }
    assert lists == lists';
  }

  // ---------------------------------------------------------------- the registry as a machine

  datatype State = State(subs: Subs, connected: bool, server: set<Entry>, clean: bool)

  const INITIAL := State(map[], false, {}, false)

  datatype Step =
    | Subscribe(f: Feed, symbols: seq<string>, writeOk: bool)
    | Unsubscribe(f: Feed, symbols: seq<string>, writeOk: bool)
    | Connect(writeOk: bool)
    | Drop
    | Stop

  function Cleaned(symbols: seq<string>): set<string> {
    set s | s in symbols && Normalize(s) != "" :: Normalize(s)
  }

  function SymbolsAt(subs: Subs, key: string): set<string> {
    if key in subs then subs[key].symbols else {}
  }

  function WindowOf(f: Feed): int { if f.Twap? then f.window else 0 }

  /** What goes on the wire when the symbols of a feed change from `before` to `after`: filtered feeds name the
      changed symbols, broadcast feeds are touched only when the set becomes or stops being empty. */
  function ChangeEntries(f: Feed, before: set<string>, after: set<string>): set<Entry> {
    match f
    case Chainlink => FilteredEntries(CHAINLINK, (after - before) + (before - after))
    case Equity => FilteredEntries(EQUITY, (after - before) + (before - after))
    case Binance => if (before == {}) != (after == {}) then BinanceEntries() else {}
    case Twap(w) => if (before == {}) != (after == {}) then TwapEntries(w) else {}
  }

  /** sendEntries: nothing to send and no connection both mean no frame. */
  function Sent(s: State, entries: set<Entry>, add: bool, writeOk: bool): State {
    if !s.connected || entries == {} then s
    else if !writeOk then s.(clean := false)
    else s.(server := if add then s.server + entries else s.server - entries)
  }

  function Next(s: State, step: Step): State {
    match step
    case Subscribe(f, symbols, writeOk) =>
      var before := SymbolsAt(s.subs, KeyOf(f));
      var after := before + Cleaned(symbols);
      var s' := s.(subs := s.subs[KeyOf(f) := TopicState(WindowOf(f), after)]);
      Sent(s', ChangeEntries(f, before, after), true, writeOk)
    case Unsubscribe(f, symbols, writeOk) =>
      if KeyOf(f) !in s.subs then s
      else
        var before := s.subs[KeyOf(f)].symbols;
        var after := before - Cleaned(symbols);
        var s' := s.(subs := s.subs[KeyOf(f) := s.subs[KeyOf(f)].(symbols := after)]);
        Sent(s', ChangeEntries(f, before, after), false, writeOk)
    case Connect(writeOk) =>
      if s.connected then s
      else if AllEntries(s.subs) == {} || writeOk then
        s.(connected := true, server := AllEntries(s.subs), clean := true)
      else s
    case Drop => s.(connected := false, server := {}, clean := false)
    case Stop => INITIAL
  }

  function Run(steps: seq<Step>): State {
    if steps == [] then INITIAL else Next(Run(steps[..|steps| - 1]), steps[|steps| - 1])
  }

  /** The symbols a caller has asked for on one feed: the fold of the calls, whatever the connection did. */
  function Asked(steps: seq<Step>, f: Feed): set<string> {
    if steps == [] then {}
    else
      var before := Asked(steps[..|steps| - 1], f);
      match steps[|steps| - 1]
      case Subscribe(g, symbols, _) => if Canon(g) == Canon(f) then before + Cleaned(symbols) else before
      case Unsubscribe(g, symbols, _) => if Canon(g) == Canon(f) then before - Cleaned(symbols) else before
      case Stop => {}
      case _ => before
  }

  lemma {:induction false} RegistryIsAsked(steps: seq<Step>, f: Feed)
    ensures SymbolsAt(Run(steps).subs, KeyOf(f)) == Asked(steps, f)
  {
    if steps != [] {
      var last := steps[|steps| - 1];
      RegistryIsAsked(steps[..|steps| - 1], f);
      if last.Subscribe? || last.Unsubscribe? {
        KeyOfInjective(last.f, f);
      }
    }
  }

  /** A list of symbols names a symbol if one of them, not blank, is the same but for surrounding space and case. */
  ghost predicate NamesSymbol(symbols: seq<string>, symbol: string) {
    exists i :: 0 <= i < |symbols| && TrimSpace(symbols[i]) != "" &&
                SameIgnoringCase(TrimSpace(symbols[i]), TrimSpace(symbol))
  }

  lemma CleanedIff(symbols: seq<string>, symbol: string)
    ensures Normalize(symbol) in Cleaned(symbols) <==> NamesSymbol(symbols, symbol)
  {
    if Normalize(symbol) in Cleaned(symbols) {
      var x :| x in symbols && Normalize(x) != "" && Normalize(x) == Normalize(symbol);
      NormalizeIff(x, symbol);
      var i :| 0 <= i < |symbols| && symbols[i] == x;
      assert TrimSpace(symbols[i]) != "";
    }
    if NamesSymbol(symbols, symbol) {
      var i :| 0 <= i < |symbols| && TrimSpace(symbols[i]) != "" &&
               SameIgnoringCase(TrimSpace(symbols[i]), TrimSpace(symbol));
      NormalizeIff(symbols[i], symbol);
      assert |Normalize(symbols[i])| == |TrimSpace(symbols[i])|;
    }
  }

  /** The caller's view of one symbol on one feed, in any spelling: the last call that named it was a Subscribe. */
  ghost predicate Wanted(steps: seq<Step>, f: Feed, symbol: string) {
    steps != [] &&
      var before := Wanted(steps[..|steps| - 1], f, symbol);
      match steps[|steps| - 1]
      case Subscribe(g, symbols, _) => before || (SameFeed(f, g) && NamesSymbol(symbols, symbol))
      case Unsubscribe(g, symbols, _) => before && !(SameFeed(f, g) && NamesSymbol(symbols, symbol))
      case Stop => false
      case _ => before
  }

  /** All TWAP windows that are not positive are one. */
  predicate SameFeed(f: Feed, g: Feed) {
    f == g || (f.Twap? && g.Twap? && f.window <= 0 && g.window <= 0)
  }

  lemma {:induction false} WantedIff(steps: seq<Step>, f: Feed, symbol: string)
    ensures Normalize(symbol) in SymbolsAt(Run(steps).subs, KeyOf(f)) <==> Wanted(steps, f, symbol)
  {
    RegistryIsAsked(steps, f);
    if steps != [] {
      var init, last := steps[..|steps| - 1], steps[|steps| - 1];
      RegistryIsAsked(init, f);
      WantedIff(init, f, symbol);
      if last.Subscribe? || last.Unsubscribe? {
        CleanedIff(last.symbols, symbol);
      }
    }
  }

  // ---------------------------------------------------------------- the server agrees with the rebuild

  /** Every key was made by KeyOf, every symbol is normalized. */
  ghost predicate WellKeyed(subs: Subs) {
    forall key :: key in subs ==>
      && (exists f: Feed :: key == KeyOf(f))
      && (forall s :: s in subs[key].symbols ==> s != "" && Normalize(s) == s)
  }

  /** What one feed's symbols entitle it to on the server. */
  function Entitled(f: Feed, symbols: set<string>): set<Entry> {
    if symbols == {} then {}
    else
      match f
      case Binance => BinanceEntries()
      case Twap(w) => TwapEntries(w)
      case Chainlink => FilteredEntries(CHAINLINK, symbols)
      case Equity => FilteredEntries(EQUITY, symbols)
  }

  /** One round of the switch, by topic. */
  lemma KeyEntriesByTopic(key: string, symbols: set<string>, topic: string, window: int)
    requires SplitSubsKey(key) == (topic, window) && symbols != {}
    ensures topic == CRYPTO ==> KeyEntries(key, symbols) == BinanceEntries()
    ensures topic == TWAP && TWAP != CRYPTO ==> KeyEntries(key, symbols) == TwapEntries(window)
    ensures topic == CHAINLINK && CHAINLINK != CRYPTO && CHAINLINK != TWAP ==>
              KeyEntries(key, symbols) == FilteredEntries(CHAINLINK, symbols)
    ensures topic == EQUITY && EQUITY != CRYPTO && EQUITY != TWAP && EQUITY != CHAINLINK ==>
              KeyEntries(key, symbols) == FilteredEntries(EQUITY, symbols)
  {
  }

  lemma KeyEntriesOf(f: Feed, symbols: set<string>)
    ensures KeyEntries(KeyOf(f), symbols) == Entitled(f, symbols)
  {
    TopicsDiffer();
    SplitKeyOf(f);
    if symbols != {} {
      KeyEntriesByTopic(KeyOf(f), symbols, TopicOf(f), if f.Twap? && f.window > 0 then f.window else 0);
    }
  }

  /** Different feeds never share an entry, so a frame for one cannot disturb another. */
  lemma EntitledDisjoint(f: Feed, g: Feed, a: set<string>, b: set<string>)
    requires Canon(f) != Canon(g)
    ensures Entitled(f, a) !! Entitled(g, b)
  {
    TopicsDiffer();
    assert |TWAP30| == 25 && |TWAP60| == 24 && |CRYPTO| == 13;
    if f.Twap? && g.Twap? {
      TwapWindowInverts(f.window, "");
      TwapWindowInverts(g.window, "");
    }
  }

  /** A change frame turns the entitlement before into the entitlement after. */
  lemma ChangeIsExact(f: Feed, before: set<string>, after: set<string>)
    requires forall s :: s in before + after ==> s != "" && Normalize(s) == s
    ensures before <= after ==>
              && Entitled(f, before) + ChangeEntries(f, before, after) == Entitled(f, after)
              && Entitled(f, before) !! ChangeEntries(f, before, after)
    ensures after <= before ==>
              && Entitled(f, after) + ChangeEntries(f, before, after) == Entitled(f, before)
              && Entitled(f, after) !! ChangeEntries(f, before, after)
  {
    if f.Chainlink? || f.Equity? {
      assert Entitled(f, before) == FilteredEntries(TopicOf(f), before);
      assert Entitled(f, after) == FilteredEntries(TopicOf(f), after);
    }
  }

  lemma CleanedIsNormal(symbols: seq<string>)
    ensures forall s :: s in Cleaned(symbols) ==> s != "" && Normalize(s) == s
  {
    forall s | s in Cleaned(symbols) ensures s != "" && Normalize(s) == s {
      var raw :| raw in symbols && Normalize(raw) == s && s != "";
      NormalizeTwice(raw);
    }
  }

  /** Each feed's entries are in the rebuild through its own key alone. */
  lemma OwnEntries(subs: Subs, f: Feed, symbols: set<string>, e: Entry)
    requires WellKeyed(subs) && e in Entitled(f, symbols)
    ensures e in AllEntries(subs) <==> e in Entitled(f, SymbolsAt(subs, KeyOf(f)))
  {
    KeyEntriesOf(f, SymbolsAt(subs, KeyOf(f)));
    if e in AllEntries(subs) {
      var k :| k in subs && e in KeyEntries(k, subs[k].symbols);
      var g: Feed :| k == KeyOf(g);
      KeyEntriesOf(g, subs[k].symbols);
      KeyOfInjective(f, g);
      if k != KeyOf(f) {
        EntitledDisjoint(f, g, symbols, subs[k].symbols);
      }
    }
  }

  /** Replacing one feed's symbols leaves the entries of the others as they were. */
  lemma OtherEntries(subs: Subs, f: Feed, st: TopicState, e: Entry)
    requires e !in Entitled(f, SymbolsAt(subs, KeyOf(f))) && e !in Entitled(f, st.symbols)
    ensures e in AllEntries(subs[KeyOf(f) := st]) <==> e in AllEntries(subs)
  {
    var key, subs' := KeyOf(f), subs[KeyOf(f) := st];
    KeyEntriesOf(f, st.symbols);
    KeyEntriesOf(f, SymbolsAt(subs, key));
    if e in AllEntries(subs) {
      var k :| k in subs && e in KeyEntries(k, subs[k].symbols);
      assert k != key && k in subs' && subs'[k] == subs[k];
    }
    if e in AllEntries(subs') {
      var k :| k in subs' && e in KeyEntries(k, subs'[k].symbols);
      assert k != key && k in subs && subs[k] == subs'[k];
    }
  }

  ghost predicate Inv(s: State) {
    && WellKeyed(s.subs)
    && (s.connected && s.clean ==> s.server == AllEntries(s.subs))
  }

  ghost predicate AllNormal(symbols: set<string>) {
    forall x :: x in symbols ==> x != "" && Normalize(x) == x
  }

  /** A change frame names exactly the entries the rebuild gains or loses. */
  lemma ChangeNamesTheMoves(subs: Subs, f: Feed, window: int, after: set<string>, e: Entry)
    requires WellKeyed(subs) && AllNormal(after)
    requires var before := SymbolsAt(subs, KeyOf(f)); before <= after || after <= before
    ensures var before, subs' := SymbolsAt(subs, KeyOf(f)), subs[KeyOf(f) := TopicState(window, after)];
            && (e in ChangeEntries(f, before, after) <==> (e in AllEntries(subs) <==> e !in AllEntries(subs')))
            && (before <= after ==> e in AllEntries(subs) ==> e in AllEntries(subs'))
            && (after <= before ==> e in AllEntries(subs') ==> e in AllEntries(subs))
    ensures WellKeyed(subs[KeyOf(f) := TopicState(window, after)])
  {
    var before, st := SymbolsAt(subs, KeyOf(f)), TopicState(window, after);
    var subs' := subs[KeyOf(f) := st];
    assert WellKeyed(subs');
    ChangeIsExact(f, before, after);
    if e in Entitled(f, before) {
      OwnEntries(subs, f, before, e);
      OwnEntries(subs', f, before, e);
    } else if e in Entitled(f, after) {
      OwnEntries(subs, f, after, e);
      OwnEntries(subs', f, after, e);
    } else {
      OtherEntries(subs, f, st, e);
    }
  }

  /** Replacing one feed's symbols and sending its change frame keeps the server equal to the rebuild. */
  lemma FrameFollowsRegistry(s: State, f: Feed, window: int, after: set<string>, add: bool, writeOk: bool)
    requires Inv(s) && AllNormal(after)
    requires var before := SymbolsAt(s.subs, KeyOf(f)); if add then before <= after else after <= before
    ensures var before := SymbolsAt(s.subs, KeyOf(f));
            var s' := s.(subs := s.subs[KeyOf(f) := TopicState(window, after)]);
            Inv(Sent(s', ChangeEntries(f, before, after), add, writeOk))
  {
    var before := SymbolsAt(s.subs, KeyOf(f));
    var change := ChangeEntries(f, before, after);
    var s' := Sent(s.(subs := s.subs[KeyOf(f) := TopicState(window, after)]), change, add, writeOk);
    ChangeNamesTheMoves(s.subs, f, window, after, Entry("", "", None));
    if s'.connected && s'.clean {
      forall e ensures e in s'.server <==> e in AllEntries(s'.subs) {
        ChangeNamesTheMoves(s.subs, f, window, after, e);
      }
    }
  }

  /** The entries a call puts on the wire. */
  function ChangeOf(s: State, step: Step): set<Entry>
    requires step.Subscribe? || step.Unsubscribe?
  {
    var before := SymbolsAt(s.subs, KeyOf(step.f));
    ChangeEntries(step.f, before,
                  if step.Subscribe? then before + Cleaned(step.symbols) else before - Cleaned(step.symbols))
  }

  predicate Names(s: State, step: Step, e: Entry) {
    s.connected && (step.Subscribe? || step.Unsubscribe?) && e in ChangeOf(s, step)
  }

  /** How many of the latest frames naming an entry on this connection have failed, back to the last one that
      was written or to the connect. */
  function FailuresInARow(steps: seq<Step>, e: Entry): nat {
    if steps == [] then 0
    else
      var init := steps[..|steps| - 1];
      NextFailures(Run(init), steps[|steps| - 1], e, FailuresInARow(init, e))
  }

  function NextFailures(s: State, step: Step, e: Entry, n: nat): nat {
    if step == Drop || step == Stop || (step.Connect? && !s.connected) then 0
    else if Names(s, step, e) then (if step.writeOk then 0 else n + 1) else n
  }

  /** The server and the rebuild agree about an entry. */
  predicate InStep(s: State, e: Entry) {
    e in s.server <==> e in AllEntries(s.subs)
  }

  /** One change frame: the server and the rebuild come into step if it is written, and cross over if it is not. */
  lemma FrameMovesStale(s: State, f: Feed, window: int, after: set<string>, add: bool, writeOk: bool, e: Entry)
    requires WellKeyed(s.subs) && AllNormal(after) && s.connected
    requires var before := SymbolsAt(s.subs, KeyOf(f)); if add then before <= after else after <= before
    ensures var change := ChangeEntries(f, SymbolsAt(s.subs, KeyOf(f)), after);
            var s' := Sent(s.(subs := s.subs[KeyOf(f) := TopicState(window, after)]), change, add, writeOk);
            InStep(s', e) <==> if e in change then writeOk || !InStep(s, e) else InStep(s, e)
  {
    ChangeNamesTheMoves(s.subs, f, window, after, e);
  }

  lemma NextMovesStale(s: State, step: Step, e: Entry)
    requires Inv(s) && s.connected && (step.Subscribe? || step.Unsubscribe?)
    ensures Next(s, step).connected
    ensures InStep(Next(s, step), e) <==> if Names(s, step, e) then step.writeOk || !InStep(s, e) else InStep(s, e)
  {
    CleanedIsNormal(step.symbols);
    var key := KeyOf(step.f);
    var before := SymbolsAt(s.subs, key);
    match step
    case Subscribe(f, symbols, ok) =>
      FrameMovesStale(s, f, WindowOf(f), before + Cleaned(symbols), true, ok, e);
    case Unsubscribe(f, symbols, ok) =>
      if key in s.subs {
        FrameMovesStale(s, f, s.subs[key].windowSeconds, before - Cleaned(symbols), false, ok, e);
      } else {
        assert before - Cleaned(symbols) == {};
        FrameMovesStale(s, f, 0, {}, false, ok, e);
      }
  }

  /** Connecting puts every entry in step; losing the connection forgets what the server holds. */
  lemma OtherStepsStale(s: State, step: Step, e: Entry)
    requires !step.Subscribe? && !step.Unsubscribe? && Next(s, step).connected
    ensures step.Connect? && (if s.connected then Next(s, step) == s else InStep(Next(s, step), e))
  {
  }

  lemma StaysConnected(s: State, step: Step)
    requires Next(s, step).connected && (step.Subscribe? || step.Unsubscribe?)
    ensures s.connected
  {
  }

  lemma ChangeKeepsParity(s: State, step: Step, e: Entry, n: nat)
    requires Inv(s) && s.connected && (step.Subscribe? || step.Unsubscribe?)
    requires InStep(s, e) <==> n % 2 == 0
    ensures InStep(Next(s, step), e) <==> NextFailures(s, step, e, n) % 2 == 0
  {
    NextMovesStale(s, step, e);
    Parity(n);
    assert NextFailures(s, step, e, n) == if Names(s, step, e) then (if step.writeOk then 0 else n + 1) else n;
  }

  lemma Parity(n: nat)
    ensures (n + 1) % 2 == 0 <==> n % 2 != 0
  {
  }

  lemma NextKeepsParity(s: State, step: Step, e: Entry, n: nat)
    requires Inv(s) && Next(s, step).connected
    requires s.connected ==> (InStep(s, e) <==> n % 2 == 0)
    ensures InStep(Next(s, step), e) <==> NextFailures(s, step, e, n) % 2 == 0
  {
    if step.Subscribe? || step.Unsubscribe? {
      StaysConnected(s, step);
      ChangeKeepsParity(s, step, e, n);
    } else {
      OtherStepsStale(s, step, e);
    }
  }

  /** The exact law over every run, failed writes included: on a connection the server and the rebuild disagree
      about an entry if and only if an odd number of frames naming it have failed in a row. */
  lemma {:induction false} StaleIffOddFailures(steps: seq<Step>, e: Entry)
    requires Run(steps).connected
    ensures InStep(Run(steps), e) <==> FailuresInARow(steps, e) % 2 == 0
  {
    var init := steps[..|steps| - 1];
    RunKeepsInv(init);
    if Run(init).connected {
      StaleIffOddFailures(init, e);
    }
    NextKeepsParity(Run(init), steps[|steps| - 1], e, FailuresInARow(init, e));
  }

  lemma NextKeepsInv(s: State, step: Step)
    requires Inv(s)
    ensures Inv(Next(s, step))
  {
    match step
    case Subscribe(f, symbols, writeOk) =>
      CleanedIsNormal(symbols);
      var before := SymbolsAt(s.subs, KeyOf(f));
      FrameFollowsRegistry(s, f, WindowOf(f), before + Cleaned(symbols), true, writeOk);
    case Unsubscribe(f, symbols, writeOk) =>
      if KeyOf(f) in s.subs {
        var st := s.subs[KeyOf(f)];
        FrameFollowsRegistry(s, f, st.windowSeconds, st.symbols - Cleaned(symbols), false, writeOk);
      }
    case _ =>
  }

  lemma {:induction false} RunKeepsInv(steps: seq<Step>)
    ensures Inv(Run(steps))
  {
    if steps != [] {
      RunKeepsInv(steps[..|steps| - 1]);
      NextKeepsInv(Run(steps[..|steps| - 1]), steps[|steps| - 1]);
    }
  }

  /** While connected and until a write fails, the server holds exactly the entries allEntries would rebuild, and
      those are what each feed is entitled to by the calls made on it: one broadcast entry for Binance and for
      each supported TWAP window with a symbol, one filtered entry per Chainlink or equity symbol.  Whatever
      failed before, the next successful connect restores this. */
  lemma ServerMatchesRebuild(steps: seq<Step>, f: Feed)
    ensures var s := Run(steps); s.connected && s.clean ==> s.server == AllEntries(s.subs)
    ensures Entitled(f, Asked(steps, f)) <= AllEntries(Run(steps).subs)
    ensures var s := Next(Run(steps), Connect(true));
            !Run(steps).connected ==> s.connected && s.clean && s.server == AllEntries(s.subs)
  {
    RunKeepsInv(steps);
    RegistryIsAsked(steps, f);
    KeyEntriesOf(f, Asked(steps, f));
  }

  /** Without a connection there is nothing on the server, and calls change the registry only; connecting sends
      the rebuild, which can only fail if there is something to send. */
  lemma {:induction false} NothingWhileDown(steps: seq<Step>)
    ensures !Run(steps).connected ==> Run(steps).server == {}
    ensures !Run(steps).connected ==>
              var s, failed := Run(steps), Next(Run(steps), Connect(false));
              if AllEntries(s.subs) == {} then failed.connected && failed.clean && failed.server == {} else failed == s
  {
    if steps != [] {
      NothingWhileDown(steps[..|steps| - 1]);
    }
  }

  /** The window recorded with a key is the one last subscribed under it. */
  lemma {:induction false} WindowIsKept(steps: seq<Step>, window: Int64)
    requires window > 0
    ensures var key := KeyOf(Twap(window));
            key in Run(steps).subs ==> Run(steps).subs[key].windowSeconds == window
  {
    if steps != [] {
      var last := steps[|steps| - 1];
      WindowIsKept(steps[..|steps| - 1], window);
      if last.Subscribe? || last.Unsubscribe? {
        KeyOfInjective(last.f, Twap(window));
      }
    }
  }

  /** ... and nothing else is on the server: every entry belongs to some feed's entitlement. */
  lemma NothingElseIsRebuilt(steps: seq<Step>, e: Entry)
    ensures e in AllEntries(Run(steps).subs) ==> exists f: Feed :: e in Entitled(f, Asked(steps, f))
  {
    RunKeepsInv(steps);
    var subs := Run(steps).subs;
    if e in AllEntries(subs) {
      var k :| k in subs && e in KeyEntries(k, subs[k].symbols);
      var f: Feed :| k == KeyOf(f);
      KeyEntriesOf(f, subs[k].symbols);
      RegistryIsAsked(steps, f);
      assert e in Entitled(f, Asked(steps, f));
    }
  }

  // ---------------------------------------------------------------- TWAP admission

  predicate IsSubscribed(subs: Subs, key: string, symbol: string) {
    key in subs && Normalize(symbol) in subs[key].symbols
  }

  /** The filter in handleChainlinkTWAP. */
  predicate AdmitsTwap(subs: Subs, wireTopic: string, symbol: string) {
    var window := TwapWindow(wireTopic);
    window != 0 && IsSubscribed(subs, SubsKey(TWAP, window), symbol)
  }

  /** A TWAP event is admitted exactly when its symbol was asked for on the window its wire topic names:
      subscriptions of one window never admit another window's events. */
  lemma TwapAdmission(steps: seq<Step>, wireTopic: string, symbol: string)
    ensures AdmitsTwap(Run(steps).subs, wireTopic, symbol) <==>
              || (wireTopic == TWAP30 && Normalize(symbol) in Asked(steps, Twap(30)))
              || (wireTopic == TWAP60 && Normalize(symbol) in Asked(steps, Twap(60)))
  {
    TwapWindowInverts(30, wireTopic);
    TwapWindowInverts(60, wireTopic);
    RegistryIsAsked(steps, Twap(30));
    RegistryIsAsked(steps, Twap(60));
  }

  /** The filters of processMessage's handlers: which events are dispatched. */
  predicate Admits(subs: Subs, topic: string, msgType: string, symbol: string) {
    if topic == CRYPTO then
      || (msgType == "update" && IsSubscribed(subs, CRYPTO, symbol))
      || (msgType == "subscribe" && IsSubscribed(subs, CHAINLINK, symbol))
    else if topic == CHAINLINK then IsSubscribed(subs, CHAINLINK, symbol)
    else if topic == TWAP30 || topic == TWAP60 then AdmitsTwap(subs, topic, symbol)
    else topic == EQUITY && (msgType == "update" || msgType == "subscribe") && IsSubscribed(subs, EQUITY, symbol)
  }

  /** "Matching is case-insensitive", over every run and for every kind of event: an event is dispatched exactly
      when its symbol, in whatever spelling, is wanted on the feed its wire topic and type belong to. */
  lemma AdmissionIff(steps: seq<Step>, topic: string, msgType: string, symbol: string)
    ensures Admits(Run(steps).subs, topic, msgType, symbol) <==>
              || (topic == "crypto_prices" && msgType == "update" && Wanted(steps, Binance, symbol))
              || (topic == "crypto_prices" && msgType == "subscribe" && Wanted(steps, Chainlink, symbol))
              || (topic == "crypto_prices_chainlink" && Wanted(steps, Chainlink, symbol))
              || (topic == "crypto_prices_twap_thirty" && Wanted(steps, Twap(30), symbol))
              || (topic == "crypto_prices_twap_sixty" && Wanted(steps, Twap(60), symbol))
              || (topic == "equity_prices" && (msgType == "update" || msgType == "subscribe")
                  && Wanted(steps, Equity, symbol))
  {
    TopicsDiffer();
    WantedIff(steps, Binance, symbol);
    WantedIff(steps, Chainlink, symbol);
    WantedIff(steps, Equity, symbol);
    TwapAdmission(steps, topic, symbol);
    RegistryIsAsked(steps, Twap(30));
    RegistryIsAsked(steps, Twap(60));
    WantedIff(steps, Twap(30), symbol);
    WantedIff(steps, Twap(60), symbol);
    assert |CRYPTO| == 13 && |CHAINLINK| == 23 && |EQUITY| == 13 && |TWAP30| == 25 && |TWAP60| == 24;
  }

  lemma CapitalsNormalize()
    ensures Normalize("BTC/USD") == "btc/usd"
  {
    TrimSpaceTrims("BTC/USD");
  }

  /** For instance: subscribing in capitals sends the filter in small letters ... */
  lemma CapitalsAreCleaned()
    ensures Cleaned(["BTC/USD"]) == {"btc/usd"}
  {
    CapitalsNormalize();
    assert ["BTC/USD"][0] == "BTC/USD";
  }

  /** ... and wants events in either spelling. */
  lemma CapitalsAreNamed()
    ensures NamesSymbol(["BTC/USD"], "btc/usd")
  {
    TrimSpaceTrims("BTC/USD");
    TrimSpaceTrims("btc/usd");
    assert ["BTC/USD"][0] == "BTC/USD" && SameIgnoringCase("BTC/USD", "btc/usd");
  }

  // ---------------------------------------------------------------- what is on the wire

  /** The wire form of every subscription entry, feed by feed. */
  lemma EntitledSpelledOut(f: Feed, symbols: set<string>, e: Entry)
    requires AllNormal(symbols)
    ensures e in Entitled(f, symbols) <==>
              || (f == Binance && symbols != {} && e == Entry("crypto_prices", "update", None))
              || (f == Twap(30) && symbols != {} && e == Entry("crypto_prices_twap_thirty", "update", None))
              || (f == Twap(60) && symbols != {} && e == Entry("crypto_prices_twap_sixty", "update", None))
              || (f == Chainlink && exists s :: s in symbols && e == Entry("crypto_prices_chainlink", "*", Some(s)))
              || (f == Equity && exists s :: s in symbols && e == Entry("equity_prices", "*", Some(s)))
  {
  }

  // ---------------------------------------------------------------- the code

  /** The entries of a frame: broadcast feeds send one only on the first or last symbol, filtered feeds
      name every changed symbol. */
  function FrameEntries(f: Feed, edge: bool, names: set<string>): set<Entry> {
    match f
    case Binance => if edge then BinanceEntries() else {}
    case Twap(w) => if edge then TwapEntries(w) else {}
    case _ => FilteredEntries(TopicOf(f), names)
  }

  lemma FrameIsChange(f: Feed, before: set<string>, after: set<string>, edge: bool, names: set<string>)
    requires before <= after || after <= before
    requires names == (if before <= after then after - before else before - after)
    requires edge == ((before == {}) != (after == {}))
    ensures FrameEntries(f, edge, names) == ChangeEntries(f, before, after)
    ensures names == {} ==> ChangeEntries(f, before, after) == {} && before == after
  {
    assert names == (after - before) + (before - after);
    if names == {} {
      forall x | x in before + after ensures x in before && x in after {
        assert x !in names;
      }
    }
  }

  class Registry {
    var subs: Subs
    var connected: bool
    ghost var server: set<Entry>
    ghost var clean: bool

    ghost function View(): State
      reads this
    {
      State(subs, connected, server, clean)
    }

    constructor ()
      ensures View() == INITIAL
    {
      subs, connected, server, clean := map[], false, {}, false;
    }

    method AddSymbolsWindowed(key: string, window: int, symbols: seq<string>) returns (first: bool, added: seq<string>)
      modifies this`subs
      ensures var before := SymbolsAt(old(subs), key);
              && subs == old(subs)[key := TopicState(window, before + Cleaned(symbols))]
              && first == (before == {} && before + Cleaned(symbols) != {})
              && (set s | s in added) == Cleaned(symbols) - before
    {
      var state := TopicState(window, if key in subs then subs[key].symbols else {});
      ghost var before := state.symbols;
      var wasEmpty := state.symbols == {};
      added := [];
      for i := 0 to |symbols|
        invariant state == TopicState(window, before + Cleaned(symbols[..i]))
        invariant (set s | s in added) == Cleaned(symbols[..i]) - before
      {
        assert symbols[..i + 1] == symbols[..i] + [symbols[i]];
        var s := Normalize(symbols[i]);
        assert Cleaned(symbols[..i + 1]) == Cleaned(symbols[..i]) + (if s == "" then {} else {s});
        if s == "" {
          continue;
        }
        if s in state.symbols {
          continue;
        }
        state := state.(symbols := state.symbols + {s});
        assert (set x | x in added + [s]) == (set x | x in added) + {s};
        added := added + [s];
      }
      assert symbols[..|symbols|] == symbols;
      subs := subs[key := state];
      first := wasEmpty && state.symbols != {};
    }

    method RemoveSymbols(key: string, symbols: seq<string>) returns (last: bool, removed: seq<string>)
      modifies this`subs
      ensures var before := SymbolsAt(old(subs), key);
              && (key !in old(subs) ==> subs == old(subs))
              && (key in old(subs) ==> subs == old(subs)[key := old(subs)[key].(symbols := before - Cleaned(symbols))])
              && last == (before != {} && before - Cleaned(symbols) == {})
              && (set s | s in removed) == Cleaned(symbols) * before
    {
      removed := [];
      if key !in subs {
        return false, removed;
      }
      var state := subs[key];
      ghost var before := state.symbols;
      for i := 0 to |symbols|
        invariant state == subs[key].(symbols := before - Cleaned(symbols[..i]))
        invariant (set s | s in removed) == Cleaned(symbols[..i]) * before
      {
        assert symbols[..i + 1] == symbols[..i] + [symbols[i]];
        var s := Normalize(symbols[i]);
        assert Cleaned(symbols[..i + 1]) == Cleaned(symbols[..i]) + (if s == "" then {} else {s});
        if s == "" {
          continue;
        }
        if s !in state.symbols {
          continue;
        }
        state := state.(symbols := state.symbols - {s});
        assert (set x | x in removed + [s]) == (set x | x in removed) + {s};
        removed := removed + [s];
      }
      assert symbols[..|symbols|] == symbols;
      ghost var gone := set s | s in removed;
      assert gone == Cleaned(symbols) * before;
      assert removed != [] ==> removed[0] in gone;
      subs := subs[key := state];
      last := |removed| > 0 && state.symbols == {};
      assert last ==> removed[0] in before;
      assert before != {} && state.symbols == {} ==> (set s | s in removed) == before;
      assert removed == [] ==> (set s | s in removed) == {};
    }

    method SendEntries(add: bool, entries: set<Entry>, writeOk: bool)
      modifies this`server, this`clean
      ensures View() == Sent(old(View()), entries, add, writeOk)
    {
      if entries == {} || !connected {
        return;
      }
      if !writeOk {
        clean := false;
        return;
      }
      server := if add then server + entries else server - entries;
    }

    /** The four public Subscribe methods. */
    method SubscribeFeed(f: Feed, symbols: seq<string>, writeOk: bool)
      modifies this
      ensures View() == Next(old(View()), Subscribe(f, symbols, writeOk))
    {
      ghost var before := SymbolsAt(subs, KeyOf(f));
      var first, added := AddSymbolsWindowed(KeyOf(f), WindowOf(f), symbols);
      FrameIsChange(f, before, before + Cleaned(symbols), first, set s | s in added);
      if added == [] {
        return;
      }
      SendEntries(true, FrameEntries(f, first, set s | s in added), writeOk);
    }

    /** The four public Unsubscribe methods. */
    method UnsubscribeFeed(f: Feed, symbols: seq<string>, writeOk: bool)
      modifies this
      ensures View() == Next(old(View()), Unsubscribe(f, symbols, writeOk))
    {
      ghost var before := SymbolsAt(subs, KeyOf(f));
      var last, removed := RemoveSymbols(KeyOf(f), symbols);
      FrameIsChange(f, before, before - Cleaned(symbols), last, set s | s in removed);
      assert removed != [] ==> removed[0] in (set s | s in removed);
      if removed == [] {
        return;
      }
      SendEntries(false, FrameEntries(f, last, set s | s in removed), writeOk);
    }

    /** allEntries: the frame, with the sorted keys and symbol lists it was built from. */
    method RebuildEntries() returns (frame: seq<Entry>, keys: seq<string>, lists: seq<seq<string>>)
      ensures IsSorted(subs.Keys, keys) && IsRebuild(subs, keys, lists, frame)
    {
      keys := SortStrings(subs.Keys);
      SortedKeysAreKeys(subs, keys);
      frame, lists := [], [];
      for i := 0 to |keys|
        invariant IsRebuild(subs, keys[..i], lists, frame)
      {
        frame, lists := AddRound(keys, i, lists, frame);
      }
      assert keys[..|keys|] == keys;
    }

    /** One round of the loop. */
    method AddRound(keys: seq<string>, i: nat, lists: seq<seq<string>>, frame: seq<Entry>)
      returns (frame': seq<Entry>, lists': seq<seq<string>>)
      requires i < |keys| && keys[i] in subs && IsRebuild(subs, keys[..i], lists, frame)
      ensures IsRebuild(subs, keys[..i + 1], lists', frame')
    {
      var list := SortStrings(subs[keys[i]].symbols);
      frame', lists' := frame + KeyList(keys[i], list), lists + [list];
      RebuildRound(subs, keys, i, lists, frame, list);
    }

    method OnConnect(writeOk: bool)
      requires !connected
      modifies this
      ensures View() == Next(old(View()), Connect(writeOk))
    {
      var frame, keys, lists := RebuildEntries();
      RebuildHoldsAll(subs, keys, lists, frame);
      assert frame != [] ==> frame[0] in AllEntries(subs);
      assert frame == [] ==> AllEntries(subs) == {};
      if frame == [] || writeOk {
        connected, server, clean := true, set e | e in frame, true;
      }
    }
  }
}
