/**
  All the depth books of one market, and every interleaving of diff frames, REST snapshots,
  connection resets, subscriptions, unsubscriptions and Stop (pkg/binance/binance.go).
*/
module DepthFeed {
  import opened Common
  import opened OrderBook

  /** The exchange history of every symbol. */
  type Feed = string -> History

  /** A book together with the snapshot it was last seeded from and the update id its followed range reaches
      back to: the least of the seed's id and of first - 1 over the diffs applied since. */
  datatype Entry = Entry(book: BookState, seed: Seed, from: int)

  /** A partial-depth stream: a symbol with its depth and speed. */
  datatype Partial = Partial(symbol: string, variant: string)

  /** The symbols with a diff-depth stream, the partial-depth streams, and the books. */
  datatype Manager = Manager(streams: set<string>, partial: set<Partial>, books: map<string, Entry>)

  const NO_BOOKS := Manager({}, {}, map[])
  const FRESH := Entry(EMPTY_BOOK, Seed(0, map[], map[]), 0)

  datatype Step =
    | DiffFrame(symbol: string, d: Diff)                  // handleDepth
    | Fetch(symbol: string, resp: Option<Snapshot>)       // snapshotDepthBook, at any time, with any id
    | ResetAll                                            // onDisconnect
    | Subscribe(symbols: seq<string>)
    | Unsubscribe(symbols: seq<string>)
    | SubscribePartial(wanted: set<Partial>)
    | UnsubscribePartial(unwanted: set<Partial>)
    | Clear                                               // Stop

  /** bookFor: the symbol's book, created on first use. */
  function EntryFor(m: Manager, symbol: string): Entry {
    if symbol in m.books then m.books[symbol] else FRESH
  }

  /** A partial stream of a symbol takes over every depth frame of that symbol. */
  predicate PartialOf(partial: set<Partial>, symbol: string) {
    exists v :: v in partial && v.symbol == symbol
  }

  function Elems(xs: seq<string>): set<string> {
    set x | x in xs
  }

  ghost function Next(m: Manager, step: Step): Manager {
    match step
    case DiffFrame(symbol, d) =>
      if PartialOf(m.partial, symbol) || symbol !in m.streams then m
      else
        var e := EntryFor(m, symbol);
        m.(books := m.books[symbol := Entry(AfterDiff(e.book, d), e.seed, FromAfter(e.book, e.from, d))])
    case Fetch(symbol, resp) =>
      var e := EntryFor(m, symbol);
      var (seed, from) :=
        if resp.Some? && 0 <= resp.value.id then (SeedOf(resp.value), resp.value.id) else (e.seed, e.from);
      m.(books := m.books[symbol := Entry(AfterSnapshot(e.book, resp), seed, from)])
    case ResetAll =>
      m.(books := map s | s in m.books :: m.books[s].(book := m.books[s].book.(snapshotted := false)))
    case Subscribe(symbols) =>
      m.(streams := m.streams + Elems(symbols), books := map s | s in m.books.Keys + Elems(symbols) :: EntryFor(m, s))
    case Unsubscribe(symbols) =>
      m.(streams := m.streams - Elems(symbols), books := m.books - Elems(symbols))
    case SubscribePartial(wanted) => m.(partial := m.partial + wanted)
    case UnsubscribePartial(unwanted) => m.(partial := m.partial - unwanted)
    case Clear => NO_BOOKS
  }

  /** The symbols an addStreams call registers, in order: what the subscribe frame names. */
  function Added(streams: set<string>, symbols: seq<string>): seq<string> {
    if symbols == [] then []
    else
      var init, last := symbols[..|symbols| - 1], symbols[|symbols| - 1];
      Added(streams, init) + if last in streams + Elems(init) then [] else [last]
  }

  /** The symbols a removeStreams call drops, in order: what the unsubscribe frame names. */
  function Removed(streams: set<string>, symbols: seq<string>): seq<string> {
    if symbols == [] then []
    else
      var init, last := symbols[..|symbols| - 1], symbols[|symbols| - 1];
      Removed(streams, init) + if last in streams - Elems(init) then [last] else []
  }

  lemma Ends(symbols: seq<string>, x: string)
    requires symbols != []
    ensures x in symbols <==> x in symbols[..|symbols| - 1] || x == symbols[|symbols| - 1]
  {
    assert symbols == symbols[..|symbols| - 1] + [symbols[|symbols| - 1]];
  }

  /** The subscribe frame names exactly the new symbols, each once. */
  lemma {:induction false} AddFrameNamesNew(streams: set<string>, symbols: seq<string>, x: string)
    ensures multiset(Added(streams, symbols))[x] == if x in symbols && x !in streams then 1 else 0
  {
    if symbols != [] {
      AddFrameNamesNew(streams, symbols[..|symbols| - 1], x);
      Ends(symbols, x);
    }
  }

  /** The unsubscribe frame names exactly the symbols that go, each once. */
  lemma {:induction false} RemoveFrameNamesGone(streams: set<string>, symbols: seq<string>, x: string)
    ensures multiset(Removed(streams, symbols))[x] == if x in symbols && x in streams then 1 else 0
  {
    if symbols != [] {
      RemoveFrameNamesGone(streams, symbols[..|symbols| - 1], x);
      Ends(symbols, x);
    }
  }

  lemma ElemsOfBoth(a: seq<string>, b: seq<string>)
    ensures Elems(a + b) == Elems(a) + Elems(b)
  {
  }

  lemma Associates(a: seq<string>, b: seq<string>, c: seq<string>)
    ensures (a + b) + c == a + (b + c)
  {
  }

  /** Both frames keep the order of the call: two lists are handled one after the other. */
  lemma {:induction false} AddFrameInOrder(streams: set<string>, a: seq<string>, b: seq<string>)
    ensures Added(streams, a + b) == Added(streams, a) + Added(streams + Elems(a), b)
  {
    if b == [] {
      assert a + b == a;
    } else {
      var init, last, whole := b[..|b| - 1], b[|b| - 1], a + b;
      var end := if last in streams + Elems(a) + Elems(init) then [] else [last];
      AddFrameInOrder(streams, a, init);
      ElemsOfBoth(a, init);
      assert whole[..|whole| - 1] == a + init && whole[|whole| - 1] == last;
      assert Added(streams, whole) == Added(streams, a + init) + end;
      Associates(Added(streams, a), Added(streams + Elems(a), init), end);
    }
  }

  lemma {:induction false} RemoveFrameInOrder(streams: set<string>, a: seq<string>, b: seq<string>)
    ensures Removed(streams, a + b) == Removed(streams, a) + Removed(streams - Elems(a), b)
  {
    if b == [] {
      assert a + b == a;
    } else {
      var init, last, whole := b[..|b| - 1], b[|b| - 1], a + b;
      var end := if last in streams - Elems(a) - Elems(init) then [last] else [];
      RemoveFrameInOrder(streams, a, init);
      ElemsOfBoth(a, init);
      assert whole[..|whole| - 1] == a + init && whole[|whole| - 1] == last;
      assert Removed(streams, whole) == Removed(streams, a + init) + end;
      Associates(Removed(streams, a), Removed(streams - Elems(a), init), end);
    }
  }

  /** A depth event before its sides are rendered. */
  datatype Event = Event(lastUpdateID: int, bids: Side, asks: Side)

  function EventOf(b: BookState): Event {
    Event(b.lastUpdateID, b.bids, b.asks)
  }

  /** The outcome of a depth frame and the event it dispatches: the frame on its own on the partial path, the
      book after an applied diff. */
  function FrameOutcome(m: Manager, symbol: string, d: Diff): (Outcome, Option<Event>) {
    if PartialOf(m.partial, symbol) then
      (PartialPath, Some(Event(d.final, ApplyLevels(map[], d.bids), ApplyLevels(map[], d.asks))))
    else if symbol !in m.streams then (NotSubscribed, None)
    else
      var b := EntryFor(m, symbol).book;
      (DiffOutcome(b, d), if DiffOutcome(b, d) == Applied then Some(EventOf(AfterDiff(b, d))) else None)
  }

  /** A missing book may as well be created before the frame or response for it is handled. */
  lemma BookAddedFirst(m: Manager, symbol: string)
    ensures var m' := m.(books := m.books[symbol := EntryFor(m, symbol)]);
            && (forall resp :: Next(m', Fetch(symbol, resp)) == Next(m, Fetch(symbol, resp)))
            && (forall d :: FrameOutcome(m', symbol, d) == FrameOutcome(m, symbol, d))
            && (!PartialOf(m.partial, symbol) && symbol in m.streams ==>
                  forall d :: Next(m', DiffFrame(symbol, d)) == Next(m, DiffFrame(symbol, d)))
  {
  }

  ghost function Run(steps: seq<Step>): Manager {
    if steps == [] then NO_BOOKS else Next(Run(steps[..|steps| - 1]), steps[|steps| - 1])
  }

  /** Responses are true to the exchange, and so are the frames that reach a book; frames that take the partial
      path or are about nothing subscribed may be anything. */
  ghost predicate Faithful(feed: Feed, tok: string, m: Manager, step: Step) {
    match step
    case DiffFrame(symbol, d) =>
      PartialOf(m.partial, symbol) || symbol !in m.streams || FaithfulDiff(feed(symbol), d, tok)
    case Fetch(symbol, Some(r)) => FaithfulSnapshot(feed(symbol), r)
    case _ => true
  }

  /** Nothing restricts the order, overlap or timing of the steps. */
  ghost predicate FaithfulRun(feed: Feed, tok: string, steps: seq<Step>) {
    steps != [] ==>
      var init := steps[..|steps| - 1];
      FaithfulRun(feed, tok, init) && Faithful(feed, tok, Run(init), steps[|steps| - 1])
  }

  ghost predicate AllLive(feed: Feed) {
    forall symbol :: LiveQuantities(feed(symbol))
  }

  ghost predicate AllTrack(feed: Feed, tok: string, m: Manager) {
    forall symbol :: symbol in m.books ==>
      var e := m.books[symbol];
      BookTracks(feed(symbol), e.book, e.seed, e.from, tok)
  }

  lemma NextTracks(feed: Feed, tok: string, m: Manager, step: Step)
    requires AllLive(feed)
    requires AllTrack(feed, tok, m) && Faithful(feed, tok, m, step)
    ensures AllTrack(feed, tok, Next(m, step))
  {
    match step
    case DiffFrame(symbol, d) =>
      if !PartialOf(m.partial, symbol) && symbol in m.streams {
        var e := EntryFor(m, symbol);
        DiffTracks(feed(symbol), e.book, e.seed, e.from, d, tok);
      }
    case Fetch(symbol, Some(r)) =>
      SnapshotTracks(feed(symbol), EntryFor(m, symbol).book, r, tok);
    case _ =>
  }

  lemma {:induction false} RunTracks(feed: Feed, tok: string, steps: seq<Step>)
    requires AllLive(feed) && FaithfulRun(feed, tok, steps)
    ensures AllTrack(feed, tok, Run(steps))
  {
    if steps != [] {
      RunTracks(feed, tok, steps[..|steps| - 1]);
      NextTracks(feed, tok, Run(steps[..|steps| - 1]), steps[|steps| - 1]);
    }
  }

  ghost predicate Seeded(steps: seq<Step>, symbol: string) {
    symbol in Run(steps).books && Run(steps).books[symbol].book.snapshotted
  }

  /** The main safety result, exact at every price, for a feed with any removal token.  In every reachable state
      a seeded book is right at a price, about presence and absence alike, if and only if an update since `from`
      is about it and no unrecognised removal came last, or none is and its seed was right there; and it holds
      only levels of the exchange at lastUpdateID and levels whose removal was not recognised.  The diffs applied
      since the seed reach back to `from`, so a first diff that overlaps the seed fills in levels the seed
      omitted. */
  lemma SeededBookIsRight(feed: Feed, tok: string, steps: seq<Step>, symbol: string, s: SideName, p: string)
    requires AllLive(feed) && FaithfulRun(feed, tok, steps) && Seeded(steps, symbol)
    ensures var Entry(b, seed, from) := Run(steps).books[symbol];
            && from <= seed.id <= b.lastUpdateID
            && (p in b.On(s) ==>
                  At(feed(symbol), s, p, b.lastUpdateID) ==
                    if IsPhantom(feed(symbol), s, b.lastUpdateID, from, tok, p) then None else Some(b.On(s)[p]))
            && (Lookup(b.On(s), p) == At(feed(symbol), s, p, b.lastUpdateID) <==>
                  if Touched(feed(symbol), s, p, from, b.lastUpdateID) then
                    IsRemoval(tok) || At(feed(symbol), s, p, b.lastUpdateID).Some?
                  else Lookup(seed.On(s), p) == At(feed(symbol), s, p, seed.id))
  {
    RunTracks(feed, tok, steps);
    var Entry(b, seed, from) := Run(steps).books[symbol];
    RightAtIff(feed(symbol), s, b.On(s), b.lastUpdateID, seed, from, tok, p);
  }

  /** The documented "full order book", exactly: over every run a seeded side equals the exchange's at every
      price if and only if each level its snapshot left out has been updated since `from` and every removal
      since was recognised. */
  lemma BookIsFullIff(feed: Feed, tok: string, steps: seq<Step>, symbol: string, s: SideName)
    requires AllLive(feed) && FaithfulRun(feed, tok, steps) && Seeded(steps, symbol)
    ensures var Entry(b, seed, from) := Run(steps).books[symbol];
            var h, k := feed(symbol), b.lastUpdateID;
            && 0 <= k
            && ((forall p :: ExactAt(h, s, b.On(s), p, k)) <==>
                forall p ::
                  (Omitted(h, s, seed, p) ==> Touched(h, s, p, from, k)) && !IsPhantom(h, s, k, from, tok, p))
  {
    RunTracks(feed, tok, steps);
    var Entry(b, seed, from) := Run(steps).books[symbol];
    FullBookIff(feed(symbol), s, b.On(s), b.lastUpdateID, seed, from, tok);
  }

  /** The event an applied diff dispatches is the exchange as far as the book is: its two sides obey the exact law
      at the diff's last update id. */
  lemma DispatchedIsRight(feed: Feed, tok: string, steps: seq<Step>, symbol: string, d: Diff)
    requires AllLive(feed) && FaithfulRun(feed, tok, steps) && Faithful(feed, tok, Run(steps), DiffFrame(symbol, d))
    requires FrameOutcome(Run(steps), symbol, d).0 == Applied
    ensures var m := Run(steps);
            var event, e := FrameOutcome(m, symbol, d).1, Next(m, DiffFrame(symbol, d)).books[symbol];
            && event.Some? && event.value.lastUpdateID == d.final >= 0
            && SideTracks(feed(symbol), Bids, event.value.bids, d.final, e.seed, e.from, tok)
            && SideTracks(feed(symbol), Asks, event.value.asks, d.final, e.seed, e.from, tok)
  {
    RunTracks(feed, tok, steps);
    NextTracks(feed, tok, Run(steps), DiffFrame(symbol, d));
  }

  /** A frame for a symbol with a partial stream dispatches itself: at each price its own last level. */
  lemma PartialDispatchesFrame(m: Manager, symbol: string, d: Diff, s: SideName, i: nat, p: string)
    requires PartialOf(m.partial, symbol)
    ensures Next(m, DiffFrame(symbol, d)) == m && FrameOutcome(m, symbol, d).1.Some?
    ensures var event := FrameOutcome(m, symbol, d).1.value;
            var levels, side := if s == Bids then d.bids else d.asks, if s == Bids then event.bids else event.asks;
            && event.lastUpdateID == d.final
            && (p in side ==> Mentions(levels, p))
            && (LastAt(levels, i, p) ==>
                  Lookup(side, p) == if levels[i].qty == "0" || levels[i].qty == "" then None else Some(levels[i].qty))
  {
    var levels := if s == Bids then d.bids else d.asks;
    if LastAt(levels, i, p) {
      LastLevelWins(map[], levels, i, p);
    }
    if !Mentions(levels, p) {
      ApplyLevelsAt(map[], levels, p, "");
    }
  }

  /** Nothing but applied diffs, gaps and partial frames comes of a depth frame, and only applied diffs and
      partial frames dispatch. */
  lemma OtherFramesAreSilent(m: Manager, symbol: string, d: Diff)
    requires !PartialOf(m.partial, symbol)
    ensures symbol !in m.streams ==> Next(m, DiffFrame(symbol, d)) == m && FrameOutcome(m, symbol, d).1 == None
    ensures symbol in m.streams && DiffOutcome(EntryFor(m, symbol).book, d) != Applied ==>
              FrameOutcome(m, symbol, d).1 == None
  {
  }

  /** Whatever a step is about one symbol leaves the books of all others alone. */
  lemma BooksStayApart(m: Manager, symbol: string, other: string, d: Diff, resp: Option<Snapshot>)
    requires symbol != other
    ensures Lookup(Next(m, DiffFrame(symbol, d)).books, other) == Lookup(m.books, other)
    ensures Lookup(Next(m, Fetch(symbol, resp)).books, other) == Lookup(m.books, other)
    ensures Lookup(Next(m, Subscribe([symbol])).books, other) == Lookup(m.books, other)
    ensures Lookup(Next(m, Unsubscribe([symbol])).books, other) == Lookup(m.books, other)
  {
  }

  /** Subscribing again keeps a book, unsubscribing forgets it: the next one starts empty and unseeded. */
  lemma BookLifetime(m: Manager, symbols: seq<string>, symbol: string)
    requires symbol in symbols
    ensures symbol in m.books ==> Lookup(Next(m, Subscribe(symbols)).books, symbol) == Some(m.books[symbol])
    ensures symbol !in m.books ==>
              symbol in Next(m, Subscribe(symbols)).books &&
              Next(m, Subscribe(symbols)).books[symbol].book == BookState(false, 0, map[], map[])
    ensures symbol !in Next(m, Unsubscribe(symbols)).books
  {
  }

  /** Which diff streams are up: the fold of the calls. */
  predicate Streaming(steps: seq<Step>, symbol: string) {
    if steps == [] then false
    else
      var before := Streaming(steps[..|steps| - 1], symbol);
      match steps[|steps| - 1]
      case Subscribe(symbols) => before || symbol in symbols
      case Unsubscribe(symbols) => before && symbol !in symbols
      case Clear => false
      case _ => before
  }

  lemma {:induction false} StreamsAreAsked(steps: seq<Step>, symbol: string)
    ensures symbol in Run(steps).streams <==> Streaming(steps, symbol)
    ensures symbol in Run(steps).streams ==> symbol in Run(steps).books
  {
    if steps != [] {
      StreamsAreAsked(steps[..|steps| - 1], symbol);
    }
  }

  /** Which partial streams are up: the fold of the calls. */
  predicate PartialUp(steps: seq<Step>, v: Partial) {
    steps != [] &&
      var before := PartialUp(steps[..|steps| - 1], v);
      match steps[|steps| - 1]
      case SubscribePartial(wanted) => before || v in wanted
      case UnsubscribePartial(unwanted) => before && v !in unwanted
      case Clear => false
      case _ => before
  }

  lemma {:induction false} PartialIsAsked(steps: seq<Step>, v: Partial)
    ensures v in Run(steps).partial <==> PartialUp(steps, v)
    ensures PartialUp(steps, v) ==> PartialOf(Run(steps).partial, v.symbol)
  {
    if steps != [] {
      PartialIsAsked(steps[..|steps| - 1], v);
    }
  }

  /** Stop forgets every stream and every book. */
  lemma StopForgetsAll(steps: seq<Step>)
    ensures var m := Run(steps + [Clear]); m.streams == {} && m.partial == {} && m.books == map[]
  {
    assert (steps + [Clear])[..|steps|] == steps;
  }

  /** A failed fetch leaves an existing book as it was. */
  lemma FailedFetchChangesNothing(m: Manager, symbol: string)
    requires symbol in m.books
    ensures Next(m, Fetch(symbol, None)) == m
  {
    assert m.books[symbol := m.books[symbol]] == m.books;
  }

  /** A reset clears the flag of every book and touches nothing else; by the lemma below, until the symbol's next
      successful fetch no diff is then applied. */
  lemma ResetUnseedsAll(m: Manager, symbol: string, d: Diff)
    requires symbol in m.books
    ensures var m' := Next(m, ResetAll);
            && m'.streams == m.streams && m'.partial == m.partial && m'.books.Keys == m.books.Keys
            && !m'.books[symbol].book.snapshotted
            && m'.books[symbol].book.bids == m.books[symbol].book.bids
            && m'.books[symbol].book.asks == m.books[symbol].book.asks
            && (symbol in m.streams && !PartialOf(m.partial, symbol) ==>
                  FrameOutcome(m', symbol, d) == (NeedsSeed, None) && Next(m', DiffFrame(symbol, d)) == m')
  {
  }

  /** From a reset, a gap or creation until the symbol's next successful fetch, nothing changes its book:
      diffs are dropped, never applied to an unseeded book. */
  lemma {:induction false} UnseededBookIsFrozen(m: Manager, steps: seq<Step>, symbol: string)
    requires symbol in m.books && !m.books[symbol].book.snapshotted
    requires forall step :: step in steps ==>
               step != Clear && !(step.Fetch? && step.symbol == symbol && step.resp.Some?) &&
               !(step.Unsubscribe? && symbol in step.symbols)
    ensures symbol in RunFrom(m, steps).books && RunFrom(m, steps).books[symbol] == m.books[symbol]
  {
    if steps != [] {
      UnseededBookIsFrozen(m, steps[..|steps| - 1], symbol);
      var last := steps[|steps| - 1];
      assert last in steps;
    }
  }

  ghost function RunFrom(m: Manager, steps: seq<Step>): Manager {
    if steps == [] then m else Next(RunFrom(m, steps[..|steps| - 1]), steps[|steps| - 1])
  }

  // ---------------------------------------------------------------- the code

  /** The diff-depth registry and the books map, with shared Book objects as in the source. */
  class DepthBooks {
    var streams: set<string>
    var partial: set<Partial>
    var books: map<string, Book>

    ghost predicate Valid()
      reads this
    {
      forall s, t :: s in books && t in books && s != t ==> books[s] != books[t]
    }

    ghost function View(): map<string, BookState>
      reads this, books.Values
    {
      map s | s in books :: books[s].View()
    }

    /** This object holds the books of m, whatever m's seeds are. */
    ghost predicate Holds(m: Manager)
      reads this, books.Values
    {
      && streams == m.streams && partial == m.partial
      && books.Keys == m.books.Keys
      && forall s :: s in books ==> books[s].View() == m.books[s].book
    }

    constructor ()
      ensures Valid() && Holds(NO_BOOKS)
    {
      streams, partial, books := {}, {}, map[];
    }

    method BookFor(symbol: string) returns (bk: Book)
      requires Valid()
      modifies this`books
      ensures Valid() && symbol in books && bk == books[symbol]
      ensures symbol in old(books) ==> books == old(books)
      ensures symbol !in old(books) ==> books == old(books)[symbol := bk] && fresh(bk) && bk.View() == EMPTY_BOOK
    {
      if symbol in books {
        bk := books[symbol];
      } else {
        bk := new Book();
        books := books[symbol := bk];
      }
    }

    method HandleDepth(symbol: string, d: Diff, ghost m: Manager) returns (o: Outcome, event: Option<Event>)
      requires Valid() && Holds(m)
      modifies this, books.Values
      ensures Valid() && Holds(Next(m, DiffFrame(symbol, d)))
      ensures (o, event) == FrameOutcome(m, symbol, d)
    {
      if SubscribedPartialDepth(symbol) {
        event := HandlePartialDepth(d);
        return PartialPath, event;
      }
      if symbol !in streams {
        return NotSubscribed, None;
      }
      o, event := HandleBookDiff(symbol, d, m);
    }

    /** The event of a frame on the partial path. */
    method HandlePartialDepth(d: Diff) returns (event: Option<Event>)
      ensures event == Some(Event(d.final, ApplyLevels(map[], d.bids), ApplyLevels(map[], d.asks)))
    {
      var bids := ApplyLevelsLoop(map[], d.bids);
      var asks := ApplyLevelsLoop(map[], d.asks);
      event := Some(Event(d.final, bids, asks));
    }

    /** A diff for a book, which is created if it is missing. */
    method HandleBookDiff(symbol: string, d: Diff, ghost m: Manager) returns (o: Outcome, event: Option<Event>)
      requires Valid() && Holds(m) && !PartialOf(partial, symbol) && symbol in streams
      modifies this, books.Values
      ensures Valid() && Holds(Next(m, DiffFrame(symbol, d)))
      ensures (o, event) == FrameOutcome(m, symbol, d)
    {
      EnsureBook(symbol, m);
      BookAddedFirst(m, symbol);
      o, event := DiffBook(symbol, d, m.(books := m.books[symbol := EntryFor(m, symbol)]));
    }

    method DiffBook(symbol: string, d: Diff, ghost m: Manager) returns (o: Outcome, event: Option<Event>)
      requires Valid() && Holds(m) && symbol in books && !PartialOf(partial, symbol) && symbol in streams
      modifies books[symbol]
      ensures Valid() && Holds(Next(m, DiffFrame(symbol, d)))
      ensures (o, event) == FrameOutcome(m, symbol, d)
    {
      var bk := books[symbol];
      o := bk.HandleDiff(d);
      event := if o == Applied then Some(Event(bk.lastUpdateID, bk.bids, bk.asks)) else None;
    }

    /** bookFor, as a step on what the object holds. */
    method EnsureBook(symbol: string, ghost m: Manager)
      requires Valid() && Holds(m)
      modifies this`books
      ensures Valid() && symbol in books && books.Values <= old(books.Values) + {books[symbol]}
      ensures books[symbol] in old(books.Values) || fresh(books[symbol])
      ensures Holds(m.(books := m.books[symbol := EntryFor(m, symbol)]))
    {
      var _ := BookFor(symbol);
    }

    predicate SubscribedPartialDepth(symbol: string)
      reads this
    {
      PartialOf(partial, symbol)
    }

    method SnapshotDepthBook(symbol: string, resp: Option<Snapshot>, ghost m: Manager) returns (event: Option<Event>)
      requires Valid() && Holds(m)
      modifies this, books.Values
      ensures Valid() && Holds(Next(m, Fetch(symbol, resp)))
      ensures event == if resp.Some? then Some(EventOf(Next(m, Fetch(symbol, resp)).books[symbol].book)) else None
    {
      EnsureBook(symbol, m);
      BookAddedFirst(m, symbol);
      event := SeedBook(symbol, resp, m.(books := m.books[symbol := EntryFor(m, symbol)]));
    }

    method SeedBook(symbol: string, resp: Option<Snapshot>, ghost m: Manager) returns (event: Option<Event>)
      requires Valid() && Holds(m) && symbol in books
      modifies books[symbol]
      ensures Valid() && Holds(Next(m, Fetch(symbol, resp)))
      ensures event == if resp.Some? then Some(EventOf(Next(m, Fetch(symbol, resp)).books[symbol].book)) else None
    {
      var bk := books[symbol];
      bk.TakeSnapshot(resp);
      event := if resp.Some? then Some(Event(bk.lastUpdateID, bk.bids, bk.asks)) else None;
    }

    method ResetDepthBooks(ghost m: Manager)
      requires Valid() && Holds(m)
      modifies books.Values
      ensures Valid() && Holds(Next(m, ResetAll))
    {
      var todo := books.Keys;
      while todo != {}
        invariant todo <= books.Keys
        invariant forall s :: s in books ==>
                    books[s].View() == if s in todo then m.books[s].book else m.books[s].book.(snapshotted := false)
        decreases todo
      {
        var s :| s in todo;
        books[s].Reset();
        todo := todo - {s};
      }
    }

    /** `added` is the content of the subscribe frame; an empty frame is not sent. */
    method SubscribeDepth(symbols: seq<string>, ghost m: Manager) returns (added: seq<string>)
      requires Valid() && Holds(m)
      modifies this
      ensures Valid() && Holds(Next(m, Subscribe(symbols)))
      ensures added == Added(m.streams, symbols)
    {
      added := AddStreams(symbols);
      BooksFor(symbols);
    }

    method AddStreams(symbols: seq<string>) returns (added: seq<string>)
      modifies this`streams
      ensures streams == old(streams) + Elems(symbols) && added == Added(old(streams), symbols)
    {
      added := [];
      for i := 0 to |symbols|
        invariant streams == old(streams) + Elems(symbols[..i])
        invariant added == Added(old(streams), symbols[..i])
      {
        assert symbols[..i + 1][..i] == symbols[..i] && symbols[..i + 1] == symbols[..i] + [symbols[i]];
        if symbols[i] in streams {
          continue;
        }
        streams := streams + {symbols[i]};
        added := added + [symbols[i]];
      }
      assert symbols[..|symbols|] == symbols;
    }

    method RemoveStreams(symbols: seq<string>) returns (removed: seq<string>)
      modifies this`streams
      ensures streams == old(streams) - Elems(symbols) && removed == Removed(old(streams), symbols)
    {
      removed := [];
      for i := 0 to |symbols|
        invariant streams == old(streams) - Elems(symbols[..i])
        invariant removed == Removed(old(streams), symbols[..i])
      {
        assert symbols[..i + 1][..i] == symbols[..i] && symbols[..i + 1] == symbols[..i] + [symbols[i]];
        if symbols[i] !in streams {
          continue;
        }
        streams := streams - {symbols[i]};
        removed := removed + [symbols[i]];
      }
      assert symbols[..|symbols|] == symbols;
    }

    /** Creates the missing books; existing ones are the same objects, untouched. */
    method BooksFor(symbols: seq<string>)
      requires Valid()
      modifies this`books
      ensures Valid() && books.Keys == old(books.Keys) + Elems(symbols)
      ensures forall s :: s in old(books) ==> books[s] == old(books[s])
      ensures forall s :: s in books && s !in old(books) ==> fresh(books[s]) && books[s].View() == EMPTY_BOOK
    {
      for i := 0 to |symbols|
        invariant Valid() && books.Keys == old(books.Keys) + Elems(symbols[..i])
        invariant forall s :: s in old(books) ==> books[s] == old(books[s])
        invariant forall s :: s in books && s !in old(books) ==> fresh(books[s]) && books[s].View() == EMPTY_BOOK
      {
        assert symbols[..i + 1] == symbols[..i] + [symbols[i]];
        var _ := BookFor(symbols[i]);
      }
      assert symbols[..|symbols|] == symbols;
    }

    /** `removed` is the content of the unsubscribe frame; an empty frame is not sent. */
    method UnsubscribeDepth(symbols: seq<string>, ghost m: Manager) returns (removed: seq<string>)
      requires Valid() && Holds(m)
      modifies this
      ensures Valid() && Holds(Next(m, Unsubscribe(symbols)))
      ensures removed == Removed(m.streams, symbols)
    {
      removed := RemoveStreams(symbols);
      for i := 0 to |symbols|
        invariant books == old(books) - Elems(symbols[..i])
        invariant streams == m.streams - Elems(symbols) && partial == m.partial
      {
        assert symbols[..i + 1] == symbols[..i] + [symbols[i]];
        books := books - {symbols[i]};
      }
      assert symbols[..|symbols|] == symbols;
    }

    method SubscribePartialDepth(wanted: set<Partial>, ghost m: Manager)
      requires Valid() && Holds(m)
      modifies this
      ensures Valid() && Holds(Next(m, SubscribePartial(wanted)))
    {
      partial := partial + wanted;
    }

    method UnsubscribePartialDepth(unwanted: set<Partial>, ghost m: Manager)
      requires Valid() && Holds(m)
      modifies this
      ensures Valid() && Holds(Next(m, UnsubscribePartial(unwanted)))
    {
      partial := partial - unwanted;
    }

    method ClearBooks(ghost m: Manager)
      requires Valid() && Holds(m)
      modifies this
      ensures Valid() && Holds(Next(m, Clear))
    {
      streams, partial, books := {}, {}, map[];
    }
  }
}
