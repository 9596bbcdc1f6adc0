/**
  The series cache (seriesCache and cloneSeries in pkg/polymarket/series.go).  Go slices are
  arrays here, so that sharing between the cache and its callers is visible.
*/
module SeriesCache {
  import opened Common

  // ---------------------------------------------------------------- contents and runs

  datatype Market = Market(id: string)

  datatype Tag = Tag(id: string, slug: string)

  /** A struct copy of an event still points at the same Markets and Tags slices. */
  datatype Event = Event(id: string, slug: string, tags: array?<Tag>, markets: array?<Market>)

  datatype Series = Series(id: string, slug: string, events: array?<Event>)

  /** A series with its events spelled out. */
  datatype Listing = Listing(id: string, slug: string, events: seq<Event>)

  const DEFAULT_TTL := 3600   // time.Hour, in the unit of the clock

  /** The cached content of a slug and the last instant at which it is served. */
  datatype Slot = Slot(content: seq<Listing>, expiresAt: int)

  datatype Op =
    | Store(slug: string, content: seq<Listing>, at: int)
    | Find(slug: string, at: int)
    | Invalidate(slug: string, at: int)

  function TTL(ttl: int): int { if ttl <= 0 then DEFAULT_TTL else ttl }

  function AfterFind(m: map<string, Slot>, slug: string, now: int): map<string, Slot> {
    if slug in m && now > m[slug].expiresAt then m - {slug} else m
  }

  /** What lookup returns: a hit is served up to and including the expiry instant. */
  function FindResult(m: map<string, Slot>, slug: string, now: int): Option<seq<Listing>> {
    if slug in m && now <= m[slug].expiresAt then Some(m[slug].content) else None
  }

  function Next(ttl: int, m: map<string, Slot>, op: Op): map<string, Slot> {
    match op
    case Store(slug, content, now) => m[slug := Slot(content, now + TTL(ttl))]
    case Find(slug, now) => AfterFind(m, slug, now)
    case Invalidate(slug, _) => m - {slug}
  }

  function Run(ttl: int, ops: seq<Op>): map<string, Slot> {
    if ops == [] then map[] else Next(ttl, Run(ttl, ops[..|ops| - 1]), ops[|ops| - 1])
  }

  /** The latest store of a slug, unless it has been invalidated since. */
  function Latest(ttl: int, ops: seq<Op>, slug: string): Option<Slot> {
    if ops == [] then None
    else
      match ops[|ops| - 1]
      case Store(s, content, now) =>
        if s == slug then Some(Slot(content, now + TTL(ttl))) else Latest(ttl, ops[..|ops| - 1], slug)
      case Invalidate(s, _) => if s == slug then None else Latest(ttl, ops[..|ops| - 1], slug)
      case Find(_, _) => Latest(ttl, ops[..|ops| - 1], slug)
  }

  predicate ClockMovesForward(ops: seq<Op>, now: int) {
    && (forall i, j :: 0 <= i < j < |ops| ==> ops[i].at <= ops[j].at)
    && (forall i :: 0 <= i < |ops| ==> ops[i].at <= now)
  }

  lemma {:induction false} CacheHoldsLatest(ttl: int, ops: seq<Op>, slug: string, now: int)
    requires ClockMovesForward(ops, now)
    ensures var m, latest := Run(ttl, ops), Latest(ttl, ops, slug);
            && (slug in m ==> latest == Some(m[slug]))
            && (slug !in m && latest.Some? ==> latest.value.expiresAt < now)
  {
    if ops != [] {
      var last := ops[|ops| - 1];
      CacheHoldsLatest(ttl, ops[..|ops| - 1], slug, last.at);
    }
  }

  /** Over every run on a clock that never goes back: a lookup hits exactly when the slug's latest store has
      neither expired nor been invalidated since, and returns that store's content. */
  lemma HitIsLatestStore(ttl: int, ops: seq<Op>, slug: string, now: int)
    requires ClockMovesForward(ops, now)
    ensures FindResult(Run(ttl, ops), slug, now) ==
              match Latest(ttl, ops, slug)
              case None => None
              case Some(slot) => if now <= slot.expiresAt then Some(slot.content) else None
  {
    CacheHoldsLatest(ttl, ops, slug, now);
  }

  /** How long a slug is served: if nothing stores or invalidates it again, up to and including the time to live
      after the store, which is an hour when none is set, and not a moment longer. */
  lemma ServedForTtl(ttl: int, ops: seq<Op>, slug: string, content: seq<Listing>, t: int, more: seq<Op>, now: int)
    requires ClockMovesForward(ops + [Store(slug, content, t)] + more, now)
    requires forall op :: op in more ==> op.Find? || op.slug != slug
    ensures FindResult(Run(ttl, ops + [Store(slug, content, t)] + more), slug, now) ==
              if now <= t + (if ttl > 0 then ttl else 3600) then Some(content) else None
  {
    var stored := ops + [Store(slug, content, t)];
    assert stored[..|ops|] == ops;
    HitIsLatestStore(ttl, stored + more, slug, now);
    OthersDoNotCount(ttl, stored, slug, more);
  }

  lemma {:induction false} OthersDoNotCount(ttl: int, ops: seq<Op>, slug: string, more: seq<Op>)
    requires forall op :: op in more ==> op.Find? || op.slug != slug
    ensures Latest(ttl, ops + more, slug) == Latest(ttl, ops, slug)
  {
    if more == [] {
      assert ops + more == ops;
    } else {
      var init := more[..|more| - 1];
      OthersDoNotCount(ttl, ops, slug, init);
      assert (ops + more)[..|ops + more| - 1] == ops + init;
      assert more[|more| - 1] in more;
    }
  }

  // ---------------------------------------------------------------- slices on the heap

  ghost function EventsOf(s: Series): seq<Event>
    reads s.events
  {
    if s.events == null then [] else s.events[..]
  }

  ghost function ListingOf(s: Series): Listing
    reads s.events
  {
    Listing(s.id, s.slug, EventsOf(s))
  }

  /** Every array a slice of series is made of lies in `repr`. */
  ghost predicate Within(a: array?<Series>, repr: set<object>)
    reads a
  {
    a != null ==>
      && a in repr
      && forall i :: 0 <= i < a.Length && a[i].events != null ==> a[i].events in repr
  }

  ghost function ContentOf(a: array?<Series>, repr: set<object>): seq<Listing>
    requires Within(a, repr)
    reads a, repr
  {
    if a == null then []
    else
      seq(a.Length, i requires 0 <= i < a.Length && (a[i].events == null || a[i].events in repr) reads a, repr =>
        ListingOf(a[i]))
  }

  /** What content is: for each series its own fields and its events one by one. */
  lemma ContentIs(a: array<Series>, repr: set<object>, i: nat, j: nat)
    requires Within(a, repr) && i < a.Length
    ensures |ContentOf(a, repr)| == a.Length && ContentOf(null, repr) == []
    ensures ContentOf(a, repr)[i].id == a[i].id && ContentOf(a, repr)[i].slug == a[i].slug
    ensures |ContentOf(a, repr)[i].events| == if a[i].events == null then 0 else a[i].events.Length
    ensures a[i].events != null && j < a[i].events.Length ==> ContentOf(a, repr)[i].events[j] == a[i].events[j]
  {
  }

  lemma ContentInLargerRepr(a: array?<Series>, small: set<object>, large: set<object>)
    requires Within(a, small) && small <= large
    ensures Within(a, large) && ContentOf(a, large) == ContentOf(a, small)
  {
  }

  /** Copies one Events slice; an empty one becomes nil, as append to nil does. */
  method CloneEvents(events: array?<Event>) returns (out: array?<Event>)
    ensures out != null ==> fresh(out)
    ensures (if out == null then [] else out[..]) == (if events == null then [] else events[..])
  {
    if events == null || events.Length == 0 {
      return null;
    }
    var copied := new Event[events.Length](i requires 0 <= i < events.Length reads events => events[i]);
    return copied;
  }

  /** Slices of equal listings have equal content. */
  lemma SameListings(a: array<Series>, repr: set<object>, b: array<Series>, own: set<object>)
    requires Within(a, repr) && Within(b, own) && a.Length == b.Length
    requires forall k :: 0 <= k < a.Length ==> ListingOf(b[k]) == ListingOf(a[k])
    ensures ContentOf(b, own) == ContentOf(a, repr)
  {
  }

  method CloneOne(s: Series) returns (out: Series)
    ensures out.events != null ==> fresh(out.events)
    ensures ListingOf(out) == ListingOf(s)
  {
    var events := CloneEvents(s.events);
    out := s.(events := events);
  }

  method CloneSeries(a: array?<Series>, ghost repr: set<object>) returns (out: array?<Series>, ghost own: set<object>)
    requires Within(a, repr)
    ensures fresh(own) && Within(out, own)
    ensures ContentOf(out, own) == ContentOf(a, repr)
  {
    own := {};
    if a == null {
      return null, own;
    }
    var copied := new Series[a.Length](i requires 0 <= i < a.Length reads a => a[i].(events := null));
    own := {copied};
    for i := 0 to a.Length
      invariant fresh(own) && copied in own && unchanged(a) && unchanged(repr)
      invariant forall k :: 0 <= k < i ==> copied[k].events == null || copied[k].events in own
      invariant forall k :: 0 <= k < i ==> ListingOf(copied[k]) == ListingOf(a[k])
    {
      var one := CloneOne(a[i]);
      if one.events != null {
        own := own + {one.events};
      }
      copied[i] := one;
    }
    out := copied;
    SameListings(a, repr, copied, own);
  }

  datatype Entry = Entry(series: array?<Series>, expiresAt: int)

  /** Every array the entries are made of lies in `repr`. */
  ghost predicate Owned(entries: map<string, Entry>, repr: set<object>)
    reads repr
  {
    && (forall slug :: slug in entries && entries[slug].series != null ==> entries[slug].series in repr)
    && (forall slug :: slug in entries ==> Within(entries[slug].series, repr))
  }

  ghost function ViewOf(entries: map<string, Entry>, repr: set<object>): map<string, Slot>
    requires Owned(entries, repr)
    reads repr
  {
    map slug | slug in entries :: Slot(ContentOf(entries[slug].series, repr), entries[slug].expiresAt)
  }

  /** Storing an entry made of other arrays. */
  lemma ViewAfterStore(entries: map<string, Entry>, repr: set<object>, slug: string, e: Entry, own: set<object>)
    requires Owned(entries, repr) && Within(e.series, own)
    ensures Owned(entries[slug := e], repr + own)
    ensures ViewOf(entries[slug := e], repr + own) ==
              ViewOf(entries, repr)[slug := Slot(ContentOf(e.series, own), e.expiresAt)]
  {
    forall s | s in entries {
      ContentInLargerRepr(entries[s].series, repr, repr + own);
    }
    ContentInLargerRepr(e.series, own, repr + own);
  }

  class Cache {
    const ttl: int
    var entries: map<string, Entry>
    ghost var repr: set<object>       // every array the cache owns

    ghost predicate Valid()
      reads this, repr
    {
      this !in repr && Owned(entries, repr)
    }

    /** The cache as a map of contents. */
    ghost function View(): map<string, Slot>
      requires Valid()
      reads this, repr
    {
      ViewOf(entries, repr)
    }

    constructor (ttl: int)
      ensures Valid() && this.ttl == ttl && View() == map[] && repr == {}
    {
      this.ttl := ttl;
      entries := map[];
      repr := {};
    }

    /** A hit is a fresh copy: it shares no array with the cache. */
    method Find(slug: string, now: int) returns (series: array?<Series>, hit: bool, ghost own: set<object>)
      requires Valid()
      modifies this`entries
      ensures Valid() && View() == AfterFind(old(View()), slug, now)
      ensures fresh(own) && Within(series, own)
      ensures hit == old(FindResult(View(), slug, now)).Some?
      ensures hit ==> ContentOf(series, own) == old(FindResult(View(), slug, now)).value
    {
      own := {};
      if slug !in entries {
        return null, false, own;
      }
      var entry := entries[slug];
      if now > entry.expiresAt {
        entries := entries - {slug};
        return null, false, own;
      }
      series, own := CloneSeries(entry.series, repr);
      hit := true;
    }

    /** The stored copy shares no array with the caller's slice. */
    method Store(slug: string, series: array?<Series>, now: int, ghost callers: set<object>)
      requires Valid() && Within(series, callers)
      modifies this
      ensures Valid() && View() == Next(ttl, old(View()), Op.Store(slug, old(ContentOf(series, callers)), now))
      ensures old(repr) <= repr && fresh(repr - old(repr))
    {
      var life := ttl;
      if life <= 0 {
        life := DEFAULT_TTL;
      }
      var copied, own := CloneSeries(series, callers);
      ViewAfterStore(entries, repr, slug, Entry(copied, now + life), own);
      repr := repr + own;
      entries := entries[slug := Entry(copied, now + life)];
    }

    method Invalidate(slug: string)
      requires Valid()
      modifies this`entries
      ensures Valid() && View() == Next(ttl, old(View()), Op.Invalidate(slug, 0))
    {
      entries := entries - {slug};
    }
  }

  /** Stands for arbitrary writes to the arrays in `own`: its contract promises nothing about them. */
  method Scribble(ghost own: set<object>)
    modifies own
  {
  }

  /** Whatever a caller writes into the slice it got, and into the Events slices inside, a later lookup
      still returns the stored content. */
  method CallerCannotSpoil(c: Cache, slug: string, now: int)
    returns (second: array?<Series>, hit: bool, ghost own: set<object>)
    requires c.Valid() && FindResult(c.View(), slug, now).Some?
    modifies c
    ensures c.Valid() && hit && Within(second, own)
    ensures ContentOf(second, own) == old(FindResult(c.View(), slug, now)).value
  {
    var _, _, first := c.Find(slug, now);
    Scribble(first);
    second, hit, own := c.Find(slug, now);
  }

  // ---------------------------------------------------------------- below the Events slices

  ghost function MarketsOf(e: Event): seq<Market>
    reads e.markets
  {
    if e.markets == null then [] else e.markets[..]
  }

  ghost function TagsOf(e: Event): seq<Tag>
    reads e.tags
  {
    if e.tags == null then [] else e.tags[..]
  }

  ghost function EventsIn(content: seq<Listing>): set<Event> {
    set l, e | l in content && e in l.events :: e
  }

  /** One write to an array of markets and one to an array of tags change nothing below a set of events if and
      only if each misses the events or writes what was there. */
  method WriteNested(ghost events: set<Event>, a: array<Market>, i: nat, x: Market, b: array<Tag>, j: nat, y: Tag)
    requires i < a.Length && j < b.Length
    modifies a, b
    ensures (forall e :: e in events ==> MarketsOf(e) == old(MarketsOf(e)) && TagsOf(e) == old(TagsOf(e)))
       <==> && ((exists e :: e in events && e.markets == a) ==> old(a[i]) == x)
            && ((exists e :: e in events && e.tags == b) ==> old(b[j]) == y)
  {
    a[i], b[j] := x, y;
    if old(a[i]) != x && exists e :: e in events && e.markets == a {
      ghost var e :| e in events && e.markets == a;
      assert MarketsOf(e)[i] != old(MarketsOf(e))[i];
    } else if old(b[j]) != y && exists e :: e in events && e.tags == b {
      ghost var e :| e in events && e.tags == b;
      assert TagsOf(e)[j] != old(TagsOf(e))[j];
    } else {
      forall e | e in events ensures MarketsOf(e) == old(MarketsOf(e)) && TagsOf(e) == old(TagsOf(e)) {
        assert e.markets == a ==> a[..] == old(a[..]);
        assert e.tags == b ==> b[..] == old(b[..]);
      }
    }
  }

  /** A lookup leaves the markets and tags of any events alone. */
  method FindBelow(c: Cache, slug: string, now: int, ghost content: seq<Listing>)
    returns (series: array?<Series>, hit: bool, ghost own: set<object>)
    requires c.Valid() && FindResult(c.View(), slug, now) == Some(content)
    modifies c
    ensures c.Valid() && hit && Within(series, own) && ContentOf(series, own) == content
    ensures forall e :: e in EventsIn(content) ==> MarketsOf(e) == old(MarketsOf(e)) && TagsOf(e) == old(TagsOf(e))
  {
    series, hit, own := c.Find(slug, now);
  }

  /** The copy stops at the Events slices: the Markets and Tags slices of an event are the same arrays in the
      cache, in every hit and in the slice once stored.  So after a write to some array of markets and to some
      array of tags, the next hit reads as before, down to every market and tag, if and only if neither write
      changed a slice of the cached content. */
  method NestedWritesShowIff(c: Cache, slug: string, now: int, a: array<Market>, i: nat, x: Market,
                             b: array<Tag>, j: nat, y: Tag, ghost content: seq<Listing>)
    returns (series: array?<Series>, hit: bool, ghost own: set<object>)
    requires c.Valid() && FindResult(c.View(), slug, now) == Some(content)
    requires i < a.Length && a !in c.repr && j < b.Length && b !in c.repr
    modifies c, a, b
    ensures c.Valid() && hit && Within(series, own) && ContentOf(series, own) == content
    ensures (forall e :: e in EventsIn(content) ==>
               MarketsOf(e) == old(MarketsOf(e)) && TagsOf(e) == old(TagsOf(e)))
       <==> && ((exists e :: e in EventsIn(content) && e.markets == a) ==> old(a[i]) == x)
            && ((exists e :: e in EventsIn(content) && e.tags == b) ==> old(b[j]) == y)
  {
    WriteNested(EventsIn(content), a, i, x, b, j, y);
    series, hit, own := FindBelow(c, slug, now, content);
  }

  function OneListing(markets: array<Market>, tags: array<Tag>): seq<Listing> {
    [Listing("s", "s", [Event("e", "e", tags, markets)])]
  }

  /** A cache holding one series with one event. */
  method StoreOne(markets: array<Market>, tags: array<Tag>) returns (c: Cache)
    ensures fresh(c) && c.Valid() && fresh(c.repr)
    ensures FindResult(c.View(), "s", 0) == Some(OneListing(markets, tags))
  {
    c := new Cache(0);
    var events := new Event[1][Event("e", "e", tags, markets)];
    var series := new Series[1][Series("s", "s", events)];
    assert ContentOf(series, {series, events}) == OneListing(markets, tags) by {
      assert events[..] == [Event("e", "e", tags, markets)];
    }
    c.Store("s", series, 0, {series, events});
  }

  /** The slices a caller reaches through a hit are the stored ones. */
  method LookUpOne(c: Cache, ghost markets: array<Market>, ghost tags: array<Tag>)
    returns (ms: array?<Market>, ts: array?<Tag>)
    requires c.Valid() && FindResult(c.View(), "s", 0) == Some(OneListing(markets, tags))
    modifies c`entries
    ensures c.Valid() && c.View() == old(c.View()) && ms == markets && ts == tags
  {
    var series, hit, own := c.Find("s", 0);
    assert ContentOf(series, own)[0].events[0] == series[0].events[0];
    ms, ts := series[0].events[0].markets, series[0].events[0].tags;
  }

  method WriteThroughHit(c: Cache, markets: array<Market>, tags: array<Tag>, m: Market, t: Tag)
    requires c.Valid() && FindResult(c.View(), "s", 0) == Some(OneListing(markets, tags))
    requires markets.Length > 0 && tags.Length > 0 && markets !in c.repr && tags !in c.repr
    modifies c`entries, markets, tags
    ensures c.Valid() && c.View() == old(c.View()) && markets[0] == m && tags[0] == t
  {
    var ms, ts := LookUpOne(c, markets, tags);
    ms[0], ts[0] := m, t;
  }

  /** Concrete failure: store one event with one market and one tag, look it up, write to both through the
      hit, look it up again. */
  method NestedWriteShows(stored: Market, written: Market, tag: Tag, writtenTag: Tag)
    returns (served: Market, servedTag: Tag)
    ensures served == written && servedTag == writtenTag
  {
    var markets, tags := new Market[1][stored], new Tag[1][tag];
    var c := StoreOne(markets, tags);
    WriteThroughHit(c, markets, tags, written, writtenTag);
    var ms, ts := LookUpOne(c, markets, tags);
    served, servedTag := ms[0], ts[0];
  }
}
