/** The paginated walk over a series' events (ListSeriesEvents in pkg/polymarket/series.go). */
module SeriesWalk {
  import opened Common

  datatype Event = Event(id: string, slug: string, closed: bool)

  /** A server that slices a finite dataset by limit and offset, and may fail any request. */
  datatype Server = Server(data: seq<Event>, down: (int, int) -> bool)

  /** closed is None when the caller leaves the choice to the server. */
  datatype Query = Query(seriesID: string, closed: Option<bool>, limit: int, offset: int)

  const DEFAULT_LIMIT := 100
  const MAX_LIMIT := 500
  const PAGE_SIZE := 100

  function Fetch(srv: Server, limit: nat, offset: int): Result<seq<Event>> {
    if offset < 0 || srv.down(limit, offset) then Err("request failed")
    else
      var start := Min(offset, |srv.data|);
      Ok(srv.data[start..Min(start + limit, |srv.data|)])
  }

  function KeyOf(e: Event): string { if e.id == "" then e.slug else e.id }

  /** The keys among the first n events. */
  function KeysTo(xs: seq<Event>, n: nat): set<string>
    requires n <= |xs|
  {
    if n == 0 then {} else KeysTo(xs, n - 1) + {KeyOf(xs[n - 1])}
  }

  /** The first occurrence of every key among the first n events, in order. */
  function DedupTo(xs: seq<Event>, n: nat): (r: seq<Event>)
    requires n <= |xs|
    ensures |r| <= n
  {
    if n == 0 then []
    else if KeyOf(xs[n - 1]) in KeysTo(xs, n - 1) then DedupTo(xs, n - 1)
    else DedupTo(xs, n - 1) + [xs[n - 1]]
  }

  function Dedup(xs: seq<Event>): seq<Event> { DedupTo(xs, |xs|) }

  ghost predicate FirstAt(xs: seq<Event>, n: nat, e: Event, i: nat)
    requires n <= |xs|
  {
    i < n && xs[i] == e && forall j :: 0 <= j < i ==> KeyOf(xs[j]) != KeyOf(e)
  }

  lemma {:induction false} KeysAre(xs: seq<Event>, n: nat, k: string)
    requires n <= |xs|
    ensures k in KeysTo(xs, n) <==> exists j :: 0 <= j < n && KeyOf(xs[j]) == k
  {
    if n > 0 {
      KeysAre(xs, n - 1, k);
    }
  }

  /** What deduplication means: the survivors are exactly the events with no earlier event of the same key ... */
  lemma {:induction false} DedupKeepsFirsts(xs: seq<Event>, n: nat, e: Event)
    requires n <= |xs|
    ensures e in DedupTo(xs, n) <==> exists i :: FirstAt(xs, n, e, i)
  {
    if n > 0 {
      var m := n - 1;
      DedupKeepsFirsts(xs, m, e);
      KeysAre(xs, m, KeyOf(xs[m]));
      if i :| FirstAt(xs, m, e, i) {
        assert FirstAt(xs, n, e, i);
      }
      if i :| FirstAt(xs, n, e, i) {
        assert i == m || FirstAt(xs, m, e, i);
      }
      if e == xs[m] && KeyOf(e) !in KeysTo(xs, m) {
        assert FirstAt(xs, n, e, m);
      }
    }
  }

  /** ... and no key survives twice. */
  lemma {:induction false} DedupIsDistinct(xs: seq<Event>, n: nat, i: nat, j: nat)
    requires n <= |xs| && i < j < |DedupTo(xs, n)|
    ensures KeyOf(DedupTo(xs, n)[i]) != KeyOf(DedupTo(xs, n)[j])
  {
    if j < |DedupTo(xs, n - 1)| {
      DedupIsDistinct(xs, n - 1, i, j);
    } else {
      var e := DedupTo(xs, n - 1)[i];
      assert e in DedupTo(xs, n - 1);
      DedupKeepsFirsts(xs, n - 1, e);
      KeysAre(xs, n - 1, KeyOf(xs[n - 1]));
    }
  }

  /** When two events are the same to the walk, on their fields: an event goes by its id or, without one, by its
      slug. */
  predicate SameIdentity(a: Event, b: Event) {
    || (a.id != "" && b.id != "" && a.id == b.id)
    || (a.id != "" && b.id == "" && a.id == b.slug)
    || (a.id == "" && b.id != "" && a.slug == b.id)
    || (a.id == "" && b.id == "" && a.slug == b.slug)
  }

  /** No earlier event is the same. */
  predicate IsFirst(xs: seq<Event>, i: nat) {
    i < |xs| && forall j :: 0 <= j < i ==> !SameIdentity(xs[j], xs[i])
  }

  lemma KeysAreIdentities(xs: seq<Event>, i: nat)
    requires i < |xs|
    ensures KeyOf(xs[i]) !in KeysTo(xs, i) <==> IsFirst(xs, i)
  {
    KeysAre(xs, i, KeyOf(xs[i]));
    forall j | 0 <= j < i ensures KeyOf(xs[j]) == KeyOf(xs[i]) <==> SameIdentity(xs[j], xs[i]) {
    }
  }

  ghost predicate Ascending(pos: seq<nat>) {
    forall k, l :: 0 <= k < l < |pos| ==> pos[k] < pos[l]
  }

  /** xs[pos[0]], xs[pos[1]], ... are the events before n that are the first of their identity, in order. */
  ghost predicate Firsts(xs: seq<Event>, n: nat, pos: seq<nat>) {
    && Ascending(pos)
    && (forall k :: 0 <= k < |pos| ==> pos[k] < n)
    && (forall i :: 0 <= i < n ==> (i in pos <==> IsFirst(xs, i)))
  }

  ghost predicate Picks(xs: seq<Event>, pos: seq<nat>, ys: seq<Event>) {
    |ys| == |pos| && forall k :: 0 <= k < |pos| ==> pos[k] < |xs| && ys[k] == xs[pos[k]]
  }

  lemma OneMoreFirst(xs: seq<Event>, n: nat, pos: seq<nat>)
    requires n < |xs| && Firsts(xs, n, pos)
    ensures Firsts(xs, n + 1, if IsFirst(xs, n) then pos + [n] else pos)
  {
    var pos' := if IsFirst(xs, n) then pos + [n] else pos;
    assert forall i :: i in pos' <==> i in pos || (i == n && IsFirst(xs, n));
    assert n !in pos;
  }

  lemma OneMorePick(xs: seq<Event>, pos: seq<nat>, ys: seq<Event>, n: nat)
    requires n < |xs| && Picks(xs, pos, ys)
    ensures Picks(xs, pos + [n], ys + [xs[n]])
  {
  }

  lemma DedupStep(xs: seq<Event>, n: nat)
    requires n < |xs|
    ensures DedupTo(xs, n + 1) == if IsFirst(xs, n) then DedupTo(xs, n) + [xs[n]] else DedupTo(xs, n)
  {
    KeysAreIdentities(xs, n);
  }

  lemma OneMorePosition(xs: seq<Event>, n: nat, pos: seq<nat>) returns (pos': seq<nat>)
    requires n < |xs| && Firsts(xs, n, pos) && Picks(xs, pos, DedupTo(xs, n))
    ensures Firsts(xs, n + 1, pos') && Picks(xs, pos', DedupTo(xs, n + 1))
  {
    pos' := if IsFirst(xs, n) then pos + [n] else pos;
    OneMoreFirst(xs, n, pos);
    OneMorePick(xs, pos, DedupTo(xs, n), n);
    DedupStep(xs, n);
  }

  /** The survivors in full: the events at the positions of the first of their identity, in the order of the data. */
  lemma DedupPositions(xs: seq<Event>, n: nat) returns (pos: seq<nat>)
    requires n <= |xs|
    ensures Firsts(xs, n, pos) && Picks(xs, pos, DedupTo(xs, n))
  {
    pos := [];
    for i := 0 to n
      invariant Firsts(xs, i, pos) && Picks(xs, pos, DedupTo(xs, i))
    {
      pos := OneMorePosition(xs, i, pos);
    }
  }

  lemma {:induction false} DedupGrows(xs: seq<Event>, m: nat, n: nat)
    requires m <= n <= |xs|
    ensures DedupTo(xs, m) <= DedupTo(xs, n)
    decreases n
  {
    if m < n {
      DedupGrows(xs, m, n - 1);
    }
  }

  function Clamp(limit: int): nat {
    if limit <= 0 then DEFAULT_LIMIT else Min(limit, MAX_LIMIT)
  }

  function Tail(srv: Server, offset: nat): seq<Event> {
    srv.data[Min(offset, |srv.data|)..]
  }

  function Take(xs: seq<Event>, n: nat): seq<Event> {
    xs[..Min(n, |xs|)]
  }

  predicate AllClosed(xs: seq<Event>, b: nat, e: nat)
    requires b <= e <= |xs|
  {
    forall i :: b <= i < e ==> xs[i].closed
  }

  /** Where the walk with Closed=false stops reading, given that it has read c events: after the first page
      that is full and entirely closed, else once limit distinct events are in, else at the end of the data. */
  function CutAt(tail: seq<Event>, limit: nat, c: nat): (cut: nat)
    requires c <= |tail|
    ensures c <= cut <= |tail|
    decreases |tail| - c
  {
    var have := |DedupTo(tail, c)|;
    if have >= limit then c
    else
      var size := Min(limit - have, PAGE_SIZE);
      if c + size > |tail| then |tail|
      else if AllClosed(tail, c, c + size) then c + size
      else CutAt(tail, limit, c + size)
  }

  /** The first `limit` of the deduplicated tail, cut short only when the caller wants open events. */
  function ListedFrom(tail: seq<Event>, limit: nat, openOnly: bool): seq<Event> {
    Take(DedupTo(tail, if openOnly then CutAt(tail, limit, 0) else |tail|), limit)
  }

  /** The events a successful walk returns. */
  function Listed(srv: Server, q: Query): seq<Event>
    requires 0 <= q.offset
  {
    ListedFrom(Tail(srv, q.offset), Clamp(q.limit), q.closed == Some(false))
  }

  method ListSeriesEvents(srv: Server, q: Query) returns (r: Result<seq<Event>>)
    ensures q.seriesID == "" || q.offset < 0 ==> r.Err?
    ensures r.Ok? ==> r.value == Listed(srv, q)
    ensures q.seriesID != "" && 0 <= q.offset && (forall l, o :: !srv.down(l, o)) ==> r.Ok?
  {
    if q.seriesID == "" {
      return Err("SeriesID required");
    }
    var limit := q.limit;
    if limit <= 0 {
      limit := DEFAULT_LIMIT;
    }
    if limit > MAX_LIMIT {
      limit := MAX_LIMIT;
    }
    r := Walk(srv, limit, q.offset, q.closed == Some(false), if q.offset < 0 then [] else Tail(srv, q.offset));
  }

  /** The paging loop. */
  method Walk(srv: Server, limit: nat, start: int, openOnly: bool, ghost tail: seq<Event>)
    returns (r: Result<seq<Event>>)
    requires limit > 0
    requires start >= 0 ==> tail == Tail(srv, start)
    ensures start < 0 ==> r.Err?
    ensures r.Ok? ==> r.value == ListedFrom(tail, limit, openOnly)
    ensures 0 <= start && (forall l, o :: !srv.down(l, o)) ==> r.Ok?
  {
    var events: seq<Event> := [];
    var seen: set<string> := {};
    var offset := start;
    ghost var cut := CutAt(tail, limit, 0);
    ghost var c := 0;
    var more := true;
    while |events| < limit && more
      invariant 0 <= c <= |tail| && offset == start + c
      invariant start < 0 ==> c == 0 && more
      invariant events == DedupTo(tail, c) && |events| <= limit
      invariant more ==> seen == KeysTo(tail, c)
      invariant openOnly ==> cut == if more then CutAt(tail, limit, c) else c
      invariant !openOnly && !more ==> c == |tail|
      decreases |tail| - c, more
    {
      var resp := OnePage(srv, limit, offset, openOnly, events, seen, start, tail, c);
      if resp.Err? {
        return Err("request failed");
      }
      CutMoves(tail, limit, openOnly, c, cut, resp.value.read, resp.value.more);
      events, seen, more := resp.value.events, resp.value.seen, resp.value.more;
      offset := offset + resp.value.read;
      c := c + resp.value.read;
    }
    WalkEnds(tail, limit, openOnly, c, cut);
    return Ok(events);
  }

  datatype Progress = Progress(events: seq<Event>, seen: set<string>, read: nat, more: bool)

  /** The body of the paging loop: `more` is false where the source breaks. */
  method OnePage(srv: Server, limit: nat, offset: int, openOnly: bool, events: seq<Event>, seen: set<string>,
                 ghost start: int, ghost tail: seq<Event>, ghost c: nat) returns (r: Result<Progress>)
    requires offset == start + c && c <= |tail|
    requires start < 0 ==> c == 0
    requires start >= 0 ==> tail == Tail(srv, start)
    requires events == DedupTo(tail, c) && seen == KeysTo(tail, c) && |events| < limit
    ensures r.Ok? ==>
              var p, c' := r.value, c + r.value.read;
              && 0 <= start && c' <= |tail|
              && p.events == DedupTo(tail, c') && p.seen == KeysTo(tail, c') && |p.events| <= limit
              && p.read <= PageSizeAt(tail, limit, c) && (p.read < PageSizeAt(tail, limit, c) ==> c' == |tail|)
              && p.more == !StopsAfter(tail, limit, c, p.read, openOnly)
    ensures 0 <= start && (forall l, o :: !srv.down(l, o)) ==> r.Ok?
  {
    var pageSize := Min(limit - |events|, PAGE_SIZE);
    var resp := FetchPage(srv, pageSize, offset, start, tail, c);
    if resp.Err? {
      return Err("request failed");
    }
    var page := resp.value;
    var events', seen', allClosed := AddPage(events, seen, page, limit, tail, c);
    PageClosed(page, tail, c);
    var stop := |page| < pageSize || (openOnly && allClosed);
    return Ok(Progress(events', seen', |page|, !stop));
  }

  /** The page size the walk asks for after c events. */
  function PageSizeAt(tail: seq<Event>, limit: nat, c: nat): int
    requires c <= |tail|
  {
    Min(limit - |DedupTo(tail, c)|, PAGE_SIZE)
  }

  /** The walk breaks after a short page and, when only open events are wanted, after one that is all closed. */
  predicate StopsAfter(tail: seq<Event>, limit: nat, c: nat, n: nat, openOnly: bool)
    requires c + n <= |tail|
  {
    n < PageSizeAt(tail, limit, c) || (openOnly && n > 0 && AllClosed(tail, c, c + n))
  }

  /** What one page of n events tells about the cut. */
  lemma CutStep(tail: seq<Event>, limit: nat, c: nat, n: nat)
    requires c + n <= |tail| && |DedupTo(tail, c)| < limit
    requires n <= PageSizeAt(tail, limit, c) && (n < PageSizeAt(tail, limit, c) ==> c + n == |tail|)
    ensures CutAt(tail, limit, c) == if StopsAfter(tail, limit, c, n, true) then c + n else CutAt(tail, limit, c + n)
  {
  }

  /** The same seen from the loop: where the cut is once a page has been read. */
  lemma CutMoves(tail: seq<Event>, limit: nat, openOnly: bool, c: nat, cut: nat, n: nat, more: bool)
    requires c + n <= |tail| && |DedupTo(tail, c)| < limit
    requires n <= PageSizeAt(tail, limit, c) && (n < PageSizeAt(tail, limit, c) ==> c + n == |tail|)
    requires more == !StopsAfter(tail, limit, c, n, openOnly)
    requires openOnly ==> cut == CutAt(tail, limit, c)
    ensures openOnly ==> cut == if more then CutAt(tail, limit, c + n) else c + n
    ensures !openOnly && !more ==> c + n == |tail|
    ensures more ==> n > 0
  {
    CutStep(tail, limit, c, n);
  }

  /** The walk may stop after c events: at the limit, at the end of the data, or at the cut. */
  lemma WalkEnds(tail: seq<Event>, limit: nat, openOnly: bool, c: nat, cut: nat)
    requires c <= |tail| && |DedupTo(tail, c)| <= limit && cut == CutAt(tail, limit, 0)
    requires openOnly ==> cut == c || (|DedupTo(tail, c)| >= limit && cut == CutAt(tail, limit, c))
    requires !openOnly ==> c == |tail| || |DedupTo(tail, c)| >= limit
    ensures DedupTo(tail, c) == ListedFrom(tail, limit, openOnly)
  {
    CutPrefix(tail, limit, c);
  }

  lemma PageClosed(page: seq<Event>, tail: seq<Event>, c: nat)
    requires c + |page| <= |tail| && forall i :: 0 <= i < |page| ==> page[i] == tail[c + i]
    ensures AllClosed(page, 0, |page|) == AllClosed(tail, c, c + |page|)
  {
    forall i | c <= i < c + |page| && AllClosed(page, 0, |page|) ensures tail[i].closed {
      assert page[i - c] == tail[i];
    }
  }

  /** The inner loop over one page, with its early exit at the limit. */
  method AddPage(events: seq<Event>, seen: set<string>, page: seq<Event>, limit: nat,
                 ghost tail: seq<Event>, ghost c: nat)
    returns (events': seq<Event>, seen': set<string>, allClosed: bool)
    requires c + |page| <= |tail| && forall i :: 0 <= i < |page| ==> page[i] == tail[c + i]
    requires events == DedupTo(tail, c) && seen == KeysTo(tail, c)
    requires |events| < limit && |page| <= limit - |events|
    ensures events' == DedupTo(tail, c + |page|) && seen' == KeysTo(tail, c + |page|) && |events'| <= limit
    ensures allClosed == (|page| > 0 && AllClosed(page, 0, |page|))
  {
    events', seen', allClosed := events, seen, |page| > 0;
    for i := 0 to |page|
      invariant events' == DedupTo(tail, c + i) && seen' == KeysTo(tail, c + i)
      invariant |events'| <= |events| + i
      invariant allClosed == (|page| > 0 && AllClosed(page, 0, i))
    {
      assert page[i] == tail[c + i];
      events', seen', allClosed := AddEvent(events', seen', allClosed, page, i, tail, c);
      if |events'| >= limit {
        assert i + 1 == |page| && c + i + 1 == c + |page|;
        break;
      }
    }
  }

  /** One event of the page: kept unless its key has been seen. */
  method AddEvent(events: seq<Event>, seen: set<string>, allClosed: bool, page: seq<Event>, i: nat,
                  ghost tail: seq<Event>, ghost c: nat)
    returns (events': seq<Event>, seen': set<string>, allClosed': bool)
    requires i < |page| && c + i < |tail| && page[i] == tail[c + i]
    requires events == DedupTo(tail, c + i) && seen == KeysTo(tail, c + i) && allClosed == AllClosed(page, 0, i)
    ensures events' == DedupTo(tail, c + i + 1) && seen' == KeysTo(tail, c + i + 1)
    ensures |events'| <= |events| + 1 && allClosed' == AllClosed(page, 0, i + 1)
  {
    allClosed' := allClosed;
    if !page[i].closed {
      allClosed' := false;
    }
    var key := KeyOf(page[i]);
    if key in seen {
      return events, seen, allClosed';
    }
    return events + [page[i]], seen + {key}, allClosed';
  }

  /** One request: the answer is the next stretch of the tail. */
  method FetchPage(srv: Server, size: nat, offset: int, ghost start: int, ghost tail: seq<Event>, ghost c: nat)
    returns (resp: Result<seq<Event>>)
    requires offset == start + c && c <= |tail|
    requires start < 0 ==> c == 0
    requires start >= 0 ==> tail == Tail(srv, start)
    ensures resp.Ok? ==>
              && 0 <= start && c + |resp.value| <= |tail| && |resp.value| <= size
              && (forall i :: 0 <= i < |resp.value| ==> resp.value[i] == tail[c + i])
              && (|resp.value| < size ==> c + |resp.value| == |tail|)
    ensures 0 <= start && (forall l, o :: !srv.down(l, o)) ==> resp.Ok?
  {
    resp := Fetch(srv, size, offset);
  }

  /** Reading further than the limit or the end changes nothing. */
  lemma CutPrefix(tail: seq<Event>, limit: nat, c: nat)
    requires c <= |tail|
    ensures |DedupTo(tail, c)| >= limit ==> Take(Dedup(tail), limit) == Take(DedupTo(tail, c), limit)
  {
    DedupGrows(tail, c, |tail|);
  }

  /** What a successful walk returns, in terms of the data.  Its events are data[offset + pos[k]], in order, each the
      first of its identity from the offset on.  Of those that are first among the `end` events read, one is left
      out only when the limit, 100 by default and 500 at most, is reached before it; and without Closed=false all
      the data is read. */
  lemma WalkReturns(srv: Server, q: Query) returns (pos: seq<nat>, end: nat)
    requires 0 <= q.offset
    ensures var r, tail := Listed(srv, q), Tail(srv, q.offset);
            var limit := if q.limit <= 0 then 100 else if q.limit > 500 then 500 else q.limit;
            && TakesFirsts(tail, end, limit, pos) && Picks(tail, pos, r)
            && (q.closed != Some(false) ==> end == |tail|)
            && (q.closed == Some(false) ==> end == CutAt(tail, limit, 0))
  {
    var tail, limit := Tail(srv, q.offset), Clamp(q.limit);
    end := if q.closed == Some(false) then CutAt(tail, limit, 0) else |tail|;
    pos := TakePositions(tail, end, limit);
  }

  /** The data from an offset on. */
  lemma TailIs(srv: Server, offset: nat)
    ensures |Tail(srv, offset)| == if offset <= |srv.data| then |srv.data| - offset else 0
    ensures forall i :: 0 <= i < |Tail(srv, offset)| ==> Tail(srv, offset)[i] == srv.data[offset + i]
  {
  }

  /** At most `limit` positions, in order, of events before `end` that are the first of their identity; one such
      is left out only when the limit is reached before it. */
  ghost predicate TakesFirsts(xs: seq<Event>, end: nat, limit: nat, pos: seq<nat>) {
    && end <= |xs| && |pos| <= limit && Ascending(pos)
    && (forall k :: 0 <= k < |pos| ==> pos[k] < end && IsFirst(xs, pos[k]))
    && (forall i :: 0 <= i < end && IsFirst(xs, i) && i !in pos ==>
          |pos| == limit && forall k :: 0 <= k < |pos| ==> pos[k] < i)
  }

  lemma TakePositions(xs: seq<Event>, end: nat, limit: nat) returns (pos: seq<nat>)
    requires end <= |xs|
    ensures TakesFirsts(xs, end, limit, pos) && Picks(xs, pos, Take(DedupTo(xs, end), limit))
  {
    var all := DedupPositions(xs, end);
    pos := all[..Min(limit, |all|)];
    forall k | 0 <= k < |pos| ensures pos[k] < end && IsFirst(xs, pos[k]) {
      assert all[k] in all;
    }
    forall i | 0 <= i < end && IsFirst(xs, i) && i !in pos
      ensures |pos| == limit && forall k :: 0 <= k < |pos| ==> pos[k] < i
    {
      var l :| 0 <= l < |all| && all[l] == i;
      if l < |pos| {
        assert false;
      }
    }
  }

  /** In particular no two returned events are the same, so none share a non-empty id. */
  lemma ReturnedDiffer(srv: Server, q: Query, i: nat, j: nat)
    requires 0 <= q.offset && i < j < |Listed(srv, q)|
    ensures !SameIdentity(Listed(srv, q)[i], Listed(srv, q)[j])
  {
    var pos, _ := WalkReturns(srv, q);
    assert IsFirst(Tail(srv, q.offset), pos[j]);
  }

  /** Two events with different ids are both returned while there is room. */
  lemma DifferentIdsAreReturned(srv: Server, q: Query, a: Event, b: Event)
    requires q.offset == 0 && srv.data == [a, b] && a.id != "" && b.id != "" && a.id != b.id
    requires q.closed != Some(false) && q.limit != 1
    ensures Listed(srv, q) == [a, b]
  {
    var pos, end := WalkReturns(srv, q);
    assert Tail(srv, 0) == [a, b];
    assert IsFirst([a, b], 0) && IsFirst([a, b], 1);
    BothTaken([a, b], if q.limit <= 0 then 100 else if q.limit > 500 then 500 else q.limit, pos);
  }

  lemma {:induction false} AscendingFits(pos: seq<nat>, end: nat)
    requires Ascending(pos) && forall k :: 0 <= k < |pos| ==> pos[k] < end
    ensures |pos| <= end
  {
    if pos != [] {
      var n := |pos| - 1;
      AscendingFits(pos[..n], pos[n]);
    }
  }

  lemma BothTaken(xs: seq<Event>, limit: nat, pos: seq<nat>)
    requires |xs| == 2 && limit >= 2 && TakesFirsts(xs, 2, limit, pos) && IsFirst(xs, 0) && IsFirst(xs, 1)
    ensures pos == [0, 1]
  {
    AscendingFits(pos, 2);
    assert |pos| >= 2 ==> pos[0] < pos[1];
    assert 0 in pos && 1 in pos;
  }

  /** Where a walk with Closed=false has come to, c events in, decides how it goes on: a page is as many events as
      are still wanted, at most 100; it ends with the data, or after a page that is full and entirely closed. */
  lemma CutIs(tail: seq<Event>, limit: nat, c: nat)
    requires c <= |tail| && |DedupTo(tail, c)| < limit
    ensures var wanted := limit - |DedupTo(tail, c)|;
            var n := if wanted < 100 then wanted else 100;
            if |tail| < c + n then CutAt(tail, limit, c) == |tail|
            else if forall i :: c <= i < c + n ==> tail[i].closed then CutAt(tail, limit, c) == c + n
            else CutAt(tail, limit, c) == CutAt(tail, limit, c + n)
  {
  }

  /** So a walk for open events only that meets a full closed page first returns that page alone. */
  lemma ClosedPageEndsWalk(srv: Server, q: Query, n: nat)
    requires 0 <= q.offset && q.closed == Some(false) && 1 <= q.limit <= 500
    requires n == (if q.limit < 100 then q.limit else 100) && q.offset + n <= |srv.data|
    requires forall i :: q.offset <= i < q.offset + n ==> srv.data[i].closed
    ensures Listed(srv, q) == Dedup(srv.data[q.offset..q.offset + n])
  {
    var tail := Tail(srv, q.offset);
    CutIs(tail, q.limit, 0);
    DedupOfPrefix(tail, n, n);
    assert tail[..n] == srv.data[q.offset..q.offset + n];
  }

  lemma {:induction false} DedupOfPrefix(xs: seq<Event>, m: nat, n: nat)
    requires n <= m <= |xs|
    ensures DedupTo(xs[..m], n) == DedupTo(xs, n) && KeysTo(xs[..m], n) == KeysTo(xs, n)
  {
    if n > 0 {
      DedupOfPrefix(xs, m, n - 1);
    }
  }

  /** With Closed=false the walk is still the full one when the dataset it is served holds no closed event,
      that is, when the server honours the filter. */
  lemma OpenDataIsWalkedInFull(srv: Server, q: Query)
    requires 0 <= q.offset
    requires forall e :: e in srv.data ==> !e.closed
    ensures Listed(srv, q) == Take(Dedup(Tail(srv, q.offset)), Clamp(q.limit))
  {
    var tail := Tail(srv, q.offset);
    assert forall e :: e in tail ==> e in srv.data;
    OpenCut(tail, Clamp(q.limit), 0);
  }

  lemma {:induction false} OpenCut(tail: seq<Event>, limit: nat, c: nat)
    requires c <= |tail| && forall e :: e in tail ==> !e.closed
    ensures Take(DedupTo(tail, CutAt(tail, limit, c)), limit) == Take(Dedup(tail), limit)
    decreases |tail| - c
  {
    CutPrefix(tail, limit, c);
    var have := |DedupTo(tail, c)|;
    if have < limit {
      var size := Min(limit - have, PAGE_SIZE);
      if c + size <= |tail| {
        assert tail[c] in tail;
        OpenCut(tail, limit, c + size);
      }
    }
  }

  /** When the walk stops short of both the limit and the end of the data, the last page it read was full
      and entirely closed. */
  lemma {:induction false} CutOnlyAfterClosedPage(tail: seq<Event>, limit: nat, c: nat) returns (b: nat)
    requires c <= |tail|
    requires CutAt(tail, limit, c) < |tail| && |DedupTo(tail, CutAt(tail, limit, c))| < limit
    ensures c <= b < CutAt(tail, limit, c) == b + PageSizeAt(tail, limit, b)
    ensures AllClosed(tail, b, CutAt(tail, limit, c))
    decreases |tail| - c
  {
    var size := PageSizeAt(tail, limit, c);
    CutStep(tail, limit, c, size);
    if StopsAfter(tail, limit, c, size, true) {
      b := c;
    } else {
      b := CutOnlyAfterClosedPage(tail, limit, c + size);
    }
  }
}
