# Verified model of the exchange connectors

Dafny models of the stateful and arithmetic cores of the Go exchange connector, with proofs about them:
the Binance local order book, the Polymarket market-channel, RTDS and Hyperliquid subscription registries,
the reconnecting WebSocket base, the Gamma series walk and cache, the latency window, the integer amounts
of orders, and the byte strings that get hashed and signed.  `dafny verify dfyconfig.toml` checks the whole project.

## How it is built

- `Common.dfy`, `GoStrings.dfy`, `Words.dfy`: 64-bit arithmetic, the string functions and the 32-byte words the
  rest relies on; `Sorting.dfy`: the order rebuilt frames are sorted in.
- `OrderBook.dfy`, `DepthFeed.dfy`, `BookLevels.dfy`, `DeepBook.dfy`: one depth book against an unbounded exchange
  history, all books under every interleaving, what the rendered best level means, and a book deeper than its snapshot.
- `MarketSubs.dfy`, `Rtds.dfy`, `HyperChannels.dfy`, `HyperRegistry.dfy`: three subscription registries and the set
  the server ends up streaming.
- `Backoff.dfy`, `ConnGenerations.dfy`: the timing of the reconnect loop, and who owns which socket.
- `SeriesWalk.dfy`, `SeriesCache.dfy`, `Latency.dfy`, `OrderAmounts.dfy`, `Preimages.dfy`: the loop, heap and
  arithmetic cores.

Objects the source updates in place are classes whose methods are proved equal to a step function on values;
the theorems over whole runs are lemmas about sequences of those steps.  Environment choices (frames and when
they arrive, whether a write or dial succeeds, when a connection is lost, how long things take) are arguments
of the steps, so every theorem holds for all of them.  Fields that the source does not have but the
theorems speak about (the server's set, the clock, the dial history, closed sockets) are part of the model state.

## Assumptions stated in the contracts

- The exchange's diff frames for a book carry the final value of exactly the prices they touched, snapshots list levels
  the exchange holds, and live levels never have a quantity of `"0"` or `""`.  The feed may write removals with any
  token; the theorems say what an unrecognised one (not `"0"` or `""`) leaves behind.
- Top-of-book results assume that a response lists the best 50 levels, each price once (`limit=50` at
  `pkg/binance/binance.go:1035`), and that the venue's prices parse as numbers.
- A server adds on subscribe frames and removes on unsubscribe frames; the Polymarket handshake sets the whole set.
  A frame whose write failed never reached the server, and a failed write does not by itself end the connection
  (that is a separate step); `StaleIffOddFailures` and the other results about failed writes rest on this.
- The series server slices a finite dataset by offset and limit and rejects negative offsets.
- The hash in the signing results is an arbitrary function with 32-byte results.

## Where the code and its documentation disagree

- The repository's README says the depth seed uses `limit=1000`; the code requests 50, and `SubscribeDepth` promises
  a full order book.  With any limit the book can lack live levels (`DeepBookIsNotFull`); it is the full book exactly
  when every level its snapshot left out has been updated since, and every removal was recognised (`BookIsFullIff`).
- The comment in `flushPending` says a failed write is retried by the next flush.  It is not
  (`FailedWriteIsNotRetried`): the id stays stale until the next connect or until the caller makes the opposite call
  (`OppositeCallRepairs`).  Exactly the ids named by an odd number of failed frames in a row are stale
  (`StaleIffOddFailures`).
- The comments on `Subscribe` and `Unsubscribe` of the market channel describe a full-set replacement; the code sends
  incremental operation frames, and the model follows the code.
- After a failed handshake `subscribedAssetIDs` is non-empty with no connection, so events still queued can be
  dispatched (`StaleDispatch`).
- `readLoop` promises one disconnect report per drop and none on a deliberate shutdown, but its check, its report and
  its cleanup are separate actions, and two read loops can hold one connection.  The promise is kept exactly for the
  generations nobody disturbs in between (`ReportedOnceIff`); `PingBeforeReport`, `PingBeforeCleanup`,
  `CloseBeforeReport` and `TwoReadersReport` are schedules that break it.
- `Disconnect` calls OnDisconnect even when nothing is connected, so one drop can be followed by more than one call
  (`OneCallPerDropIff`, `DisconnectTwice`, `StaleAfterClose`).
- `PlaceMarketOrder` promises slippage protection: a BUY at or below its price, a SELL at or above.  The two truncations
  of a market order can break both promises on ordinary orders (`OrdinaryOrdersMissTheirPrice`); they are kept exactly
  under the conditions of `BuyKeepsPriceIff` and `SellKeepsPriceIff`.
- `reconnLoop` promises to redial a drop promptly, and does within the base interval (`DropIsRedialled`), except for a
  drop in the instant between two rounds, which waits the backoff of earlier failures (`DropBeforeArmWaits`).
- `cloneSeries` promises that callers cannot mutate cached state; that holds down to the Events slices but not for
  the Markets and Tags slices inside events (`NestedWritesShowIff`, `NestedWriteShows`).
- The mean latency and the order amounts are computed in wrapping 64-bit arithmetic; each is right exactly when its sum
  or product fits (`MeanIsExactIff`, `LimitQuoteIsFloorIff`), and both do overflow on accepted inputs.

## Model

| member | source | states |
|---|---|---|
| `OrderBook.ApplyLevelsLoop` | pkg/binance/binance.go:1082-1090 | the loop that applies diff levels computes the left fold of single-level updates |
| `OrderBook.LevelMapLoop` | pkg/binance/binance.go:1069-1080 | the snapshot loop builds the fold that skips short rows and rows whose quantity is "0" (but not "") |
| `OrderBook.ApplyLevelsAt` | pkg/binance/binance.go:1082-1090 | a price no level mentions is untouched; a price mentioned with one quantity ends up removed for "0" or "" and at that quantity otherwise |
| `OrderBook.LastLevelWins` | pkg/binance/binance.go:1082-1090 | the last level at a price decides it: gone for "0" or "", else its quantity |
| `OrderBook.LevelMapHolds` | pkg/binance/binance.go:1069-1080 | the snapshot map holds exactly the rows: a price is in it if and only if some row of two columns stores a quantity other than "0" there, with the quantity of the last such row |
| `OrderBook.DiffAtPrice` | pkg/binance/binance.go:881-896 | a diff U..u with U <= last+1 <= u, overlapping or not, gives the exchange value at u at every touched price, as far as the removal token tells, and changes nothing elsewhere |
| `OrderBook.DiffKeepsTracking` | pkg/binance/binance.go:881-896 | one such diff, of a feed with any removal token, keeps the exact law of a side: exchange value (or the unrecognised token) at every price touched in the followed range, seed value everywhere else |
| `OrderBook.RightAtIff` | pkg/binance/binance.go:881-896 | a followed side is right at a touched price if and only if the level is live or its removal was recognised, and at any other if and only if its seed was; what it holds is the exchange's or an unrecognised removal |
| `OrderBook.MissingIff` | pkg/binance/binance.go:1030-1054 | a live level is missing if and only if the seed omitted it and no update in the followed range is about it; a dead one is still there if and only if its removal was not recognised |
| `OrderBook.FullBookIff` | pkg/binance/binance.go:1030-1054 | the side is the full book if and only if every omitted level has been touched and every removal was recognised |
| `OrderBook.OverlapFillsIn` | pkg/binance/binance.go:881-896 | concrete: a first diff overlapping the seed fills in an omitted level that no later update is about |
| `OrderBook.RemovalTokenMatters` | pkg/binance/binance.go:1082-1090 | for a feed with any removal token, a faithful diff is followed exactly if and only if the token is one the code knows or no touched level was removed |
| `OrderBook.PaddedZeroLeavesLevel` | pkg/binance/binance.go:1082-1090 | concrete failure: a feed that removes with "0.00000000" leaves the level in the local book |
| `OrderBook.Book.constructor` | pkg/binance/binance.go:940-961 | a new book is empty and unseeded |
| `OrderBook.Book.HandleDiff` | pkg/binance/binance.go:871-901 | the whole new state and the outcome (seed needed, stale, gap, applied) of a diff |
| `OrderBook.Book.TakeSnapshot` | pkg/binance/binance.go:1030-1054 | a successful fetch replaces both sides, the id and the flag; a failed one changes nothing |
| `OrderBook.Book.Reset` | pkg/binance/binance.go:966-976 | only the seeded flag is cleared |
| `OrderBook.DiffById` | pkg/binance/binance.go:881-896 | a seeded book leaves a diff up to its own id alone, gives itself up past the next, and otherwise takes on each side that side's levels |
| `OrderBook.DiffTwice` | pkg/binance/binance.go:881-885 | a diff that comes a second time is stale and changes nothing |
| `OrderBook.SnapshotByRows` | pkg/binance/binance.go:1047-1050 | a successful fetch makes the book the response: its id, and on each side the rows of that side |
| `OrderBook.DiffTracks` | pkg/binance/binance.go:871-901 | a faithful diff keeps a seeded book true; the book is given up exactly on a gap and its id never goes back |
| `OrderBook.SnapshotTracks` | pkg/binance/binance.go:1030-1054 | a snapshot of any id, older or newer, makes the book track from that id |
| `DepthFeed.RunTracks` | pkg/binance/binance.go:853-1067 | every run of depth frames, fetches, resets, diff and partial subscriptions and Stop, for a feed with any removal token, keeps the exact law of every seeded book |
| `DepthFeed.SeededBookIsRight` | pkg/binance/binance.go:871-901 | in every reachable state a seeded book is right at a price if and only if an update since `from` is about it and no unrecognised removal came last, or none is and its seed was right; it holds only true levels and unrecognised removals |
| `DepthFeed.BookIsFullIff` | pkg/binance/binance.go:282-301 | over every run a seeded side is the documented full order book if and only if each level its snapshot left out has been updated since `from` and every removal since was recognised |
| `DeepBook.DeepBookIsNotFull` | pkg/binance/binance.go:1030-1054 | concrete failure for limit=50 and any larger limit: every frame faithful, the snapshot the n best bids, and the followed book lacks a live bid |
| `DepthFeed.UnseededBookIsFrozen` | pkg/binance/binance.go:874-879 | from a reset, gap or creation until the next successful fetch no step changes the symbol's book |
| `DepthFeed.ResetUnseedsAll` | pkg/binance/binance.go:966-976 | a reset clears the flag of every book, touches nothing else, and the next diff of a symbol is then not applied |
| `DepthFeed.DispatchedIsRight` | pkg/binance/binance.go:895-914 | over every run the two sides of the event an applied diff dispatches obey the exact law at its last update id |
| `DepthFeed.PartialDispatchesFrame` | pkg/binance/binance.go:863-866 | a frame of a symbol with a partial stream dispatches its own last levels and touches no book |
| `DepthFeed.OtherFramesAreSilent` | pkg/binance/binance.go:867-893 | only applied diffs and partial frames dispatch |
| `DepthFeed.BooksStayApart` | pkg/binance/binance.go:940-964 | a frame, fetch, subscribe or unsubscribe of one symbol leaves the other books alone |
| `DepthFeed.BookLifetime` | pkg/binance/binance.go:285-326 | subscribing again keeps a book, unsubscribing forgets it, a new one is empty and unseeded |
| `DepthFeed.StreamsAreAsked` | pkg/binance/binance.go:285-326 | over every run the diff streams are the fold of the calls, and each has a book |
| `DepthFeed.PartialIsAsked` | pkg/binance/binance.go:328-358 | over every run the partial streams are the fold of the calls |
| `DepthFeed.StopForgetsAll` | pkg/binance/binance.go:244-255 | Stop leaves no stream and no book |
| `DepthFeed.FailedFetchChangesNothing` | pkg/binance/binance.go:1036-1045 | a failed fetch leaves the book as it was |
| `DepthFeed.DepthBooks.BookFor` | pkg/binance/binance.go:947-964 | returns the existing book object or registers a fresh empty one |
| `DepthFeed.DepthBooks.HandleDepth` | pkg/binance/binance.go:853-901 | the manager after a depth frame and the event it dispatches: partial-depth symbols take the partial path, unsubscribed ones are ignored, others go to their own book |
| `DepthFeed.DepthBooks.HandlePartialDepth` | pkg/binance/binance.go:917-932 | the event of a frame on the partial path: the frame on its own |
| `DepthFeed.DepthBooks.HandleBookDiff` | pkg/binance/binance.go:871-915 | the manager and the event after a diff for a book, created if missing |
| `DepthFeed.DepthBooks.SnapshotDepthBook` | pkg/binance/binance.go:1030-1067 | the manager after a fetch, creating the book if it is gone, and the event dispatched on success |
| `DepthFeed.DepthBooks.ResetDepthBooks` | pkg/binance/binance.go:966-976 | the loop clears the flag of every book and nothing else |
| `DepthFeed.DepthBooks.SubscribeDepth` | pkg/binance/binance.go:285-301 | streams added, missing books created empty, existing books kept as the same objects; the content of the subscribe frame |
| `DepthFeed.DepthBooks.UnsubscribeDepth` | pkg/binance/binance.go:305-326 | streams and books of the symbols are gone, others untouched; the content of the unsubscribe frame |
| `DepthFeed.DepthBooks.AddStreams` | pkg/binance/binance.go:454-468 | the registry and the list of new streams |
| `DepthFeed.DepthBooks.RemoveStreams` | pkg/binance/binance.go:471-482 | the registry and the list of dropped streams |
| `DepthFeed.AddFrameNamesNew` | pkg/binance/binance.go:454-468 | the subscribe frame names exactly the new symbols, each once |
| `DepthFeed.RemoveFrameNamesGone` | pkg/binance/binance.go:471-482 | the unsubscribe frame names exactly the symbols that go, each once |
| `DepthFeed.AddFrameInOrder` | pkg/binance/binance.go:454-468 | the subscribe frame keeps the order of the call |
| `DepthFeed.RemoveFrameInOrder` | pkg/binance/binance.go:471-482 | so does the unsubscribe frame |
| `DepthFeed.DepthBooks.ClearBooks` | pkg/binance/binance.go:978-982 | Stop leaves no stream and no book |
| `BookLevels.StrictWeakOrder` | pkg/binance/binance.go:1112-1126 | on a sortable set of prices comparePrice obeys the laws of a strict weak order, in either direction |
| `BookLevels.StrictWeakOrderIff` | pkg/binance/binance.go:1112-1126 | comparePrice, in either direction, is a strict weak order on a set of prices if and only if no unparsable price stands, as a string, between two parsable ones that are not in the same order as numbers, and all numbers tie if a NaN is among them |
| `BookLevels.UniformPricesSortable` | pkg/binance/binance.go:1112-1126 | sets that all parse to numbers, or all fail to parse, are sortable |
| `BookLevels.MixedPricesCycle` | pkg/binance/binance.go:1112-1126 | on mixed prices it is not: "9" < "10" < "1x" < "9" |
| `BookLevels.NaNBreaksTies` | pkg/binance/binance.go:1112-1126 | nor with "NaN", which parses: ties stop being transitive |
| `BookLevels.BeforeAsStrings` | pkg/binance/binance.go:1125 | as soon as one price does not parse the two compare as strings, by their first difference |
| `BookLevels.SortSlice` | pkg/binance/binance.go:1100-1106 | a permutation always, best first when the prices are sortable |
| `BookLevels.BookLevels` | pkg/binance/binance.go:1095-1108 | every entry of the map exactly once, best first in the requested direction when the prices are sortable |
| `BookLevels.PermutesCounts` | pkg/binance/binance.go:1095-1099 | a rendered side has as many levels as the map has entries |
| `BookLevels.RenderedInOrder` | pkg/binance/binance.go:1100-1107 | rendered numbers fall for bids and rise for asks |
| `BookLevels.BetterIff` | pkg/binance/binance.go:1100-1124 | better means higher for bids and lower for asks, as numbers |
| `BookLevels.TopRowsGiveTopLevels` | pkg/binance/binance.go:1035-1048 | a response with the best 50 rows becomes a map with the best 50 levels |
| `BookLevels.CoverageStaysExact` | pkg/binance/binance.go:1030-1054 | with the 50 best levels as seed, the local side stays exact at every price at or better than the seed's worst (everywhere if the seed is short) except for unrecognised removals, and lacks no live level there |
| `BookLevels.FirstLevelIsTrueBest` | pkg/binance/binance.go:1095-1108 | the first rendered level is the exchange's best, with its quantity, while it lies in the seed's coverage and is no unrecognised removal |
| `BookLevels.FirstLevelBestIff` | pkg/binance/binance.go:1030-1108 | no live level beats the first rendered one if and only if none does among those the seed left out and no update has been about since |
| `BookLevels.RenderedBestIff` | pkg/binance/binance.go:871-899 | the same over every run |
| `BookLevels.RunSeedsAreTop` | pkg/binance/binance.go:1030-1054 | in every run whose responses list the best 50 rows the seed of a seeded book is such a top-50 of the exchange at its id |
| `BookLevels.RenderedBestInEveryRun` | pkg/binance/binance.go:871-899 | over every such run the first rendered level of a seeded side is the true best at lastUpdateID inside the coverage, unless it is an unrecognised removal |
| `MarketSubs.StepDesired` | pkg/polymarket/market.go:211-322 | each step changes the desired set exactly as the caller's request does; flush, connect and drop do not change it |
| `MarketSubs.DesiredIsAsked` | pkg/polymarket/market.go:211-408 | over every run (subscribed + pendingAdd) - pendingRemove is the fold of the caller's Subscribe, Unsubscribe and Stop |
| `MarketSubs.PendingSetsOverlap` | pkg/polymarket/market.go:382-389 | a drop can leave one id in both pending sets |
| `MarketSubs.RunAgrees` | pkg/polymarket/market.go:257-389 | the server agreement, emptiness after a drop and disjoint pending sets while up hold in every reachable state |
| `MarketSubs.ServerFollowsCaller` | pkg/polymarket/market.go:257-380 | until the first failed write on a connection the server streams subscribedAssetIDs, and after each flush or connect exactly what was asked |
| `MarketSubs.FramesAreTheDifference` | pkg/polymarket/market.go:265-309 | on an agreeing connection a flush adds exactly what is wanted and not streamed and removes exactly what is streamed and not wanted |
| `MarketSubs.FailedWriteIsNotRetried` | pkg/polymarket/market.go:310-321 | contrary to the comment, further flushes after a failed write have nothing to send and leave the stale ids as they are; on a connection right so far these are exactly the ids of the failed frames, and there is at least one |
| `MarketSubs.FlushMovesStale` | pkg/polymarket/market.go:265-321 | what any flush does to the set of ids on which server and registry differ, for every outcome of its two writes |
| `MarketSubs.StaleIffOddFailures` | pkg/polymarket/market.go:257-389 | over every run, on a connection an id is stale if and only if an odd number of frames naming it have failed in a row |
| `MarketSubs.OppositeCallRepairs` | pkg/polymarket/market.go:211-321 | a stale id is put right on the same connection by the opposite call and its flush |
| `MarketSubs.AgreementAfterFlush` | pkg/polymarket/market.go:265-309 | a flush keeps agreement if and only if no frame it needed failed |
| `MarketSubs.ReconnectRestores` | pkg/polymarket/market.go:341-380 | after any calls while down, the next successful connect makes the server stream exactly what was asked |
| `MarketSubs.NothingToHandshake` | pkg/polymarket/market.go:341-380 | with nothing wanted a connect succeeds without a frame |
| `MarketSubs.AdmittedAreSubscribed` | pkg/polymarket/market.go:441-456 | the event filter keeps exactly the items of subscribed assets |
| `MarketSubs.AdmittedInOrder` | pkg/polymarket/market.go:441-456 | items are kept one by one, in order, repeats included |
| `MarketSubs.DispatchFollowsServer` | pkg/polymarket/market.go:441-578 | on a clean connection exactly the events for streamed ids are dispatched, and none after a drop |
| `MarketSubs.StaleDispatch` | pkg/polymarket/market.go:341-408 | while no connection is up a queued event is dispatched if and only if the last attempt ended in a failed handshake that wanted its id |
| `MarketSubs.TakeThenRequeue` | pkg/polymarket/market.go:265-321 | the locked take and the locked re-queue with nothing between them are the atomic flush |
| `MarketSubs.RequeueKeepsDesired` | pkg/polymarket/market.go:310-321 | a late re-queue keeps what the caller wants if and only if nothing re-removed is wanted again and nothing re-added was dropped |
| `MarketSubs.RequeueCanLoseASubscribe` | pkg/polymarket/market.go:310-321 | concrete failure: a Subscribe between take and re-queue of a failed unsubscribe is lost |
| `MarketSubs.MarketChannel.constructor` | pkg/polymarket/market.go:85-128 | all three sets empty, not connected |
| `MarketSubs.MarketChannel.Subscribe` | pkg/polymarket/market.go:211-223 | the locked loop of Subscribe |
| `MarketSubs.MarketChannel.Unsubscribe` | pkg/polymarket/market.go:231-237 | the locked loop of Unsubscribe |
| `MarketSubs.MarketChannel.FlushPending` | pkg/polymarket/market.go:257-322 | the new sets, the contents of both frames and the re-queue of a flush |
| `MarketSubs.MarketChannel.OnConnect` | pkg/polymarket/market.go:341-380 | the handshake set replaces the three sets |
| `MarketSubs.MarketChannel.OnDisconnect` | pkg/polymarket/market.go:382-389 | subscribed ids move to pending |
| `MarketSubs.MarketChannel.ClearSubscriptions` | pkg/polymarket/market.go:580-588 | everything cleared |
| `Latency.RotationKeepsSum` | pkg/polymarket/market.go:615-626 | summing a rotation is summing the window |
| `Latency.RecentIs` | pkg/polymarket/market.go:598-613 | the window is the last 100 samples, in order |
| `Latency.MeanIsExactIff` | pkg/polymarket/market.go:621-625 | report's quotient is the true mean truncated toward zero if and only if the sum fits in 64 bits |
| `Common.TruncTowardZero` | pkg/polymarket/market.go:625 | the quotient is truncated toward zero, for either sign |
| `Latency.EpochStampsOverflow` | pkg/polymarket/market.go:615-626 | concrete failure: six events stamped "0" overflow the sum and the mean comes out negative |
| `Latency.LatencyTracker.constructor` | pkg/polymarket/market.go:598-603 | an empty window |
| `Latency.LatencyTracker.Record` | pkg/polymarket/market.go:605-613 | one more sample, ring invariant kept |
| `Latency.LatencyTracker.SlotsAreRotated` | pkg/polymarket/market.go:605-613 | after any number of records the first count slots are a rotation of the most recent min(n, 100) samples |
| `Latency.LatencyTracker.Report` | pkg/polymarket/market.go:615-626 | count, and the truncated quotient of exactly the recent samples' sum in wrapping 64-bit arithmetic |
| `Latency.LatencyTracker.Total` | pkg/polymarket/market.go:621-624 | the summing loop, wrap by wrap |
| `Backoff.BackoffDoublesIff` | pkg/websocket/websocket.go:457-464 | nextBackoff is min(max, 2d) if and only if d is below 2^62 |
| `Backoff.DelayStep` | pkg/websocket/websocket.go:457-464 | one more failure moves the delay from the k-th to the k+1-st backoff; no delay is below min(base, max) |
| `Backoff.RunKeepsInv` | pkg/websocket/websocket.go:373-434 | every schedule of the loop keeps delay, spacing and waiting-time invariants |
| `Backoff.DelayIsExact` | pkg/websocket/websocket.go:373-464 | after k failed dials or judged flaps in a row the delay is exactly min(max, base*2^k); base after a stable connection |
| `Backoff.FailuresCostTheirDelays` | pkg/websocket/websocket.go:381-431 | a dial after n failures in a row starts at least the sum of min(max, base*2^i), i = 1..n, after the first was detected |
| `Backoff.DialsAreSpaced` | pkg/websocket/websocket.go:381-431 | any two dials of any run are at least (j-i)*min(base, max) apart |
| `Backoff.DialBudget` | pkg/websocket/websocket.go:381-431 | at most w/min(base, max) + 1 dials in any window of length w |
| `Backoff.ArmIsExact` | pkg/websocket/websocket.go:381-393 | in every run a wait is base while connected and min(max, base*2^failures) while not |
| `Backoff.PolledWhileUp` | pkg/websocket/websocket.go:385-388 | in every run the next look at a connection that is up is at most base away |
| `Backoff.DropIsRedialled` | pkg/websocket/websocket.go:381-425 | the loss of a connection that outlived minStable is followed by a dial within base, in every continuation in which the loop is not held up |
| `Backoff.DropBeforeArmWaits` | pkg/websocket/websocket.go:381-388 | the one exception: a drop between two rounds waits the backoff of earlier failures |
| `Backoff.FailedDialsAreTimed` | pkg/websocket/websocket.go:381-431 | after n failed dials in a row the next starts no earlier than the sum of their backoffs and dial times, in every run, and exactly then when the loop is not held up |
| `Backoff.SumsSpelledOut` | pkg/websocket/websocket.go:457-464 | the backoffs summed are min(max, base*2^i), i = 1..n |
| `Backoff.CountInIs` | pkg/websocket/websocket.go:373-434 | the dial count of a window counts the dials in it |
| `Backoff.EstablishedAtDialEnd` | pkg/websocket/websocket.go:268-273 | a connection counts as established from the end of its dial |
| `Backoff.CancelIsFinal` | pkg/websocket/websocket.go:389-393 | after Close nothing is dialled |
| `Backoff.DialsAreWanted` | pkg/websocket/websocket.go:395-425 | a dial is made only by a timer that fires while no connection is up and one is wanted |
| `Backoff.NextDialAfterDrop` | pkg/websocket/websocket.go:403-423 | in every run and every continuation, the next dial after a noticed drop is at once if the connection was not judged a flap, and otherwise not before min(max, base*2^(k+1)) has passed |
| `Backoff.ReconnectLoop.constructor` | pkg/websocket/websocket.go:373-379 | the loop starts at the base delay on an established connection |
| `Backoff.ReconnectLoop.ChooseWait` | pkg/websocket/websocket.go:381-388 | base delay while connected, current delay otherwise |
| `Backoff.ReconnectLoop.AfterWait` | pkg/websocket/websocket.go:395-433 | the rest of one iteration: skip, flap, redial, escalate |
| `Backoff.ReconnectLoop.NoticeDrop` | pkg/websocket/websocket.go:407-423 | the end of a connection is judged a flap or a success |
| `Backoff.ReconnectLoop.DialNow` | pkg/websocket/websocket.go:425-433 | one dial of the loop: delay and failure count after either outcome |
| `ConnGenerations.RunKeepsInv` | pkg/websocket/websocket.go:153-318 | ownership invariants over every schedule |
| `ConnGenerations.OneDisconnectPerGeneration` | pkg/websocket/websocket.go:171-318 | in every schedule in which no exit of a read loop is broken into, a generation that became usable gets exactly one OnDisconnect once over, none while current, none if Close ended it; others none |
| `ConnGenerations.ReportedOnceIff` | pkg/websocket/websocket.go:171-318 | over every schedule, the check, report and cleanup of each exit being separate actions, the reports of a generation are what they should be if and only if nobody took it down, and no second read loop decided to report it, while one that had decided to was on its way out |
| `ConnGenerations.OneDisconnectIff` | pkg/websocket/websocket.go:171-318 | with no exit under way: exactly one OnDisconnect for a dropped generation and none for others if and only if it was not disturbed, and more otherwise |
| `ConnGenerations.UnbrokenIsUndisturbed` | pkg/websocket/websocket.go:287-318 | nothing is disturbed in schedules that do not break into an exit |
| `ConnGenerations.HookCallsAddUpIff` | pkg/websocket/websocket.go:171-190 | OnDisconnect has run at least once per dropped generation and once per Disconnect that found no connection, and no more often if and only if no generation was disturbed |
| `ConnGenerations.OneCallPerDropIff` | pkg/websocket/websocket.go:171-190 | one call of OnDisconnect per dropped generation holds for a run, no exit being under way, if and only if no generation was disturbed and nobody disconnected while there was nothing to disconnect |
| `ConnGenerations.PingBeforeReport` | pkg/websocket/websocket.go:287-318 | concrete failure: a pong timeout between check and report gives two OnDisconnect calls |
| `ConnGenerations.PingBeforeCleanup` | pkg/websocket/websocket.go:287-318 | concrete failure: so does one between report and cleanup, while the hook runs |
| `ConnGenerations.CloseBeforeReport` | pkg/websocket/websocket.go:287-318 | concrete failure: a Close between check and report is reported as a drop |
| `ConnGenerations.TwoReadersReport` | pkg/websocket/websocket.go:280-318 | concrete failure: a read loop spawned for a dropped connection reads the next one, and both loops report its end |
| `ConnGenerations.DisconnectTwice` | pkg/websocket/websocket.go:171-190 | concrete failure: two Disconnects in a row, two calls for one drop |
| `ConnGenerations.StaleAfterClose` | pkg/websocket/websocket.go:153-190 | concrete failure: a watchdog hit after Close, which clears the connection but not the status |
| `ConnGenerations.OpenSocketsAreCurrent` | pkg/websocket/websocket.go:153-318 | the sockets dialled and not closed are exactly the current connection |
| `ConnGenerations.LateReaderIsHarmless` | pkg/websocket/websocket.go:287-297 | an exit closes nothing but its own socket, leaves a newer connection in place, and its check and report touch no socket |
| `ConnGenerations.PingActsOnItsOwn` | pkg/websocket/websocket.go:491-507 | a late pong timeout does nothing; one of the current connection drops, closes and reports it |
| `ConnGenerations.DisconnectActsOnCurrent` | pkg/websocket/websocket.go:171-190 | Disconnect and the watchdog drop, close and report whatever is up |
| `ConnGenerations.DialResult` | pkg/websocket/websocket.go:234-274 | a dial's connection is current, connected and read exactly when OnConnect succeeds, and closed otherwise |
| `ConnGenerations.DialFailureResult` | pkg/websocket/websocket.go:237-244 | a failed dial leaves the status Disconnected and nothing else changed |
| `ConnGenerations.CloseIsFinal` | pkg/websocket/websocket.go:153-166 | after Close no connection is dialled or comes up again |
| `ConnGenerations.ReaderCaptures` | pkg/websocket/websocket.go:280-286 | a read loop reads the connection that is up when it starts; one that finds none is done |
| `ConnGenerations.ReaderKeepsGen` | pkg/websocket/websocket.go:280-318 | a read loop never changes connection |
| `ConnGenerations.DialFindsNothingOpen` | pkg/websocket/websocket.go:395-427 | a dial never overwrites a live connection |
| `ConnGenerations.BaseWebSocket.constructor` | pkg/websocket/websocket.go:31-87 | nothing dialled yet |
| `ConnGenerations.BaseWebSocket.DialSync` | pkg/websocket/websocket.go:234-274 | the state after each outcome of a dial |
| `ConnGenerations.BaseWebSocket.CloseConn` | pkg/websocket/websocket.go:547-554 | the current socket, if any, is closed and cleared |
| `ConnGenerations.BaseWebSocket.DisconnectNow` | pkg/websocket/websocket.go:171-190 | current connection, if any, dropped and closed; OnDisconnect called in every case |
| `ConnGenerations.BaseWebSocket.StartReader` | pkg/websocket/websocket.go:280-286 | a read loop captures whatever is current |
| `ConnGenerations.BaseWebSocket.CheckExit` | pkg/websocket/websocket.go:304-314 | the check of the deferred report: what is current |
| `ConnGenerations.BaseWebSocket.ReportExit` | pkg/websocket/websocket.go:312-317 | the hook, if the check said so |
| `ConnGenerations.BaseWebSocket.CleanUpExit` | pkg/websocket/websocket.go:287-298 | the deferred cleanup of one reader |
| `ConnGenerations.BaseWebSocket.Cleanup` | pkg/websocket/websocket.go:287-298 | only its own socket is closed and cleared |
| `ConnGenerations.BaseWebSocket.OnPingFailure` | pkg/websocket/websocket.go:491-507 | only the active connection is disconnected |
| `ConnGenerations.BaseWebSocket.OnDataStale` | pkg/websocket/websocket.go:622-629 | only a connected socket is disconnected |
| `ConnGenerations.BaseWebSocket.Shutdown` | pkg/websocket/websocket.go:153-166 | current socket closed without a report |
| `GoStrings.TrimSpaceTrims` | pkg/polymarket/rtds.go:317-319 | TrimSpace leaves no white space at the ends and leaves trimmed strings alone |
| `GoStrings.TrimSpaceCuts` | pkg/polymarket/rtds.go:317-319 | TrimSpace takes away white space at the ends and nothing else |
| `GoStrings.SpacesAre` | pkg/hyperliquid/channels.go:143-152 | the white-space characters, one by one |
| `GoStrings.LowerIff` | pkg/polymarket/rtds.go:317-319 | lower-casing keeps every character up to case and leaves no capital; two strings lower-case alike if and only if they are the same up to case |
| `GoStrings.UpperIff` | pkg/polymarket/connector.go:887 | the same for upper-casing |
| `GoStrings.AtoiInvertsItoa` | pkg/polymarket/rtds.go:99-114 | Atoi undoes %d on every 64-bit number |
| `GoStrings.DigitsAre` | pkg/polymarket/rtds.go:99-104 | decimal digits, from the last |
| `GoStrings.AtoiSyntaxError` | pkg/polymarket/rtds.go:107-113 | 0 when the string is no number |
| `GoStrings.AtoiRangeError` | pkg/polymarket/rtds.go:107-113 | the nearest 64-bit number when it is too large |
| `Sorting.SortStrings` | pkg/polymarket/rtds.go:562-569 | the strings of a set in increasing order |
| `Sorting.SortedIsUnique` | pkg/polymarket/rtds.go:562-569 | there is only one such sequence, whatever order the map was walked in |
| `Sorting.StringLessIff` | pkg/binance/binance.go:1125 | strings are ordered by their first difference, a proper prefix first |
| `Rtds.NormalizeTwice` | pkg/polymarket/rtds.go:317-319 | normalizing a symbol twice is normalizing it once |
| `Rtds.NormalizeIff` | pkg/polymarket/rtds.go:317-319 | two symbols normalize alike if and only if they are the same but for surrounding space and case; no capital is left |
| `Rtds.WantedIff` | pkg/polymarket/rtds.go:332-378 | over every run a symbol is registered on a feed if and only if the last call naming it, in any spelling, was a Subscribe |
| `Rtds.AdmissionIff` | pkg/polymarket/rtds.go:610-688 | "matching is case-insensitive": over every run an event is dispatched if and only if its symbol, in any spelling, is wanted on the feed its wire topic and type belong to |
| `Rtds.CapitalsAreCleaned` | pkg/polymarket/rtds.go:317-355 | for instance BTC/USD is registered and filtered as btc/usd |
| `Rtds.CapitalsAreNamed` | pkg/polymarket/rtds.go:393 | and an event for btc/usd is then wanted |
| `Rtds.SplitInvertsPositive` | pkg/polymarket/rtds.go:99-114 | splitSubsKey undoes subsKey for every topic and positive window |
| `Rtds.SplitInvertsUnwindowedIff` | pkg/polymarket/rtds.go:99-114 | without a window it does so if and only if the topic has no "|" |
| `Rtds.TwapWindowInverts` | pkg/polymarket/rtds.go:448-468 | twapWindow and twapWireTopic are inverse on the supported windows |
| `Rtds.KeyOfInjective` | pkg/polymarket/rtds.go:99-104 | two feeds share a key if and only if they are the same feed, windows <= 0 being one |
| `Rtds.RegistryIsAsked` | pkg/polymarket/rtds.go:317-384 | each feed's symbols are the fold of the calls on that feed, whatever the connection did |
| `Rtds.KeyEntriesOf` | pkg/polymarket/rtds.go:541-557 | the rebuild switch gives each key the entries of its feed |
| `Rtds.EntitledDisjoint` | pkg/polymarket/rtds.go:421-489 | different feeds never share a server entry |
| `Rtds.EntitledSpelledOut` | pkg/polymarket/rtds.go:421-489 | the wire topic, type and filter of every entry, feed by feed |
| `Rtds.ChangeIsExact` | pkg/polymarket/rtds.go:228-311 | a change frame names exactly the entries a feed gains or loses |
| `Rtds.ChangeNamesTheMoves` | pkg/polymarket/rtds.go:228-311 | it names exactly the entries the whole rebuild gains or loses |
| `Rtds.RunKeepsInv` | pkg/polymarket/rtds.go:228-378 | registry well-keyed and server equal to the rebuild in every reachable state |
| `Rtds.ServerMatchesRebuild` | pkg/polymarket/rtds.go:505-560 | while connected and writes succeed the server holds exactly what allEntries rebuilds, each feed what its calls entitle it to; a reconnect restores it |
| `Rtds.NothingWhileDown` | pkg/polymarket/rtds.go:397-415 | without a connection nothing is on the server; a connect can fail only if there is something to send |
| `Rtds.WindowIsKept` | pkg/polymarket/rtds.go:332-341 | the window recorded with a TWAP key is the one subscribed |
| `Rtds.StaleIffOddFailures` | pkg/polymarket/rtds.go:228-415 | over every run, failed writes included, the server and the rebuild disagree about an entry if and only if an odd number of frames naming it have failed in a row |
| `Rtds.NothingElseIsRebuilt` | pkg/polymarket/rtds.go:528-560 | every rebuilt entry belongs to some feed's calls |
| `Rtds.RebuildHoldsAll` | pkg/polymarket/rtds.go:528-560 | the rebuilt frame, keys and symbols sorted, holds exactly the entries of the registry |
| `Rtds.RebuildIsUnique` | pkg/polymarket/rtds.go:528-560 | the rebuilt frame is the same sequence whatever order the maps were walked in |
| `Rtds.FilteredInOrder` | pkg/polymarket/rtds.go:470-489 | the entries of a filtered feed follow the order of its symbols |
| `Rtds.TwapAdmission` | pkg/polymarket/rtds.go:676-688 | a TWAP event is admitted if and only if its symbol was asked for on the window its wire topic names |
| `Rtds.Registry.constructor` | pkg/polymarket/rtds.go:117-146 | an empty registry |
| `Rtds.Registry.AddSymbolsWindowed` | pkg/polymarket/rtds.go:332-355 | the new symbol set, the newly added symbols and the 0 to >0 flag |
| `Rtds.Registry.RemoveSymbols` | pkg/polymarket/rtds.go:357-378 | the new symbol set, the removed symbols and the >0 to 0 flag |
| `Rtds.Registry.SendEntries` | pkg/polymarket/rtds.go:397-415 | no frame when empty or down; a failed write is not retried |
| `Rtds.Registry.SubscribeFeed` | pkg/polymarket/rtds.go:228-302 | the registry and server after a Subscribe call |
| `Rtds.Registry.UnsubscribeFeed` | pkg/polymarket/rtds.go:238-311 | the registry and server after an Unsubscribe call |
| `Rtds.Registry.RebuildEntries` | pkg/polymarket/rtds.go:530-560 | the frame built from the sorted keys and, under each, the sorted symbols |
| `Rtds.Registry.AddRound` | pkg/polymarket/rtds.go:541-557 | one round of the loop appends the entries of its key in symbol order |
| `Rtds.Registry.OnConnect` | pkg/polymarket/rtds.go:505-526 | the rebuild goes out, or the connect fails |
| `HyperChannels.KeyShape` | pkg/hyperliquid/channels.go:266-277 | the shape of a key per channel |
| `HyperChannels.KeysSpelledOut` | pkg/hyperliquid/channels.go:266-277 | a key is channel, coin and interval, where present, joined by colons |
| `HyperChannels.ParamsSpelledOut` | pkg/hyperliquid/channels.go:208-248 | the six channels, and per channel exactly the parameters the venue documents |
| `HyperChannels.CoinSpelledOut` | pkg/hyperliquid/channels.go:142-170 | a coin is accepted if and only if it is not empty and holds no white space, control character, quote or backslash |
| `HyperChannels.KeyIsInjective` | pkg/hyperliquid/channels.go:266-277 | Key determines channel, coin and interval over everything Subscribe accepts, although coins may contain ":" |
| `HyperChannels.UnvalidatedKeysCollide` | pkg/hyperliquid/channels.go:266-277 | outside that set keys do collide |
| `HyperChannels.BuildSubscriptions` | pkg/hyperliquid/channels.go:286-328 | succeeds if and only if channel, parameters, coins and distinctness are right, and returns one object per trimmed coin in order |
| `HyperChannels.BuiltAsAsked` | pkg/hyperliquid/channels.go:302-328 | one object per coin, in order, with the trimmed coin and the parameters as given |
| `HyperChannels.RefusedRequests` | pkg/hyperliquid/channels.go:290-318 | coins for the channel that takes none, no coins for the others, and repeated coins are refused |
| `HyperChannels.BuiltAreAccepted` | pkg/hyperliquid/channels.go:286-328 | what it returns passes Subscribe's validation under pairwise distinct keys |
| `HyperRegistry.AddsFollow` | pkg/hyperliquid/hyperliquid.go:493-506 | the attempts for new objects alternate with earlier ones and bring what is wanted of the server to the new registry, whichever writes fail |
| `HyperRegistry.RemovesFollow` | pkg/hyperliquid/hyperliquid.go:510-524 | the same for the unsubscribe attempts of stored objects |
| `HyperRegistry.ReplayServes` | pkg/hyperliquid/hyperliquid.go:600-612 | the same for the connect replay |
| `HyperRegistry.RunKeepsInv` | pkg/hyperliquid/hyperliquid.go:303-342 | registry keyed by its objects, and equal to what the attempts of the connection add up to, in every reachable state |
| `HyperRegistry.StaleIffOddFailures` | pkg/hyperliquid/hyperliquid.go:303-342 | over every run, failed writes included, the server and the registry disagree about an object if and only if an odd number of writes about it have failed in a row |
| `HyperRegistry.ServerIsRegistry` | pkg/hyperliquid/hyperliquid.go:303-342 | while connected without a failed write the server streams exactly the registered objects, at most one per channel, coin and interval |
| `HyperRegistry.UnsubscribesReplayTheOriginal` | pkg/hyperliquid/hyperliquid.go:331-342 | every unsubscribe frame, on any connection, carries an object subscribed earlier on the same connection and not unsubscribed in between |
| `HyperRegistry.RegistryIsAsked` | pkg/hyperliquid/hyperliquid.go:303-342 | a key holds the object of the first accepted Subscribe since it was last removed |
| `HyperRegistry.AddsInOrder` | pkg/hyperliquid/hyperliquid.go:493-506 | a list is registered in order, and the new objects are sent in order |
| `HyperRegistry.RemovesInOrder` | pkg/hyperliquid/hyperliquid.go:510-524 | a list is removed in order, and the stored objects are sent in order |
| `HyperRegistry.OneObject` | pkg/hyperliquid/hyperliquid.go:493-524 | a new key takes its object, a known key keeps what it has, removing gives back what was stored |
| `HyperRegistry.NothingWhileDown` | pkg/hyperliquid/hyperliquid.go:567-612 | without a connection nothing is written; a connect succeeds if and only if every frame of the replay does |
| `HyperRegistry.Registry.constructor` | pkg/hyperliquid/hyperliquid.go:461-467 | an empty registry |
| `HyperRegistry.Registry.AddToRegistry` | pkg/hyperliquid/hyperliquid.go:493-506 | registry and list of new objects |
| `HyperRegistry.Registry.RemoveFromRegistry` | pkg/hyperliquid/hyperliquid.go:510-524 | registry and list of stored objects |
| `HyperRegistry.Registry.AllSubscriptions` | pkg/hyperliquid/hyperliquid.go:533-542 | every registered object exactly once, in key order |
| `HyperRegistry.Registry.SubscribeAll` | pkg/hyperliquid/hyperliquid.go:303-329 | all or nothing: one invalid object rejects the call before anything is registered |
| `HyperRegistry.Registry.UnsubscribeAll` | pkg/hyperliquid/hyperliquid.go:337-342 | stored objects removed and replayed |
| `HyperRegistry.Registry.WriteSubs` | pkg/hyperliquid/hyperliquid.go:326-341 | every frame of a call is tried, whatever became of the ones before |
| `HyperRegistry.Registry.WriteSub` | pkg/hyperliquid/hyperliquid.go:567-594 | no frame while down; a failed write is not retried |
| `HyperRegistry.Registry.OnConnect` | pkg/hyperliquid/hyperliquid.go:600-612 | everything registered is replayed in key order, or the first failed write fails the connect |
| `SeriesWalk.DedupKeepsFirsts` | pkg/polymarket/series.go:107-115 | the survivors are exactly the events with no earlier event of the same key (ID, else slug) |
| `SeriesWalk.DedupIsDistinct` | pkg/polymarket/series.go:107-115 | no key survives twice |
| `SeriesWalk.DedupPositions` | pkg/polymarket/series.go:107-116 | the survivors are, in order, the events with no earlier event of the same identity, written out on the fields: id, or slug without one |
| `SeriesWalk.KeysAreIdentities` | pkg/polymarket/series.go:107-114 | the seen-key test is that identity |
| `SeriesWalk.ListSeriesEvents` | pkg/polymarket/series.go:75-135 | a successful walk returns exactly the first clamp(limit) of the deduplicated data from the offset, cut only with Closed=false; it terminates, and fails only on a bad query or a failed request |
| `SeriesWalk.WalkReturns` | pkg/polymarket/series.go:75-135 | in terms of the data: the result is, in order, the first events of their identity from the offset on, at most limit (100 by default, 500 at most), one left out only when the limit was reached before it; without Closed=false all data is read |
| `SeriesWalk.TailIs` | pkg/polymarket/series.go:88-98 | the data from the offset on |
| `SeriesWalk.ReturnedDiffer` | pkg/polymarket/series.go:107-116 | no two returned events share an identity |
| `SeriesWalk.DifferentIdsAreReturned` | pkg/polymarket/series.go:107-116 | two events with different ids are both returned while there is room |
| `SeriesWalk.CutIs` | pkg/polymarket/series.go:88-131 | page size and stopping rule of a walk with Closed=false |
| `SeriesWalk.ClosedPageEndsWalk` | pkg/polymarket/series.go:126-130 | such a walk that meets a full closed page first returns that page alone |
| `SeriesWalk.Walk` | pkg/polymarket/series.go:88-134 | the paging loop |
| `SeriesWalk.OnePage` | pkg/polymarket/series.go:93-131 | one iteration: page size, fetch, dedup and the two early stops |
| `SeriesWalk.AddPage` | pkg/polymarket/series.go:100-120 | the inner loop with its exit at the limit |
| `SeriesWalk.AddEvent` | pkg/polymarket/series.go:101-116 | one event: kept unless its key has been seen |
| `SeriesWalk.FetchPage` | pkg/polymarket/series.go:93-98 | a page is the next stretch of the data |
| `SeriesWalk.OpenDataIsWalkedInFull` | pkg/polymarket/series.go:126-130 | with Closed=false the walk is still complete when the server honours the filter |
| `SeriesWalk.CutOnlyAfterClosedPage` | pkg/polymarket/series.go:126-130 | a walk that stops before limit and end has just read a full page of closed events |
| `SeriesCache.CacheHoldsLatest` | pkg/polymarket/series.go:221-258 | a slot is the slug's latest store, and a missing one has expired or been invalidated |
| `SeriesCache.HitIsLatestStore` | pkg/polymarket/series.go:221-258 | over every run on a forward clock, a hit happens if and only if the latest store is unexpired and not invalidated, and returns its content |
| `SeriesCache.ServedForTtl` | pkg/polymarket/series.go:221-252 | a stored slug is served up to and including its time to live, an hour if none is set, and no longer |
| `SeriesCache.ContentIs` | pkg/polymarket/series.go:206-219 | what the content of a cached slice is, field by field |
| `SeriesCache.CloneEvents` | pkg/polymarket/series.go:268-272 | a fresh array with the same events |
| `SeriesCache.CloneSeries` | pkg/polymarket/series.go:262-274 | fresh arrays all the way to the Events slices, same content |
| `SeriesCache.Cache.constructor` | pkg/polymarket/series.go:215-219 | an empty cache |
| `SeriesCache.Cache.Find` | pkg/polymarket/series.go:221-234 | hit or miss, expired slots deleted, the result a fresh copy |
| `SeriesCache.Cache.Store` | pkg/polymarket/series.go:236-252 | the content at the call, in arrays the caller does not hold |
| `SeriesCache.Cache.Invalidate` | pkg/polymarket/series.go:254-258 | the slug is gone |
| `SeriesCache.CallerCannotSpoil` | pkg/polymarket/series.go:221-274 | after arbitrary writes to a returned slice and its Events slices a later lookup returns the stored content |
| `SeriesCache.NestedWritesShowIff` | pkg/polymarket/series.go:260-274 | after a caller writes one element of any array of markets and one of any array of tags, the next hit reads as before down to every market and tag if and only if neither write changed a slice of the cached content |
| `SeriesCache.WriteNested` | gamma.go:54-68 | such a pair of writes changes nothing below a set of events if and only if each misses their slices or writes what was there |
| `SeriesCache.NestedWriteShows` | pkg/polymarket/series.go:260-274 | concrete failure: markets and tags written through one hit are served by the next |
| `OrderAmounts.RangeIsTight` | pkg/polymarket/connector.go:880-894 | 9223372036854 is exactly the largest raw size for which size*price fits in 64 bits at every price up to 10^6 |
| `OrderAmounts.SidesSpelledOut` | pkg/polymarket/connector.go:887-899 | a side is BUY or SELL in any case, anything else is refused by both kinds of order |
| `OrderAmounts.RawIsMillionths` | pkg/polymarket/connector.go:880-881 | raw units are millionths, rounded toward zero |
| `OrderAmounts.LimitQuoteIsFloorIff` | pkg/polymarket/connector.go:877-896 | for all non-negative 64-bit inputs, the quote amount of a limit order is size*price/10^6 rounded down if and only if size*price fits in 64 bits; the other amount is the size |
| `OrderAmounts.LimitKeepsPriceIff` | pkg/polymarket/connector.go:877-896 | a limit BUY never pays more than its price; a limit SELL asks for its full price if and only if the product fits in 64 bits and is a whole number of units |
| `OrderAmounts.MarketBuyBounds` | pkg/polymarket/connector.go:962-968 | market BUY at every price: maker on the grid within one step below the USDC; the share quotient is exact if and only if the scaled amount fits in 64 bits, and then taker is on the grid with price bounds both ways |
| `OrderAmounts.MarketSellBounds` | pkg/polymarket/connector.go:969-974 | market SELL at every price: maker on the grid within one step below the shares; taker is the worth of the shares cut to the grid if and only if the product fits in 64 bits |
| `OrderAmounts.QuotientIff` | pkg/polymarket/connector.go:880-974 | an amount divided out of a product is the exact quotient rounded down if and only if the product has not wrapped |
| `OrderAmounts.TruncatedQuotientIff` | pkg/polymarket/connector.go:962-974 | the same after truncation to the taker precision, for divisors up to 10^16 |
| `OrderAmounts.BuyKeepsPriceIff` | pkg/polymarket/connector.go:784-794 | the slippage promise of a market BUY, on all non-negative amounts and positive prices: it pays at most its price per share if and only if what the share side loses is covered by what the truncation of the USDC drops |
| `OrderAmounts.TakerIsCut` | pkg/polymarket/connector.go:962-974 | the taker amount of a market order is one cut of the 64-bit product to 100 times the divisor, for any sign |
| `OrderAmounts.OrdinaryOrdersMissTheirPrice` | pkg/polymarket/connector.go:784-794 | concrete failures: one dollar at 0.30 pays more than 0.30 per share, 0.01 shares at 0.3333 go for less |
| `OrderAmounts.OverflowingLimitOrder` | pkg/polymarket/connector.go:880-894 | concrete failure: 20 million shares at half a dollar are quoted at a negative amount |
| `OrderAmounts.SellKeepsPriceIff` | pkg/polymarket/connector.go:784-794 | the slippage promise of a market SELL, on all non-negative inputs: it takes at least its price per share if and only if what the USDC side loses, by wrapping and truncation, is covered by the worth of the dropped shares; the opposite inequality likewise |
| `OrderAmounts.SellOffGridAsksMore` | pkg/polymarket/connector.go:969-974 | concrete: a SELL off the grid can also ask for more than its price per share |
| `OrderAmounts.MarketBuyFailsIff` | pkg/polymarket/connector.go:948-968 | building a market order divides by zero if and only if it is a BUY priced, in exact numbers, strictly between -0.000001 and 0.000001 |
| `Words.PadRoundTrip` | pkg/polymarket/signing.go:195-202 | uint256Pad succeeds if and only if the magnitude is below 2^256, gives 32 bytes, and decodes back to it |
| `Words.FirstByteWeighs` | pkg/polymarket/signing.go:195-202 | words are big-endian |
| `Words.WordBound` | pkg/polymarket/signing.go:195-202 | the bound of a word is 2^256, written out |
| `Words.PadInjectiveIff` | pkg/polymarket/signing.go:195-202 | two padded numbers are equal if and only if their magnitudes are: the sign is lost |
| `Words.AddressWordInjective` | pkg/polymarket/signing.go:183-193 | an address word is 32 bytes and determines the address |
| `Words.AddressWordLayout` | pkg/polymarket/signing.go:183-193 | an address is right-aligned in its word |
| `Words.Bytes32PadIsWord` | pkg/polymarket/signing.go:209-222 | always 32 bytes, unchanged for full-width input |
| `Words.Bytes32PadLayout` | pkg/polymarket/signing.go:209-222 | bytes are right-aligned in their word; undecodable or overlong input leaves it zero |
| `Words.ConcatInjective` | pkg/polymarket/signing.go:156-168 | fixed-width words can be read back from their concatenation |
| `Words.ConcatSlice` | pkg/polymarket/signing.go:156-168 | word i is the 32 bytes from 32*i on |
| `Preimages.OrderPreimageLength` | pkg/polymarket/signing.go:156-168 | the struct preimage of every order that has one is twelve 32-byte words |
| `Preimages.OrderPreimageLayout` | pkg/polymarket/signing.go:156-168 | the layout of the struct preimage: the type hash and then, in its own 32 bytes each, salt, maker, signer, tokenId, makerAmount, takerAmount, side, signatureType, timestamp, metadata, builder |
| `Preimages.SideCodeIff` | pkg/polymarket/signing.go:224-233 | the side is 1 for SELL in any case and 0 for everything else |
| `Preimages.OrderPreimageInjective` | pkg/polymarket/signing.go:156-168 | two preimages are equal if and only if all eleven signed values are: magnitudes, addresses, side code and padded 32-byte values |
| `Preimages.PaddableIff` | pkg/polymarket/signing.go:195-202 | the preimage exists if and only if every number is of magnitude below 2^256 |
| `Preimages.SameSignedIsSameFields` | pkg/polymarket/signing.go:156-222 | for non-negative numbers and full-width 32-byte values, signed alike means equal in every field, the side up to its code |
| `Preimages.TypeEncoding` | pkg/polymarket/signing.go:91-105 | the builder loop produces name(type name,...) |
| `Preimages.TypeStringFrame` | pkg/polymarket/signing.go:91-105 | the parentheses go around the fields |
| `Preimages.ListEndsWith` | pkg/polymarket/signing.go:95-102 | each further field after a comma, its type before its name |
| `Preimages.TypeStringInjective` | pkg/polymarket/signing.go:91-105 | different struct types have different type strings |
| `Preimages.ChainIdWord` | pkg/polymarket/signing.go:147 | the chain id word of the domain |
| `Preimages.DomainPreimageLayout` | pkg/polymarket/signing.go:143-149 | the layout of the domain preimage: type, name and version hashes, chain id 137, exchange contract |
| `Preimages.FinalPreimageLayout` | pkg/polymarket/signing.go:172-177 | the layout of the last preimage: 0x19 0x01, domain separator, struct hash |
| `Preimages.DomainInjective` | pkg/polymarket/signing.go:143-149 | the domain preimage determines the exchange contract |
| `Preimages.DigestBindsOrder` | pkg/polymarket/signing.go:137-177 | unless the hash collides on one of three named pairs, equal digests mean equal contract and equal signed values, and conversely |
| `Preimages.RelayParts` | pkg/polymarket/relayer.go:646-662 | the fixed parts around the data total 212 bytes |
| `Preimages.RelayPreimageLayout` | pkg/polymarket/relayer.go:650-662 | the layout of the relayer preimage around its data: prefix, from, to, data, txFee, gasPrice, gasLimit, nonce, relayHub, relay |
| `Preimages.RelayPreimageInjective` | pkg/polymarket/relayer.go:646-692 | the relayer preimage determines addresses, data and the magnitudes of the numbers, although nothing marks the end of its data |

## Left out

- JSON, HTTP, WebSocket I/O, TLS, logging, status callbacks and event payloads: received values and the success of
  writes are arguments.
- Keccak, ECDSA, HMAC, CREATE2 and ABI packing, hex and big-integer parsing of order strings: the preimages start
  from parsed numbers and bytes.
- Conversion of prices and sizes from float64, and ParseFloat itself: amounts start from the raw integers
  (MarketBuyFailsIff from an exact price), book prices from an arbitrary parser.
- Depth symbols arrive normalized, so that stream names and symbols correspond one to one; the depth and speed
  suffixes of partial streams are one opaque value.
- Depth books: a goroutine that fetched a book pointer before the book was unsubscribed writes to an orphan; looking
  the book up and locking it are one step here.  Update ids are unbounded integers.
- Order of dispatched depth events across goroutines: the source emits them after releasing the book.
- Market channel: between onDisconnect and the moment the connection field is cleared a flush can still run; a drop is
  one step here.  The race between taking and re-queuing pending sets is covered by RequeueKeepsDesired.
- Fields of a connection read between its installation and the end of OnConnect: a dial with its hook is one step.
- BookLevels.SortSlice: an insertion sort stands for the library sort; the order of equal prices is not promised, and
  the theorems hold for any permutation sorted best first.
- Rtds.NormalizeTwice: letters outside ASCII are not lower-cased in the model; the JSON text of a symbol filter is
  represented by the symbol.
- The hook of a Disconnect runs a moment after the drop in the source and together with it here; a Disconnect that comes
  some time after the check of a ping loop or of the watchdog is a Disconnect step of its own.
- A connection lost between two frames of one call: the frames of a call are written on one connection here.
- SeriesCache: locking; the clock is an argument.
- OrderAmounts.MarketBuyBounds: the if-and-only-if for the share amount after its truncation stops at raw prices of
  10^16; beyond, one truncation step can be worth more than 2^64 and a wrapped amount still lie within it.  The one for
  the quotient before truncation holds at every price.
- Timestamps, salts, order types and expirations of orders: copied through.
- pkg/polymarket/user.go, its root-level connector, mock and Gamma delegation files, paper mode and everything under cmd/:
  delegation or one-branch facts.
- Read limits, ping intervals, watchdog periods and other configuration defaults.
