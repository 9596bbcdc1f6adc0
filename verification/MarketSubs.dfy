/**
  Subscription reconciliation of the Polymarket market channel (pkg/polymarket/market.go):
  three id sets, a connection that comes and goes, writes that may fail, and the set the
  server ends up streaming.  Each locked section together with its write is one step.
*/
module MarketSubs {
  type Ids = set<string>

  /** Down: dropped or never connected.  HalfOpen: the dial succeeded but the handshake write failed,
      so the socket was closed without onDisconnect.  Up: handshake sent (or nothing to send). */
  datatype Phase = Down | HalfOpen | Up

  datatype State = State(
    subscribed: Ids,        // subscribedAssetIDs
    pendingAdd: Ids,        // pendingSubscribeIDs
    pendingRemove: Ids,     // pendingUnsubscribeIDs
    phase: Phase,
    server: Ids,            // what the venue streams on this connection
    clean: bool             // no write has failed on this connection
  )

  const INITIAL := State({}, {}, {}, Down, {}, false)

  /** The outcome of the (up to) two frames of a flush. */
  datatype Writes = Writes(addOk: bool, removeOk: bool)

  datatype Step =
    | QueueAdd(ids: Ids)            // the locked part of Subscribe
    | QueueRemove(ids: Ids)         // the locked part of Unsubscribe
    | Flush(w: Writes)              // flushPending, from a call or the ticker
    | Connect(writeOk: bool)        // onConnect
    | Drop                          // onDisconnect: a lost connection, or Disconnect() at any time
    | Stop                          // Close and clearSubscriptions

  /** The ids the caller wants, read off the three sets. */
  function Desired(s: State): Ids {
    (s.subscribed + s.pendingAdd) - s.pendingRemove
  }

  function ToAdd(s: State): Ids { s.pendingAdd - s.subscribed }

  function ToRemove(s: State): Ids { s.pendingRemove * (s.subscribed + s.pendingAdd) }

  predicate FlushFails(s: State, w: Writes) {
    (ToAdd(s) != {} && !w.addOk) || (ToRemove(s) != {} && !w.removeOk)
  }

  /** The add frame goes out before the remove frame; a failed add does not stop the remove. */
  function ServerAfterFlush(s: State, w: Writes): Ids {
    var withAdds := if w.addOk then s.server + ToAdd(s) else s.server;
    if w.removeOk then withAdds - ToRemove(s) else withAdds
  }

  function AfterQueueAdd(s: State, ids: Ids): State {
    s.(pendingRemove := s.pendingRemove - ids, pendingAdd := s.pendingAdd + (ids - s.subscribed))
  }

  function AfterQueueRemove(s: State, ids: Ids): State {
    s.(pendingAdd := s.pendingAdd - ids, pendingRemove := s.pendingRemove + ids)
  }

  function AfterFlush(s: State, w: Writes): State {
    if s.phase != Up then s
    else
      var failed := FlushFails(s, w);
      State((s.subscribed + s.pendingAdd) - s.pendingRemove,
            if failed then ToAdd(s) else {}, if failed then ToRemove(s) else {},
            Up, ServerAfterFlush(s, w), s.clean && !failed)
  }

  function AfterConnect(s: State, writeOk: bool): State {
    var all := (s.subscribed + s.pendingAdd) - s.pendingRemove;
    if all == {} || writeOk then State(all, {}, {}, Up, all, true)
    else State(all, {}, {}, HalfOpen, {}, false)
  }

  function AfterDrop(s: State): State {
    State({}, s.pendingAdd + s.subscribed, s.pendingRemove, Down, {}, false)
  }

  function Next(s: State, step: Step): State {
    match step
    case QueueAdd(ids) => AfterQueueAdd(s, ids)
    case QueueRemove(ids) => AfterQueueRemove(s, ids)
    case Flush(w) => AfterFlush(s, w)
    case Connect(writeOk) => if s.phase == Up then s else AfterConnect(s, writeOk)
    case Drop => AfterDrop(s)
    case Stop => INITIAL
  }

  function Run(steps: seq<Step>): State {
    if steps == [] then INITIAL else Next(Run(steps[..|steps| - 1]), steps[|steps| - 1])
  }

  // ---------------------------------------------------------------- refinement of one desired set

  /** What the caller asked for: the fold of the public calls, blind to connections and writes. */
  function Asked(steps: seq<Step>): Ids {
    if steps == [] then {}
    else
      var before := Asked(steps[..|steps| - 1]);
      match steps[|steps| - 1]
      case QueueAdd(ids) => before + ids
      case QueueRemove(ids) => before - ids
      case Stop => {}
      case _ => before
  }

  lemma StepDesired(s: State, step: Step)
    ensures Desired(Next(s, step)) ==
              match step
              case QueueAdd(ids) => Desired(s) + ids
              case QueueRemove(ids) => Desired(s) - ids
              case Stop => {}
              case _ => Desired(s)
  {
  }

  /** Over every run, with every pattern of drops, failed writes and failed handshakes. */
  lemma {:induction false} DesiredIsAsked(steps: seq<Step>)
    ensures Desired(Run(steps)) == Asked(steps)
  {
    if steps != [] {
      DesiredIsAsked(steps[..|steps| - 1]);
      StepDesired(Run(steps[..|steps| - 1]), steps[|steps| - 1]);
    }
  }

  /** A drop can leave an id in both pending sets; the refinement above covers those states. */
  lemma PendingSetsOverlap()
    ensures var s := Run([QueueAdd({"a"}), Connect(true), QueueRemove({"a"}), Drop]);
            "a" in s.pendingAdd && "a" in s.pendingRemove && "a" !in Desired(s)
  {
    var steps := [QueueAdd({"a"}), Connect(true), QueueRemove({"a"}), Drop];
    assert steps[..3] == [QueueAdd({"a"}), Connect(true), QueueRemove({"a"})];
    assert steps[..3][..2] == [QueueAdd({"a"}), Connect(true)];
    assert steps[..3][..2][..1] == [QueueAdd({"a"})];
    assert Run([QueueAdd({"a"})]) == AfterQueueAdd(INITIAL, {"a"}) by {
      assert [QueueAdd({"a"})][..0] == [];
    }
  }

  // ---------------------------------------------------------------- the server agrees

  ghost predicate Agrees(s: State) {
    && (s.phase == Up && s.clean ==> s.server == s.subscribed)
    && (s.phase == Up ==> s.pendingAdd !! s.pendingRemove)
    && (s.phase == Down ==> s.subscribed == {})
    && (s.phase != Up ==> s.server == {})
  }

  lemma StepAgrees(s: State, step: Step)
    requires Agrees(s)
    ensures Agrees(Next(s, step))
    ensures step.Flush? && Next(s, step).phase == Up && Next(s, step).clean ==> Next(s, step).server == Desired(s)
    ensures step.Connect? && s.phase != Up && Next(s, step).phase == Up ==> Next(s, step).server == Desired(s)
  {
    if step.Flush? && s.phase == Up && s.clean && !FlushFails(s, step.w) {
      assert ServerAfterFlush(s, step.w) == (s.server + ToAdd(s)) - ToRemove(s);
      assert (s.subscribed + ToAdd(s)) - ToRemove(s) == (s.subscribed + s.pendingAdd) - s.pendingRemove;
    }
  }

  lemma {:induction false} RunAgrees(steps: seq<Step>)
    ensures Agrees(Run(steps))
  {
    if steps != [] {
      RunAgrees(steps[..|steps| - 1]);
      StepAgrees(Run(steps[..|steps| - 1]), steps[|steps| - 1]);
    }
  }

  /** From a connect until the first failed write on that connection the server streams exactly
      subscribedAssetIDs; right after a flush or a connect it streams exactly what the caller asked for. */
  lemma ServerFollowsCaller(steps: seq<Step>, last: Step)
    ensures var s := Run(steps); s.phase == Up && s.clean ==> s.server == s.subscribed
    ensures var s := Run(steps + [last]);
            s.phase == Up && s.clean && (last.Flush? || (last.Connect? && Run(steps).phase != Up)) ==>
              s.server == Asked(steps + [last])
  {
    RunAgrees(steps);
    assert (steps + [last])[..|steps|] == steps;
    DesiredIsAsked(steps + [last]);
    StepAgrees(Run(steps), last);
    StepDesired(Run(steps), last);
  }

  /** A flush on an agreeing connection sends the difference and no more: adds for what is wanted and not
      streamed, removes for what is streamed and not wanted. */
  lemma FramesAreTheDifference(steps: seq<Step>)
    requires Run(steps).phase == Up && Run(steps).clean
    ensures ToAdd(Run(steps)) == Asked(steps) - Run(steps).server
    ensures ToRemove(Run(steps)) == Run(steps).server - Asked(steps)
  {
    RunAgrees(steps);
    DesiredIsAsked(steps);
  }

  // ---------------------------------------------------------------- failed writes

  /** The ids on which the server and subscribedAssetIDs differ. */
  function Stale(s: State): Ids {
    (s.subscribed - s.server) + (s.server - s.subscribed)
  }

  /** What any flush does to the stale ids: an id in a frame that was written is put right; one in a frame that
      failed becomes stale if it was right and, its two views having crossed over, right if it was stale. */
  lemma FlushMovesStale(s: State, w: Writes)
    requires s.phase == Up && s.pendingAdd !! s.pendingRemove
    ensures Stale(AfterFlush(s, w)) ==
              (Stale(s) - (ToAdd(s) + ToRemove(s)))
              + (if w.addOk then {} else ToAdd(s) - Stale(s))
              + (if w.removeOk then {} else ToRemove(s) - Stale(s))
  {
    var s' := AfterFlush(s, w);
    forall x
      ensures x in Stale(s') <==>
                if x in ToAdd(s) then !w.addOk && x !in Stale(s)
                else if x in ToRemove(s) then !w.removeOk && x !in Stale(s)
                else x in Stale(s)
    {
      assert x in s'.subscribed <==> x in ToAdd(s) || (x in s.subscribed && x !in ToRemove(s));
    }
  }

  /** How many of the latest frames naming x on this connection have failed, back to the last one that was
      written or to the connect. */
  function FailuresInARow(steps: seq<Step>, x: string): nat {
    if steps == [] then 0
    else
      var s, before := Run(steps[..|steps| - 1]), FailuresInARow(steps[..|steps| - 1], x);
      match steps[|steps| - 1]
      case Flush(w) =>
        if s.phase == Up && x in ToAdd(s) then (if w.addOk then 0 else before + 1)
        else if s.phase == Up && x in ToRemove(s) then (if w.removeOk then 0 else before + 1)
        else before
      case Connect(_) => if s.phase == Up then before else 0
      case Drop => 0
      case Stop => 0
      case _ => before
  }

  /** The exact law over every run, failed writes included: on a connection the server and subscribedAssetIDs
      disagree about an id if and only if an odd number of frames naming it have failed in a row. */
  lemma {:induction false} StaleIffOddFailures(steps: seq<Step>, x: string)
    ensures Run(steps).phase == Up ==> (x in Stale(Run(steps)) <==> FailuresInARow(steps, x) % 2 == 1)
  {
    if steps != [] {
      var init, last := steps[..|steps| - 1], steps[|steps| - 1];
      StaleIffOddFailures(init, x);
      RunAgrees(init);
      if last.Flush? && Run(init).phase == Up {
        FlushMovesStale(Run(init), last.w);
      }
    }
  }

  /** The comment on the re-queue says the next flush retries.  It does not: subscribedAssetIDs is already
      updated, so with no call in between every further flush finds no frame to send and leaves the stale ids as
      they are.  On a connection that was right so far these are exactly the ids of the failed frames. */
  lemma FailedWriteIsNotRetried(steps: seq<Step>, w: Writes, w': Writes)
    requires Run(steps).phase == Up && FlushFails(Run(steps), w)
    ensures var s, failed := Run(steps), AfterFlush(Run(steps), w);
            && ToAdd(failed) == {} && ToRemove(failed) == {}
            && Stale(AfterFlush(failed, w')) == Stale(failed)
            && (s.clean ==>
                  && Stale(failed) == (if w.addOk then {} else ToAdd(s)) + (if w.removeOk then {} else ToRemove(s))
                  && Stale(failed) != {})
  {
    RunAgrees(steps);
    var s := Run(steps);
    FlushMovesStale(s, w);
    FlushMovesStale(AfterFlush(s, w), w');
  }

  /** What does repair a stale id without a reconnect: the opposite call and its flush, whether or not that
      flush is written. */
  lemma OppositeCallRepairs(s: State, id: string, w: Writes, w': Writes)
    requires s.phase == Up && s.pendingAdd !! s.pendingRemove && id !in Stale(s)
    ensures id in ToAdd(s) && !w.addOk ==>
              var failed := AfterFlush(s, w);
              id in Stale(failed) && id !in Stale(AfterFlush(AfterQueueRemove(failed, {id}), w'))
    ensures id in ToRemove(s) && !w.removeOk ==>
              var failed := AfterFlush(s, w);
              id in Stale(failed) && id !in Stale(AfterFlush(AfterQueueAdd(failed, {id}), w'))
  {
    FlushMovesStale(s, w);
    var failed := AfterFlush(s, w);
    if id in ToAdd(s) {
      FlushMovesStale(AfterQueueRemove(failed, {id}), w');
    } else if id in ToRemove(s) {
      FlushMovesStale(AfterQueueAdd(failed, {id}), w');
    }
  }

  /** A flush on an agreeing connection keeps the agreement exactly when no frame it needed has failed. */
  lemma AgreementAfterFlush(steps: seq<Step>, w: Writes)
    requires Run(steps).phase == Up && Run(steps).clean
    ensures AfterFlush(Run(steps), w).server == AfterFlush(Run(steps), w).subscribed <==> !FlushFails(Run(steps), w)
  {
    RunAgrees(steps);
    var s := Run(steps);
    var s' := AfterFlush(s, w);
    StepAgrees(s, Flush(w));
    if ToAdd(s) != {} && !w.addOk {
      var x :| x in ToAdd(s);
      assert x in s'.subscribed && x !in s'.server;
    } else if ToRemove(s) != {} && !w.removeOk {
      var x :| x in ToRemove(s);
      assert x !in s'.subscribed && x in s'.server;
    }
  }

  /** The next successful connect always restores agreement with the caller. */
  lemma ReconnectRestores(steps: seq<Step>, more: seq<Step>)
    requires forall step :: step in more ==> step.QueueAdd? || step.QueueRemove? || step.Flush?
    requires Run(steps).phase != Up
    ensures var s := Run(steps + more + [Connect(true)]); s.phase == Up && s.clean && s.server == Asked(steps + more)
  {
    var all := steps + more;
    StaysDown(steps, more);
    assert (all + [Connect(true)])[..|all|] == all;
    DesiredIsAsked(all);
  }

  lemma {:induction false} StaysDown(steps: seq<Step>, more: seq<Step>)
    requires forall step :: step in more ==> !step.Connect? && !step.Drop? && step != Stop
    ensures Run(steps + more).phase == Run(steps).phase
    ensures Run(steps).phase != Up ==> Run(steps + more).subscribed == Run(steps).subscribed
  {
    if more == [] {
      assert steps + more == steps;
    } else {
      var init := more[..|more| - 1];
      StaysDown(steps, init);
      assert (steps + more)[..|steps + more| - 1] == steps + init;
      assert more[|more| - 1] in more;
    }
  }

  /** With nothing wanted there is no handshake to fail. */
  lemma NothingToHandshake(steps: seq<Step>, writeOk: bool)
    requires Run(steps).phase != Up && Asked(steps) == {}
    ensures Run(steps + [Connect(writeOk)]) == State({}, {}, {}, Up, {}, true)
  {
    DesiredIsAsked(steps);
    assert (steps + [Connect(writeOk)])[..|steps|] == steps;
  }

  // ---------------------------------------------------------------- dispatch filter

  /** handlePriceChange keeps the items whose asset is subscribed; book, trade and tick events go through the
      same membership test one id at a time. */
  function Admitted(s: State, assets: seq<string>): seq<string> {
    if assets == [] then []
    else
      var rest := Admitted(s, assets[..|assets| - 1]);
      if assets[|assets| - 1] in s.subscribed then rest + [assets[|assets| - 1]] else rest
  }

  lemma {:induction false} AdmittedAreSubscribed(s: State, assets: seq<string>, id: string)
    ensures id in Admitted(s, assets) <==> id in assets && id in s.subscribed
  {
    if assets != [] {
      var init, last := assets[..|assets| - 1], assets[|assets| - 1];
      assert assets == init + [last];
      AdmittedAreSubscribed(s, init, id);
    }
  }

  /** Item by item and in order: what is admitted of two batches is what is admitted of each, and of one item the
      item itself or nothing. */
  lemma {:induction false} AdmittedInOrder(s: State, a: seq<string>, b: seq<string>)
    ensures Admitted(s, a + b) == Admitted(s, a) + Admitted(s, b)
    ensures |a| == 1 ==> Admitted(s, a) == if a[0] in s.subscribed then a else []
  {
    if |a| == 1 {
      assert a[..0] == [] && a == [a[0]];
    }
    if b == [] {
      assert a + b == a;
    } else {
      AdmittedInOrder(s, a, b[..|b| - 1]);
      assert (a + b)[..|a + b| - 1] == a + b[..|b| - 1];
    }
  }

  /** On a clean connection exactly the events for ids the server streams are dispatched; after a drop nothing
      is, however many queued frames are still being worked off, until the next connect attempt. */
  lemma DispatchFollowsServer(steps: seq<Step>, assets: seq<string>, id: string)
    ensures var s := Run(steps);
            && (s.phase == Up && s.clean ==> (id in Admitted(s, assets) <==> id in assets && id in s.server))
            && (s.phase == Down ==> Admitted(s, assets) == [])
  {
    RunAgrees(steps);
    var s := Run(steps);
    AdmittedAreSubscribed(s, assets, id);
    if s.phase == Down && Admitted(s, assets) != [] {
      AdmittedAreSubscribed(s, assets, Admitted(s, assets)[0]);
    }
  }

  /** While no connection is up, an event still queued from an earlier one is dispatched if and only if the
      last connect attempt got as far as a failed handshake and its id was wanted at that moment. */
  lemma StaleDispatch(steps: seq<Step>, more: seq<Step>, id: string)
    requires Run(steps).phase != Up
    requires forall step :: step in more ==> step.QueueAdd? || step.QueueRemove? || step.Flush?
    ensures var s := Run(steps + [Connect(false)] + more);
            id in Admitted(s, [id]) && s.phase != Up <==> id in Asked(steps)
    ensures Run(steps).phase == Down ==> id !in Admitted(Run(steps), [id])
  {
    var tried := steps + [Connect(false)];
    assert tried[..|steps|] == steps;
    RunAgrees(steps);
    DesiredIsAsked(steps);
    AdmittedAreSubscribed(Run(steps), [id], id);
    AdmittedAreSubscribed(Run(tried + more), [id], id);
    HalfOpenStays(tried, more);
    RunAgrees(tried + more);
  }

  lemma {:induction false} HalfOpenStays(tried: seq<Step>, more: seq<Step>)
    requires forall step :: step in more ==> step.QueueAdd? || step.QueueRemove? || step.Flush?
    ensures Run(tried).phase == Up ==> Run(tried + more).phase != HalfOpen
    ensures Run(tried).phase == HalfOpen ==>
              Run(tried + more).phase == HalfOpen && Run(tried + more).subscribed == Run(tried).subscribed
  {
    if more == [] {
      assert tried + more == tried;
    } else {
      var init := more[..|more| - 1];
      HalfOpenStays(tried, init);
      assert (tried + more)[..|tried + more| - 1] == tried + init;
      assert more[|more| - 1] in more;
    }
  }

  // ---------------------------------------------------------------- between the take and the re-queue

  /** flushPending's locked section on its own: the pending sets are taken before the frames are written. */
  function AfterTake(s: State): State {
    s.(subscribed := (s.subscribed + s.pendingAdd) - s.pendingRemove, pendingAdd := {}, pendingRemove := {})
  }

  /** The re-queue after a failed write, in a second locked section. */
  function AfterRequeue(s: State, adds: Ids, removes: Ids): State {
    s.(pendingAdd := s.pendingAdd + adds, pendingRemove := s.pendingRemove + removes)
  }

  /** With nothing in between, the two sections are the atomic step above. */
  lemma TakeThenRequeue(s: State, w: Writes)
    requires s.phase == Up && FlushFails(s, w)
    ensures AfterFlush(s, w) ==
              AfterRequeue(AfterTake(s), ToAdd(s), ToRemove(s)).(server := ServerAfterFlush(s, w), clean := false)
  {
    assert AfterRequeue(AfterTake(s), ToAdd(s), ToRemove(s)).pendingAdd == ToAdd(s);
    assert AfterRequeue(AfterTake(s), ToAdd(s), ToRemove(s)).pendingRemove == ToRemove(s);
  }

  /** Calls that slip in between can be undone by the re-queue.  It keeps what the caller wants exactly when no
      id being re-removed is wanted again and no id being re-added has been dropped in the meantime. */
  lemma RequeueKeepsDesired(s: State, adds: Ids, removes: Ids)
    ensures Desired(AfterRequeue(s, adds, removes)) == Desired(s)
       <==> removes !! Desired(s) && adds <= Desired(s) + s.pendingRemove + removes
  {
    var s' := AfterRequeue(s, adds, removes);
    if !(removes !! Desired(s)) {
      var x :| x in removes && x in Desired(s);
      assert x !in Desired(s');
    } else if !(adds <= Desired(s) + s.pendingRemove + removes) {
      var x :| x in adds && x !in Desired(s) + s.pendingRemove + removes;
      assert x in Desired(s');
    }
  }

  /** The failing input: a Subscribe between the take and the re-queue of a failed unsubscribe is lost. */
  lemma RequeueCanLoseASubscribe(id: string)
    ensures var s := State({id}, {}, {id}, Up, {id}, true);
            var taken := AfterTake(s);
            && ToRemove(s) == {id}
            && id in Desired(AfterQueueAdd(taken, {id}))
            && id !in Desired(AfterRequeue(AfterQueueAdd(taken, {id}), ToAdd(s), ToRemove(s)))
  {
  }

  // ---------------------------------------------------------------- the code

  class MarketChannel {
    var subscribedAssetIDs: Ids
    var pendingSubscribeIDs: Ids
    var pendingUnsubscribeIDs: Ids
    var phase: Phase
    ghost var server: Ids
    ghost var clean: bool

    ghost function View(): State
      reads this
    {
      State(subscribedAssetIDs, pendingSubscribeIDs, pendingUnsubscribeIDs, phase, server, clean)
    }

    constructor ()
      ensures View() == INITIAL
    {
      subscribedAssetIDs, pendingSubscribeIDs, pendingUnsubscribeIDs := {}, {}, {};
      phase, server, clean := Down, {}, false;
    }

    method Subscribe(assetIDs: seq<string>)
      modifies this
      ensures View() == Next(old(View()), QueueAdd(set id | id in assetIDs))
    {
      for i := 0 to |assetIDs|
        invariant View() == AfterQueueAdd(old(View()), set id | id in assetIDs[..i])
      {
        assert assetIDs[..i + 1] == assetIDs[..i] + [assetIDs[i]];
        pendingUnsubscribeIDs := pendingUnsubscribeIDs - {assetIDs[i]};
        if assetIDs[i] in subscribedAssetIDs {
          continue;
        }
        pendingSubscribeIDs := pendingSubscribeIDs + {assetIDs[i]};
      }
      assert assetIDs[..|assetIDs|] == assetIDs;
    }

    method Unsubscribe(assetIDs: seq<string>)
      modifies this
      ensures View() == Next(old(View()), QueueRemove(set id | id in assetIDs))
    {
      for i := 0 to |assetIDs|
        invariant View() == AfterQueueRemove(old(View()), set id | id in assetIDs[..i])
      {
        assert assetIDs[..i + 1] == assetIDs[..i] + [assetIDs[i]];
        pendingSubscribeIDs := pendingSubscribeIDs - {assetIDs[i]};
        pendingUnsubscribeIDs := pendingUnsubscribeIDs + {assetIDs[i]};
      }
      assert assetIDs[..|assetIDs|] == assetIDs;
    }

    method AddPending() returns (toAdd: Ids)
      modifies this`subscribedAssetIDs
      ensures toAdd == pendingSubscribeIDs - old(subscribedAssetIDs)
      ensures subscribedAssetIDs == old(subscribedAssetIDs) + pendingSubscribeIDs
    {
      toAdd := {};
      var todo := pendingSubscribeIDs;
      while todo != {}
        invariant todo <= pendingSubscribeIDs
        invariant toAdd == (pendingSubscribeIDs - todo) - old(subscribedAssetIDs)
        invariant subscribedAssetIDs == old(subscribedAssetIDs) + toAdd
        decreases todo
      {
        var id :| id in todo;
        if id !in subscribedAssetIDs {
          subscribedAssetIDs := subscribedAssetIDs + {id};
          toAdd := toAdd + {id};
        }
        todo := todo - {id};
      }
    }

    method RemovePending() returns (toRemove: Ids)
      modifies this`subscribedAssetIDs
      ensures toRemove == pendingUnsubscribeIDs * old(subscribedAssetIDs)
      ensures subscribedAssetIDs == old(subscribedAssetIDs) - pendingUnsubscribeIDs
    {
      toRemove := {};
      var todo := pendingUnsubscribeIDs;
      while todo != {}
        invariant todo <= pendingUnsubscribeIDs
        invariant toRemove == (pendingUnsubscribeIDs - todo) * old(subscribedAssetIDs)
        invariant subscribedAssetIDs == old(subscribedAssetIDs) - toRemove
        decreases todo
      {
        var id :| id in todo;
        if id in subscribedAssetIDs {
          subscribedAssetIDs := subscribedAssetIDs - {id};
          toRemove := toRemove + {id};
        }
        todo := todo - {id};
      }
    }

    /** toAdd and toRemove are the contents of the two frames; an empty frame is not sent. */
    method FlushPending(w: Writes) returns (toAdd: Ids, toRemove: Ids)
      modifies this
      ensures View() == Next(old(View()), Flush(w))
      ensures old(phase) == Up ==> toAdd == old(ToAdd(View())) && toRemove == old(ToRemove(View()))
      ensures old(phase) != Up ==> toAdd == toRemove == {}
    {
      toAdd, toRemove := {}, {};
      if phase != Up {
        return;
      }
      toAdd := AddPending();
      toRemove := RemovePending();
      assert subscribedAssetIDs == old(Desired(View()));
      pendingSubscribeIDs, pendingUnsubscribeIDs := {}, {};
      server := old(ServerAfterFlush(View(), w));
      if (toAdd != {} && !w.addOk) || (toRemove != {} && !w.removeOk) {
        pendingSubscribeIDs, pendingUnsubscribeIDs := toAdd, toRemove;
        clean := false;
      }
    }

    method OnConnect(writeOk: bool)
      requires phase != Up
      modifies this
      ensures View() == Next(old(View()), Connect(writeOk))
    {
      var allIDs := (subscribedAssetIDs + pendingSubscribeIDs) - pendingUnsubscribeIDs;
      subscribedAssetIDs := allIDs;
      pendingSubscribeIDs, pendingUnsubscribeIDs := {}, {};
      if allIDs == {} || writeOk {
        phase, server, clean := Up, allIDs, true;
      } else {
        phase, server, clean := HalfOpen, {}, false;
      }
    }

    method OnDisconnect()
      modifies this
      ensures View() == Next(old(View()), Drop)
    {
      pendingSubscribeIDs := pendingSubscribeIDs + subscribedAssetIDs;
      subscribedAssetIDs := {};
      phase, server, clean := Down, {}, false;
    }

    method ClearSubscriptions()
      modifies this
      ensures View() == Next(old(View()), Stop)
    {
      subscribedAssetIDs, pendingSubscribeIDs, pendingUnsubscribeIDs := {}, {}, {};
      phase, server, clean := Down, {}, false;
    }
  }
}
