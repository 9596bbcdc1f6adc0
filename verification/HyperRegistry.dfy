/**
  The Hyperliquid subscription registry (pkg/hyperliquid/hyperliquid.go): a map from key to
  the subscribed object, one frame per object, and a replay of everything on each connect.
  The server is modelled by the frames of the current connection, each written or failed on
  its own: a subscribe that was written adds its object, an unsubscribe that was written
  removes the object equal to it field for field.
*/
module HyperRegistry {
  import opened Common
  import opened HyperChannels
  import opened Sorting

  type Subs = map<string, Subscription>

  datatype Frame = Sub(o: Subscription) | Unsub(o: Subscription)

  /** A frame and whether its write succeeded. */
  datatype Attempt = Attempt(f: Frame, ok: bool)

  datatype State = State(
    subs: Subs,
    connected: bool,
    log: seq<Attempt>)    // what has been written, or failed to be, on this connection, in order

  const INITIAL := State(map[], false, [])

  /** Which of the writes of one call succeed. */
  type Outcomes = nat -> bool

  datatype Step =
    | Subscribe(list: seq<Subscription>, ok: Outcomes)
    | Unsubscribe(list: seq<Subscription>, ok: Outcomes)
    | Connect(replay: seq<Subscription>, ok: Outcomes)
    | Drop
    | Stop

  /** addSubs: the registry afterwards and the objects that were new. */
  function AddSubs(subs: Subs, list: seq<Subscription>): (Subs, seq<Subscription>) {
    if list == [] then (subs, [])
    else
      var (m, added) := AddSubs(subs, list[..|list| - 1]);
      var s := list[|list| - 1];
      if Key(s) in m then (m, added) else (m[Key(s) := s], added + [s])
  }

  /** removeSubs: the registry afterwards and the stored objects that left it. */
  function RemoveSubs(subs: Subs, list: seq<Subscription>): (Subs, seq<Subscription>) {
    if list == [] then (subs, [])
    else
      var (m, removed) := RemoveSubs(subs, list[..|list| - 1]);
      var k := Key(list[|list| - 1]);
      if k in m then (m - {k}, removed + [m[k]]) else (m, removed)
  }

  function SubAttempts(list: seq<Subscription>, ok: Outcomes): seq<Attempt> {
    seq(|list|, i requires 0 <= i < |list| => Attempt(Sub(list[i]), ok(i)))
  }

  function UnsubAttempts(list: seq<Subscription>, ok: Outcomes): seq<Attempt> {
    seq(|list|, i requires 0 <= i < |list| => Attempt(Unsub(list[i]), ok(i)))
  }

  /** Two lists in one call are two calls: the registry is walked in order, and so are the objects that were new
      or that left. */
  lemma {:induction false} AddsInOrder(subs: Subs, a: seq<Subscription>, b: seq<Subscription>)
    ensures var (m, first) := AddSubs(subs, a);
            var (m', second) := AddSubs(m, b);
            AddSubs(subs, a + b).0 == m' && AddSubs(subs, a + b).1 == first + second
  {
    if b == [] {
      assert a + b == a;
    } else {
      var init, s := b[..|b| - 1], b[|b| - 1];
      AddsInOrder(subs, a, init);
      var whole := a + b;
      assert whole[..|whole| - 1] == a + init && whole[|whole| - 1] == s;
      var (m, first) := AddSubs(subs, a);
      var (m', second) := AddSubs(m, init);
      AppendLast(first, second, s);
    }
  }

  lemma AppendLast(a: seq<Subscription>, b: seq<Subscription>, s: Subscription)
    ensures a + (b + [s]) == (a + b) + [s]
  {
  }

  lemma {:induction false} RemovesInOrder(subs: Subs, a: seq<Subscription>, b: seq<Subscription>)
    ensures var (m, first) := RemoveSubs(subs, a);
            var (m', second) := RemoveSubs(m, b);
            RemoveSubs(subs, a + b).0 == m' && RemoveSubs(subs, a + b).1 == first + second
  {
    if b == [] {
      assert a + b == a;
    } else {
      var init, s := b[..|b| - 1], b[|b| - 1];
      RemovesInOrder(subs, a, init);
      var whole := a + b;
      assert whole[..|whole| - 1] == a + init && whole[|whole| - 1] == s;
      var (m, first) := RemoveSubs(subs, a);
      var (m', second) := RemoveSubs(m, init);
      AppendLast(first, second, if Key(s) in m' then m'[Key(s)] else s);
    }
  }

  /** One object: a new key takes it, a known key keeps what it has; removing gives back what was stored. */
  lemma OneObject(subs: Subs, s: Subscription)
    ensures AddSubs(subs, [s]) == if Key(s) in subs then (subs, []) else (subs[Key(s) := s], [s])
    ensures RemoveSubs(subs, [s]) == if Key(s) in subs then (subs - {Key(s)}, [subs[Key(s)]]) else (subs, [])
  {
    assert [s][..0] == [] && [] + [s] == [s];
    assert AddSubs(subs, [s][..0]) == (subs, []) && RemoveSubs(subs, [s][..0]) == (subs, []);
    assert Key(s) in subs ==> [] + [subs[Key(s)]] == [subs[Key(s)]];
  }

  predicate AllAccepted(list: seq<Subscription>) {
    forall s :: s in list ==> Accepted(s)
  }

  /** Every registered object once, in some order. */
  ghost predicate IsReplay(subs: Subs, replay: seq<Subscription>) {
    && (forall i, j :: 0 <= i < j < |replay| ==> replay[i] != replay[j])
    && (forall s :: s in replay <==> s in subs.Values)
  }

  ghost predicate InKeyOrder(list: seq<Subscription>) {
    forall i, j :: 0 <= i < j < |list| ==> StringLess(Key(list[i]), Key(list[j]))
  }

  /** The objects under the sorted keys are a replay in key order. */
  lemma SortedReplay(subs: Subs, keys: seq<string>, out: seq<Subscription>)
    requires Keyed(subs) && IsSorted(subs.Keys, keys) && |out| == |keys|
    requires forall j :: 0 <= j < |keys| ==> keys[j] in subs && out[j] == subs[keys[j]]
    ensures IsReplay(subs, out) && InKeyOrder(out)
  {
    assert forall j :: 0 <= j < |keys| ==> Key(out[j]) == keys[j];
    forall i, j | 0 <= i < j < |out| ensures out[i] != out[j] {
      StringLessOrder(keys[i], keys[j], keys[i]);
    }
    forall s ensures s in out <==> s in subs.Values {
      if s in subs.Values {
        var k :| k in subs && subs[k] == s;
        assert k in keys;
        var j :| 0 <= j < |keys| && keys[j] == k;
        assert out[j] == s;
      }
    }
  }

  /** Without a connection nothing is written. */
  function Write(s: State, attempts: seq<Attempt>): State {
    if s.connected then s.(log := s.log + attempts) else s
  }

  predicate AllOk(n: nat, ok: Outcomes) {
    forall i :: 0 <= i < n ==> ok(i)
  }

  ghost function Next(s: State, step: Step): State {
    match step
    case Subscribe(list, ok) =>
      if !AllAccepted(list) then s
      else
        var (subs, added) := AddSubs(s.subs, list);
        Write(s.(subs := subs), SubAttempts(added, ok))
    case Unsubscribe(list, ok) =>
      var (subs, removed) := RemoveSubs(s.subs, list);
      Write(s.(subs := subs), UnsubAttempts(removed, ok))
    case Connect(replay, ok) =>
      if s.connected || !IsReplay(s.subs, replay) || !AllOk(|replay|, ok) then s
      else s.(connected := true, log := SubAttempts(replay, ok))
    case Drop => s.(connected := false, log := [])
    case Stop => INITIAL
  }

  ghost function Run(steps: seq<Step>): State {
    if steps == [] then INITIAL else Next(Run(steps[..|steps| - 1]), steps[|steps| - 1])
  }

  // ---------------------------------------------------------------- the server

  function After(objects: set<Subscription>, f: Frame): set<Subscription> {
    match f
    case Sub(o) => objects + {o}
    case Unsub(o) => objects - {o}
  }

  /** The objects the server streams after these attempts: a frame whose write failed never reached it. */
  function ServerOf(log: seq<Attempt>): set<Subscription> {
    if log == [] then {}
    else
      var before, last := ServerOf(log[..|log| - 1]), log[|log| - 1];
      if last.ok then After(before, last.f) else before
  }

  /** The objects it would stream had every write succeeded. */
  function Wanted(log: seq<Attempt>): set<Subscription> {
    if log == [] then {} else After(Wanted(log[..|log| - 1]), log[|log| - 1].f)
  }

  /** An object is subscribed only when it is not wanted yet and unsubscribed only when it is. */
  predicate Alternates(log: seq<Attempt>) {
    log != [] ==>
      var init, f := log[..|log| - 1], log[|log| - 1].f;
      Alternates(init) && (f.Unsub? <==> f.o in Wanted(init))
  }

  /** How many of the latest attempts about o have failed, back to the last one that succeeded. */
  function FailuresInARow(log: seq<Attempt>, o: Subscription): nat {
    if log == [] then 0
    else
      var before, last := FailuresInARow(log[..|log| - 1], o), log[|log| - 1];
      if last.f.o != o then before else if last.ok then 0 else before + 1
  }

  lemma {:induction false} OutOfStepIffOdd(log: seq<Attempt>, o: Subscription)
    requires Alternates(log)
    ensures (o in ServerOf(log) <==> o in Wanted(log)) <==> FailuresInARow(log, o) % 2 == 0
  {
    if log != [] {
      OutOfStepIffOdd(log[..|log| - 1], o);
    }
  }

  ghost predicate Keyed(subs: Subs) {
    forall k :: k in subs ==> Key(subs[k]) == k && Accepted(subs[k])
  }

  ghost predicate Inv(s: State) {
    && Keyed(s.subs)
    && (s.connected ==> Wanted(s.log) == s.subs.Values && Alternates(s.log))
  }

  lemma Extend(log: seq<Attempt>, a: Attempt)
    requires Alternates(log) && (a.f.Unsub? <==> a.f.o in Wanted(log))
    ensures Alternates(log + [a]) && Wanted(log + [a]) == After(Wanted(log), a.f)
  {
    assert (log + [a])[..|log|] == log;
  }

  /** A new object under a new key: its frame moves what is wanted as the registry moves. */
  lemma AddFollows(m: Subs, s: Subscription, log: seq<Attempt>, ok: bool)
    requires Keyed(m) && Key(s) !in m && Alternates(log) && Wanted(log) == m.Values
    ensures Alternates(log + [Attempt(Sub(s), ok)]) && Wanted(log + [Attempt(Sub(s), ok)]) == m[Key(s) := s].Values
  {
    Extend(log, Attempt(Sub(s), ok));
    var after := m[Key(s) := s];
    assert after.Values == m.Values + {s} by {
      assert after[Key(s)] == s;
      forall v | v in m.Values ensures v in after.Values {
        var k :| k in m && m[k] == v;
        assert after[k] == v;
      }
    }
  }

  /** The stored object under a key: its unsubscribe frame moves what is wanted as the registry moves. */
  lemma RemoveFollows(m: Subs, k: string, log: seq<Attempt>, ok: bool)
    requires Keyed(m) && k in m && Alternates(log) && Wanted(log) == m.Values
    ensures Alternates(log + [Attempt(Unsub(m[k]), ok)])
    ensures Wanted(log + [Attempt(Unsub(m[k]), ok)]) == (m - {k}).Values
  {
    var o, after := m[k], m - {k};
    Extend(log, Attempt(Unsub(o), ok));
    assert after.Values == m.Values - {o} by {
      forall v | v in m.Values && v != o ensures v in after.Values {
        var k' :| k' in m && m[k'] == v;
        assert after[k'] == v;
      }
      forall v | v in after.Values ensures v in m.Values && v != o {
        var k' :| k' in after && after[k'] == v;
        assert m[k'] == v && Key(v) == k' && Key(o) == k;
      }
    }
  }

  lemma {:induction false} AddsKeepKeyed(subs: Subs, list: seq<Subscription>)
    requires Keyed(subs) && AllAccepted(list)
    ensures Keyed(AddSubs(subs, list).0)
  {
    if list != [] {
      assert list[|list| - 1] in list;
      AddsKeepKeyed(subs, list[..|list| - 1]);
    }
  }

  lemma {:induction false} RemovesKeepKeyed(subs: Subs, list: seq<Subscription>)
    requires Keyed(subs)
    ensures Keyed(RemoveSubs(subs, list).0)
  {
    if list != [] {
      RemovesKeepKeyed(subs, list[..|list| - 1]);
    }
  }

  lemma AcceptedPrefix(list: seq<Subscription>)
    requires AllAccepted(list) && list != []
    ensures AllAccepted(list[..|list| - 1])
  {
  }

  lemma OneMoreAttempt(log: seq<Attempt>, list: seq<Subscription>, o: Subscription, ok: Outcomes)
    ensures log + SubAttempts(list + [o], ok) == (log + SubAttempts(list, ok)) + [Attempt(Sub(o), ok(|list|))]
    ensures log + UnsubAttempts(list + [o], ok) == (log + UnsubAttempts(list, ok)) + [Attempt(Unsub(o), ok(|list|))]
  {
  }

  lemma {:induction false} AddsFollow(subs: Subs, list: seq<Subscription>, log: seq<Attempt>, ok: Outcomes)
    requires Keyed(subs) && AllAccepted(list) && Alternates(log) && Wanted(log) == subs.Values
    ensures var (m, added) := AddSubs(subs, list);
            Alternates(log + SubAttempts(added, ok)) && Wanted(log + SubAttempts(added, ok)) == m.Values
  {
    if list == [] {
      assert log + SubAttempts([], ok) == log;
    } else {
      var init, s := list[..|list| - 1], list[|list| - 1];
      AcceptedPrefix(list);
      AddsFollow(subs, init, log, ok);
      AddsKeepKeyed(subs, init);
      var (m, added) := AddSubs(subs, init);
      if Key(s) !in m {
        OneMoreAttempt(log, added, s, ok);
        AddFollows(m, s, log + SubAttempts(added, ok), ok(|added|));
      }
    }
  }

  lemma {:induction false} RemovesFollow(subs: Subs, list: seq<Subscription>, log: seq<Attempt>, ok: Outcomes)
    requires Keyed(subs) && Alternates(log) && Wanted(log) == subs.Values
    ensures var (m, removed) := RemoveSubs(subs, list);
            Alternates(log + UnsubAttempts(removed, ok)) && Wanted(log + UnsubAttempts(removed, ok)) == m.Values
  {
    if list == [] {
      assert log + UnsubAttempts([], ok) == log;
    } else {
      var init, k := list[..|list| - 1], Key(list[|list| - 1]);
      RemovesFollow(subs, init, log, ok);
      RemovesKeepKeyed(subs, init);
      var (m, removed) := RemoveSubs(subs, init);
      if k in m {
        OneMoreAttempt(log, removed, m[k], ok);
        RemoveFollows(m, k, log + UnsubAttempts(removed, ok), ok(|removed|));
      }
    }
  }

  lemma {:induction false} ReplayServes(replay: seq<Subscription>, ok: Outcomes)
    requires forall i, j :: 0 <= i < j < |replay| ==> replay[i] != replay[j]
    ensures var log := SubAttempts(replay, ok); Alternates(log) && Wanted(log) == set s | s in replay
  {
    if replay != [] {
      var init, last := replay[..|replay| - 1], replay[|replay| - 1];
      ReplayServes(init, ok);
      assert replay == init + [last] && last !in init;
      assert SubAttempts(replay, ok) == SubAttempts(init, ok) + [Attempt(Sub(last), ok(|init|))];
      Extend(SubAttempts(init, ok), Attempt(Sub(last), ok(|init|)));
    }
  }

  lemma NextKeepsInv(s: State, step: Step)
    requires Inv(s)
    ensures Inv(Next(s, step))
  {
    match step
    case Subscribe(list, ok) =>
      if AllAccepted(list) {
        AddsKeepKeyed(s.subs, list);
        if s.connected {
          AddsFollow(s.subs, list, s.log, ok);
        }
      }
    case Unsubscribe(list, ok) =>
      RemovesKeepKeyed(s.subs, list);
      if s.connected {
        RemovesFollow(s.subs, list, s.log, ok);
      }
    case Connect(replay, ok) =>
      if IsReplay(s.subs, replay) {
        ReplayServes(replay, ok);
        assert s.subs.Values == set x | x in replay;
      }
    case _ =>
  }

  lemma {:induction false} RunKeepsInv(steps: seq<Step>)
    ensures Inv(Run(steps))
  {
    if steps != [] {
      RunKeepsInv(steps[..|steps| - 1]);
      NextKeepsInv(Run(steps[..|steps| - 1]), steps[|steps| - 1]);
    }
  }

  predicate SameStream(a: Subscription, b: Subscription) {
    a.kind == b.kind && a.coin == b.coin && a.p.interval == b.p.interval
  }

  /** The exact law, failed writes included: on a connection the server streams an object if and only if it is
      registered, except that the two differ for the objects about which an odd number of writes have failed in
      a row. */
  lemma StaleIffOddFailures(steps: seq<Step>, o: Subscription)
    requires Run(steps).connected
    ensures var s := Run(steps);
            (o in ServerOf(s.log) <==> o in s.subs.Values) <==> FailuresInARow(s.log, o) % 2 == 0
  {
    RunKeepsInv(steps);
    OutOfStepIffOdd(Run(steps).log, o);
  }

  /** Without a connection nothing is written; a connect counts only when the whole replay was. */
  lemma {:induction false} NothingWhileDown(steps: seq<Step>, replay: seq<Subscription>, ok: Outcomes)
    ensures !Run(steps).connected ==> Run(steps).log == []
    ensures !Run(steps).connected && IsReplay(Run(steps).subs, replay) ==>
              Next(Run(steps), Connect(replay, ok)).connected == (forall i :: 0 <= i < |replay| ==> ok(i))
  {
    if steps != [] {
      NothingWhileDown(steps[..|steps| - 1], replay, ok);
    }
  }

  predicate NoneFailed(log: seq<Attempt>) {
    forall i :: 0 <= i < |log| ==> log[i].ok
  }

  lemma {:induction false} CleanServes(log: seq<Attempt>)
    requires NoneFailed(log)
    ensures ServerOf(log) == Wanted(log)
  {
    if log != [] {
      CleanServes(log[..|log| - 1]);
    }
  }

  /** While connected and no write has failed, the server streams exactly the registered objects, at most one
      per channel, coin and interval. */
  lemma ServerIsRegistry(steps: seq<Step>, a: Subscription, b: Subscription)
    requires Run(steps).connected && NoneFailed(Run(steps).log)
    ensures var s := Run(steps);
            && ServerOf(s.log) == s.subs.Values
            && (a in ServerOf(s.log) && b in ServerOf(s.log) && SameStream(a, b) ==> a == b)
  {
    RunKeepsInv(steps);
    CleanServes(Run(steps).log);
    var s := Run(steps);
    if a in s.subs.Values && b in s.subs.Values {
      var j :| j in s.subs && s.subs[j] == a;
      var k :| k in s.subs && s.subs[k] == b;
    }
  }

  lemma {:induction false} WantedWasSubscribed(log: seq<Attempt>, o: Subscription) returns (j: nat)
    requires o in Wanted(log)
    ensures j < |log| && log[j].f == Sub(o)
    ensures forall k :: j < k < |log| ==> log[k].f != Unsub(o)
  {
    var last := log[|log| - 1].f;
    if last == Sub(o) {
      j := |log| - 1;
    } else {
      j := WantedWasSubscribed(log[..|log| - 1], o);
    }
  }

  lemma {:induction false} AlternatesAt(log: seq<Attempt>, i: nat)
    requires Alternates(log) && i < |log| && log[i].f.Unsub?
    ensures log[i].f.o in Wanted(log[..i])
  {
    if i < |log| - 1 {
      AlternatesAt(log[..|log| - 1], i);
      assert log[..|log| - 1][..i] == log[..i];
    }
  }

  /** Every unsubscribe frame, on any connection, carries field for field an object subscribed earlier on the same
      connection and not unsubscribed in between, whatever thinning options the caller passed. */
  lemma UnsubscribesReplayTheOriginal(steps: seq<Step>, i: nat) returns (j: nat)
    requires Run(steps).connected && i < |Run(steps).log| && Run(steps).log[i].f.Unsub?
    ensures j < i && Run(steps).log[j].f == Sub(Run(steps).log[i].f.o)
    ensures forall k :: j < k < i ==> Run(steps).log[k].f != Run(steps).log[i].f
  {
    RunKeepsInv(steps);
    var log := Run(steps).log;
    AlternatesAt(log, i);
    j := WantedWasSubscribed(log[..i], log[i].f.o);
    forall k | j < k < i ensures log[k].f != log[i].f {
      assert log[..i][k] == log[k];
    }
  }

  /** What is registered is what was asked for: a key is registered exactly when the last accepted Subscribe,
      Unsubscribe or Stop concerning it was a Subscribe, and it holds the object of the first Subscribe since. */
  ghost function Asked(steps: seq<Step>, key: string): Option<Subscription> {
    if steps == [] then None
    else
      var before := Asked(steps[..|steps| - 1], key);
      match steps[|steps| - 1]
      case Subscribe(list, _) => if before.None? && AllAccepted(list) then FirstWith(list, key) else before
      case Unsubscribe(list, _) => if FirstWith(list, key).Some? then None else before
      case Stop => None
      case _ => before
  }

  function FirstWith(list: seq<Subscription>, key: string): Option<Subscription> {
    if list == [] then None
    else
      var earlier := FirstWith(list[..|list| - 1], key);
      if earlier.None? && Key(list[|list| - 1]) == key then Some(list[|list| - 1]) else earlier
  }

  lemma {:induction false} AddedKey(subs: Subs, list: seq<Subscription>, key: string)
    ensures Lookup(AddSubs(subs, list).0, key) == if key in subs then Some(subs[key]) else FirstWith(list, key)
  {
    if list != [] {
      AddedKey(subs, list[..|list| - 1], key);
    }
  }

  lemma {:induction false} RemovedKey(subs: Subs, list: seq<Subscription>, key: string)
    ensures Lookup(RemoveSubs(subs, list).0, key) == if FirstWith(list, key).Some? then None else Lookup(subs, key)
  {
    if list != [] {
      RemovedKey(subs, list[..|list| - 1], key);
    }
  }

  lemma {:induction false} RegistryIsAsked(steps: seq<Step>, key: string)
    ensures Lookup(Run(steps).subs, key) == Asked(steps, key)
  {
    if steps != [] {
      var s := Run(steps[..|steps| - 1]);
      RegistryIsAsked(steps[..|steps| - 1], key);
      match steps[|steps| - 1]
      case Subscribe(list, _) => AddedKey(s.subs, list, key);
      case Unsubscribe(list, _) => RemovedKey(s.subs, list, key);
      case _ =>
    }
  }

  // ---------------------------------------------------------------- the code

  class Registry {
    var subs: Subs
    var connected: bool
    ghost var log: seq<Attempt>

    ghost function View(): State
      reads this
    {
      State(subs, connected, log)
    }

    constructor ()
      ensures View() == INITIAL
    {
      subs, connected, log := map[], false, [];
    }

    method AddToRegistry(list: seq<Subscription>) returns (added: seq<Subscription>)
      modifies this`subs
      ensures (subs, added) == AddSubs(old(subs), list)
    {
      added := [];
      for i := 0 to |list|
        invariant (subs, added) == AddSubs(old(subs), list[..i])
      {
        assert list[..i + 1][..i] == list[..i];
        var key := Key(list[i]);
        if key in subs {
          continue;
        }
        subs := subs[key := list[i]];
        added := added + [list[i]];
      }
      assert list[..|list|] == list;
    }

    method RemoveFromRegistry(list: seq<Subscription>) returns (removed: seq<Subscription>)
      modifies this`subs
      ensures (subs, removed) == RemoveSubs(old(subs), list)
    {
      removed := [];
      for i := 0 to |list|
        invariant (subs, removed) == RemoveSubs(old(subs), list[..i])
      {
        assert list[..i + 1][..i] == list[..i];
        var key := Key(list[i]);
        if key !in subs {
          continue;
        }
        removed := removed + [subs[key]];
        subs := subs - {key};
      }
      assert list[..|list|] == list;
    }

    /** Every registered object once, in the order of the keys. */
    method AllSubscriptions() returns (out: seq<Subscription>)
      requires Keyed(subs)
      ensures IsReplay(subs, out) && InKeyOrder(out)
    {
      var keys := SortStrings(subs.Keys);
      out := [];
      for i := 0 to |keys|
        invariant |out| == i && forall j :: 0 <= j < i ==> keys[j] in subs && out[j] == subs[keys[j]]
      {
        assert keys[i] in keys;
        out := out + [subs[keys[i]]];
      }
      SortedReplay(subs, keys, out);
    }

    method SubscribeAll(list: seq<Subscription>, ok: Outcomes) returns (accepted: bool)
      modifies this
      ensures accepted == AllAccepted(list)
      ensures View() == Next(old(View()), Subscribe(list, ok))
    {
      for i := 0 to |list|
        invariant forall s :: s in list[..i] ==> Accepted(s)
        invariant View() == old(View())
      {
        assert list[..i + 1] == list[..i] + [list[i]];
        if !Accepted(list[i]) {
          assert list[i] in list;
          return false;
        }
      }
      assert list[..|list|] == list;
      var added := AddToRegistry(list);
      WriteSubs(added, false, ok);
      return true;
    }

    method UnsubscribeAll(list: seq<Subscription>, ok: Outcomes)
      modifies this
      ensures View() == Next(old(View()), Unsubscribe(list, ok))
    {
      var removed := RemoveFromRegistry(list);
      WriteSubs(removed, true, ok);
    }

    /** The loop over writeSub: every frame is tried, whatever became of the ones before. */
    method WriteSubs(list: seq<Subscription>, unsubscribe: bool, ok: Outcomes)
      modifies this`log
      ensures View() == Write(old(View()), if unsubscribe then UnsubAttempts(list, ok) else SubAttempts(list, ok))
    {
      for i := 0 to |list|
        invariant View() ==
                    Write(old(View()),
                          if unsubscribe then UnsubAttempts(list[..i], ok) else SubAttempts(list[..i], ok))
      {
        assert SubAttempts(list[..i + 1], ok) == SubAttempts(list[..i], ok) + [Attempt(Sub(list[i]), ok(i))];
        assert UnsubAttempts(list[..i + 1], ok) == UnsubAttempts(list[..i], ok) + [Attempt(Unsub(list[i]), ok(i))];
        WriteSub(list[i], unsubscribe, ok(i));
      }
      assert list[..|list|] == list;
    }

    /** Without a connection there is no frame; a failed write is not retried. */
    method WriteSub(sub: Subscription, unsubscribe: bool, ok: bool)
      modifies this`log
      ensures View() == Write(old(View()), [Attempt(if unsubscribe then Unsub(sub) else Sub(sub), ok)])
    {
      if connected {
        log := log + [Attempt(if unsubscribe then Unsub(sub) else Sub(sub), ok)];
      }
    }

    method OnConnect(ok: Outcomes) returns (replay: seq<Subscription>)
      requires !connected && Keyed(subs)
      modifies this
      ensures View() == Next(old(View()), Connect(replay, ok))
      ensures IsReplay(subs, replay) && InKeyOrder(replay)
    {
      replay := AllSubscriptions();
      for i := 0 to |replay|
        invariant View() == old(View()) && AllOk(i, ok)
      {
        if !ok(i) {
          return;
        }
      }
      connected, log := true, SubAttempts(replay, ok);
    }
  }
}
