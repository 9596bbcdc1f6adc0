/**
  Who owns the connection (dialSync, readLoop, Disconnect, Close, the ping loop and the data
  watchdog in pkg/websocket/websocket.go).  Every successful dial is a generation; read loops,
  ping loops and callers act on whatever generation they find, in any order.
*/
module ConnGenerations {
  import opened Common

  datatype Status = Disconnected | Connecting | Connected

  /** A readLoop goroutine: spawned but not yet run; reading one generation; on its way out, which takes three
      actions, past its check, past its report and past its cleanup; or returned because there was nothing to
      read.  `reports` is what the check decided. */
  datatype Reader =
    | Spawned
    | Reading(gen: nat)
    | Checked(gen: nat, reports: bool)
    | Leaving(gen: nat, reports: bool)
    | Left(gen: nat, reports: bool)
    | Gone

  datatype Net = Net(
    conn: Option<nat>,        // b.conn, as a generation
    status: Status,
    next: nat,                // the next generation
    closed: set<nat>,         // sockets that have been closed
    ready: set<nat>,          // generations whose OnConnect succeeded
    byClose: set<nat>,        // generations ended by Close
    byDrop: set<nat>,         // generations ended by Disconnect: a caller's, a pong timeout's or the watchdog's
    fired: multiset<nat>,     // OnDisconnect calls that report a generation, by that generation
    idle: nat,                // OnDisconnect calls of a Disconnect that found no connection
    calls: nat,               // all OnDisconnect calls
    readers: seq<Reader>,
    shutdown: bool)           // Close was called: the root context is cancelled

  const FRESH := Net(None, Disconnected, 0, {}, {}, {}, {}, multiset{}, 0, 0, [], false)

  datatype Step =
    | DialFails                   // the dial itself fails
    | Dial(hookOk: bool)          // dialSync succeeds in dialling; OnConnect succeeds or not
    | ReaderStarts(i: nat)        // a spawned readLoop runs its first line
    | ReaderChecks(i: nat)        // conn.Read failed: is there something to report?
    | ReaderReports(i: nat)       // the hook, if the check said so
    | ReaderCleans(i: nat)        // the deferred cleanup
    | PingFails(gen: nat)         // no pong on this generation: check, then Disconnect
    | DataStale                   // the watchdog: check the status, then Disconnect
    | Disconnect                  // a caller, or a Disconnect some time after its check, at any time
    | Close

  /** The OnDisconnect hook runs for generation g. */
  function Reported(s: Net, g: nat): Net {
    s.(fired := s.fired + multiset{g}, calls := s.calls + 1)
  }

  /** Disconnect: drop whatever is current; the hook runs even if there was nothing to drop. */
  function AfterDisconnect(s: Net): Net {
    match s.conn
    case None => s.(status := Disconnected, idle := s.idle + 1, calls := s.calls + 1)
    case Some(g) =>
      Reported(s, g).(conn := None, status := Disconnected, closed := s.closed + {g}, byDrop := s.byDrop + {g})
  }

  /** dialSync, as called by Connect and then only by reconnLoop, which looks at the status first. */
  function AfterDial(s: Net, hookOk: bool): Net {
    var g := s.next;
    if hookOk then
      s.(conn := Some(g), status := Connected, next := g + 1, ready := s.ready + {g}, readers := s.readers + [Spawned])
    else
      s.(conn := None, status := Disconnected, next := g + 1, closed := s.closed + {g})
  }

  /** The deferred check of readLoop: report only if this generation is still current and not shutting down. */
  predicate ExitReports(s: Net, g: nat) {
    !s.shutdown && s.conn == Some(g) && s.status != Disconnected
  }

  /** The deferred cleanup of readLoop. */
  function AfterCleanup(s: Net, g: nat): Net {
    if s.conn == Some(g) then s.(conn := None, status := Disconnected, closed := s.closed + {g}) else s
  }

  function Next(s: Net, step: Step): Net {
    match step
    case DialFails => if s.shutdown || s.status == Connected then s else s.(status := Disconnected)
    case Dial(hookOk) => if s.shutdown || s.status == Connected then s else AfterDial(s, hookOk)
    case ReaderStarts(i) =>
      if i < |s.readers| && s.readers[i] == Spawned then
        s.(readers := s.readers[i := if s.conn.Some? then Reading(s.conn.value) else Gone])
      else s
    case ReaderChecks(i) =>
      if i < |s.readers| && s.readers[i].Reading? then
        var g := s.readers[i].gen;
        s.(readers := s.readers[i := Checked(g, ExitReports(s, g))])
      else s
    case ReaderReports(i) =>
      if i < |s.readers| && s.readers[i].Checked? then
        var Checked(g, reports) := s.readers[i];
        (if reports then Reported(s, g) else s).(readers := s.readers[i := Leaving(g, reports)])
      else s
    case ReaderCleans(i) =>
      if i < |s.readers| && s.readers[i].Leaving? then
        var Leaving(g, reports) := s.readers[i];
        AfterCleanup(s, g).(readers := s.readers[i := Left(g, reports)])
      else s
    case PingFails(g) => if s.conn == Some(g) then AfterDisconnect(s) else s
    case DataStale => if s.status == Connected then AfterDisconnect(s) else s
    case Disconnect => AfterDisconnect(s)
    case Close =>
      match s.conn
      case None => s.(shutdown := true)
      case Some(g) => s.(conn := None, closed := s.closed + {g}, byClose := s.byClose + {g}, shutdown := true)
  }

  function Run(steps: seq<Step>): Net {
    if steps == [] then FRESH else Next(Run(steps[..|steps| - 1]), steps[|steps| - 1])
  }

  // ---------------------------------------------------------------- what every run keeps

  /** How many readers are in a state. */
  ghost function Count(s: Net, r: Reader): nat {
    multiset(s.readers)[r]
  }

  /** How many read loops have decided to report generation g. */
  ghost function Passed(s: Net, g: nat): nat {
    Count(s, Checked(g, true)) + Count(s, Leaving(g, true)) + Count(s, Left(g, true))
  }

  /** Generation g was usable and is over. */
  predicate Over(s: Net, g: nat) {
    g in s.ready && s.conn != Some(g)
  }

  /** Generation g was usable, is over, and it was not Close that ended it. */
  predicate Dropped(s: Net, g: nat) {
    Over(s, g) && g !in s.byClose
  }

  ghost predicate SocketsInv(s: Net) {
    && (s.conn.Some? ==> s.conn.value < s.next && s.conn.value in s.ready && s.status == Connected)
    && (s.status == Connected && !s.shutdown ==> s.conn.Some?)
    && (s.shutdown ==> s.conn.None?)
    && (forall g: nat :: g in s.closed <==> g < s.next && s.conn != Some(g))
    && (forall g: nat :: g in s.ready ==> g < s.next)
    && (forall g: nat :: g in s.byClose ==> Over(s, g))
    && (forall g: nat :: g in s.byDrop ==> Over(s, g))
    && s.byClose !! s.byDrop
  }

  /** A reader belongs to a usable generation; one of the current generation has not cleaned up, and its check
      found something to report. */
  ghost predicate ReaderOk(s: Net, r: Reader) {
    && (r.Reading? || r.Checked? || r.Leaving? || r.Left? ==> r.gen in s.ready)
    && (r.Checked? || r.Leaving? ==> s.conn == Some(r.gen) ==> r.reports)
    && (r.Left? ==> s.conn != Some(r.gen))
  }

  /** A generation ended by nobody else was ended by a read loop that reports it; the reports made are those of
      Disconnects and of read loops past their report. */
  ghost predicate ReportsOk(s: Net, g: nat) {
    && (Over(s, g) && g !in s.byClose && g !in s.byDrop ==> Passed(s, g) > 0)
    && s.fired[g] == (if g in s.byDrop then 1 else 0) + Count(s, Leaving(g, true)) + Count(s, Left(g, true))
  }

  ghost predicate ReadersInv(s: Net) {
    forall r :: r in s.readers ==> ReaderOk(s, r)
  }

  ghost predicate ReportsInv(s: Net) {
    (forall g: nat :: ReportsOk(s, g)) && s.calls == |s.fired| + s.idle
  }

  ghost predicate Inv(s: Net) {
    SocketsInv(s) && ReadersInv(s) && ReportsInv(s)
  }

  lemma NoReadersOf(s: Net, g: nat)
    requires ReadersInv(s) && g !in s.ready
    ensures Passed(s, g) == 0
  {
    assert Checked(g, true) !in s.readers && Leaving(g, true) !in s.readers && Left(g, true) !in s.readers;
  }

  /** One reader changes state. */
  lemma ReaderMoves(s: Net, s': Net, i: nat)
    requires i < |s.readers| && |s'.readers| == |s.readers| && s'.readers == s.readers[i := s'.readers[i]]
    ensures forall x ::
              Count(s', x) == Count(s, x) - (if s.readers[i] == x then 1 else 0) + (if s'.readers[i] == x then 1 else 0)
    ensures s.readers[i] in s.readers && forall r :: r in s'.readers ==> r in s.readers || r == s'.readers[i]
  {
    assert multiset(s'.readers) == multiset(s.readers) - multiset{s.readers[i]} + multiset{s'.readers[i]};
    forall r | r in s'.readers ensures r in s.readers || r == s'.readers[i] {
      var j :| 0 <= j < |s'.readers| && s'.readers[j] == r;
      assert j != i ==> s.readers[j] == r;
    }
  }

  /** One reader joins. */
  lemma ReaderJoins(s: Net, s': Net)
    requires s'.readers == s.readers + [Spawned]
    ensures forall x :: Count(s', x) == Count(s, x) + (if x == Spawned then 1 else 0)
    ensures forall r :: r in s'.readers ==> r in s.readers || r == Spawned
  {
    assert multiset(s'.readers) == multiset(s.readers) + multiset{Spawned};
  }

  /** Reports are as they were wherever counts, ends and reports are. */
  lemma ReportsStay(s: Net, s': Net, g: nat)
    requires ReportsOk(s, g)
    requires Passed(s', g) >= Passed(s, g) && s'.fired[g] == s.fired[g]
    requires Count(s', Leaving(g, true)) == Count(s, Leaving(g, true))
    requires Count(s', Left(g, true)) == Count(s, Left(g, true))
    requires g in s'.byDrop <==> g in s.byDrop
    requires Over(s', g) && g !in s'.byClose ==> Over(s, g) && g !in s.byClose
    ensures ReportsOk(s', g)
  {
  }

  lemma DialKeepsInv(s: Net, hookOk: bool)
    requires Inv(s) && s.conn.None? && !s.shutdown
    ensures Inv(AfterDial(s, hookOk))
  {
    var s' := AfterDial(s, hookOk);
    NoReadersOf(s, s.next);
    if hookOk {
      ReaderJoins(s, s');
    }
    forall r | r in s'.readers ensures ReaderOk(s', r) {
      assert r == Spawned || ReaderOk(s, r);
    }
    forall g: nat ensures ReportsOk(s', g) {
      assert ReportsOk(s, g);
      ReportsStay(s, s', g);
    }
  }

  lemma DialFailureKeepsInv(s: Net)
    requires Inv(s)
    ensures Inv(Next(s, DialFails))
  {
    var s' := Next(s, DialFails);
    forall r | r in s'.readers ensures ReaderOk(s', r) {
      assert ReaderOk(s, r);
    }
    forall g: nat ensures ReportsOk(s', g) {
      assert ReportsOk(s, g);
      ReportsStay(s, s', g);
    }
  }

  lemma DropKeepsInv(s: Net)
    requires Inv(s)
    ensures Inv(AfterDisconnect(s))
  {
    var s' := AfterDisconnect(s);
    forall r | r in s'.readers ensures ReaderOk(s', r) {
      assert ReaderOk(s, r);
    }
    forall g: nat ensures ReportsOk(s', g) {
      assert ReportsOk(s, g);
      if s.conn != Some(g) {
        ReportsStay(s, s', g);
      }
    }
  }

  lemma CloseKeepsInv(s: Net)
    requires Inv(s)
    ensures Inv(Next(s, Close))
  {
    var s' := Next(s, Close);
    forall r | r in s'.readers ensures ReaderOk(s', r) {
      assert ReaderOk(s, r);
    }
    forall g: nat ensures ReportsOk(s', g) {
      assert ReportsOk(s, g);
      ReportsStay(s, s', g);
    }
  }

  lemma StartKeepsInv(s: Net, i: nat)
    requires Inv(s) && i < |s.readers| && s.readers[i] == Spawned
    ensures Inv(Next(s, ReaderStarts(i)))
  {
    var s' := Next(s, ReaderStarts(i));
    ReaderMoves(s, s', i);
    forall r | r in s'.readers ensures ReaderOk(s', r) {
      assert r == s'.readers[i] || ReaderOk(s, r);
    }
    forall g: nat ensures ReportsOk(s', g) {
      assert ReportsOk(s, g);
      ReportsStay(s, s', g);
    }
  }

  lemma CheckKeepsInv(s: Net, i: nat)
    requires Inv(s) && i < |s.readers| && s.readers[i].Reading?
    ensures Inv(Next(s, ReaderChecks(i)))
  {
    var s' := Next(s, ReaderChecks(i));
    ReaderMoves(s, s', i);
    assert ReaderOk(s, s.readers[i]);
    forall r | r in s'.readers ensures ReaderOk(s', r) {
      assert r == s'.readers[i] || ReaderOk(s, r);
    }
    forall g: nat ensures ReportsOk(s', g) {
      assert ReportsOk(s, g);
      ReportsStay(s, s', g);
    }
  }

  lemma ReportKeepsInv(s: Net, i: nat)
    requires Inv(s) && i < |s.readers| && s.readers[i].Checked?
    ensures Inv(Next(s, ReaderReports(i)))
  {
    var s' := Next(s, ReaderReports(i));
    ReaderMoves(s, s', i);
    assert ReaderOk(s, s.readers[i]);
    forall r | r in s'.readers ensures ReaderOk(s', r) {
      assert r == s'.readers[i] || ReaderOk(s, r);
    }
    forall g: nat ensures ReportsOk(s', g) {
      assert ReportsOk(s, g);
      if s.readers[i] != Checked(g, true) {
        ReportsStay(s, s', g);
      }
    }
  }

  lemma CleanupKeepsInv(s: Net, i: nat)
    requires Inv(s) && i < |s.readers| && s.readers[i].Leaving?
    ensures Inv(Next(s, ReaderCleans(i)))
  {
    var s' := Next(s, ReaderCleans(i));
    ReaderMoves(s, s', i);
    assert ReaderOk(s, s.readers[i]);
    forall r | r in s'.readers ensures ReaderOk(s', r) {
      assert r == s'.readers[i] || ReaderOk(s, r);
    }
    forall g: nat ensures ReportsOk(s', g) {
      assert ReportsOk(s, g);
      if s.readers[i] != Leaving(g, true) {
        ReportsStay(s, s', g);
      }
    }
  }

  lemma NextKeepsInv(s: Net, step: Step)
    requires Inv(s)
    ensures Inv(Next(s, step))
  {
    match step
    case Dial(hookOk) =>
      if !s.shutdown && s.status != Connected {
        DialKeepsInv(s, hookOk);
      }
    case ReaderStarts(i) =>
      if i < |s.readers| && s.readers[i] == Spawned {
        StartKeepsInv(s, i);
      }
    case ReaderChecks(i) =>
      if i < |s.readers| && s.readers[i].Reading? {
        CheckKeepsInv(s, i);
      }
    case ReaderReports(i) =>
      if i < |s.readers| && s.readers[i].Checked? {
        ReportKeepsInv(s, i);
      }
    case ReaderCleans(i) =>
      if i < |s.readers| && s.readers[i].Leaving? {
        CleanupKeepsInv(s, i);
      }
    case DialFails => DialFailureKeepsInv(s);
    case Close => CloseKeepsInv(s);
    case _ => DropKeepsInv(s);
  }

  lemma {:induction false} RunKeepsInv(steps: seq<Step>)
    ensures Inv(Run(steps))
  {
    if steps != [] {
      RunKeepsInv(steps[..|steps| - 1]);
      NextKeepsInv(Run(steps[..|steps| - 1]), steps[|steps| - 1]);
    }
  }

  // ---------------------------------------------------------------- exactly one report

  /** A read loop of g has decided to report and has not cleaned up yet. */
  predicate InExit(s: Net, g: nat) {
    Checked(g, true) in s.readers || Leaving(g, true) in s.readers
  }

  /** The step takes the current generation g down, or decides to report it, while a read loop that has
      decided to report it is still on its way out. */
  predicate Disturbs(s: Net, step: Step, g: nat) {
    && s.conn == Some(g) && InExit(s, g)
    && (step == PingFails(g) || step == DataStale || step == Disconnect || step == Close
        || (step.ReaderChecks? && step.i < |s.readers| && s.readers[step.i] == Reading(g)))
  }

  predicate Disturbed(steps: seq<Step>, g: nat) {
    steps != [] &&
      var init := steps[..|steps| - 1];
      Disturbed(init, g) || Disturbs(Run(init), steps[|steps| - 1], g)
  }

  /** What a disturbance comes to: two decisions to report g, or one besides an end by somebody else. */
  ghost predicate Crowded(s: Net, g: nat) {
    Passed(s, g) > 1 || (Passed(s, g) > 0 && (g in s.byDrop || g in s.byClose))
  }

  lemma CurrentIsInExit(s: Net, g: nat)
    requires Inv(s) && s.conn == Some(g)
    ensures InExit(s, g) <==> Passed(s, g) > 0
    ensures g !in s.byDrop && g !in s.byClose
  {
    assert Left(g, true) !in s.readers;
  }

  lemma NextCrowds(s: Net, step: Step, g: nat)
    requires Inv(s)
    ensures Crowded(Next(s, step), g) <==> Crowded(s, g) || Disturbs(s, step, g)
  {
    match step
    case DialFails =>
    case Dial(hookOk) => DialCrowdsNothing(s, hookOk, g);
    case ReaderStarts(i) => StartCrowdsNothing(s, i, g);
    case ReaderChecks(i) => CheckCrowds(s, i, g);
    case ReaderReports(i) => ReportCrowdsNothing(s, i, g);
    case ReaderCleans(i) => CleanupCrowdsNothing(s, i, g);
    case _ => TakedownCrowds(s, step, g);
  }

  lemma StartCrowdsNothing(s: Net, i: nat, g: nat)
    ensures Crowded(Next(s, ReaderStarts(i)), g) == Crowded(s, g)
  {
    if i < |s.readers| && s.readers[i] == Spawned {
      QuietMove(s, Next(s, ReaderStarts(i)), i, g);
    }
  }

  lemma ReportCrowdsNothing(s: Net, i: nat, g: nat)
    ensures Crowded(Next(s, ReaderReports(i)), g) == Crowded(s, g)
  {
    if i < |s.readers| && s.readers[i].Checked? {
      QuietMove(s, Next(s, ReaderReports(i)), i, g);
    }
  }

  lemma CleanupCrowdsNothing(s: Net, i: nat, g: nat)
    ensures Crowded(Next(s, ReaderCleans(i)), g) == Crowded(s, g)
  {
    if i < |s.readers| && s.readers[i].Leaving? {
      QuietMove(s, Next(s, ReaderCleans(i)), i, g);
    }
  }

  lemma DialCrowdsNothing(s: Net, hookOk: bool, g: nat)
    ensures Crowded(Next(s, Dial(hookOk)), g) == Crowded(s, g)
  {
    var s' := Next(s, Dial(hookOk));
    if s'.readers != s.readers {
      ReaderJoins(s, s');
    }
  }

  lemma TakedownCrowds(s: Net, step: Step, g: nat)
    requires Inv(s) && (step.PingFails? || step == DataStale || step == Disconnect || step == Close)
    ensures Crowded(Next(s, step), g) <==> Crowded(s, g) || Disturbs(s, step, g)
  {
    var s' := Next(s, step);
    assert Passed(s', g) == Passed(s, g);
    if s.conn == Some(g) {
      CurrentIsInExit(s, g);
    }
  }

  predicate HasPassed(r: Reader, g: nat) {
    r == Checked(g, true) || r == Leaving(g, true) || r == Left(g, true)
  }

  lemma QuietMove(s: Net, s': Net, i: nat, g: nat)
    requires i < |s.readers| && |s'.readers| == |s.readers| && s'.readers == s.readers[i := s'.readers[i]]
    requires HasPassed(s'.readers[i], g) == HasPassed(s.readers[i], g)
    ensures Passed(s', g) == Passed(s, g)
  {
    ReaderMoves(s, s', i);
  }

  lemma CheckCrowds(s: Net, i: nat, g: nat)
    requires Inv(s)
    ensures Crowded(Next(s, ReaderChecks(i)), g) <==> Crowded(s, g) || Disturbs(s, ReaderChecks(i), g)
  {
    var s' := Next(s, ReaderChecks(i));
    if i < |s.readers| && s.readers[i].Reading? {
      ReaderMoves(s, s', i);
      if s.readers[i].gen == g && s.conn == Some(g) {
        CurrentIsInExit(s, g);
        assert Passed(s', g) == Passed(s, g) + 1;
      } else {
        assert Passed(s', g) == Passed(s, g);
      }
    }
  }

  lemma {:induction false} DisturbedIsCrowded(steps: seq<Step>, g: nat)
    ensures Disturbed(steps, g) <==> Crowded(Run(steps), g)
  {
    if steps != [] {
      var init := steps[..|steps| - 1];
      DisturbedIsCrowded(init, g);
      RunKeepsInv(init);
      NextCrowds(Run(init), steps[|steps| - 1], g);
    }
  }

  /** How often OnDisconnect should have reported g: never if Close ended it or it was never usable, once as soon
      as it is over or a read loop has noticed that it is. */
  function Due(s: Net, g: nat): nat {
    if g !in s.ready || g in s.byClose then 0
    else if s.conn != Some(g) || InExit(s, g) then 1 else 0
  }

  /** The exact law, over every schedule of dials, exits, pong timeouts, watchdog hits, Disconnects and Closes,
      each exit taking three separate actions: the reports of a generation, those decided and still to be made
      included, are what they should be if and only if nobody took the generation down, and no second read loop
      decided to report it, while a read loop that had decided to was on its way out. */
  lemma ReportedOnceIff(steps: seq<Step>, g: nat)
    ensures var s := Run(steps); s.fired[g] + Count(s, Checked(g, true)) == Due(s, g) <==> !Disturbed(steps, g)
  {
    RunKeepsInv(steps);
    DisturbedIsCrowded(steps, g);
    DueIff(Run(steps), g);
  }

  lemma DueIff(s: Net, g: nat)
    requires Inv(s)
    ensures s.fired[g] + Count(s, Checked(g, true)) == Due(s, g) <==> !Crowded(s, g)
    ensures s.fired[g] + Count(s, Checked(g, true)) >= Due(s, g)
  {
    assert ReportsOk(s, g);
    if g !in s.ready {
      NoReadersOf(s, g);
    } else if s.conn == Some(g) {
      CurrentIsInExit(s, g);
    }
  }

  /** Every exit that has begun has finished. */
  predicate Settled(s: Net) {
    forall r :: r in s.readers ==> !r.Checked? && !r.Leaving?
  }

  /** So, with no exit under way, a generation that became usable has had exactly one OnDisconnect if it is over
      and none if it is current or Close ended it, if and only if it was not disturbed; a disturbed one has had
      more. */
  lemma OneDisconnectIff(steps: seq<Step>, g: nat)
    requires Settled(Run(steps))
    ensures var s := Run(steps);
            && (s.fired[g] == (if Dropped(s, g) then 1 else 0) <==> !Disturbed(steps, g))
            && s.fired[g] >= if Dropped(s, g) then 1 else 0
  {
    var s := Run(steps);
    RunKeepsInv(steps);
    DisturbedIsCrowded(steps, g);
    DueIff(s, g);
    assert Checked(g, true) !in s.readers && Leaving(g, true) !in s.readers;
  }

  /** A reader that has begun its exit goes on with it. */
  predicate GoesOn(s: Net, step: Step) {
    forall i :: 0 <= i < |s.readers| ==>
      && (s.readers[i].Checked? ==> step == ReaderReports(i))
      && (s.readers[i].Leaving? ==> step == ReaderCleans(i))
  }

  /** No other action comes between the three actions of an exit. */
  predicate ExitsUnbroken(steps: seq<Step>) {
    steps != [] ==>
      var init := steps[..|steps| - 1];
      ExitsUnbroken(init) && GoesOn(Run(init), steps[|steps| - 1])
  }

  /** With each exit taken as one action nothing is ever disturbed, whatever the schedule. */
  lemma {:induction false} UnbrokenIsUndisturbed(steps: seq<Step>, g: nat)
    requires ExitsUnbroken(steps)
    ensures !Disturbed(steps, g)
  {
    if steps != [] {
      UnbrokenIsUndisturbed(steps[..|steps| - 1], g);
    }
  }

  /** Whatever the schedule, then, as long as exits are not broken into: exactly one OnDisconnect per generation. */
  lemma OneDisconnectPerGeneration(steps: seq<Step>, g: nat)
    requires ExitsUnbroken(steps) && Settled(Run(steps))
    ensures Run(steps).fired[g] == if Dropped(Run(steps), g) then 1 else 0
  {
    UnbrokenIsUndisturbed(steps, g);
    OneDisconnectIff(steps, g);
  }

  // ---------------------------------------------------------------- counting the hook

  /** The generations that were usable and are over without Close. */
  function DroppedGens(s: Net): set<nat> {
    set g | g in s.ready && s.conn != Some(g) && g !in s.byClose
  }

  predicate IsIdle(s: Net, step: Step) {
    s.conn.None? && (step == Disconnect || (step == DataStale && s.status == Connected))
  }

  function IdleSteps(steps: seq<Step>): nat {
    if steps == [] then 0
    else IdleSteps(steps[..|steps| - 1]) + if IsIdle(Run(steps[..|steps| - 1]), steps[|steps| - 1]) then 1 else 0
  }

  lemma {:induction false} IdleIsCounted(steps: seq<Step>)
    ensures Run(steps).idle == IdleSteps(steps)
  {
    if steps != [] {
      IdleIsCounted(steps[..|steps| - 1]);
    }
  }

  /** No generation is disturbed. */
  ghost predicate Calm(steps: seq<Step>) {
    forall g: nat :: !Disturbed(steps, g)
  }

  lemma LargerMultiset(a: multiset<nat>, b: multiset<nat>)
    requires forall x: nat :: b[x] <= a[x]
    ensures |b| <= |a| && (|a| == |b| <==> forall x: nat :: a[x] == b[x])
  {
    assert a == b + (a - b);
    if forall x: nat :: a[x] == b[x] {
      assert a == b;
    }
  }

  /** Counting the hook itself, with no exit under way: it has run at least once for each dropped generation and
      once for each Disconnect that found no connection, and no more often if and only if no generation was
      disturbed. */
  lemma HookCallsAddUpIff(steps: seq<Step>)
    requires Settled(Run(steps))
    ensures var s := Run(steps);
            && s.calls >= |DroppedGens(s)| + s.idle
            && (s.calls == |DroppedGens(s)| + s.idle <==> Calm(steps))
  {
    RunKeepsInv(steps);
    var s := Run(steps);
    var due := multiset(DroppedGens(s));
    forall g: nat
      ensures due[g] == (if Dropped(s, g) then 1 else 0) && due[g] <= s.fired[g]
      ensures s.fired[g] == due[g] <==> !Disturbed(steps, g)
    {
      OneDisconnectIff(steps, g);
    }
    LargerMultiset(s.fired, due);
    assert |due| == |DroppedGens(s)| && s.calls == |s.fired| + s.idle;
    if !Calm(steps) {
      var d: nat :| Disturbed(steps, d);
      assert s.fired[d] != due[d];
    }
  }

  /** So "one call per drop" holds for a run if and only if no generation was disturbed and nobody disconnected
      while there was nothing to disconnect. */
  lemma OneCallPerDropIff(steps: seq<Step>)
    requires Settled(Run(steps))
    ensures Run(steps).calls == |DroppedGens(Run(steps))| <==>
              IdleSteps(steps) == 0 && Calm(steps)
  {
    HookCallsAddUpIff(steps);
    IdleIsCounted(steps);
  }

  // ---------------------------------------------------------------- sockets

  lemma Then(steps: seq<Step>, step: Step)
    ensures Run(steps + [step]) == Next(Run(steps), step)
  {
    assert (steps + [step])[..|steps|] == steps;
  }

  /** No socket leaks and none is closed under its user: at every moment the sockets dialled and not yet
      closed are exactly the current connection. */
  lemma OpenSocketsAreCurrent(steps: seq<Step>, g: nat)
    ensures var s := Run(steps); g < s.next && g !in s.closed <==> s.conn == Some(g)
  {
    RunKeepsInv(steps);
  }

  /** A read loop on its way out closes nothing but its own socket and leaves a newer connection in place; its
      check and its report touch no socket at all. */
  lemma LateReaderIsHarmless(steps: seq<Step>, i: nat, exit: Step)
    requires exit == ReaderChecks(i) || exit == ReaderReports(i) || exit == ReaderCleans(i)
    requires i < |Run(steps).readers| && Run(steps).readers[i] != Spawned && Run(steps).readers[i] != Gone
    ensures var s, s' := Run(steps), Run(steps + [exit]);
            var g := s.readers[i].gen;
            if exit == ReaderCleans(i) && s.readers[i].Leaving? && s.conn == Some(g) then
              s'.conn == None && s'.closed == s.closed + {g} && g !in s.closed
            else
              s'.conn == s.conn && s'.status == s.status && s'.closed == s.closed
  {
    RunKeepsInv(steps);
    Then(steps, exit);
  }

  /** A late pong timeout, of a connection that has been replaced or dropped, does nothing; one of the current
      connection drops it, closes its socket and reports it. */
  lemma PingActsOnItsOwn(steps: seq<Step>, g: nat)
    ensures var s, s' := Run(steps), Run(steps + [PingFails(g)]);
            if s.conn != Some(g) then s' == s
            else s'.conn == None && s'.status == Disconnected && s'.closed == s.closed + {g} &&
                 s'.fired == s.fired + multiset{g} && s'.readers == s.readers
  {
    Then(steps, PingFails(g));
  }

  /** The watchdog and a caller's Disconnect drop whatever connection is up. */
  lemma DisconnectActsOnCurrent(steps: seq<Step>, step: Step, g: nat)
    requires (step == Disconnect || step == DataStale) && Run(steps).conn == Some(g)
    ensures var s, s' := Run(steps), Run(steps + [step]);
            && s'.conn == None && s'.status == Disconnected && s'.closed == s.closed + {g}
            && s'.fired == s.fired + multiset{g}
  {
    RunKeepsInv(steps);
    Then(steps, step);
  }

  /** A dial is made whenever nothing is up, and its connection is usable exactly when OnConnect succeeds. */
  lemma DialResult(steps: seq<Step>, hookOk: bool)
    requires Run(steps).status != Connected && !Run(steps).shutdown
    ensures var s, s' := Run(steps), Run(steps + [Dial(hookOk)]);
            && s'.next == s.next + 1 && s'.ready == s.ready + (if hookOk then {s.next} else {})
            && s'.conn == (if hookOk then Some(s.next) else None)
            && s'.status == (if hookOk then Connected else Disconnected)
            && s'.closed == s.closed + (if hookOk then {} else {s.next})
            && s'.readers == s.readers + (if hookOk then [Spawned] else [])
  {
    Then(steps, Dial(hookOk));
  }

  /** A failed dial leaves everything as it was, and the status Disconnected. */
  lemma DialFailureResult(steps: seq<Step>)
    requires Run(steps).status != Connected && !Run(steps).shutdown
    ensures Run(steps + [DialFails]) == Run(steps).(status := Disconnected)
  {
    Then(steps, DialFails);
  }

  lemma CloseStaysClosed(s: Net, step: Step)
    requires Inv(s) && s.shutdown
    ensures Next(s, step).shutdown && Next(s, step).next == s.next && Next(s, step).conn == None
  {
  }

  /** Close is final: whatever still runs afterwards, nothing is dialled and no connection comes up again. */
  lemma {:induction false} CloseIsFinal(steps: seq<Step>, n: nat)
    requires n < |steps| && steps[n] == Close
    ensures Run(steps).conn == None && Run(steps).next == Run(steps[..n]).next && Run(steps).shutdown
  {
    var init := steps[..|steps| - 1];
    RunKeepsInv(init);
    if n < |init| {
      CloseIsFinal(init, n);
      assert init[..n] == steps[..n];
      CloseStaysClosed(Run(init), steps[|steps| - 1]);
    }
  }

  /** A read loop reads the connection that is up when it starts, and none but that; one that finds none is done. */
  lemma ReaderCaptures(steps: seq<Step>, i: nat)
    requires i < |Run(steps).readers| && Run(steps).readers[i] == Spawned
    ensures var s, s' := Run(steps), Run(steps + [ReaderStarts(i)]);
            s' == s.(readers := s.readers[i := if s.conn.Some? then Reading(s.conn.value) else Gone])
  {
    Then(steps, ReaderStarts(i));
  }

  /** The connection a read loop belongs to, once it has started. */
  function GenOf(r: Reader): Option<nat> {
    match r
    case Spawned => None
    case Gone => None
    case Reading(g) => Some(g)
    case Checked(g, _) => Some(g)
    case Leaving(g, _) => Some(g)
    case Left(g, _) => Some(g)
  }

  lemma ReaderKeepsGen(s: Net, step: Step, i: nat)
    requires i < |s.readers| && s.readers[i] != Spawned
    ensures i < |Next(s, step).readers| && Next(s, step).readers[i] != Spawned
    ensures GenOf(Next(s, step).readers[i]) == GenOf(s.readers[i])
  {
  }

  /** A dial never overwrites a live connection: reconnLoop only dials when nothing is open. */
  lemma DialFindsNothingOpen(steps: seq<Step>, hookOk: bool, g: nat)
    requires Run(steps + [Dial(hookOk)]).next > Run(steps).next
    ensures Run(steps).conn == None && !Run(steps).shutdown && (g < Run(steps).next ==> g in Run(steps).closed)
  {
    RunKeepsInv(steps);
    Then(steps, Dial(hookOk));
  }

  // ---------------------------------------------------------------- schedules that go wrong

  lemma Then2(steps: seq<Step>, a: Step, b: Step)
    ensures Run(steps + [a, b]) == Next(Next(Run(steps), a), b)
  {
    assert steps + [a, b] == (steps + [a]) + [b];
    Then(steps, a);
    Then(steps + [a], b);
  }

  lemma Then3(steps: seq<Step>, a: Step, b: Step, c: Step)
    ensures Run(steps + [a, b, c]) == Next(Next(Next(Run(steps), a), b), c)
  {
    assert steps + [a, b, c] == (steps + [a, b]) + [c];
    Then2(steps, a, b);
    Then(steps + [a, b], c);
  }

  lemma First3(a: Step, b: Step, c: Step)
    ensures Run([a, b, c]) == Next(Next(Next(FRESH, a), b), c)
  {
    Then3([], a, b, c);
    assert [] + [a, b, c] == [a, b, c];
  }

  /** A read loop has noticed the end of its connection. */
  const NOTICED := [Dial(true), ReaderStarts(0), ReaderChecks(0)]

  /** Generation 0 is current and a read loop of it has decided to report. */
  predicate Noticed(s: Net) {
    && s.conn == Some(0) && s.readers == [Checked(0, true)] && s.fired == multiset{} && s.byClose == {}
  }

  lemma NoticedState()
    ensures Noticed(Run(NOTICED))
  {
    First3(Dial(true), ReaderStarts(0), ReaderChecks(0));
  }

  lemma PingThenReport(s: Net)
    requires Noticed(s)
    ensures Next(Next(Next(s, PingFails(0)), ReaderReports(0)), ReaderCleans(0)).fired[0] == 2
    ensures Next(Next(Next(s, ReaderReports(0)), PingFails(0)), ReaderCleans(0)).fired[0] == 2
  {
  }

  /** A pong timeout between the check and the report: two reports. */
  lemma PingBeforeReport()
    ensures Run(NOTICED + [PingFails(0), ReaderReports(0), ReaderCleans(0)]).fired[0] == 2
  {
    NoticedState();
    Then3(NOTICED, PingFails(0), ReaderReports(0), ReaderCleans(0));
    PingThenReport(Run(NOTICED));
  }

  /** A pong timeout between the report and the cleanup, while the hook runs: two reports. */
  lemma PingBeforeCleanup()
    ensures Run(NOTICED + [ReaderReports(0), PingFails(0), ReaderCleans(0)]).fired[0] == 2
  {
    NoticedState();
    Then3(NOTICED, ReaderReports(0), PingFails(0), ReaderCleans(0));
    PingThenReport(Run(NOTICED));
  }

  lemma CloseThenReport(s: Net)
    requires Noticed(s)
    ensures var s' := Next(Next(Next(s, Close), ReaderReports(0)), ReaderCleans(0));
            0 in s'.byClose && s'.fired[0] == 1
  {
  }

  /** A Close between the check and the report: a deliberate shutdown is reported. */
  lemma CloseBeforeReport()
    ensures var s := Run(NOTICED + [Close, ReaderReports(0), ReaderCleans(0)]); 0 in s.byClose && s.fired[0] == 1
  {
    NoticedState();
    Then3(NOTICED, Close, ReaderReports(0), ReaderCleans(0));
    CloseThenReport(Run(NOTICED));
  }

  const REDIALLED := [Dial(true), Disconnect, Dial(true)]

  lemma RedialledState()
    ensures var s := Run(REDIALLED);
            && s.conn == Some(1) && s.status == Connected && !s.shutdown
            && s.readers == [Spawned, Spawned] && s.fired == multiset{0}
  {
    First3(Dial(true), Disconnect, Dial(true));
  }

  lemma BothNotice(s: Net)
    requires s.conn == Some(1) && s.status == Connected && !s.shutdown && s.readers == [Spawned, Spawned]
    ensures var s' := Next(Next(Next(Next(s, ReaderStarts(0)), ReaderStarts(1)), ReaderChecks(0)), ReaderChecks(1));
            s'.readers == [Checked(1, true), Checked(1, true)] && s'.fired == s.fired
  {
  }

  lemma BothReport(s: Net)
    requires s.readers == [Checked(1, true), Checked(1, true)] && s.fired == multiset{0}
    ensures Next(Next(s, ReaderReports(0)), ReaderReports(1)).fired[1] == 2
  {
  }

  /** Two read loops on one connection: one spawned for a connection that was dropped before it ran reads the
      next one, and both report its end. */
  lemma TwoReadersReport()
    ensures var both := REDIALLED + [ReaderStarts(0), ReaderStarts(1)] + [ReaderChecks(0), ReaderChecks(1)];
            Run(both + [ReaderReports(0), ReaderReports(1)]).fired[1] == 2
  {
    var started := REDIALLED + [ReaderStarts(0), ReaderStarts(1)];
    var both := started + [ReaderChecks(0), ReaderChecks(1)];
    RedialledState();
    Then2(REDIALLED, ReaderStarts(0), ReaderStarts(1));
    Then2(started, ReaderChecks(0), ReaderChecks(1));
    BothNotice(Run(REDIALLED));
    Then2(both, ReaderReports(0), ReaderReports(1));
    BothReport(Run(both));
  }

  /** Two Disconnects in a row: the second call of the hook is about no connection. */
  lemma DisconnectTwice()
    ensures var s := Run([Dial(true), Disconnect, Disconnect]); s.calls == 2 && DroppedGens(s) == {0}
  {
    First3(Dial(true), Disconnect, Disconnect);
  }

  /** A watchdog hit after Close, which clears the connection but not the status. */
  lemma StaleAfterClose()
    ensures var s := Run([Dial(true), Close, DataStale]); s.calls == 1 && s.byClose == s.ready == {0}
  {
    First3(Dial(true), Close, DataStale);
  }

  // ---------------------------------------------------------------- the code

  class BaseWebSocket {
    var conn: Option<nat>
    var status: Status
    ghost var next: nat
    ghost var closed: set<nat>
    ghost var ready: set<nat>
    ghost var byClose: set<nat>
    ghost var byDrop: set<nat>
    ghost var fired: multiset<nat>
    ghost var idle: nat
    ghost var calls: nat
    var readers: seq<Reader>
    var shutdown: bool

    ghost function View(): Net
      reads this
    {
      Net(conn, status, next, closed, ready, byClose, byDrop, fired, idle, calls, readers, shutdown)
    }

    constructor ()
      ensures View() == FRESH
    {
      conn, status, readers, shutdown := None, Disconnected, [], false;
      next, closed, ready, byClose, byDrop, fired, idle, calls := 0, {}, {}, {}, {}, multiset{}, 0, 0;
    }

    /** `dialled` is the connection the dial produced, if any. */
    method DialSync(dialled: Option<nat>, hookOk: bool) returns (ok: bool)
      requires status != Connected && !shutdown
      requires dialled.Some? ==> dialled.value == next
      modifies this
      ensures ok == (dialled.Some? && hookOk)
      ensures View() == Next(old(View()), if dialled.None? then DialFails else Dial(hookOk))
    {
      status := Connecting;
      if dialled.None? {
        status := Disconnected;
        return false;
      }
      Install(dialled.value);
      ok := hookOk;
      if ok {
        ready, readers := ready + {dialled.value}, readers + [Spawned];
      } else {
        CloseConn();
        status := Disconnected;
      }
    }

    method Install(dialled: nat)
      modifies this`conn, this`status, this`next
      ensures conn == Some(dialled) && status == Connected && next == old(next) + 1
    {
      conn := Some(dialled);
      status := Connected;
      next := next + 1;
    }

    method CloseConn()
      modifies this`conn, this`closed
      ensures conn == None
      ensures closed == old(closed) + if old(conn).Some? then {old(conn).value} else {}
    {
      if conn.Some? {
        closed := closed + {conn.value};
        conn := None;
      }
    }

    /** safeCallOnDisconnect; `gen` is what the call is about, if anything. */
    ghost method CallOnDisconnect(gen: Option<nat>)
      modifies this`fired, this`idle, this`calls
      ensures calls == old(calls) + 1
      ensures gen.Some? ==> fired == old(fired) + multiset{gen.value} && idle == old(idle)
      ensures gen.None? ==> fired == old(fired) && idle == old(idle) + 1
    {
      calls := calls + 1;
      if gen.Some? {
        fired := fired + multiset{gen.value};
      } else {
        idle := idle + 1;
      }
    }

    method DisconnectNow()
      modifies this
      ensures View() == Next(old(View()), Disconnect)
    {
      var current := conn;
      conn := None;
      status := Disconnected;
      if current.Some? {
        closed, byDrop := closed + {current.value}, byDrop + {current.value};
      }
      CallOnDisconnect(current);
    }

    method StartReader(i: nat)
      requires i < |readers| && readers[i] == Spawned
      modifies this`readers
      ensures View() == Next(old(View()), ReaderStarts(i))
    {
      readers := readers[i := if conn.Some? then Reading(conn.value) else Gone];
    }

    /** The deferred report of readLoop, first half: what is current? */
    method CheckExit(i: nat)
      requires i < |readers| && readers[i].Reading?
      modifies this`readers
      ensures View() == Next(old(View()), ReaderChecks(i))
    {
      var mine := readers[i].gen;
      var connIsCurrent := conn == Some(mine);
      var alreadyDisconnected := status == Disconnected;
      readers := readers[i := Checked(mine, !shutdown && connIsCurrent && !alreadyDisconnected)];
    }

    /** Second half: the hook. */
    method ReportExit(i: nat)
      requires i < |readers| && readers[i].Checked?
      modifies this
      ensures View() == Next(old(View()), ReaderReports(i))
    {
      var mine, reports := readers[i].gen, readers[i].reports;
      if reports {
        CallOnDisconnect(Some(mine));
      }
      readers := readers[i := Leaving(mine, reports)];
    }

    method CleanUpExit(i: nat)
      requires i < |readers| && readers[i].Leaving?
      modifies this
      ensures View() == Next(old(View()), ReaderCleans(i))
    {
      var mine, reports := readers[i].gen, readers[i].reports;
      Cleanup(mine);
      readers := readers[i := Left(mine, reports)];
    }

    method Cleanup(mine: nat)
      modifies this`conn, this`status, this`closed
      ensures View() == AfterCleanup(old(View()), mine)
    {
      if conn == Some(mine) {
        closed := closed + {mine};
        conn := None;
        if status != Disconnected {
          status := Disconnected;
        }
      }
    }

    method OnPingFailure(g: nat)
      modifies this
      ensures View() == Next(old(View()), PingFails(g))
    {
      if conn == Some(g) {
        DisconnectNow();
      }
    }

    method OnDataStale()
      modifies this
      ensures View() == Next(old(View()), DataStale)
    {
      if status == Connected {
        DisconnectNow();
      }
    }

    method Shutdown()
      modifies this
      ensures View() == Next(old(View()), Close)
    {
      if conn.Some? {
        closed, byClose := closed + {conn.value}, byClose + {conn.value};
        conn := None;
      }
      shutdown := true;
    }
  }
}
