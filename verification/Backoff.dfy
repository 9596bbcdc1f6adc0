/**
  The timing of the reconnect loop (reconnLoop, nextDelayAfterDrop and nextBackoff in
  pkg/websocket/websocket.go): doubling backoff, flap detection, and what they say about
  how often the venue is dialled.  Times and delays are integers in one unit (nanoseconds
  in the source); the schedule of drops, polls and dial outcomes is arbitrary.
*/
module Backoff {
  import opened Common

  /** Connect has already replaced non-positive intervals by their defaults. */
  datatype Config = Config(base: int, max: int, minStable: int) {
    predicate Valid() {
      0 < base < TWO_63 / 2 && 0 < max < TWO_63 / 2
    }

    function MinGap(): int { Min(base, max) }
  }

  function NextBackoff(d: int, max: int): int {
    var doubled := Wrap64(d * 2);
    if doubled > max then max else doubled
  }

  function NextDelayAfterDrop(current: int, base: int, max: int, minStable: int, lived: int): (int, bool) {
    if minStable > 0 && lived < minStable then (NextBackoff(current, max), true) else (base, false)
  }

  /** Doubling then capping is what nextBackoff computes exactly while the delay is below 2^62. */
  lemma BackoffDoublesIff(d: Int64, max: Int64)
    requires 0 < d && 0 < max
    ensures NextBackoff(d, max) == (if 2 * d < max then 2 * d else max) <==> d < TWO_63 / 2
  {
  }

  function Pow2(k: nat): int { if k == 0 then 1 else 2 * Pow2(k - 1) }

  /** The delay after k failures in a row. */
  function DelayAfter(cfg: Config, k: nat): int {
    if k == 0 then cfg.base
    else if cfg.base * Pow2(k) < cfg.max then cfg.base * Pow2(k) else cfg.max
  }

  /** The waits that n failures in a row cost before the next dial. */
  function TotalDelay(cfg: Config, n: nat): int {
    if n == 0 then 0 else TotalDelay(cfg, n - 1) + DelayAfter(cfg, n)
  }

  lemma {:induction false} PowGrows(cfg: Config, k: nat)
    requires cfg.Valid()
    ensures cfg.base * Pow2(k) >= cfg.base
  {
    if k > 0 {
      PowGrows(cfg, k - 1);
      assert cfg.base * Pow2(k) == 2 * (cfg.base * Pow2(k - 1));
    }
  }

  lemma DelayStep(cfg: Config, k: nat)
    requires cfg.Valid()
    ensures NextBackoff(DelayAfter(cfg, k), cfg.max) == DelayAfter(cfg, k + 1)
    ensures cfg.MinGap() <= DelayAfter(cfg, k)
  {
    PowGrows(cfg, k);
    assert cfg.base * Pow2(k + 1) == 2 * (cfg.base * Pow2(k));
  }

  // ---------------------------------------------------------------- the loop as a timed machine

  /** Top: at the head of the loop.  Waiting: in the select, the timer fires at `until`. */
  datatype Pc = Top | Waiting(until: int) | Stopped

  datatype Loop = Loop(
    now: int,
    delay: int,
    connected: bool,
    established: Option<int>,     // connEstablishedAt
    pc: Pc,
    failures: nat,                // failed dials and judged flaps since the last stable connection
    firstFailure: int,            // when the first of them was detected
    paid: bool,                   // the current delay has been waited out
    dials: seq<int>,              // the start of every dial, Connect's included
    ends: seq<int>,               // the end of every dial
    failed: seq<nat>)             // for every dial 0 if it succeeded, else the failures in a row with it

  datatype Step =
    | Arm                                                 // loop head: pick the wait, start the timer
    | Advance(dt: nat)                                    // time passes
    | Drop                                                // the connection is lost
    | Fire(shouldConnect: bool, dialOk: bool, took: nat)  // the timer fired: decide, perhaps dial
    | Cancel                                              // Close

  /** Connect dialled at t and succeeded after `took`. */
  function Start(cfg: Config, t: int, took: nat): Loop {
    Loop(t + took, cfg.base, true, Some(t + took), Top, 0, 0, true, [t], [t + took], [0])
  }

  function Failed(s: Loop, delay: int): Loop {
    s.(delay := delay, pc := Top, failures := s.failures + 1,
       firstFailure := if s.failures == 0 then s.now else s.firstFailure, paid := false)
  }

  function Dial(cfg: Config, s: Loop, ok: bool, took: nat): Loop {
    var s' := s.(dials := s.dials + [s.now], ends := s.ends + [s.now + took],
                 failed := s.failed + [if ok then 0 else s.failures + 1], now := s.now + took);
    if ok then s'.(connected := true, established := Some(s'.now), pc := Top)
    else Failed(s', NextBackoff(s.delay, cfg.max))
  }

  function OnTimer(cfg: Config, s: Loop, shouldConnect: bool, ok: bool, took: nat): Loop {
    if s.connected || !shouldConnect then s.(pc := Top)
    else if s.established.None? then Dial(cfg, s, ok, took)
    else
      var lived := s.now - s.established.value;
      var (delay, flapped) := NextDelayAfterDrop(s.delay, cfg.base, cfg.max, cfg.minStable, lived);
      var s' := s.(established := None);
      if flapped then Failed(s', delay)
      else Dial(cfg, s'.(delay := delay, failures := 0), ok, took)
  }

  function Next(cfg: Config, s: Loop, step: Step): Loop {
    match step
    case Arm => if s.pc == Top then s.(pc := Waiting(s.now + if s.connected then cfg.base else s.delay)) else s
    case Advance(dt) => s.(now := s.now + dt)
    case Drop => s.(connected := false)
    case Fire(should, ok, took) =>
      if s.pc.Waiting? && s.pc.until <= s.now then OnTimer(cfg, s.(paid := true), should, ok, took) else s
    case Cancel => s.(pc := Stopped)
  }

  function Run(cfg: Config, t: int, took: nat, steps: seq<Step>): Loop {
    if steps == [] then Start(cfg, t, took)
    else Next(cfg, Run(cfg, t, took, steps[..|steps| - 1]), steps[|steps| - 1])
  }

  // ---------------------------------------------------------------- what every run keeps

  ghost predicate Spaced(dials: seq<int>, gap: int) {
    forall i :: 0 < i < |dials| ==> dials[i - 1] + gap <= dials[i]
  }

  ghost predicate Inv(cfg: Config, s: Loop) {
    && s.delay == DelayAfter(cfg, s.failures)
    && s.dials != [] && Spaced(s.dials, cfg.MinGap())
    && var last := s.dials[|s.dials| - 1];
    && last <= s.now
    && (s.pc.Waiting? ==> last + cfg.MinGap() <= s.pc.until)
    && (!s.paid ==> !s.connected && s.failures > 0)
    && (s.failures > 0 && s.paid ==> s.firstFailure + TotalDelay(cfg, s.failures) <= s.now)
    && (s.failures > 0 && !s.paid ==> s.firstFailure + TotalDelay(cfg, s.failures - 1) <= s.now)
    && (s.failures > 0 && !s.paid && s.pc.Waiting? ==> s.firstFailure + TotalDelay(cfg, s.failures) <= s.pc.until)
  }

  /** What holds when the timer has fired: the wait is over and the last dial is far enough back. */
  ghost predicate Ready(cfg: Config, s: Loop) {
    && s.paid
    && s.delay == DelayAfter(cfg, s.failures)
    && s.dials != [] && Spaced(s.dials, cfg.MinGap())
    && s.dials[|s.dials| - 1] + cfg.MinGap() <= s.now
    && (s.failures > 0 ==> s.firstFailure + TotalDelay(cfg, s.failures) <= s.now)
  }

  lemma FailedKeepsInv(cfg: Config, s: Loop, delay: int)
    requires cfg.Valid() && !s.connected
    requires s.dials != [] && Spaced(s.dials, cfg.MinGap()) && s.dials[|s.dials| - 1] <= s.now
    requires delay == NextBackoff(DelayAfter(cfg, s.failures), cfg.max)
    requires s.failures > 0 ==> s.firstFailure + TotalDelay(cfg, s.failures) <= s.now
    ensures Inv(cfg, Failed(s, delay))
  {
    DelayStep(cfg, s.failures);
  }

  lemma DialKeepsInv(cfg: Config, s: Loop, ok: bool, took: nat)
    requires cfg.Valid() && Ready(cfg, s) && !s.connected
    ensures Inv(cfg, Dial(cfg, s, ok, took))
  {
    var s' := s.(dials := s.dials + [s.now], ends := s.ends + [s.now + took],
                 failed := s.failed + [if ok then 0 else s.failures + 1], now := s.now + took);
    if !ok {
      FailedKeepsInv(cfg, s', NextBackoff(s.delay, cfg.max));
    }
  }

  lemma TimerKeepsInv(cfg: Config, s: Loop, should: bool, ok: bool, took: nat)
    requires cfg.Valid() && Ready(cfg, s)
    ensures Inv(cfg, OnTimer(cfg, s, should, ok, took))
  {
    if !s.connected && should {
      if s.established.None? {
        DialKeepsInv(cfg, s, ok, took);
      } else {
        var lived := s.now - s.established.value;
        var (delay, flapped) := NextDelayAfterDrop(s.delay, cfg.base, cfg.max, cfg.minStable, lived);
        var s' := s.(established := None);
        if flapped {
          FailedKeepsInv(cfg, s', delay);
        } else {
          DialKeepsInv(cfg, s'.(delay := delay, failures := 0), ok, took);
        }
      }
    }
  }

  lemma NextKeepsInv(cfg: Config, s: Loop, step: Step)
    requires cfg.Valid() && Inv(cfg, s)
    ensures Inv(cfg, Next(cfg, s, step))
  {
    match step
    case Fire(should, ok, took) =>
      if s.pc.Waiting? && s.pc.until <= s.now {
        TimerKeepsInv(cfg, s.(paid := true), should, ok, took);
      }
    case Arm =>
      DelayStep(cfg, s.failures);
    case _ =>
  }

  lemma {:induction false} RunKeepsInv(cfg: Config, t: int, took: nat, steps: seq<Step>)
    requires cfg.Valid()
    ensures Inv(cfg, Run(cfg, t, took, steps))
  {
    if steps != [] {
      RunKeepsInv(cfg, t, took, steps[..|steps| - 1]);
      NextKeepsInv(cfg, Run(cfg, t, took, steps[..|steps| - 1]), steps[|steps| - 1]);
    }
  }

  /** After k failed dials or judged flaps in a row the delay is exactly min(max, base * 2^k); it is base
      again once a connection has outlived minStable. */
  lemma DelayIsExact(cfg: Config, t: int, took: nat, steps: seq<Step>)
    requires cfg.Valid()
    ensures var s := Run(cfg, t, took, steps);
            && (s.failures == 0 ==> s.delay == cfg.base)
            && (s.failures > 0 || cfg.base <= cfg.max ==> s.delay == Min(cfg.max, cfg.base * Pow2(s.failures)))
  {
    RunKeepsInv(cfg, t, took, steps);
  }

  /** A dial that follows n failures in a row comes at least the sum over i = 1..n of min(max, base * 2^i)
      after the first of them was detected. */
  lemma FailuresCostTheirDelays(cfg: Config, t: int, took: nat, steps: seq<Step>, fire: Step)
    requires cfg.Valid()
    requires fire.Fire?
    requires var s := Run(cfg, t, took, steps); |Next(cfg, s, fire).dials| > |s.dials| && s.established.None?
    ensures var s := Run(cfg, t, took, steps);
            s.failures > 0 ==> s.firstFailure + TotalDelay(cfg, s.failures) <= Next(cfg, s, fire).dials[|s.dials|]
  {
    RunKeepsInv(cfg, t, took, steps);
  }

  /** No schedule makes two dials come closer than min(base, max). */
  lemma DialsAreSpaced(cfg: Config, t: int, took: nat, steps: seq<Step>, i: nat, j: nat)
    requires cfg.Valid()
    requires i < j < |Run(cfg, t, took, steps).dials|
    ensures var d := Run(cfg, t, took, steps).dials; d[i] + (j - i) * Min(cfg.base, cfg.max) <= d[j]
  {
    RunKeepsInv(cfg, t, took, steps);
    SpacedApart(Run(cfg, t, took, steps).dials, cfg.MinGap(), i, j);
  }

  lemma {:induction false} SpacedApart(d: seq<int>, gap: int, i: nat, j: nat)
    requires Spaced(d, gap) && i < j < |d|
    ensures d[i] + (j - i) * gap <= d[j]
    decreases j
  {
    if i + 1 < j {
      SpacedApart(d, gap, i, j - 1);
    }
    assert (j - i) * gap == (j - 1 - i) * gap + gap;
    assert d[j - 1] + gap <= d[j];
  }

  function CountIn(d: seq<int>, lo: int, hi: int): nat {
    if d == [] then 0
    else CountIn(d[..|d| - 1], lo, hi) + if lo <= d[|d| - 1] <= hi then 1 else 0
  }

  lemma {:induction false} SpacedCount(d: seq<int>, gap: int, lo: int, hi: int)
    requires gap > 0 && Spaced(d, gap)
    ensures CountIn(d, lo, hi) > 0 ==> (CountIn(d, lo, hi) - 1) * gap <= Min(d[|d| - 1], hi) - lo
  {
    if |d| > 1 {
      var init := d[..|d| - 1];
      SpacedCount(init, gap, lo, hi);
      assert d[|d| - 2] + gap <= d[|d| - 1];
      if CountIn(init, lo, hi) > 0 {
        OneMore(CountIn(init, lo, hi), gap);
      }
    }
  }

  lemma OneMore(n: nat, gap: int)
    requires gap > 0 && n > 0
    ensures n * gap == (n - 1) * gap + gap && (n - 1) * gap >= 0
  {
  }

  lemma SpacedBudget(d: seq<int>, gap: int, lo: int, w: nat)
    requires gap > 0 && Spaced(d, gap)
    ensures CountIn(d, lo, lo + w) <= w / gap + 1
  {
    SpacedCount(d, gap, lo, lo + w);
    if CountIn(d, lo, lo + w) > 0 {
      QuotientAtLeast(w, gap, CountIn(d, lo, lo + w) - 1);
    } else {
      QuotientAtLeast(w, gap, 0);
    }
  }

  /** The connection budget: in any window of length w the loop dials at most w / min(base, max) + 1 times. */
  lemma DialBudget(cfg: Config, t: int, took: nat, steps: seq<Step>, lo: int, w: nat)
    requires cfg.Valid()
    ensures CountIn(Run(cfg, t, took, steps).dials, lo, lo + w) <= w / Min(cfg.base, cfg.max) + 1
  {
    RunKeepsInv(cfg, t, took, steps);
    SpacedBudget(Run(cfg, t, took, steps).dials, cfg.MinGap(), lo, w);
  }

  /** The dial after the first n keeps the delay since a moment: it has, or its wait is still to come. */
  ghost predicate HeldBack(s: Loop, n: nat, since: int, delay: int) {
    if |s.dials| <= n then
      && |s.dials| == n && !s.connected && s.established.None? && s.delay == delay && since <= s.now
      && (s.pc.Waiting? ==> since + delay <= s.pc.until)
    else since + delay <= s.dials[n]
  }

  lemma NextHoldsBack(cfg: Config, s: Loop, step: Step, n: nat, since: int, delay: int)
    requires HeldBack(s, n, since, delay)
    ensures HeldBack(Next(cfg, s, step), n, since, delay)
  {
  }

  lemma NextKeepsDials(cfg: Config, s: Loop, step: Step)
    ensures s.dials <= Next(cfg, s, step).dials
  {
  }

  lemma {:induction false} RunHoldsBack(cfg: Config, t: int, took: nat, steps: seq<Step>, k: nat,
                                        n: nat, since: int, delay: int)
    requires k <= |steps|
    ensures Run(cfg, t, took, steps[..k]).dials <= Run(cfg, t, took, steps).dials
    ensures HeldBack(Run(cfg, t, took, steps[..k]), n, since, delay) ==>
              HeldBack(Run(cfg, t, took, steps), n, since, delay)
  {
    if k == |steps| {
      assert steps[..k] == steps;
    } else {
      var init, last := steps[..|steps| - 1], steps[|steps| - 1];
      assert init[..k] == steps[..k];
      RunHoldsBack(cfg, t, took, init, k, n, since, delay);
      NextKeepsDials(cfg, Run(cfg, t, took, init), last);
      if HeldBack(Run(cfg, t, took, init), n, since, delay) {
        NextHoldsBack(cfg, Run(cfg, t, took, init), last, n, since, delay);
      }
    }
  }

  predicate JudgedFlap(cfg: Config, s: Loop)
    requires s.established.Some?
  {
    0 < cfg.minStable && s.now - s.established.value < cfg.minStable
  }

  lemma FireAfterDrop(cfg: Config, s: Loop, ok: bool, took: nat)
    requires cfg.Valid() && Inv(cfg, s)
    requires s.pc.Waiting? && s.pc.until <= s.now && !s.connected && s.established.Some?
    ensures var s' := Next(cfg, s, Fire(true, ok, took));
            if JudgedFlap(cfg, s) then HeldBack(s', |s.dials|, s.now, DelayAfter(cfg, s.failures + 1))
            else s'.dials == s.dials + [s.now]
  {
    DelayStep(cfg, s.failures);
  }

  /** What a noticed drop means for the next dial, in every run and however it goes on: at once if the
      connection outlived minStable, measured up to this moment; if it was judged a flap, not before the
      escalated delay has passed, although its dial had succeeded. */
  lemma NextDialAfterDrop(cfg: Config, t: int, took: nat, steps: seq<Step>, ok: bool, took': nat, more: seq<Step>)
    requires cfg.Valid()
    requires var s := Run(cfg, t, took, steps);
             s.pc.Waiting? && s.pc.until <= s.now && !s.connected && s.established.Some?
    ensures var s := Run(cfg, t, took, steps);
            var n, dials := |s.dials|, Run(cfg, t, took, steps + [Fire(true, ok, took')] + more).dials;
            if JudgedFlap(cfg, s) then
              n < |dials| ==> s.now + Min(cfg.max, cfg.base * Pow2(s.failures + 1)) <= dials[n]
            else
              n < |dials| && dials[n] == s.now
  {
    var s, noticed := Run(cfg, t, took, steps), steps + [Fire(true, ok, took')];
    assert noticed[..|steps|] == steps;
    RunKeepsInv(cfg, t, took, steps);
    FireAfterDrop(cfg, s, ok, took');
    assert (noticed + more)[..|noticed|] == noticed;
    RunHoldsBack(cfg, t, took, noticed + more, |noticed|, |s.dials|, s.now, DelayAfter(cfg, s.failures + 1));
  }

  // ---------------------------------------------------------------- soon enough

  /** How long the loop waits before it looks again, in every run: base while connected, so that a drop is
      noticed promptly, and the backoff of the failures so far while not. */
  lemma ArmIsExact(cfg: Config, t: int, took: nat, steps: seq<Step>)
    requires cfg.Valid() && Run(cfg, t, took, steps).pc == Top
    ensures var s := Run(cfg, t, took, steps);
            var wait := if s.connected || s.failures == 0 then cfg.base else Min(cfg.max, cfg.base * Pow2(s.failures));
            Run(cfg, t, took, steps + [Arm]) == s.(pc := Waiting(s.now + wait))
  {
    RunKeepsInv(cfg, t, took, steps);
    assert (steps + [Arm])[..|steps|] == steps;
  }

  /** While a connection is up the next look is never more than base away. */
  lemma {:induction false} PolledWhileUp(cfg: Config, t: int, took: nat, steps: seq<Step>)
    ensures var s := Run(cfg, t, took, steps); s.connected && s.pc.Waiting? ==> s.pc.until <= s.now + cfg.base
  {
    if steps != [] {
      PolledWhileUp(cfg, t, took, steps[..|steps| - 1]);
    }
  }

  /** Steps of a loop that is not held up: timers are set at once, fire when they are due, and a connection is
      wanted. */
  predicate Punctual(s: Loop, step: Step) {
    match step
    case Advance(dt) => s.pc.Waiting? && s.now + dt <= s.pc.until
    case Fire(should, _, _) => should
    case Cancel => false
    case _ => true
  }

  /** From step n on the loop is not held up. */
  predicate PunctualFrom(cfg: Config, t: int, took: nat, steps: seq<Step>, n: nat) {
    |steps| > n ==>
      var init := steps[..|steps| - 1];
      PunctualFrom(cfg, t, took, init, n) && Punctual(Run(cfg, t, took, init), steps[|steps| - 1])
  }

  /** A drop is waiting to be noticed when the timer fires at `until`, or the dial it led to was started then. */
  ghost predicate DropPending(cfg: Config, s: Loop, n: nat, established: int, until: int) {
    if |s.dials| <= n then
      && |s.dials| == n && !s.connected && s.established == Some(established) && s.pc == Waiting(until)
      && s.now <= until && (cfg.minStable <= 0 || s.now - established >= cfg.minStable)
    else s.dials[n] == until
  }

  lemma NextKeepsPending(cfg: Config, s: Loop, step: Step, n: nat, established: int, until: int)
    requires DropPending(cfg, s, n, established, until) && Punctual(s, step)
    ensures DropPending(cfg, Next(cfg, s, step), n, established, until)
  {
  }

  lemma {:induction false} RunKeepsPending(cfg: Config, t: int, took: nat, steps: seq<Step>, k: nat,
                                           n: nat, established: int, until: int)
    requires k <= |steps| && PunctualFrom(cfg, t, took, steps, k)
    requires DropPending(cfg, Run(cfg, t, took, steps[..k]), n, established, until)
    ensures DropPending(cfg, Run(cfg, t, took, steps), n, established, until)
  {
    if k == |steps| {
      assert steps[..k] == steps;
    } else {
      var init := steps[..|steps| - 1];
      assert init[..k] == steps[..k];
      RunKeepsPending(cfg, t, took, init, k, n, established, until);
      NextKeepsPending(cfg, Run(cfg, t, took, init), steps[|steps| - 1], n, established, until);
    }
  }

  /** A drop is redialled promptly: if a connection that has outlived minStable is lost while the loop is waiting,
      the next dial starts within base of the drop, in every continuation in which the loop is not held up. */
  lemma DropIsRedialled(cfg: Config, t: int, took: nat, steps: seq<Step>, more: seq<Step>)
    requires var s := Run(cfg, t, took, steps);
             && s.connected && s.established.Some? && s.pc.Waiting? && s.now <= s.pc.until
             && (cfg.minStable <= 0 || s.now - s.established.value >= cfg.minStable)
    requires PunctualFrom(cfg, t, took, steps + [Drop] + more, |steps| + 1)
    ensures var s, s' := Run(cfg, t, took, steps), Run(cfg, t, took, steps + [Drop] + more);
            var n := |s.dials|;
            if n < |s'.dials| then s.now <= s'.dials[n] <= s.now + cfg.base else s'.now <= s.now + cfg.base
  {
    var s, dropped, all := Run(cfg, t, took, steps), steps + [Drop], steps + [Drop] + more;
    PolledWhileUp(cfg, t, took, steps);
    assert dropped[..|steps|] == steps && all[..|dropped|] == dropped;
    RunKeepsPending(cfg, t, took, all, |dropped|, |s.dials|, s.established.value, s.pc.until);
  }

  /** The one moment this leaves out: a drop between the end of one round and the setting of the next timer waits
      the backoff of earlier failures, which a new connection does not reset until it is lost. */
  lemma DropBeforeArmWaits(cfg: Config, t: int, took: nat, steps: seq<Step>)
    requires cfg.Valid() && Run(cfg, t, took, steps).pc == Top && Run(cfg, t, took, steps).failures > 0
    ensures var s := Run(cfg, t, took, steps);
            Run(cfg, t, took, steps + [Drop] + [Arm]).pc == Waiting(s.now + Min(cfg.max, cfg.base * Pow2(s.failures)))
  {
    assert (steps + [Drop])[..|steps|] == steps;
    ArmIsExact(cfg, t, took, steps + [Drop]);
  }

  // ---------------------------------------------------------------- dials after failures, exactly

  /** After failed dial i the next one starts the backoff later, or more if the loop is held up. */
  ghost predicate GapOk(cfg: Config, s: Loop, i: nat, exact: bool)
    requires |s.dials| == |s.ends| == |s.failed| && i + 1 < |s.dials|
  {
    s.failed[i] > 0 ==>
      && s.ends[i] + DelayAfter(cfg, s.failed[i]) <= s.dials[i + 1]
      && (exact ==> s.dials[i + 1] == s.ends[i] + DelayAfter(cfg, s.failed[i]))
      && (s.failed[i + 1] > 0 ==> s.failed[i + 1] == s.failed[i] + 1)
  }

  ghost predicate GapInv(cfg: Config, s: Loop, exact: bool) {
    && s.dials != [] && |s.dials| == |s.ends| == |s.failed|
    && (forall i :: 0 <= i < |s.dials| - 1 ==> GapOk(cfg, s, i, exact))
    && (s.failed[|s.failed| - 1] > 0 ==> AfterFailure(cfg, s, exact))
  }

  /** The last dial has failed and the next is still to come. */
  ghost predicate AfterFailure(cfg: Config, s: Loop, exact: bool)
    requires s.ends != [] && s.failed != []
  {
    var end := s.ends[|s.ends| - 1];
    && !s.connected && s.established.None? && s.failures == s.failed[|s.failed| - 1]
    && s.delay == DelayAfter(cfg, s.failures) && end <= s.now
    && (s.pc.Waiting? ==> end + s.delay <= s.pc.until)
    && (exact ==> s.pc == (if s.pc.Waiting? then Waiting(end + s.delay) else Top))
    && (exact ==> if s.pc.Waiting? then s.now <= s.pc.until else s.now == end)
  }

  lemma DialKeepsGaps(cfg: Config, s: Loop, ok: bool, took: nat, exact: bool)
    requires cfg.Valid() && GapInv(cfg, s, exact) && !s.connected && s.delay == DelayAfter(cfg, s.failures)
    requires s.failed[|s.failed| - 1] > 0 ==> s.pc.Waiting? && s.pc.until <= s.now
    ensures GapInv(cfg, Dial(cfg, s.(established := None), ok, took), exact)
  {
    var s' := Dial(cfg, s.(established := None), ok, took);
    DelayStep(cfg, s.failures);
    forall i | 0 <= i < |s'.dials| - 1 ensures GapOk(cfg, s', i, exact) {
      if i < |s.dials| - 1 {
        assert GapOk(cfg, s, i, exact);
      }
    }
  }

  predicate Dials(s: Loop, step: Step) {
    step.Fire? && step.shouldConnect && s.pc.Waiting? && s.pc.until <= s.now && !s.connected
  }

  lemma FailureStays(cfg: Config, s: Loop, step: Step, exact: bool)
    requires cfg.Valid() && s.ends != [] && s.failed != [] && AfterFailure(cfg, s, exact)
    requires !Dials(s, step) && (exact ==> Punctual(s, step))
    ensures AfterFailure(cfg, Next(cfg, s, step), exact)
  {
    DelayStep(cfg, s.failures);
  }

  lemma NextKeepsGaps(cfg: Config, s: Loop, step: Step, exact: bool)
    requires cfg.Valid() && Inv(cfg, s) && GapInv(cfg, s, exact) && (exact ==> Punctual(s, step))
    ensures GapInv(cfg, Next(cfg, s, step), exact)
  {
    if Dials(s, step) {
      FireKeepsGaps(cfg, s, step.dialOk, step.took, exact);
    } else {
      if s.failed[|s.failed| - 1] > 0 {
        FailureStays(cfg, s, step, exact);
      }
      GapsStay(cfg, s, Next(cfg, s, step), exact);
    }
  }

  lemma GapsStay(cfg: Config, s: Loop, s': Loop, exact: bool)
    requires GapInv(cfg, s, exact) && s'.dials == s.dials && s'.ends == s.ends && s'.failed == s.failed
    requires s.failed[|s.failed| - 1] > 0 ==> AfterFailure(cfg, s', exact)
    ensures GapInv(cfg, s', exact)
  {
    forall i | 0 <= i < |s'.dials| - 1 ensures GapOk(cfg, s', i, exact) {
      assert GapOk(cfg, s, i, exact);
    }
  }

  lemma FireKeepsGaps(cfg: Config, s: Loop, ok: bool, took: nat, exact: bool)
    requires cfg.Valid() && Inv(cfg, s) && GapInv(cfg, s, exact)
    requires s.pc.Waiting? && s.pc.until <= s.now && !s.connected
    ensures GapInv(cfg, Next(cfg, s, Fire(true, ok, took)), exact)
  {
    var s1 := s.(paid := true);
    var s' := Next(cfg, s, Fire(true, ok, took));
    if s.established.None? {
      GapsStay(cfg, s, s1, exact);
      DialKeepsGaps(cfg, s1, ok, took, exact);
      assert s1.(established := None) == s1;
    } else if JudgedFlap(cfg, s) {
      GapsStay(cfg, s, s', exact);
    } else {
      var s2 := s1.(delay := cfg.base, failures := 0);
      GapsStay(cfg, s, s2, exact);
      DialKeepsGaps(cfg, s2, ok, took, exact);
    }
  }

  lemma {:induction false} RunKeepsGaps(cfg: Config, t: int, took: nat, steps: seq<Step>, exact: bool)
    requires cfg.Valid() && (exact ==> PunctualFrom(cfg, t, took, steps, 0))
    ensures GapInv(cfg, Run(cfg, t, took, steps), exact)
  {
    if steps != [] {
      RunKeepsGaps(cfg, t, took, steps[..|steps| - 1], exact);
      RunKeepsInv(cfg, t, took, steps[..|steps| - 1]);
      NextKeepsGaps(cfg, Run(cfg, t, took, steps[..|steps| - 1]), steps[|steps| - 1], exact);
    }
  }

  /** n backoffs in a row, from the k-th on. */
  function Waits(cfg: Config, k: nat, n: nat): int {
    if n == 0 then 0 else Waits(cfg, k, n - 1) + Min(cfg.max, cfg.base * Pow2(k + n - 1))
  }

  /** The time spent in the n - 1 dials after dial i. */
  function DialTime(s: Loop, i: nat, n: nat): int
    requires |s.ends| == |s.dials| && i + n < |s.dials|
  {
    if n <= 1 then 0 else DialTime(s, i, n - 1) + s.ends[i + n - 1] - s.dials[i + n - 1]
  }

  lemma {:induction false} StretchOfFailures(cfg: Config, s: Loop, i: nat, n: nat, exact: bool)
    requires GapInv(cfg, s, exact) && 0 < n && i + n < |s.dials|
    requires forall j :: i <= j < i + n ==> s.failed[j] > 0
    ensures s.ends[i] + Waits(cfg, s.failed[i], n) + DialTime(s, i, n) <= s.dials[i + n]
    ensures exact ==> s.dials[i + n] == s.ends[i] + Waits(cfg, s.failed[i], n) + DialTime(s, i, n)
    ensures s.failed[i + n - 1] == s.failed[i] + n - 1
  {
    assert GapOk(cfg, s, i + n - 1, exact);
    if n > 1 {
      StretchOfFailures(cfg, s, i, n - 1, exact);
      assert GapOk(cfg, s, i + n - 2, exact);
    }
  }

  /** After n failed dials in a row the next one starts no earlier than the sum of their backoffs and of the time
      the dials took, in every run, and exactly then when the loop is not held up. */
  lemma FailedDialsAreTimed(cfg: Config, t: int, took: nat, steps: seq<Step>, i: nat, n: nat)
    requires cfg.Valid() && 0 < n
    requires var s := Run(cfg, t, took, steps);
             && |s.ends| == |s.failed| == |s.dials| && i + n < |s.dials|
             && forall j :: i <= j < i + n ==> s.failed[j] > 0
    ensures var s := Run(cfg, t, took, steps);
            var soonest := s.ends[i] + Waits(cfg, s.failed[i], n) + DialTime(s, i, n);
            && soonest <= s.dials[i + n]
            && (PunctualFrom(cfg, t, took, steps, 0) ==> s.dials[i + n] == soonest)
  {
    var exact := PunctualFrom(cfg, t, took, steps, 0);
    RunKeepsGaps(cfg, t, took, steps, exact);
    StretchOfFailures(cfg, Run(cfg, t, took, steps), i, n, exact);
  }

  /** What the backoffs add up to, and what doubling means. */
  lemma SumsSpelledOut(cfg: Config, n: nat)
    ensures Pow2(0) == 1 && Pow2(1) == 2 && Pow2(n + 1) == Pow2(n) + Pow2(n)
    ensures TotalDelay(cfg, 0) == 0
    ensures TotalDelay(cfg, n + 1) == TotalDelay(cfg, n) + Min(cfg.max, cfg.base * Pow2(n + 1))
    ensures Waits(cfg, 1, n) == TotalDelay(cfg, n)
  {
    assert Pow2(1) == 2 * Pow2(0);
    if n > 0 {
      SumsSpelledOut(cfg, n - 1);
    }
  }

  ghost predicate EstablishedOk(s: Loop) {
    && s.dials != [] && |s.ends| == |s.dials| && |s.failed| == |s.dials|
    && (s.connected ==> s.established.Some?)
    && (s.established.Some? ==> s.established.value == s.ends[|s.ends| - 1] && s.failed[|s.failed| - 1] == 0)
  }

  lemma NextKeepsEstablished(cfg: Config, s: Loop, step: Step)
    requires EstablishedOk(s)
    ensures EstablishedOk(Next(cfg, s, step))
  {
  }

  /** A connection counts as established from the end of the dial that made it. */
  lemma {:induction false} EstablishedAtDialEnd(cfg: Config, t: int, took: nat, steps: seq<Step>)
    ensures EstablishedOk(Run(cfg, t, took, steps))
  {
    if steps != [] {
      EstablishedAtDialEnd(cfg, t, took, steps[..|steps| - 1]);
      NextKeepsEstablished(cfg, Run(cfg, t, took, steps[..|steps| - 1]), steps[|steps| - 1]);
    }
  }

  /** After Close nothing is dialled any more, whatever fires. */
  lemma {:induction false} CancelIsFinal(cfg: Config, t: int, took: nat, steps: seq<Step>, n: nat)
    requires n < |steps| && steps[n] == Cancel
    ensures Run(cfg, t, took, steps).pc == Stopped
    ensures Run(cfg, t, took, steps).dials == Run(cfg, t, took, steps[..n]).dials
  {
    var init := steps[..|steps| - 1];
    if n < |init| {
      CancelIsFinal(cfg, t, took, init, n);
      assert init[..n] == steps[..n];
    }
  }

  /** The positions of the dials that lie in a window. */
  function InWindow(d: seq<int>, lo: int, hi: int): set<nat> {
    set i: nat | i < |d| && lo <= d[i] <= hi
  }

  /** CountIn counts them. */
  lemma {:induction false} CountInIs(d: seq<int>, lo: int, hi: int)
    ensures CountIn(d, lo, hi) == |InWindow(d, lo, hi)|
  {
    if d != [] {
      var n := |d| - 1;
      CountInIs(d[..n], lo, hi);
      assert n !in InWindow(d[..n], lo, hi);
      assert InWindow(d, lo, hi) == InWindow(d[..n], lo, hi) + if lo <= d[n] <= hi then {n} else {};
    }
  }

  /** Nothing is dialled but by a timer that fires while no connection is up and one is wanted. */
  lemma DialsAreWanted(cfg: Config, s: Loop, step: Step)
    ensures Next(cfg, s, step).dials != s.dials ==>
              && step.Fire? && step.shouldConnect && !s.connected && s.pc.Waiting? && s.pc.until <= s.now
              && Next(cfg, s, step).dials == s.dials + [s.now]
  {
  }

  // ---------------------------------------------------------------- the code

  class ReconnectLoop {
    const cfg: Config
    var delay: int
    var connected: bool
    var connEstablishedAt: Option<int>
    var pc: Pc
    var now: int                    // the clock
    ghost var failures: nat
    ghost var firstFailure: int
    ghost var paid: bool
    var dials: seq<int>
    ghost var ends: seq<int>
    ghost var failed: seq<nat>

    ghost function View(): Loop
      reads this
    {
      Loop(now, delay, connected, connEstablishedAt, pc, failures, firstFailure, paid, dials, ends, failed)
    }

    constructor (cfg: Config, t: int, took: nat)
      ensures this.cfg == cfg && View() == Start(cfg, t, took)
    {
      this.cfg := cfg;
      delay, connected, connEstablishedAt, pc, now := cfg.base, true, Some(t + took), Top, t + took;
      failures, firstFailure, paid, dials, ends, failed := 0, 0, true, [t], [t + took], [0];
    }

    /** The head of the loop: the wait before the next look at the connection. */
    method ChooseWait()
      requires pc == Top
      modifies this`pc
      ensures View() == Next(cfg, old(View()), Arm)
    {
      var wait := delay;
      if connected {
        wait := cfg.base;
      }
      pc := Waiting(now + wait);
    }

    /** The rest of one iteration, once the timer has fired. */
    method AfterWait(shouldConnect: bool, dialOk: bool, took: nat)
      requires pc.Waiting? && pc.until <= now
      modifies this
      ensures View() == Next(cfg, old(View()), Fire(shouldConnect, dialOk, took))
    {
      pc, paid := Top, true;
      if connected || !shouldConnect {
        return;
      }
      if connEstablishedAt.Some? {
        var flapped := NoticeDrop(connEstablishedAt.value);
        if flapped {
          return;
        }
      }
      DialNow(dialOk, took);
    }

    /** The end of a connection: a flap or a success. */
    method NoticeDrop(established: int) returns (flapped: bool)
      requires pc == Top
      modifies this
      ensures flapped == (0 < cfg.minStable && now - established < cfg.minStable)
      ensures var s := old(View()).(established := None);
              View() == if flapped then Failed(s, NextBackoff(s.delay, cfg.max))
                        else s.(delay := cfg.base, failures := 0)
    {
      connEstablishedAt := None;
      var (next, f) := NextDelayAfterDrop(delay, cfg.base, cfg.max, cfg.minStable, now - established);
      delay, flapped := next, f;
      if flapped {
        CountFailure();
      } else {
        failures := 0;
      }
    }

    method DialNow(dialOk: bool, took: nat)
      requires pc == Top
      modifies this
      ensures View() == Dial(cfg, old(View()), dialOk, took)
    {
      dials, ends := dials + [now], ends + [now + took];
      failed := failed + [if dialOk then 0 else failures + 1];
      now := now + took;
      if !dialOk {
        delay := NextBackoff(delay, cfg.max);
        CountFailure();
        return;
      }
      connected, connEstablishedAt := true, Some(now);
    }

    ghost method CountFailure()
      modifies this`failures, this`firstFailure, this`paid
      ensures failures == old(failures) + 1 && !paid
      ensures firstFailure == if old(failures) == 0 then now else old(firstFailure)
    {
      if failures == 0 {
        firstFailure := now;
      }
      failures, paid := failures + 1, false;
    }
  }
}
