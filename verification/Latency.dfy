/** The rolling window of event latencies (latencyTracker in pkg/polymarket/market.go). */
module Latency {
  import opened Common

  const WINDOW := 100

  /** The most recent samples, at most WINDOW of them. */
  function Recent(all: seq<Int64>): seq<Int64> {
    all[|all| - Min(|all|, WINDOW)..]
  }

  /** The last 100 of them, in order. */
  lemma RecentIs(all: seq<Int64>, k: nat)
    ensures |Recent(all)| == if |all| < 100 then |all| else 100
    ensures k < |Recent(all)| ==> Recent(all)[|Recent(all)| - 1 - k] == all[|all| - 1 - k]
  {
  }

  function Sum(xs: seq<Int64>): int {
    if xs == [] then 0 else Sum(xs[..|xs| - 1]) + xs[|xs| - 1]
  }

  function Rotate(xs: seq<Int64>, r: nat): seq<Int64>
    requires r <= |xs|
  {
    xs[r..] + xs[..r]
  }

  lemma {:induction false} SumAppend(a: seq<Int64>, b: seq<Int64>)
    ensures Sum(a + b) == Sum(a) + Sum(b)
  {
    if b == [] {
      assert a + b == a;
    } else {
      assert (a + b)[..|a + b| - 1] == a + b[..|b| - 1];
      SumAppend(a, b[..|b| - 1]);
    }
  }

  lemma SumSwap(a: seq<Int64>, b: seq<Int64>)
    ensures Sum(a + b) == Sum(b + a)
  {
    SumAppend(a, b);
    SumAppend(b, a);
  }

  lemma RotationKeepsSum(xs: seq<Int64>, r: nat)
    requires r <= |xs|
    ensures Sum(Rotate(xs, r)) == Sum(xs)
  {
    assert xs[..r] + xs[r..] == xs;
    SumSwap(xs[..r], xs[r..]);
  }

  /** Wrapping after every addition is wrapping once at the end. */
  lemma WrapOnce(a: int, x: int)
    ensures Wrap64(Wrap64(a) + x) == Wrap64(a + x)
  {
    var k := (a - Wrap64(a)) / TWO_64;
    assert a + x == Wrap64(a) + x + k * TWO_64;
  }

  /** report's quotient is the true mean, truncated toward zero, exactly when the sum fits in 64 bits. */
  lemma MeanIsExactIff(total: int, count: nat)
    requires 1 <= count <= WINDOW
    ensures TruncDiv(Wrap64(total), count) == TruncDiv(total, count) <==> InInt64(total)
  {
    var w := Wrap64(total);
    if TruncDiv(w, count) == TruncDiv(total, count) {
      assert total - w == TruncRem(total, count) - TruncRem(w, count);
      assert -200 < total - w < 200;
    }
  }

  function Copies(e: Int64, n: nat): seq<Int64> { if n == 0 then [] else Copies(e, n - 1) + [e] }

  lemma {:induction false} SumOfCopies(e: Int64, n: nat)
    ensures Sum(Copies(e, n)) == n * e
  {
    if n > 0 {
      SumOfCopies(e, n - 1);
      assert Copies(e, n)[..|Copies(e, n)| - 1] == Copies(e, n - 1);
      assert n * e == (n - 1) * e + e;
    }
  }

  /** Nanoseconds from the epoch to 2026: the latency of an event stamped "0", which parses. */
  const SINCE_EPOCH: Int64 := 1770000000000000000

  /** Concrete failure: six such samples overflow the sum and the mean comes out negative. */
  lemma EpochStampsOverflow()
    ensures Sum(Copies(SINCE_EPOCH, 6)) == 10620000000000000000 && !InInt64(Sum(Copies(SINCE_EPOCH, 6)))
    ensures TruncDiv(Wrap64(Sum(Copies(SINCE_EPOCH, 6))), 6) == -1304457345618258602
  {
    SumOfCopies(SINCE_EPOCH, 6);
  }

  lemma QuotientFits(t: Int64, c: nat)
    requires c >= 1
    ensures InInt64(TruncDiv(t, c))
  {
    QuotientBounds(if t >= 0 then t else -(t as int), c);
  }

  lemma NextSlot(n: nat)
    ensures (n % WINDOW + 1) % WINDOW == (n + 1) % WINDOW
  {
  }

  /** The sample in slot k after n >= WINDOW records. */
  function SampleIn(n: nat, k: nat): int {
    if k < n % WINDOW then n - n % WINDOW + k else n - WINDOW - n % WINDOW + k
  }

  lemma SlotOf(n: nat, k: nat)
    requires WINDOW <= n && k < WINDOW
    ensures n - WINDOW <= SampleIn(n, k) < n && SampleIn(n, k) % WINDOW == k
  {
    var idx := n % WINDOW;
    assert n == WINDOW * (n / WINDOW) + idx;
    assert SampleIn(n, k) == WINDOW * (if k < idx then n / WINDOW else n / WINDOW - 1) + k;
  }

  lemma NoCollision(j: nat, n: nat)
    requires n - WINDOW < j <= n
    ensures j % WINDOW == n % WINDOW ==> j == n
  {
  }

  class LatencyTracker {
    const samples: array<Int64>
    var count: nat
    var idx: nat
    ghost var all: seq<Int64>     // every sample ever recorded

    ghost predicate Valid()
      reads this, samples
    {
      && samples.Length == WINDOW
      && count == Min(|all|, WINDOW)
      && idx == |all| % WINDOW
      && forall j :: |all| - count <= j < |all| ==> samples[j % WINDOW] == all[j]
    }

    constructor ()
      ensures Valid() && all == [] && fresh(samples)
    {
      samples := new Int64[WINDOW](i => 0);
      count, idx, all := 0, 0, [];
    }

    method Record(d: Int64)
      requires Valid()
      modifies this, samples
      ensures Valid() && all == old(all) + [d]
    {
      NextSlot(|all|);
      samples[idx] := d;
      idx := (idx + 1) % samples.Length;
      if count < samples.Length {
        count := count + 1;
      }
      all := all + [d];
      forall j | |all| - count <= j < |all| ensures samples[j % WINDOW] == all[j] {
        NoCollision(j, |all| - 1);
      }
    }

    /** The first `count` slots are the recent samples, rotated. */
    lemma SlotsAreRotated()
      requires Valid()
      ensures samples[..count] == Rotate(Recent(all), if |all| < WINDOW then 0 else WINDOW - idx)
    {
      var n, w := |all|, Recent(all);
      if n < WINDOW {
        forall k | 0 <= k < count ensures samples[k] == w[k] {
          assert k % WINDOW == k;
        }
      } else {
        forall k | 0 <= k < WINDOW ensures samples[k] == Rotate(w, WINDOW - idx)[k] {
          SlotOf(n, k);
          assert samples[SampleIn(n, k) % WINDOW] == all[SampleIn(n, k)];
        }
      }
    }

    /** Sums exactly the recent samples, negative ones included, in wrapping 64-bit arithmetic. */
    method Report() returns (mean: Int64, n: nat)
      requires Valid()
      ensures n == |Recent(all)|
      ensures n == 0 ==> mean == 0
      ensures n != 0 ==> mean == TruncDiv(Wrap64(Sum(Recent(all))), n)
    {
      if count == 0 {
        return 0, 0;
      }
      var total := Total();
      SlotsAreRotated();
      RotationKeepsSum(Recent(all), if |all| < WINDOW then 0 else WINDOW - idx);
      QuotientFits(total, count);
      mean, n := TruncDiv(total, count), count;
    }

    method Total() returns (total: Int64)
      requires Valid()
      ensures total == Wrap64(Sum(samples[..count]))
    {
      total := 0;
      for i := 0 to count
        invariant total == Wrap64(Sum(samples[..i]))
      {
        assert samples[..i + 1][..i] == samples[..i];
        WrapOnce(Sum(samples[..i]), samples[i]);
        total := Wrap64(total + samples[i]);
      }
    }
  }
}
