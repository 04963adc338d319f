/** The two computations behind the load-test report: latency percentiles and the drain loop. */
module LoadTestReport {
  import opened Common

  // ---- Nearest-rank percentile, over exact rationals

  function Ceil(x: real): (n: int)
    ensures (n - 1) as real < x <= n as real
  {
    if x == x.Floor as real then x.Floor else x.Floor + 1
  }

  /** p percent of n samples. */
  function Share(n: nat, p: real): real {
    p / 100.0 * n as real
  }

  /** The index of the sample that completes a share. */
  function Rank(n: nat, share: real): (index: int)
    requires n > 0
    ensures 0 <= index < n
  {
    Min(n - 1, Max(0, Ceil(share) - 1))
  }

  function Percentile(samples: seq<real>, p: real): real {
    if samples == [] then 0.0 else samples[Rank(|samples|, Share(|samples|, p))]
  }

  predicate Sorted(samples: seq<real>) {
    forall i, j | 0 <= i <= j < |samples| :: samples[i] <= samples[j]
  }

  function CountAtMost(samples: seq<real>, v: real): nat {
    if samples == [] then 0 else CountAtMost(samples[1..], v) + if samples[0] <= v then 1 else 0
  }

  function CountBelow(samples: seq<real>, v: real): nat {
    if samples == [] then 0 else CountBelow(samples[1..], v) + if samples[0] < v then 1 else 0
  }

  /** In a sorted list, all samples up to an index are at most the one there. */
  lemma {:induction false} AtMostFrom(samples: seq<real>, k: nat)
    requires Sorted(samples) && k < |samples|
    ensures CountAtMost(samples, samples[k]) >= k + 1
  {
    assert samples[0] <= samples[k];
    if k > 0 {
      SortedTail(samples);
      AtMostFrom(samples[1..], k - 1);
    }
  }

  /** And only earlier samples can be below it. */
  lemma {:induction false} BelowUpTo(samples: seq<real>, k: nat)
    requires Sorted(samples) && k < |samples|
    ensures CountBelow(samples, samples[k]) <= k
  {
    SortedTail(samples);
    if k > 0 {
      BelowUpTo(samples[1..], k - 1);
    } else {
      NoneBelow(samples, samples[0]);
    }
  }

  lemma {:induction false} NoneBelow(samples: seq<real>, v: real)
    requires forall i | 0 <= i < |samples| :: v <= samples[i]
    ensures CountBelow(samples, v) == 0
  {
    if samples != [] {
      forall i | 0 <= i < |samples| - 1 ensures v <= samples[1..][i] {
        assert samples[1..][i] == samples[i + 1];
      }
      NoneBelow(samples[1..], v);
    }
  }

  lemma SortedTail(samples: seq<real>)
    requires Sorted(samples) && samples != []
    ensures Sorted(samples[1..])
  {
    forall i, j | 0 <= i <= j < |samples[1..]| ensures samples[1..][i] <= samples[1..][j] {
      assert samples[i + 1] <= samples[j + 1];
    }
  }

  lemma RankIsNearest(n: nat, share: real)
    requires n > 0 && 0.0 < share <= n as real
    ensures Rank(n, share) as real < share <= Rank(n, share) as real + 1.0
  {
    assert Rank(n, share) == Ceil(share) - 1;
  }

  lemma ShareIsWithin(n: nat, p: real)
    requires n > 0 && 0.0 < p <= 100.0
    ensures 0.0 < Share(n, p) <= n as real
  {
    Scaled(p / 100.0, n as real);
  }

  lemma Scaled(part: real, n: real)
    requires 0.0 < part <= 1.0 && n > 0.0
    ensures 0.0 < part * n <= n
  {
  }

  lemma ShareIsCompleted(samples: seq<real>, share: real)
    requires Sorted(samples) && samples != [] && 0.0 < share <= |samples| as real
    ensures var v := samples[Rank(|samples|, share)];
            CountAtMost(samples, v) as real >= share > CountBelow(samples, v) as real
  {
    var k := Rank(|samples|, share);
    RankIsNearest(|samples|, share);
    AtMostFrom(samples, k);
    BelowUpTo(samples, k);
  }

  /** At least p percent of the samples are at most the percentile, and fewer than p percent are below it; with no
    * samples it is zero. */
  lemma PercentileIsNearestRank(samples: seq<real>, p: real)
    requires Sorted(samples) && 0.0 < p <= 100.0
    ensures samples == [] ==> Percentile(samples, p) == 0.0
    ensures samples != [] ==>
              var v, n := Percentile(samples, p), |samples| as real;
              v in samples && 100.0 * CountAtMost(samples, v) as real >= p * n > 100.0 * CountBelow(samples, v) as real
  {
    if samples != [] {
      ShareIsWithin(|samples|, p);
      ShareIsCompleted(samples, Share(|samples|, p));
      ShareInPercent(|samples|, p);
    }
  }

  lemma ShareInPercent(n: nat, p: real)
    ensures 100.0 * Share(n, p) == p * n as real
  {
    Rescaled(p, n as real);
  }

  lemma Rescaled(p: real, n: real)
    ensures 100.0 * (p / 100.0 * n) == p * n
  {
    assert 100.0 * (p / 100.0) == p;
  }

  /** The two bounds determine the percentile: only one value of the sample meets them. */
  lemma NearestRankIsUnique(samples: seq<real>, share: real, v: real, w: real)
    requires v in samples && CountAtMost(samples, v) as real >= share > CountBelow(samples, v) as real
    requires w in samples && CountAtMost(samples, w) as real >= share > CountBelow(samples, w) as real
    ensures v == w
  {
    if v < w {
      AtMostBelow(samples, v, w);
    } else if w < v {
      AtMostBelow(samples, w, v);
    }
  }

  lemma {:induction false} AtMostBelow(samples: seq<real>, v: real, w: real)
    requires v < w
    ensures CountAtMost(samples, v) <= CountBelow(samples, w)
  {
    if samples != [] {
      AtMostBelow(samples[1..], v, w);
    }
  }

  /** Outside that range it is the smallest or the largest sample. */
  lemma PercentileAtTheEnds(samples: seq<real>, p: real)
    requires samples != []
    ensures p <= 0.0 ==> Percentile(samples, p) == samples[0]
    ensures p >= 100.0 ==> Percentile(samples, p) == samples[|samples| - 1]
  {
    var n := |samples| as real;
    if p <= 0.0 {
      Stretched(p / 100.0, 0.0, n);
    }
    if p >= 100.0 {
      Stretched(1.0, p / 100.0, n);
    }
  }

  /** A higher percentile is never smaller; the report's p50, p95 and p99 rise to the maximum it prints last. */
  lemma PercentileIsMonotone(samples: seq<real>, p: real, q: real)
    requires Sorted(samples) && samples != [] && p <= q
    ensures Percentile(samples, p) <= Percentile(samples, q) <= samples[|samples| - 1]
  {
    Stretched(p / 100.0, q / 100.0, |samples| as real);
    RankIsMonotone(|samples|, Share(|samples|, p), Share(|samples|, q));
  }

  lemma RankIsMonotone(n: nat, a: real, b: real)
    requires n > 0 && a <= b
    ensures Rank(n, a) <= Rank(n, b)
  {
    assert (Ceil(a) - 1) as real < Ceil(b) as real;
  }

  lemma Stretched(a: real, b: real, n: real)
    requires a <= b && n >= 0.0
    ensures a * n <= b * n
  {
  }

  // ---- Draining

  /** Why the wait for the asynchronous half ended. */
  datatype Exit = Reached | TimedOut | Stalled

  const POLL_MS := 2000
  const STALL_MS := 20_000

  /** How many readings in a row, up to the k-th, equal the one before. */
  function Steady(reading: nat -> int, k: nat): nat {
    if k == 0 || reading(k) != reading(k - 1) then 0 else Steady(reading, k - 1) + 1
  }

  ghost predicate IsReached(reading: nat -> int, baseline: int, accepted: nat, k: nat) {
    reading(k) - baseline >= accepted
  }

  ghost predicate IsStalled(reading: nat -> int, k: nat) {
    POLL_MS * Steady(reading, k) >= STALL_MS
  }

  /** Whether the wait goes on after the k-th reading. */
  ghost predicate GoesOn(reading: nat -> int, elapsed: nat -> int, baseline: int, accepted: nat, timeout: int, k: nat) {
    !IsReached(reading, baseline, accepted, k) && elapsed(k) < timeout && !IsStalled(reading, k)
  }

  /** `reading(k)` is the k-th count of processed events, `elapsed(k)` the time when the guard follows it. Each poll
    * waits two seconds. */
  method Drain(reading: nat -> int, elapsed: nat -> int, baseline: int, accepted: nat, timeout: int)
    returns (normalized: int, polls: nat, exit: Exit)
    requires forall k: nat :: elapsed(k) >= 2000 * k
    ensures normalized == reading(polls)
    ensures forall k | 0 <= k < polls :: GoesOn(reading, elapsed, baseline, accepted, timeout, k)
    ensures !GoesOn(reading, elapsed, baseline, accepted, timeout, polls)
    ensures exit.Reached? <==> normalized - baseline >= accepted
    ensures exit.Stalled? <==> IsStalled(reading, polls) && !exit.Reached?
    ensures exit.TimedOut? ==> elapsed(polls) >= timeout
    ensures timeout >= 0 ==> 2000 * polls < timeout + 2000
  {
    normalized, polls := reading(0), 0;
    var lastSeen := normalized;
    var stableFor := 0;
    while normalized - baseline < accepted && elapsed(polls) < timeout
      invariant normalized == reading(polls) == lastSeen
      invariant stableFor == POLL_MS * Steady(reading, polls) < STALL_MS
      invariant forall k | 0 <= k < polls :: GoesOn(reading, elapsed, baseline, accepted, timeout, k)
      invariant timeout >= 0 ==> POLL_MS * polls < timeout + POLL_MS
      decreases timeout - POLL_MS * polls
    {
      assert GoesOn(reading, elapsed, baseline, accepted, timeout, polls);
      polls := polls + 1;
      normalized := reading(polls);
      if normalized == lastSeen {
        stableFor := stableFor + POLL_MS;
        if stableFor >= STALL_MS {
          exit := if normalized - baseline >= accepted then Reached else Stalled;
          return;
        }
      } else {
        stableFor := 0;
        lastSeen := normalized;
      }
    }
    exit := if normalized - baseline >= accepted then Reached else TimedOut;
  }

  /** Readings that have been steady for n polls are all the same. */
  lemma {:induction false} SteadyReadings(reading: nat -> int, k: nat, i: nat)
    requires k - Steady(reading, k) <= i <= k
    ensures reading(i) == reading(k)
  {
    if i < k {
      SteadyReadings(reading, k - 1, i);
    }
  }

  /** The wait gives up as stalled exactly when the last eleven readings agree and fall short. */
  lemma StalledIff(reading: nat -> int, k: nat)
    ensures IsStalled(reading, k) <==> k >= 10 && forall i | k - 10 <= i <= k :: reading(i) == reading(k)
  {
    SteadyBounded(reading, k);
    if IsStalled(reading, k) {
      forall i | k - 10 <= i <= k ensures reading(i) == reading(k) {
        SteadyReadings(reading, k, i);
      }
    }
    if k >= 10 && forall i | k - 10 <= i <= k :: reading(i) == reading(k) {
      SteadySince(reading, k, 10);
    }
  }

  lemma {:induction false} SteadyBounded(reading: nat -> int, k: nat)
    ensures Steady(reading, k) <= k
  {
    if k > 0 {
      SteadyBounded(reading, k - 1);
    }
  }

  lemma {:induction false} SteadySince(reading: nat -> int, k: nat, n: nat)
    requires n <= k && forall i | k - n <= i <= k :: reading(i) == reading(k)
    ensures Steady(reading, k) >= n
  {
    if n > 0 {
      assert reading(k - 1) == reading(k);
      SteadySince(reading, k - 1, n - 1);
    }
  }

  /** A stall is never reported for a batch that has just drained: the last reading repeats one that fell short. */
  lemma StallFallsShort(reading: nat -> int, elapsed: nat -> int, baseline: int, accepted: nat, timeout: int,
                        polls: nat)
    requires IsStalled(reading, polls)
    requires forall k | 0 <= k < polls :: GoesOn(reading, elapsed, baseline, accepted, timeout, k)
    ensures polls > 0 && Steady(reading, polls) == 10 && !IsReached(reading, baseline, accepted, polls)
  {
    assert GoesOn(reading, elapsed, baseline, accepted, timeout, polls - 1);
  }
}
