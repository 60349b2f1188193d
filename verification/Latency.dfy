/**
 The latency counters of metrics.go: a running total of everything recorded, and a ring
 that holds the most recent hundred values. `plcMetrics` and `clientMetrics` keep the same
 ring, so one class stands for both. Latencies are non-negative integers; the averages are
 kept as exact sums and counts.
 */
module Latency {

  const RECENT_WINDOW := 100

  function Sum(xs: seq<nat>): nat {
    if xs == [] then 0 else xs[0] + Sum(xs[1..])
  }

  lemma {:induction false} SumConcat(xs: seq<nat>, ys: seq<nat>)
    ensures Sum(xs + ys) == Sum(xs) + Sum(ys)
    decreases |xs|
  {
    if xs == [] {
      assert xs + ys == ys;
    } else {
      assert (xs + ys)[1..] == xs[1..] + ys;
      SumConcat(xs[1..], ys);
    }
  }

  function Without(ys: seq<nat>, i: nat): seq<nat>
    requires i < |ys|
  {
    ys[..i] + ys[i + 1..]
  }

  lemma SumWithout(ys: seq<nat>, i: nat)
    requires i < |ys|
    ensures Sum(ys) == Sum(Without(ys, i)) + ys[i]
  {
    var tail := ys[i..];
    assert tail[1..] == ys[i + 1..] && ys == ys[..i] + tail;
    SumConcat(ys[..i], tail);
    SumConcat(ys[..i], ys[i + 1..]);
  }

  lemma BagWithout(ys: seq<nat>, i: nat)
    requires i < |ys|
    ensures multiset(Without(ys, i)) == multiset(ys) - multiset{ys[i]}
  {
    var tail := ys[i..];
    assert tail == [ys[i]] + ys[i + 1..];
    assert ys == ys[..i] + tail;
  }

  // A sum does not depend on the order.
  lemma {:induction false} SumOfSame(xs: seq<nat>, ys: seq<nat>)
    requires multiset(xs) == multiset(ys)
    ensures Sum(xs) == Sum(ys)
    decreases |xs|
  {
    if xs == [] {
      assert |ys| == |multiset(ys)| == 0;
    } else {
      assert xs[0] in multiset(ys);
      var i :| 0 <= i < |ys| && ys[i] == xs[0];
      BagWithout(xs, 0);
      BagWithout(ys, i);
      SumWithout(xs, 0);
      SumWithout(ys, i);
      SumOfSame(Without(xs, 0), Without(ys, i));
    }
  }

  /** The last `n` values, or all of them when there are fewer. */
  function Last(xs: seq<nat>, n: nat): seq<nat> {
    if |xs| <= n then xs else xs[|xs| - n..]
  }

  /** The ring after recording `history` from a fresh start: value `i` is in slot `i % 100`, newest wins. */
  ghost predicate RingHolds(ring: seq<nat>, history: seq<nat>) {
    && |ring| == RECENT_WINDOW
    && forall i :: 0 <= i < |history| && |history| - i <= RECENT_WINDOW ==> ring[i % RECENT_WINDOW] == history[i]
  }

  // Until the ring is full it is the history itself.
  lemma PartlyFilled(ring: seq<nat>, history: seq<nat>)
    requires RingHolds(ring, history) && |history| <= RECENT_WINDOW
    ensures ring[..|history|] == history
  {
    forall i | 0 <= i < |history|
      ensures ring[i] == history[i]
    {
      assert |history| - i <= RECENT_WINDOW;
      if i < RECENT_WINDOW {
        assert i % RECENT_WINDOW == i;
      }
    }
  }

  // Once it is full it is the recent history, rotated at the next write position.
  lemma Rotated(ring: seq<nat>, history: seq<nat>)
    requires RingHolds(ring, history) && |history| >= RECENT_WINDOW
    ensures var at := |history| % RECENT_WINDOW; ring[at..] + ring[..at] == Last(history, RECENT_WINDOW)
  {
    var n, at := |history|, |history| % RECENT_WINDOW;
    var base := n - RECENT_WINDOW;
    forall j | 0 <= j < RECENT_WINDOW
      ensures (ring[at..] + ring[..at])[j] == Last(history, RECENT_WINDOW)[j]
    {
      assert ring[(base + j) % RECENT_WINDOW] == history[base + j];
      if j < RECENT_WINDOW - at {
        assert (base + j) % RECENT_WINDOW == at + j;
      } else {
        assert (base + j) % RECENT_WINDOW == at + j - RECENT_WINDOW;
      }
    }
  }

  // Summing the filled slots in array order is summing the recent history.
  lemma ArrayOrderSum(ring: seq<nat>, history: seq<nat>)
    requires RingHolds(ring, history)
    ensures var count := if |history| > RECENT_WINDOW then RECENT_WINDOW else |history|;
            Sum(ring[..count]) == Sum(Last(history, RECENT_WINDOW)) && count == |Last(history, RECENT_WINDOW)|
  {
    if |history| <= RECENT_WINDOW {
      PartlyFilled(ring, history);
    } else {
      var at := |history| % RECENT_WINDOW;
      Rotated(ring, history);
      SumConcat(ring[at..], ring[..at]);
      SumConcat(ring[..at], ring[at..]);
      assert ring[..at] + ring[at..] == ring == ring[..RECENT_WINDOW];
    }
  }

  /**
   Recording is two atomic steps, so other recorders and readers can come between them: the total
   is increased first, and the ring is written under its lock later. `added` is what has been added
   to the total, `history` what has been written to the ring, each in its own order.
   */
  class LatencyMetrics {
    ghost var added: seq<nat>
    ghost var history: seq<nat>
    var totalNs: nat
    const ring: array<nat>
    var ringN: nat
    var ringAt: nat

    ghost predicate Valid()
      reads this, ring
    {
      && ring.Length == RECENT_WINDOW
      && ringN == |history| && ringAt == ringN % RECENT_WINDOW
      && RingHolds(ring[..], history)
      && totalNs == Sum(added) && multiset(history) <= multiset(added)
    }

    constructor ()
      ensures Valid() && added == history == [] && fresh(ring)
    {
      ring := new nat[RECENT_WINDOW](_ => 0);
      added, history, totalNs, ringN, ringAt := [], [], 0, 0, 0;
    }

    /** `totalNs.Add(ns)` */
    method AddTotal(ns: nat)
      requires Valid()
      modifies this`totalNs, this`added
      ensures Valid() && added == old(added) + [ns]
    {
      SumConcat(added, [ns]);
      totalNs := totalNs + ns;
      added := added + [ns];
    }

    /** The locked part, by a recorder that has added to the total. */
    method WriteRing(ns: nat)
      requires Valid() && multiset(history)[ns] < multiset(added)[ns]
      modifies this`history, this`ringN, this`ringAt, ring
      ensures Valid() && history == old(history) + [ns]
    {
      RecordKeeps(ring[..], history, ns);
      ring[ringAt] := ns;
      ringAt := (ringAt + 1) % RECENT_WINDOW;
      ringN := ringN + 1;
      history := history + [ns];
    }

    /** `recordLatency` with nobody in between. */
    method RecordLatency(ns: nat)
      requires Valid()
      modifies this, ring
      ensures Valid() && added == old(added) + [ns] && history == old(history) + [ns]
    {
      AddTotal(ns);
      WriteRing(ns);
    }

    // Whenever no recorder is between its two steps, the total is the sum of the full history.
    lemma TotalWhenQuiet()
      requires Valid() && |history| == |added|
      ensures totalNs == Sum(history)
    {
      var rest := multiset(added) - multiset(history);
      assert |rest| == 0;
      assert multiset(added) == multiset(history) + rest;
      SumOfSame(added, history);
    }

    /** The sum and count that `recentAvgMs` divides. */
    method RecentSum() returns (sum: nat, count: nat)
      requires Valid()
      ensures sum == Sum(Last(history, 100)) && count == |Last(history, 100)|
    {
      var n := ringN;
      var snapshot := ring[..];
      count := n;
      if count > RECENT_WINDOW {
        count := RECENT_WINDOW;
      }
      sum := 0;
      for i := 0 to count
        invariant sum == Sum(snapshot[..i])
      {
        assert snapshot[..i + 1] == snapshot[..i] + [snapshot[i]];
        SumConcat(snapshot[..i], [snapshot[i]]);
        sum := sum + snapshot[i];
      }
      ArrayOrderSum(snapshot, history);
    }
  }

  // Writing at the next position keeps every other recent value and drops only the oldest.
  lemma RecordKeeps(ring: seq<nat>, history: seq<nat>, ns: nat)
    requires RingHolds(ring, history)
    ensures RingHolds(ring[|history| % RECENT_WINDOW := ns], history + [ns])
  {
    var at, h := |history| % RECENT_WINDOW, history + [ns];
    forall i | 0 <= i < |h| && |h| - i <= RECENT_WINDOW
      ensures ring[at := ns][i % RECENT_WINDOW] == h[i]
    {
      if i < |history| {
        assert ring[i % RECENT_WINDOW] == history[i];
        assert i % RECENT_WINDOW != at;
      }
    }
  }
}
