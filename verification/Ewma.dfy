// The smoothed latency over a whole history (router/types.go:320-327): an integer recurrence,
// truncated at every step, measured against the exact one over the reals.
module Ewma {
  import opened GoTypes
  import opened Probes

  /** The latencies that reach the average: those of the successful probes, in order. */
  function Samples(h: seq<Outcome>): seq<Duration> {
    if h == [] then []
    else
      var o := h[|h| - 1];
      Samples(h[..|h| - 1]) + if o.Success? then [o.latency] else []
  }

  /** The average as the pool keeps it. */
  function Average(alpha: real, ss: seq<Duration>): Duration
    requires 0.0 <= alpha <= 1.0
  {
    if ss == [] then 0
    else Smooth(alpha, Average(alpha, ss[..|ss| - 1]), ss[|ss| - 1])
  }

  /** The same recurrence without truncation, seeded with the same first sample. */
  function Exact(alpha: real, ss: seq<Duration>): real
    requires ss != []
  {
    if |ss| == 1 then ss[0] as real
    else Blend(alpha, Exact(alpha, ss[..|ss| - 1]), ss[|ss| - 1] as real)
  }

  ghost predicate AllWithin(ss: seq<Duration>, lo: int, hi: int) {
    forall k | 0 <= k < |ss| :: lo <= ss[k] <= hi
  }

  /** Failed probes leave no trace in the latency. */
  lemma {:induction false} ReplayAverages(p: Params, h: seq<Outcome>)
    ensures Replay(p, FRESH, h).ewma == Average(p.alpha, Samples(h))
  {
    if h != [] {
      var g, o := h[..|h| - 1], h[|h| - 1];
      ReplayAverages(p, g);
      if o.Success? {
        assert Samples(h)[..|Samples(h)| - 1] == Samples(g);
      } else {
        assert Samples(h) == Samples(g);
      }
    }
  }

  /** The average never leaves the range of the samples seen, and so never overflows. */
  lemma {:induction false} Envelope(alpha: real, ss: seq<Duration>, lo: int, hi: int)
    requires 0.0 <= alpha <= 1.0
    requires AllWithin(ss, lo, hi)
    ensures ss != [] ==> lo <= Average(alpha, ss) <= hi
  {
    if ss != [] {
      Envelope(alpha, ss[..|ss| - 1], lo, hi);
    }
  }

  /** The average e is less than 1/alpha away from x, and never above it if nothing was negative. */
  ghost predicate Near(alpha: real, x: real, e: int, positive: bool)
    requires alpha > 0.0
  {
    -(1.0 / alpha) < x - e as real < 1.0 / alpha && (positive ==> x >= e as real >= 0.0)
  }

  /** Where the average was last seeded: after the longest run of earlier samples that left it at zero. */
  function Seed(alpha: real, ss: seq<Duration>): (k: nat)
    requires 0.0 <= alpha <= 1.0 && ss != []
    ensures k < |ss| && Average(alpha, ss[..k]) == 0
    ensures forall j | k < j < |ss| :: Average(alpha, ss[..j]) != 0
  {
    var g := ss[..|ss| - 1];
    if Average(alpha, g) == 0 then |g|
    else
      assert forall j | 0 <= j <= |g| :: g[..j] == ss[..j];
      Seed(alpha, g)
  }

  ghost predicate NoneNegative(ss: seq<Duration>) {
    forall k | 0 <= k < |ss| :: ss[k] >= 0
  }

  /** Truncation only ever loses, and all the losses since the last seed together stay below 1/alpha
      nanoseconds, for any samples at all. */
  lemma {:induction false} Drift(alpha: real, ss: seq<Duration>)
    requires 0.0 < alpha <= 1.0 && ss != []
    ensures Near(alpha, Exact(alpha, ss[Seed(alpha, ss)..]), Average(alpha, ss), NoneNegative(ss))
  {
    assert 1.0 / alpha > 0.0;
    var g, s, k := ss[..|ss| - 1], ss[|ss| - 1], Seed(alpha, ss);
    var e := Average(alpha, g);
    if e == 0 {
      assert ss[k..] == [s];
    } else {
      Drift(alpha, g);
      assert ss[k..][..|ss| - k - 1] == g[k..];
      DriftStep(alpha, Exact(alpha, g[k..]), e, s, NoneNegative(ss));
    }
  }

  /** One step shrinks the old gap by 1 - alpha and adds less than one nanosecond of its own. */
  lemma DriftStep(alpha: real, x: real, e: int, s: int, positive: bool)
    requires 0.0 < alpha <= 1.0
    requires Near(alpha, x, e, positive) && (positive ==> s >= 0)
    ensures Near(alpha, Blend(alpha, x, s as real), Truncate(Blend(alpha, e as real, s as real)), positive)
  {
    var b := Blend(alpha, e as real, s as real);
    var g := StepGap(alpha, x, e as real, s as real, positive);
    if positive {
      BlendBetween(alpha, e as real, s as real);
    }
    GapSum(b, g, Truncate(b), 1.0 / alpha, positive);
  }

  /** What is left of the gap after one blend. */
  lemma StepGap(alpha: real, x: real, e: real, s: real, positive: bool) returns (g: real)
    requires 0.0 < alpha <= 1.0
    requires -(1.0 / alpha) < x - e < 1.0 / alpha && (positive ==> x >= e)
    ensures Blend(alpha, x, s) == Blend(alpha, e, s) + g
    ensures -(1.0 / alpha - 1.0) <= g <= 1.0 / alpha - 1.0 && (positive ==> g >= 0.0)
  {
    g := (1.0 - alpha) * (x - e);
    BlendsApart(alpha, x, e, s);
    assert alpha * (1.0 / alpha) == 1.0;
    Remainder(alpha, x - e, 1.0 / alpha);
    if positive {
      NonNegative(1.0 - alpha, x - e);
    }
  }

  lemma BlendsApart(alpha: real, x: real, e: real, s: real)
    ensures Blend(alpha, x, s) == Blend(alpha, e, s) + (1.0 - alpha) * (x - e)
  {
  }

  lemma Remainder(alpha: real, d: real, w: real)
    requires 0.0 < alpha <= 1.0 && alpha * w == 1.0 && -w < d < w
    ensures -(w - 1.0) <= (1.0 - alpha) * d <= w - 1.0
  {
    NonNegative(1.0 - alpha, w - d);
    NonNegative(1.0 - alpha, d + w);
    assert (1.0 - alpha) * (w - d) == w - alpha * w - (1.0 - alpha) * d;
    assert (1.0 - alpha) * (d + w) == w - alpha * w + (1.0 - alpha) * d;
  }

  lemma GapSum(b: real, g: real, t: int, w: real, positive: bool)
    requires -(w - 1.0) <= g <= w - 1.0 && t == Truncate(b)
    requires positive ==> g >= 0.0 && b >= 0.0
    ensures -w < b + g - t as real < w && (positive ==> b + g >= t as real >= 0.0)
  {
  }

  /** With samples of at least one nanosecond the seed is the first of them. */
  lemma SeedIsFirst(alpha: real, ss: seq<Duration>)
    requires 0.0 <= alpha <= 1.0 && ss != [] && forall k | 0 <= k < |ss| :: ss[k] >= 1
    ensures Seed(alpha, ss) == 0
  {
    var k := Seed(alpha, ss);
    if k > 0 {
      Envelope(alpha, ss[..k], 1, MAX_DURATION);
    }
  }

  /** Against the recurrence over all the samples: one more sample keeps the average near it exactly if the
      average does not seed itself anew, or the sample is no higher than the recurrence, or nothing of the
      old average counts anyway. */
  lemma NextSampleStaysNear(alpha: real, ss: seq<Duration>, s: Duration)
    requires 0.0 < alpha <= 1.0 && ss != [] && s >= 0
    requires Near(alpha, Exact(alpha, ss), Average(alpha, ss), true)
    ensures NextIsNear(alpha, ss, s) <==> Average(alpha, ss) != 0 || s as real <= Exact(alpha, ss) || alpha == 1.0
  {
    var x, e := Exact(alpha, ss), Average(alpha, ss);
    assert (ss + [s])[..|ss|] == ss;
    if e != 0 {
      DriftStep(alpha, x, e, s, true);
    } else {
      ReseedStaysNear(alpha, x, s);
    }
  }

  /** A sample taken as it is, against the recurrence. */
  lemma ReseedStaysNear(alpha: real, x: real, s: int)
    requires 0.0 < alpha <= 1.0 && 0.0 <= x < 1.0 / alpha && s >= 0
    ensures Near(alpha, Blend(alpha, x, s as real), s, true) <==> s as real <= x || alpha == 1.0
  {
    BlendGap(alpha, x, s as real);
    Shrinks(1.0 - alpha, x - s as real);
    assert 1.0 / alpha > 0.0;
  }

  lemma BlendGap(alpha: real, x: real, s: real)
    ensures Blend(alpha, x, s) - s == (1.0 - alpha) * (x - s)
  {
  }

  /** Scaled by at most one, a number keeps its sign, unless nothing is left of it, and does not grow. */
  lemma Shrinks(a: real, b: real)
    requires 0.0 <= a <= 1.0
    ensures b >= 0.0 ==> 0.0 <= a * b <= b
    ensures b < 0.0 ==> (a * b < 0.0 <==> a > 0.0) && (a == 0.0 ==> a * b == 0.0)
  {
    if b >= 0.0 {
      NonNegative(a, b);
      NonNegative(1.0 - a, b);
    } else if a > 0.0 {
      Positive(a, -b);
    }
  }

  ghost predicate NextIsNear(alpha: real, ss: seq<Duration>, s: Duration)
    requires 0.0 < alpha <= 1.0
  {
    Near(alpha, Exact(alpha, ss + [s]), Average(alpha, ss + [s]), true)
  }

  lemma Positive(a: real, b: real)
    requires a > 0.0 && b > 0.0
    ensures a * b > 0.0
  {
  }

  /** A history that breaks the bound: a probe that took no time, and then any ordinary one. */
  lemma ZeroThenOvershoots(p: Params, slot: uint64, s: Duration)
    requires p.alpha < 1.0 && s > 0
    ensures var h := [Success(slot, 0), Success(slot, s)];
            && Samples(h) == [0, s]
            && Replay(p, FRESH, h).ewma == s
            && !Near(p.alpha, Exact(p.alpha, [0, s]), s, true)
  {
    var h := [Success(slot, 0), Success(slot, s)];
    assert h[..1] == [Success(slot, 0)] && [Success(slot, 0)][..0] == [];
    assert Samples(h[..1]) == [0];
    assert Samples(h) == [0] + [s];
    ReplayAverages(p, h);
    assert [0, s][..1] == [0] && [0][..0] == [];
    assert Average(p.alpha, [0]) == 0;
    ReseedStaysNear(p.alpha, 0.0, s);
  }

  // ---- The exact average as a geometric sum ----

  /** The samples weighted geometrically: the newest takes alpha of the weight w, each older one alpha
      of what is left, and the seed all that is left in the end. */
  function GeometricSum(alpha: real, ss: seq<Duration>, w: real): real
    requires ss != []
  {
    var n := |ss| - 1;
    if n == 0 then w * ss[0] as real
    else GeometricSum(alpha, ss[..n], (1.0 - alpha) * w) + (alpha * w) * ss[n] as real
  }

  ghost predicate IsGeometricSum(alpha: real, ss: seq<Duration>, w: real)
    requires ss != []
  {
    GeometricSum(alpha, ss, w) == w * Exact(alpha, ss)
  }

  /** The recurrence unfolds to the geometric weighted sum. */
  lemma ExactIsGeometricSum(alpha: real, ss: seq<Duration>)
    requires ss != []
    ensures Exact(alpha, ss) == GeometricSum(alpha, ss, 1.0)
  {
    Unfolded(alpha, ss, 1.0);
  }

  lemma {:induction false} Unfolded(alpha: real, ss: seq<Duration>, w: real)
    requires ss != []
    ensures IsGeometricSum(alpha, ss, w)
  {
    if |ss| > 1 {
      Unfolded(alpha, ss[..|ss| - 1], (1.0 - alpha) * w);
      OneUnfolding(alpha, ss, w, (1.0 - alpha) * w);
    }
  }

  lemma OneUnfolding(alpha: real, ss: seq<Duration>, w: real, older: real)
    requires |ss| > 1 && older == (1.0 - alpha) * w && IsGeometricSum(alpha, ss[..|ss| - 1], older)
    ensures IsGeometricSum(alpha, ss, w)
  {
    var x, s := Exact(alpha, ss[..|ss| - 1]), ss[|ss| - 1] as real;
    UnfoldedTerm(alpha, w, older, x, s);
  }

  lemma UnfoldedTerm(alpha: real, w: real, older: real, x: real, s: real)
    requires older == (1.0 - alpha) * w
    ensures older * x + (alpha * w) * s == w * Blend(alpha, x, s)
  {
    assert older * x == w * ((1.0 - alpha) * x);
    assert (alpha * w) * s == w * (alpha * s);
  }

  /** The weights add up to one: the geometric sum of samples equal to 1 is 1. */
  lemma WeightsSumToOne(alpha: real, n: nat)
    requires n > 0
    ensures GeometricSum(alpha, seq(n, _ => 1), 1.0) == 1.0
  {
    ExactIsGeometricSum(alpha, seq(n, _ => 1));
    ConstantSamples(alpha, seq(n, _ => 1));
  }

  lemma {:induction false} ConstantSamples(alpha: real, ss: seq<Duration>)
    requires ss != [] && forall k | 0 <= k < |ss| :: ss[k] == ss[0]
    ensures Exact(alpha, ss) == ss[0] as real
  {
    if |ss| > 1 {
      ConstantSamples(alpha, ss[..|ss| - 1]);
    }
  }

  // ---- The sentinel: 0 stands for "never measured" ----

  /** With a clock that never reports zero, a zero average means exactly that no probe succeeded. */
  lemma SentinelMeansUnprobed(p: Params, h: seq<Outcome>, hi: int)
    requires AllWithin(Samples(h), 1, hi)
    ensures Replay(p, FRESH, h).ewma == 0 <==> forall k | 0 <= k < |h| :: h[k].Failure?
  {
    ReplayAverages(p, h);
    Envelope(p.alpha, Samples(h), 1, hi);
    SamplesEmpty(h);
  }

  lemma {:induction false} SamplesEmpty(h: seq<Outcome>)
    ensures Samples(h) == [] <==> forall k | 0 <= k < |h| :: h[k].Failure?
  {
    if h != [] {
      SamplesEmpty(h[..|h| - 1]);
      assert forall k | 0 <= k < |h| - 1 :: h[k] == h[..|h| - 1][k];
      assert h[|h| - 1].Success? ==> !(forall k | 0 <= k < |h| :: h[k].Failure?);
    }
  }

  /** A success leaves the sentinel behind exactly when it took no time and too little is left of the old
      average. */
  lemma SentinelAfterSuccess(p: Params, s: Health, slot: uint64, latency: Duration)
    requires s.ewma >= 0 && latency >= 0
    ensures Record(p, s, Success(slot, latency)).ewma == 0 <==> latency == 0 && FadesOut(p.alpha, s.ewma)
  {
    SmoothZero(p.alpha, s.ewma, latency);
  }

  /** What 1 - alpha of the old average comes to is less than a nanosecond. */
  predicate FadesOut(alpha: real, ewma: int) {
    (1.0 - alpha) * ewma as real < 1.0
  }

  lemma SmoothZero(alpha: real, ewma: Duration, sample: Duration)
    requires 0.0 < alpha <= 1.0 && ewma >= 0 && sample >= 0
    ensures Smooth(alpha, ewma, sample) == 0 <==> sample == 0 && FadesOut(alpha, ewma)
  {
    if ewma > 0 && sample > 0 {
      BlendBetween(alpha, ewma as real, sample as real);
    }
  }

  /** Exactly when a history leaves an endpoint looking unprobed, for a clock that never runs backwards:
      no probe succeeded, or the last one that did took no time when the average had all but faded. */
  lemma SentinelOverHistory(p: Params, h: seq<Outcome>)
    requires NoneNegative(Samples(h))
    ensures var ss := Samples(h);
            Replay(p, FRESH, h).ewma == 0 <==>
              || (forall k | 0 <= k < |h| :: h[k].Failure?)
              || (ss != [] && ss[|ss| - 1] == 0 && FadesOut(p.alpha, Average(p.alpha, ss[..|ss| - 1])))
  {
    ReplayAverages(p, h);
    SamplesEmpty(h);
    var ss := Samples(h);
    if ss != [] {
      Envelope(p.alpha, ss[..|ss| - 1], 0, MAX_DURATION);
      SmoothZero(p.alpha, Average(p.alpha, ss[..|ss| - 1]), ss[|ss| - 1]);
    }
  }

  /** A probe measured as taking no time at all leaves a working endpoint looking unprobed. */
  lemma ZeroLatencyLooksUnprobed(p: Params, slot: uint64)
    ensures var s := Replay(p, FRESH, [Success(slot, 0)]);
            s.ewma == 0 && s.lastErr == None && s.consecOKs == 1
  {
    ReplaySnoc(p, FRESH, [], Success(slot, 0));
    assert [] + [Success(slot, 0)] == [Success(slot, 0)];
  }
}
