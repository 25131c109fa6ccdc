// What the health flag means over a whole probe history (router/types.go:296-316): the counters
// are only a device, and these lemmas state what they are a device for.
module Hysteresis {
  import opened GoTypes
  import opened Probes

  ghost predicate FailWindow(h: seq<Outcome>, i: int, n: int) {
    0 <= i && i + n <= |h| && forall k | i <= k < i + n :: h[k].Failure?
  }

  ghost predicate OkWindow(h: seq<Outcome>, i: int, n: int) {
    0 <= i && i + n <= |h| && forall k | i <= k < i + n :: h[k].Success?
  }

  /** Every window of failThresh failures is followed by a later window of okThresh successes. */
  ghost predicate Cleared(p: Params, h: seq<Outcome>) {
    forall i | FailWindow(h, i, p.failThresh) ::
      exists j :: i + p.failThresh <= j && OkWindow(h, j, p.okThresh)
  }

  /** n is the length of the longest suffix of h made of failures (or of successes). */
  ghost predicate TrailingFails(h: seq<Outcome>, n: nat) {
    FailWindow(h, |h| - n, n) && (n < |h| ==> h[|h| - n - 1].Success?)
  }

  ghost predicate TrailingOKs(h: seq<Outcome>, n: nat) {
    OkWindow(h, |h| - n, n) && (n < |h| ==> h[|h| - n - 1].Failure?)
  }

  /** The fields other than slot and latency, in every state a history can lead to. */
  lemma {:induction false} CountersMeaning(p: Params, h: seq<Outcome>)
    ensures var s := Replay(p, FRESH, h);
            && TrailingFails(h, s.consecFails)
            && TrailingOKs(h, s.consecOKs)
            && (s.consecFails == 0 || s.consecOKs == 0)
            && (s.lastErr.Some? <==> h != [] && h[|h| - 1].Failure?)
            && (s.lastErr.Some? <==> s.consecFails > 0)
            && (s.lastErr.Some? ==> s.lastErr.value == h[|h| - 1].err)
            && (s.healthy ==> s.consecFails < p.failThresh)
            && (!s.healthy ==> s.consecOKs < p.okThresh)
  {
    if h != [] {
      CountersMeaning(p, h[..|h| - 1]);
    }
  }

  /** Main result: the health flag says exactly that the history is cleared. */
  lemma {:induction false} HealthyMeansCleared(p: Params, h: seq<Outcome>)
    ensures Replay(p, FRESH, h).healthy <==> Cleared(p, h)
  {
    if h != [] {
      var n := |h| - 1;
      HealthyMeansCleared(p, h[..n]);
      CountersMeaning(p, h[..n]);
      CountersMeaning(p, h);
      var s, f, k := Replay(p, FRESH, h), p.failThresh, p.okThresh;
      if h[n].Failure? && s.consecFails >= f {
        assert FailWindow(h, |h| - f, f);
      } else if h[n].Success? && s.consecOKs >= k {
        assert OkWindow(h, |h| - k, k);
        forall i | FailWindow(h, i, f) ensures i + f <= |h| - k {
          SeparateWindows(h, i, f, k);
        }
      } else {
        SameWindows(p, h);
      }
    }
  }

  /** A window of failures lies wholly before the successes at the end. */
  lemma SeparateWindows(h: seq<Outcome>, i: int, f: int, k: int)
    requires f >= 1 && k >= 1
    requires FailWindow(h, i, f) && OkWindow(h, |h| - k, k)
    ensures i + f <= |h| - k
  {
    assert h[i + f - 1].Failure?;
  }

  /** An outcome that completes no window leaves the verdict on the history as it was. */
  lemma SameWindows(p: Params, h: seq<Outcome>)
    requires h != []
    requires !FailWindow(h, |h| - p.failThresh, p.failThresh)
    requires !OkWindow(h, |h| - p.okThresh, p.okThresh)
    ensures Cleared(p, h) <==> Cleared(p, h[..|h| - 1])
  {
    var g := h[..|h| - 1];
    forall i ensures FailWindow(h, i, p.failThresh) <==> FailWindow(g, i, p.failThresh) {}
    forall i ensures OkWindow(h, i, p.okThresh) <==> OkWindow(g, i, p.okThresh) {}
  }

  // ---- How often an endpoint can flap ----

  function Failures(h: seq<Outcome>): nat {
    if h == [] then 0 else Failures(h[..|h| - 1]) + if h[|h| - 1].Failure? then 1 else 0
  }

  /** The number of times the health flag goes from `from` to its opposite. */
  function Switches(p: Params, h: seq<Outcome>, from: bool): nat {
    if h == [] then 0
    else
      var g := h[..|h| - 1];
      var before, after := Replay(p, FRESH, g).healthy, Replay(p, FRESH, h).healthy;
      Switches(p, g, from) + if before == from && after != from then 1 else 0
  }

  function Ejections(p: Params, h: seq<Outcome>): nat { Switches(p, h, true) }

  function Readmissions(p: Params, h: seq<Outcome>): nat { Switches(p, h, false) }

  /** n events that cost at least `cost` each were paid for out of the budget. */
  ghost predicate PaidFor(n: nat, cost: int, budget: int) {
    n * cost <= budget
  }

  /** Each ejection is paid for by failThresh failures and each readmission by okThresh successes. */
  lemma FlapBound(p: Params, h: seq<Outcome>)
    ensures PaidFor(Ejections(p, h), p.failThresh, Failures(h))
    ensures PaidFor(Readmissions(p, h), p.okThresh, |h| - Failures(h))
    ensures Readmissions(p, h) <= Ejections(p, h) <= Readmissions(p, h) + 1
  {
    FlapBudget(p, h);
  }

  /** The bound with what the current run has already saved up for the next switch. */
  lemma {:induction false} FlapBudget(p: Params, h: seq<Outcome>)
    ensures var s := Replay(p, FRESH, h);
            && Ejections(p, h) * p.failThresh + (if s.healthy then s.consecFails else 0) <= Failures(h)
            && Readmissions(p, h) * p.okThresh + (if s.healthy then 0 else s.consecOKs) <= |h| - Failures(h)
            && Ejections(p, h) == Readmissions(p, h) + if s.healthy then 0 else 1
  {
    if h != [] {
      var g := h[..|h| - 1];
      FlapBudget(p, g);
      CountersMeaning(p, g);
      var switched := Replay(p, FRESH, g).healthy != Replay(p, FRESH, h).healthy;
      OneMore(Ejections(p, g), p.failThresh);
      OneMore(Readmissions(p, g), p.okThresh);
      if !switched {
        assert Ejections(p, h) == Ejections(p, g) && Readmissions(p, h) == Readmissions(p, g);
      } else if h[|h| - 1].Failure? {
        assert Ejections(p, h) == Ejections(p, g) + 1 && Readmissions(p, h) == Readmissions(p, g);
      } else {
        assert Ejections(p, h) == Ejections(p, g) && Readmissions(p, h) == Readmissions(p, g) + 1;
      }
    }
  }
}
