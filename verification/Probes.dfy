// What one probe result does to one endpoint (router/types.go:289-328), as a function on values,
// and its iteration over a history of outcomes.
module Probes {
  import opened GoTypes

  /** The settings the pool copies from the configuration. */
  datatype Settings = Settings(maxSlotLag: uint64, alpha: real, failThresh: int, okThresh: int)

  /** The part of Config.validate the pool relies on. */
  predicate Validated(p: Settings) {
    && 0.0 < p.alpha <= 1.0
    && p.failThresh >= 1
    && p.okThresh >= 1
  }

  type Params = p: Settings | Validated(p) witness Settings(50, 0.2, 3, 2)

  /** One probe's observation: a failure carries no slot and no latency that anyone reads. */
  datatype Outcome =
    | Failure(err: Error)
    | Success(slot: uint64, latency: Duration)

  /** The mutable fields of an endpoint. */
  datatype Health = Health(
    healthy: bool,
    slot: uint64,
    ewma: Duration,
    consecFails: nat,
    consecOKs: nat,
    lastErr: Option<Error>)

  /** Optimistic start: healthy, nothing measured. */
  const FRESH := Health(true, 0, 0, 0, 0, None)

  /** The smoothed latency; 0 means "no sample yet", so the first sample is taken as it is. */
  function Smooth(alpha: real, ewma: Duration, sample: Duration): (r: Duration)
    requires 0.0 <= alpha <= 1.0
    ensures ewma == 0 ==> r == sample
    ensures ewma <= r <= sample || sample <= r <= ewma || (ewma == 0 && r == sample)
  {
    if ewma == 0 then sample
    else
      BlendWithin(alpha, ewma, sample);
      Truncate(Blend(alpha, ewma as real, sample as real))
  }

  function Blend(alpha: real, previous: real, sample: real): real {
    alpha * sample + (1.0 - alpha) * previous
  }

  lemma BlendBetween(alpha: real, x: real, y: real)
    requires 0.0 <= alpha <= 1.0
    ensures x <= y ==> x <= Blend(alpha, x, y) <= y
    ensures y <= x ==> y <= Blend(alpha, x, y) <= x
  {
    assert Blend(alpha, x, y) == x + alpha * (y - x) == y + (1.0 - alpha) * (x - y);
    if x <= y {
      NonNegative(alpha, y - x);
      NonNegative(1.0 - alpha, y - x);
    } else {
      NonNegative(alpha, x - y);
      NonNegative(1.0 - alpha, x - y);
    }
  }

  lemma NonNegative(a: real, b: real)
    requires a >= 0.0 && b >= 0.0
    ensures a * b >= 0.0
  {
  }

  lemma BlendWithin(alpha: real, ewma: int, sample: int)
    requires 0.0 <= alpha <= 1.0
    ensures var t := Truncate(Blend(alpha, ewma as real, sample as real));
            ewma <= t <= sample || sample <= t <= ewma
  {
    BlendBetween(alpha, ewma as real, sample as real);
    var b := Blend(alpha, ewma as real, sample as real);
    if ewma <= sample {
      TruncateWithin(b, ewma, sample);
    } else {
      TruncateWithin(b, sample, ewma);
    }
  }

  /** The effect of one probe outcome on one endpoint. */
  function Record(p: Params, s: Health, o: Outcome): Health {
    match o
    case Failure(err) =>
      var fails := s.consecFails + 1;
      s.(lastErr := Some(err), consecOKs := 0, consecFails := fails,
         healthy := s.healthy && fails < p.failThresh)
    case Success(slot, latency) =>
      var oks := s.consecOKs + 1;
      s.(lastErr := None, consecFails := 0, consecOKs := oks,
         healthy := s.healthy || oks >= p.okThresh,
         slot := slot, ewma := Smooth(p.alpha, s.ewma, latency))
  }

  // ---- One probe in plain terms ----

  /** r is the part of the weighted mean that is left when its fraction is dropped. */
  ghost predicate Smoothed(alpha: real, previous: int, sample: int, r: int) {
    var mean := alpha * sample as real + (1.0 - alpha) * previous as real;
    if mean >= 0.0 then r as real <= mean < r as real + 1.0 else r as real - 1.0 < mean <= r as real
  }

  /** What a probe that reported this slot, latency and error makes of an endpoint: an error is kept and
      counted and leaves the measurements alone; a success is counted, its slot replaces the old one whether
      or not the endpoint is in rotation, and its latency is blended in, or taken as it is if there was none. */
  ghost predicate Took(p: Params, h: Health, slot: uint64, latency: Duration, err: Option<Error>, r: Health) {
    && r.lastErr == err
    && if err.Some? then
         && r.consecFails == h.consecFails + 1 && r.consecOKs == 0
         && r.slot == h.slot && r.ewma == h.ewma
         && (r.healthy <==> h.healthy && h.consecFails + 1 < p.failThresh)
       else
         && r.consecOKs == h.consecOKs + 1 && r.consecFails == 0
         && r.slot == slot
         && (if h.ewma == 0 then r.ewma == latency else Smoothed(p.alpha, h.ewma, latency, r.ewma))
         && (r.healthy <==> h.healthy || h.consecOKs + 1 >= p.okThresh)
  }

  lemma RecordTook(p: Params, h: Health, slot: uint64, latency: Duration, err: Option<Error>)
    ensures Took(p, h, slot, latency, err,
                 Record(p, h, if err.Some? then Failure(err.value) else Success(slot, latency)))
  {
  }

  /** The outcomes of h applied in order. */
  function Replay(p: Params, s: Health, h: seq<Outcome>): Health {
    if h == [] then s
    else Record(p, Replay(p, s, h[..|h| - 1]), h[|h| - 1])
  }

  lemma ReplaySnoc(p: Params, s: Health, h: seq<Outcome>, o: Outcome)
    ensures Replay(p, s, h + [o]) == Record(p, Replay(p, s, h), o)
  {
    assert (h + [o])[..|h|] == h;
  }

  lemma {:induction false} ReplayConcat(p: Params, s: Health, a: seq<Outcome>, b: seq<Outcome>)
    ensures Replay(p, s, a + b) == Replay(p, Replay(p, s, a), b)
  {
    if b == [] {
      assert a + b == a;
    } else {
      var n := |b| - 1;
      ReplayConcat(p, s, a, b[..n]);
      assert (a + b)[..|a + b| - 1] == a + b[..n];
    }
  }

  /** The slot of the latest success, or 0 if there was none. */
  ghost predicate LatestSlot(h: seq<Outcome>, slot: uint64) {
    && (forall k | 0 <= k < |h| && h[k].Success? && (forall j | k < j < |h| :: h[j].Failure?) :: slot == h[k].slot)
    && ((forall k | 0 <= k < |h| :: h[k].Failure?) ==> slot == 0)
  }

  /** An endpoint's slot is that of its latest success, in rotation or not. */
  lemma {:induction false} SlotIsLatest(p: Params, h: seq<Outcome>)
    ensures LatestSlot(h, Replay(p, FRESH, h).slot)
  {
    if h != [] {
      var g, n := h[..|h| - 1], |h| - 1;
      SlotIsLatest(p, g);
      if h[n].Failure? {
        forall k | 0 <= k < |h| && h[k].Success? && (forall j | k < j < |h| :: h[j].Failure?)
          ensures Replay(p, FRESH, g).slot == h[k].slot
        {
          assert g[k] == h[k] && forall j | k < j < |g| :: g[j] == h[j];
        }
        if forall k | 0 <= k < |h| :: h[k].Failure? {
          assert forall k | 0 <= k < |g| :: g[k] == h[k];
        }
      }
    }
  }
}
