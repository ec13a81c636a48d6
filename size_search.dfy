/**
 * The byte-budget search of services/imageUtils.ts: `optimizeToSize` (phase 1,
 * scale reduction at a fixed quality) and `binarySearchQuality` (phase 2,
 * bisection of the quality at the scale phase 1 settled on).
 *
 * The canvas work and the WebP encoder behind `getCroppedImg` are one abstract
 * function `encode(scale, quality)`, giving the blob's byte size or `None` when
 * no blob came back. `Math.sqrt` is the parameter `sqrt`. Every encoder call is
 * recorded as a `Probe`, so the searches return their call log beside the blob.
 *
 * Each search is defined twice: as a recursive function (the specification)
 * and as the source's loop (a method proved equal to it). The lemmas state
 * what the search promises about the function.
 */
module SizeSearch {
  import opened Wrappers

  /** `getCroppedImg` at a fixed source, crop, rotation and watermark: (scale, quality) -> blob size. */
  type Encoder = (real, real) -> Option<nat>

  const MaxAttempts: nat := 8
  const ProbeQuality: real := 0.5
  const ScaleFloor: real := 0.1
  const Damping: real := 0.92
  const QualitySteps: nat := 5
  const QualityLow: real := 0.1
  const QualityHigh: real := 1.0

  /** One encoder call: its arguments and what it returned. */
  datatype Probe = Probe(scale: real, quality: real, size: Option<nat>)

  /** The outcome of a search: the blob handed back (its size) and the encoder calls made. */
  datatype Search = Search(blob: Option<nat>, probes: seq<Probe>)

  /** The outcome of phase 1: the scale handed to phase 2 (`None` after an encoder failure) and the calls made. */
  datatype ScaleOutcome = ScaleOutcome(settled: Option<real>, probes: seq<Probe>)

  predicate InBudget(p: Probe, maxBytes: nat)
  {
    p.size.Some? && p.size.value <= maxBytes
  }

  predicate OverBudget(p: Probe, maxBytes: nat)
  {
    p.size.Some? && p.size.value > maxBytes
  }

  /** The probe records what the encoder really returns for its arguments. */
  predicate Logged(encode: Encoder, p: Probe)
  {
    p.size == encode(p.scale, p.quality)
  }

  /** What the search relies on of `Math.sqrt`: a ratio in [0, 1) stays in [0, 1). */
  ghost predicate SqrtInUnit(sqrt: real -> real)
  {
    forall x: real :: 0.0 <= x < 1.0 ==> 0.0 <= sqrt(x) < 1.0
  }

  function Last(ps: seq<Probe>): Probe
    requires ps != []
  {
    ps[|ps| - 1]
  }

  function Pow2(n: nat): (r: nat)
    ensures r >= 1
  {
    if n == 0 then 1 else 2 * Pow2(n - 1)
  }

  // ---------------------------------------------------------------- phase 1

  /** The scale after an over-budget probe: shrink by the damped size ratio, floored at 0.1. */
  function NextScale(sqrt: real -> real, scale: real, size: nat, maxBytes: nat): real
    requires size > maxBytes
  {
    var next := scale * sqrt(maxBytes as real / size as real) * Damping;
    if next < ScaleFloor then ScaleFloor else next
  }

  /** Phase 1 from attempt `attempt` on, at the current `scale`. */
  function ScalePhase(encode: Encoder, sqrt: real -> real, maxBytes: nat, scale: real, attempt: nat): ScaleOutcome
    decreases MaxAttempts - attempt
  {
    if attempt >= MaxAttempts then ScaleOutcome(Some(scale), [])
    else
      var p := Probe(scale, ProbeQuality, encode(scale, ProbeQuality));
      match p.size
      case None => ScaleOutcome(None, [p])
      case Some(n) =>
        if n <= maxBytes then ScaleOutcome(Some(scale), [p])
        else
          var rest := ScalePhase(encode, sqrt, maxBytes, NextScale(sqrt, scale, n, maxBytes), attempt + 1);
          ScaleOutcome(rest.settled, [p] + rest.probes)
  }

  /** One attempt of phase 1. */
  lemma ScalePhaseStep(encode: Encoder, sqrt: real -> real, maxBytes: nat, scale: real, attempt: nat)
    requires attempt < MaxAttempts
    ensures var p := Probe(scale, ProbeQuality, encode(scale, ProbeQuality));
      ScalePhase(encode, sqrt, maxBytes, scale, attempt) ==
        if p.size.None? then ScaleOutcome(None, [p])
        else if p.size.value <= maxBytes then ScaleOutcome(Some(scale), [p])
        else
          var rest := ScalePhase(encode, sqrt, maxBytes, NextScale(sqrt, scale, p.size.value, maxBytes), attempt + 1);
          ScaleOutcome(rest.settled, [p] + rest.probes)
  {
  }

  /** An attempt whose call failed or fit ends phase 1. */
  lemma ScalePhaseEnds(encode: Encoder, sqrt: real -> real, maxBytes: nat, scale: real, attempt: nat)
    requires attempt < MaxAttempts && !OverBudget(Probe(scale, ProbeQuality, encode(scale, ProbeQuality)), maxBytes)
    ensures var p := Probe(scale, ProbeQuality, encode(scale, ProbeQuality));
      ScalePhase(encode, sqrt, maxBytes, scale, attempt) == ScaleOutcome(if p.size.None? then None else Some(scale), [p])
  {
  }

  /** An attempt whose call was over budget shrinks the scale and goes on. */
  lemma ScalePhaseOver(encode: Encoder, sqrt: real -> real, maxBytes: nat, scale: real, attempt: nat)
    requires attempt < MaxAttempts && OverBudget(Probe(scale, ProbeQuality, encode(scale, ProbeQuality)), maxBytes)
    ensures var p := Probe(scale, ProbeQuality, encode(scale, ProbeQuality));
      var rest := ScalePhase(encode, sqrt, maxBytes, NextScale(sqrt, scale, p.size.value, maxBytes), attempt + 1);
      ScalePhase(encode, sqrt, maxBytes, scale, attempt) == ScaleOutcome(rest.settled, [p] + rest.probes)
  {
  }

  lemma DivBelowOne(m: nat, s: nat)
    requires m < s
    ensures 0.0 <= m as real / s as real < 1.0
  {
    var x := m as real / s as real;
    assert x * s as real == m as real;
    assert (1.0 - x) * s as real == s as real - m as real;
  }

  lemma MulBelow(a: real, b: real)
    requires a >= 0.0 && 0.0 <= b < 1.0
    ensures 0.0 <= a * b <= a
  {
    assert a * (1.0 - b) >= 0.0;
  }

  /** A ratio in [0, 1) never raises the scale, which stays within [0.1, 1.0]. */
  lemma NextScaleBounds(sqrt: real -> real, scale: real, size: nat, maxBytes: nat)
    requires SqrtInUnit(sqrt)
    requires ScaleFloor <= scale <= 1.0 && size > maxBytes
    ensures ScaleFloor <= NextScale(sqrt, scale, size, maxBytes) <= scale
    ensures NextScale(sqrt, scale, size, maxBytes) < scale || NextScale(sqrt, scale, size, maxBytes) == ScaleFloor
  {
    var x := maxBytes as real / size as real;
    DivBelowOne(maxBytes, size);
    var ratio := sqrt(x);
    MulBelow(scale, ratio);
    MulBelow(scale * ratio, Damping);
  }

  /** Phase 1 makes at most one call per remaining attempt, all at quality 0.5, at scales that never grow. */
  lemma {:induction false} ScalePhaseShape(encode: Encoder, sqrt: real -> real, maxBytes: nat, scale: real, attempt: nat)
    requires SqrtInUnit(sqrt)
    requires ScaleFloor <= scale <= 1.0 && attempt <= MaxAttempts
    ensures var s := ScalePhase(encode, sqrt, maxBytes, scale, attempt);
      && |s.probes| <= MaxAttempts - attempt
      && (forall k :: 0 <= k < |s.probes| ==> Logged(encode, s.probes[k]) && s.probes[k].quality == ProbeQuality)
      && (forall k :: 0 <= k < |s.probes| ==> ScaleFloor <= s.probes[k].scale <= scale)
      && (s.probes != [] ==> s.probes[0].scale == scale)
      && (forall j, k :: 0 <= j <= k < |s.probes| ==> s.probes[k].scale <= s.probes[j].scale)
      && (s.settled.Some? ==> ScaleFloor <= s.settled.value <= scale)
      && (s.settled.Some? ==> forall k :: 0 <= k < |s.probes| ==> s.settled.value <= s.probes[k].scale)
    decreases MaxAttempts - attempt
  {
    if attempt < MaxAttempts {
      var size := encode(scale, ProbeQuality);
      if !(size.Some? && size.value > maxBytes) {
        ScalePhaseEnds(encode, sqrt, maxBytes, scale, attempt);
      } else {
        ScalePhaseOver(encode, sqrt, maxBytes, scale, attempt);
        var next := NextScale(sqrt, scale, size.value, maxBytes);
        NextScaleBounds(sqrt, scale, size.value, maxBytes);
        ScalePhaseShape(encode, sqrt, maxBytes, next, attempt + 1);
      }
    }
  }

  /** Every call but the last came back over budget, and the next call is at the scale `NextScale` derives from it. */
  lemma {:induction false} ScalePhaseSteps(encode: Encoder, sqrt: real -> real, maxBytes: nat, scale: real, attempt: nat)
    ensures var ps := ScalePhase(encode, sqrt, maxBytes, scale, attempt).probes;
      forall k :: 0 <= k < |ps| - 1 ==>
        OverBudget(ps[k], maxBytes) && ps[k + 1].scale == NextScale(sqrt, ps[k].scale, ps[k].size.value, maxBytes)
    decreases MaxAttempts - attempt
  {
    if attempt < MaxAttempts {
      var size := encode(scale, ProbeQuality);
      if !(size.Some? && size.value > maxBytes) {
        ScalePhaseEnds(encode, sqrt, maxBytes, scale, attempt);
      } else {
        ScalePhaseOver(encode, sqrt, maxBytes, scale, attempt);
        ScalePhaseSteps(encode, sqrt, maxBytes, NextScale(sqrt, scale, size.value, maxBytes), attempt + 1);
      }
    }
  }

  /**
   * How phase 1 ends: a failed call ends the whole search; an in-budget call hands its
   * own scale to phase 2; otherwise all attempts were used and the scale derived from
   * the last over-budget call is handed on.
   */
  lemma {:induction false} ScalePhaseExit(encode: Encoder, sqrt: real -> real, maxBytes: nat, scale: real, attempt: nat)
    requires attempt <= MaxAttempts
    ensures var s := ScalePhase(encode, sqrt, maxBytes, scale, attempt);
      && (s.settled.None? <==> s.probes != [] && Last(s.probes).size.None?)
      && (s.probes != [] && InBudget(Last(s.probes), maxBytes) ==> s.settled == Some(Last(s.probes).scale))
      && (s.probes == [] ==> s.settled == Some(scale) && attempt == MaxAttempts)
      && (s.probes != [] && OverBudget(Last(s.probes), maxBytes) ==>
            |s.probes| == MaxAttempts - attempt &&
            s.settled == Some(NextScale(sqrt, Last(s.probes).scale, Last(s.probes).size.value, maxBytes)))
    decreases MaxAttempts - attempt
  {
    if attempt < MaxAttempts {
      var size := encode(scale, ProbeQuality);
      if !(size.Some? && size.value > maxBytes) {
        ScalePhaseEnds(encode, sqrt, maxBytes, scale, attempt);
      } else {
        ScalePhaseOver(encode, sqrt, maxBytes, scale, attempt);
        var next := NextScale(sqrt, scale, size.value, maxBytes);
        ScalePhaseExit(encode, sqrt, maxBytes, next, attempt + 1);
      }
    }
  }

  // ---------------------------------------------------------------- phase 2

  /** The final unconditional encode at quality 0.1. */
  function Fallback(encode: Encoder, scale: real): Probe
  {
    Probe(scale, QualityLow, encode(scale, QualityLow))
  }

  /** `bestBlob || getCroppedImg(..., 0.1, ...)`. */
  function Finish(encode: Encoder, scale: real, best: Option<nat>): Search
  {
    if best.Some? then Search(best, [])
    else
      var p := Fallback(encode, scale);
      Search(p.size, [p])
  }

  /** Phase 2 from iteration `i` on, with the bracket [`low`, `high`] and the best in-budget size so far. */
  function QualityPhase(encode: Encoder, maxBytes: nat, scale: real, low: real, high: real, best: Option<nat>, i: nat): Search
    decreases QualitySteps - i
  {
    if i >= QualitySteps then Finish(encode, scale, best)
    else
      var mid := (low + high) / 2.0;
      var p := Probe(scale, mid, encode(scale, mid));
      match p.size
      case None =>
        var f := Finish(encode, scale, best);
        Search(f.blob, [p] + f.probes)
      case Some(n) =>
        var rest :=
          if n <= maxBytes then QualityPhase(encode, maxBytes, scale, mid, high, p.size, i + 1)
          else QualityPhase(encode, maxBytes, scale, low, mid, best, i + 1);
        Search(rest.blob, [p] + rest.probes)
  }

  /** `s` preceded by the encoder call `p`. */
  function Prepend(p: Probe, s: Search): Search
  {
    Search(s.blob, [p] + s.probes)
  }

  /** `s` preceded by the encoder calls `ps`. */
  function After(ps: seq<Probe>, s: Search): Search
  {
    Search(s.blob, ps + s.probes)
  }

  /** Phase 1 preceded by the encoder calls `ps`. */
  function Resumed(ps: seq<Probe>, s: ScaleOutcome): ScaleOutcome
  {
    ScaleOutcome(s.settled, ps + s.probes)
  }

  lemma ResumedPrepend(ps: seq<Probe>, p: Probe, rest: ScaleOutcome)
    ensures Resumed(ps, ScaleOutcome(rest.settled, [p] + rest.probes)) == Resumed(ps + [p], rest)
  {
    assert (ps + [p]) + rest.probes == ps + ([p] + rest.probes);
  }

  lemma AfterPrepend(ps: seq<Probe>, p: Probe, s: Search)
    ensures After(ps + [p], s) == After(ps, Prepend(p, s))
  {
    assert (ps + [p]) + s.probes == ps + ([p] + s.probes);
  }

  /** One iteration of phase 2. */
  lemma QualityPhaseStep(encode: Encoder, maxBytes: nat, scale: real, low: real, high: real, best: Option<nat>, i: nat)
    requires i < QualitySteps
    ensures var mid := (low + high) / 2.0;
      var p := Probe(scale, mid, encode(scale, mid));
      QualityPhase(encode, maxBytes, scale, low, high, best, i) ==
        if p.size.None? then Prepend(p, Finish(encode, scale, best))
        else if p.size.value <= maxBytes then Prepend(p, QualityPhase(encode, maxBytes, scale, mid, high, p.size, i + 1))
        else Prepend(p, QualityPhase(encode, maxBytes, scale, low, mid, best, i + 1))
  {
  }

  /** An iteration whose call failed: the loop breaks to `bestBlob || fallback`. */
  lemma QualityPhaseFailed(encode: Encoder, maxBytes: nat, scale: real, low: real, high: real, best: Option<nat>, i: nat)
    requires i < QualitySteps && encode(scale, (low + high) / 2.0).None?
    ensures QualityPhase(encode, maxBytes, scale, low, high, best, i) ==
      Prepend(Probe(scale, (low + high) / 2.0, None), Finish(encode, scale, best))
  {
  }

  /** An iteration whose call fit: the bracket moves up and the blob becomes the best. */
  lemma QualityPhaseHit(encode: Encoder, maxBytes: nat, scale: real, low: real, high: real, best: Option<nat>, i: nat)
    requires i < QualitySteps && InBudget(Probe(scale, (low + high) / 2.0, encode(scale, (low + high) / 2.0)), maxBytes)
    ensures var mid := (low + high) / 2.0;
      QualityPhase(encode, maxBytes, scale, low, high, best, i) ==
        Prepend(Probe(scale, mid, encode(scale, mid)), QualityPhase(encode, maxBytes, scale, mid, high, encode(scale, mid), i + 1))
  {
  }

  /** An iteration whose call was over budget: the bracket moves down. */
  lemma QualityPhaseMiss(encode: Encoder, maxBytes: nat, scale: real, low: real, high: real, best: Option<nat>, i: nat)
    requires i < QualitySteps && OverBudget(Probe(scale, (low + high) / 2.0, encode(scale, (low + high) / 2.0)), maxBytes)
    ensures var mid := (low + high) / 2.0;
      QualityPhase(encode, maxBytes, scale, low, high, best, i) ==
        Prepend(Probe(scale, mid, encode(scale, mid)), QualityPhase(encode, maxBytes, scale, low, mid, best, i + 1))
  {
  }

  /** The source's bracket invariant at iteration `i`: 0.1 <= low < high <= 1.0 and high - low == 0.9 / 2^i. */
  predicate Bracket(low: real, high: real, i: nat)
  {
    QualityLow <= low < high <= QualityHigh && (high - low) * Pow2(i) as real == QualityHigh - QualityLow
  }

  /** Bisection keeps the bracket: `mid` lies strictly inside, and either half is the bracket of iteration `i + 1`. */
  lemma BracketStep(low: real, high: real, i: nat)
    requires Bracket(low, high, i)
    ensures var mid := (low + high) / 2.0;
      low < mid < high && Bracket(mid, high, i + 1) && Bracket(low, mid, i + 1)
  {
    var d := Pow2(i) as real;
    assert Pow2(i + 1) as real == 2.0 * d;
    assert (high - low) / 2.0 * (2.0 * d) == (high - low) * d;
  }

  /**
   * One iteration of the source's loop, in terms of the loop's state: the
   * calls made so far (`probes`) followed by phase 2 from the current state
   * always give the whole of phase 2.
   */
  lemma QualityIteration(encode: Encoder, maxBytes: nat, scale: real, low: real, high: real, best: Option<nat>, i: nat,
                         mid: real, size: Option<nat>, before: seq<Probe>, after: seq<Probe>, whole: Search)
    requires i < QualitySteps
    requires mid == (low + high) / 2.0 && size == encode(scale, mid)
    requires after == before + [Probe(scale, mid, size)]
    requires whole == After(before, QualityPhase(encode, maxBytes, scale, low, high, best, i))
    ensures size.None? ==> whole == After(after, Finish(encode, scale, best))
    ensures size.Some? && size.value <= maxBytes ==>
              whole == After(after, QualityPhase(encode, maxBytes, scale, mid, high, size, i + 1))
    ensures size.Some? && size.value > maxBytes ==>
              whole == After(after, QualityPhase(encode, maxBytes, scale, low, mid, best, i + 1))
  {
    QualityPhaseStep(encode, maxBytes, scale, low, high, best, i);
    var p := Probe(scale, mid, size);
    if size.None? {
      AfterPrepend(before, p, Finish(encode, scale, best));
    } else if size.value <= maxBytes {
      AfterPrepend(before, p, QualityPhase(encode, maxBytes, scale, mid, high, size, i + 1));
    } else {
      AfterPrepend(before, p, QualityPhase(encode, maxBytes, scale, low, mid, best, i + 1));
    }
  }

  /** After the fifth iteration only `bestBlob || ...` remains. */
  lemma QualityPhaseDone(encode: Encoder, maxBytes: nat, scale: real, low: real, high: real, best: Option<nat>, i: nat)
    requires i >= QualitySteps
    ensures QualityPhase(encode, maxBytes, scale, low, high, best, i) == Finish(encode, scale, best)
  {
  }

  /** The `bestBlob || fallback` tail, appended to the probes made so far. */
  lemma FinishAfter(encode: Encoder, scale: real, best: Option<nat>, probes: seq<Probe>, whole: Search)
    requires whole == After(probes, Finish(encode, scale, best))
    ensures best.Some? ==> whole == Search(best, probes)
    ensures best.None? ==>
      whole == Search(encode(scale, QualityLow), probes + [Probe(scale, QualityLow, encode(scale, QualityLow))])
  {
  }

  /** Some call in `ps` came back within budget. */
  predicate Fits(ps: seq<Probe>, maxBytes: nat)
  {
    exists k :: 0 <= k < |ps| && InBudget(ps[k], maxBytes)
  }

  /** Some call in `ps` above quality `q` came back within budget. */
  predicate FitsAbove(ps: seq<Probe>, maxBytes: nat, q: real)
  {
    exists k :: 0 <= k < |ps| && q < ps[k].quality && InBudget(ps[k], maxBytes)
  }

  /** `blob` is what an in-budget call of `ps` returned, and no in-budget call was at a higher quality. */
  predicate BestFit(ps: seq<Probe>, maxBytes: nat, blob: Option<nat>)
  {
    exists k :: 0 <= k < |ps| && InBudget(ps[k], maxBytes) && blob == ps[k].size &&
      forall j :: 0 <= j < |ps| && InBudget(ps[j], maxBytes) ==> ps[j].quality <= ps[k].quality
  }

  /**
   * The calls of phase 2 from a bracket (`low`, `high`): all logged at `scale`, each strictly
   * inside the bracket except a final fallback, which only a search without a best blob makes.
   */
  predicate Bisected(encode: Encoder, scale: real, low: real, high: real, noBest: bool, ps: seq<Probe>)
  {
    && (forall k :: 0 <= k < |ps| ==> Logged(encode, ps[k]) && ps[k].scale == scale)
    && (forall k :: 0 <= k < |ps| ==>
          low < ps[k].quality < high || (k == |ps| - 1 && ps[k] == Fallback(encode, scale) && noBest))
  }

  lemma BisectedCons(encode: Encoder, scale: real, low: real, high: real, noBest: bool,
                     low': real, high': real, noBest': bool, p: Probe, rest: seq<Probe>)
    requires Bisected(encode, scale, low', high', noBest', rest)
    requires low <= low' && high' <= high && (noBest' ==> noBest)
    requires Logged(encode, p) && p.scale == scale && low < p.quality < high
    ensures Bisected(encode, scale, low, high, noBest, [p] + rest)
  {
    var ps := [p] + rest;
    forall k | 0 <= k < |ps|
      ensures Logged(encode, ps[k]) && ps[k].scale == scale
      ensures low < ps[k].quality < high || (k == |ps| - 1 && ps[k] == Fallback(encode, scale) && noBest)
    {
      if k > 0 {
        assert ps[k] == rest[k - 1];
      }
    }
  }

  lemma FitsCons(p: Probe, rest: seq<Probe>, maxBytes: nat)
    ensures Fits([p] + rest, maxBytes) <==> InBudget(p, maxBytes) || Fits(rest, maxBytes)
  {
    var ps := [p] + rest;
    if Fits(rest, maxBytes) {
      var k :| 0 <= k < |rest| && InBudget(rest[k], maxBytes);
      assert ps[k + 1] == rest[k];
    }
    if InBudget(p, maxBytes) {
      assert InBudget(ps[0], maxBytes);
    }
    if Fits(ps, maxBytes) && !InBudget(p, maxBytes) {
      var k :| 0 <= k < |ps| && InBudget(ps[k], maxBytes);
      assert rest[k - 1] == ps[k];
    }
  }

  lemma FitsAboveCons(p: Probe, rest: seq<Probe>, maxBytes: nat, q: real)
    ensures FitsAbove([p] + rest, maxBytes, q) <==> (q < p.quality && InBudget(p, maxBytes)) || FitsAbove(rest, maxBytes, q)
  {
    var ps := [p] + rest;
    if FitsAbove(rest, maxBytes, q) {
      var k :| 0 <= k < |rest| && q < rest[k].quality && InBudget(rest[k], maxBytes);
      assert ps[k + 1] == rest[k];
    }
    if q < p.quality && InBudget(p, maxBytes) {
      assert q < ps[0].quality && InBudget(ps[0], maxBytes);
    }
    if FitsAbove(ps, maxBytes, q) && !(q < p.quality && InBudget(p, maxBytes)) {
      var k :| 0 <= k < |ps| && q < ps[k].quality && InBudget(ps[k], maxBytes);
      assert rest[k - 1] == ps[k];
    }
  }

  /** A call that did not fit does not change which call fits best. */
  lemma BestFitPastMiss(p: Probe, rest: seq<Probe>, maxBytes: nat, blob: Option<nat>)
    requires !InBudget(p, maxBytes) && BestFit(rest, maxBytes, blob)
    ensures BestFit([p] + rest, maxBytes, blob)
  {
    var ps := [p] + rest;
    var k :| 0 <= k < |rest| && InBudget(rest[k], maxBytes) && blob == rest[k].size &&
      forall j :: 0 <= j < |rest| && InBudget(rest[j], maxBytes) ==> rest[j].quality <= rest[k].quality;
    assert ps[k + 1] == rest[k];
    forall j | 0 <= j < |ps| && InBudget(ps[j], maxBytes)
      ensures ps[j].quality <= ps[k + 1].quality
    {
      assert ps[j] == rest[j - 1];
    }
  }

  /** A fitting call below every later call: the best fit among the later ones, or itself if none fits. */
  lemma BestFitPastHit(p: Probe, rest: seq<Probe>, maxBytes: nat, blob: Option<nat>)
    requires InBudget(p, maxBytes)
    requires forall k :: 0 <= k < |rest| ==> p.quality < rest[k].quality
    requires if Fits(rest, maxBytes) then BestFit(rest, maxBytes, blob) else blob == p.size
    ensures BestFit([p] + rest, maxBytes, blob)
  {
    var ps := [p] + rest;
    if Fits(rest, maxBytes) {
      var k :| 0 <= k < |rest| && InBudget(rest[k], maxBytes) && blob == rest[k].size &&
        forall j :: 0 <= j < |rest| && InBudget(rest[j], maxBytes) ==> rest[j].quality <= rest[k].quality;
      assert ps[k + 1] == rest[k];
      forall j | 0 <= j < |ps| && InBudget(ps[j], maxBytes)
        ensures ps[j].quality <= ps[k + 1].quality
      {
        if j > 0 {
          assert ps[j] == rest[j - 1];
        }
      }
    } else {
      assert InBudget(ps[0], maxBytes) && blob == ps[0].size;
      forall j | 0 < j < |ps|
        ensures !InBudget(ps[j], maxBytes)
      {
        assert ps[j] == rest[j - 1];
      }
    }
  }

  /** Phase 2 makes at most one call per remaining iteration plus the fallback; the first is at the bracket's midpoint. */
  lemma {:induction false} QualityPhaseCalls(encode: Encoder, maxBytes: nat, scale: real, low: real, high: real,
                                             best: Option<nat>, i: nat)
    requires i <= QualitySteps
    ensures var ps := QualityPhase(encode, maxBytes, scale, low, high, best, i).probes;
      && |ps| <= QualitySteps - i + 1
      && (i < QualitySteps ==> ps != [] && ps[0] == Probe(scale, (low + high) / 2.0, encode(scale, (low + high) / 2.0)))
    decreases QualitySteps - i
  {
    if i < QualitySteps {
      var mid := (low + high) / 2.0;
      var p := Probe(scale, mid, encode(scale, mid));
      if p.size.None? {
        QualityPhaseFailed(encode, maxBytes, scale, low, high, best, i);
      } else if p.size.value <= maxBytes {
        QualityPhaseHit(encode, maxBytes, scale, low, high, best, i);
        QualityPhaseCalls(encode, maxBytes, scale, mid, high, p.size, i + 1);
      } else {
        QualityPhaseMiss(encode, maxBytes, scale, low, high, best, i);
        QualityPhaseCalls(encode, maxBytes, scale, low, mid, best, i + 1);
      }
    }
  }

  /**
   * Every call of phase 2 is at the settled scale and strictly inside the bracket, except
   * a final fallback, which only a search without a best blob makes.
   */
  lemma {:induction false} QualityPhaseShape(encode: Encoder, maxBytes: nat, scale: real, low: real, high: real,
                                             best: Option<nat>, i: nat)
    requires i <= QualitySteps && Bracket(low, high, i)
    requires best.None? ==> low == QualityLow
    ensures Bisected(encode, scale, low, high, best.None?, QualityPhase(encode, maxBytes, scale, low, high, best, i).probes)
    decreases QualitySteps - i
  {
    if i < QualitySteps {
      var mid := (low + high) / 2.0;
      BracketStep(low, high, i);
      var p := Probe(scale, mid, encode(scale, mid));
      if p.size.None? {
        QualityPhaseFailed(encode, maxBytes, scale, low, high, best, i);
        BisectedCons(encode, scale, low, high, best.None?, low, high, best.None?, p, Finish(encode, scale, best).probes);
      } else if p.size.value <= maxBytes {
        QualityPhaseHit(encode, maxBytes, scale, low, high, best, i);
        QualityPhaseShape(encode, maxBytes, scale, mid, high, p.size, i + 1);
        BisectedCons(encode, scale, low, high, best.None?, mid, high, false, p,
                     QualityPhase(encode, maxBytes, scale, mid, high, p.size, i + 1).probes);
      } else {
        QualityPhaseMiss(encode, maxBytes, scale, low, high, best, i);
        QualityPhaseShape(encode, maxBytes, scale, low, mid, best, i + 1);
        BisectedCons(encode, scale, low, high, best.None?, low, mid, best.None?, p,
                     QualityPhase(encode, maxBytes, scale, low, mid, best, i + 1).probes);
      }
    }
  }

  /**
   * What phase 2 hands back: the in-budget blob of the highest quality tried; failing
   * that the best blob it started with; failing that the fallback blob at quality 0.1,
   * whatever its size. The fallback call is made exactly when no bisection call fit.
   */
  predicate Handed(encode: Encoder, maxBytes: nat, scale: real, low: real, best: Option<nat>, r: Search)
  {
    && (Fits(r.probes, maxBytes) ==> BestFit(r.probes, maxBytes, r.blob))
    && (!Fits(r.probes, maxBytes) && best.Some? ==> r.blob == best)
    && (!Fits(r.probes, maxBytes) && best.None? ==>
          r.probes != [] && Last(r.probes) == Fallback(encode, scale) && r.blob == Last(r.probes).size)
    && ((r.probes != [] && Last(r.probes) == Fallback(encode, scale)) <==>
          best.None? && !FitsAbove(r.probes, maxBytes, low))
  }

  /** The `bestBlob || fallback` tail satisfies `Handed` on its own. */
  lemma FinishHanded(encode: Encoder, maxBytes: nat, scale: real, best: Option<nat>)
    ensures Handed(encode, maxBytes, scale, QualityLow, best, Finish(encode, scale, best))
  {
    var r := Finish(encode, scale, best);
    if best.None? {
      assert r.probes[0] == Fallback(encode, scale);
    }
  }

  lemma {:induction false} QualityPhaseResult(encode: Encoder, maxBytes: nat, scale: real, low: real, high: real,
                                              best: Option<nat>, i: nat)
    requires i <= QualitySteps && Bracket(low, high, i)
    requires best.None? ==> low == QualityLow
    ensures Handed(encode, maxBytes, scale, low, best, QualityPhase(encode, maxBytes, scale, low, high, best, i))
    decreases QualitySteps - i
  {
    if i >= QualitySteps {
      FinishHanded(encode, maxBytes, scale, best);
    } else {
      var mid := (low + high) / 2.0;
      BracketStep(low, high, i);
      var p := Probe(scale, mid, encode(scale, mid));
      if p.size.None? {
        QualityPhaseFailed(encode, maxBytes, scale, low, high, best, i);
        FinishStep(encode, maxBytes, scale, low, best, p, Finish(encode, scale, best));
      } else if p.size.value <= maxBytes {
        QualityPhaseHit(encode, maxBytes, scale, low, high, best, i);
        var rest := QualityPhase(encode, maxBytes, scale, mid, high, p.size, i + 1);
        QualityPhaseShape(encode, maxBytes, scale, mid, high, p.size, i + 1);
        QualityPhaseResult(encode, maxBytes, scale, mid, high, p.size, i + 1);
        HitStep(encode, maxBytes, scale, low, high, mid, best, p, rest);
      } else {
        QualityPhaseMiss(encode, maxBytes, scale, low, high, best, i);
        var rest := QualityPhase(encode, maxBytes, scale, low, mid, best, i + 1);
        QualityPhaseShape(encode, maxBytes, scale, low, mid, best, i + 1);
        QualityPhaseResult(encode, maxBytes, scale, low, mid, best, i + 1);
        MissStep(encode, maxBytes, scale, low, mid, best, p, rest);
      }
    }
  }

  /** A failed bisection call followed by the `bestBlob || fallback` tail. */
  lemma FinishStep(encode: Encoder, maxBytes: nat, scale: real, low: real, best: Option<nat>, p: Probe, f: Search)
    requires QualityLow <= low < p.quality && p.size.None?
    requires f == Finish(encode, scale, best)
    ensures Handed(encode, maxBytes, scale, low, best, Prepend(p, f))
  {
    var ps := [p] + f.probes;
    FitsCons(p, f.probes, maxBytes);
    FitsAboveCons(p, f.probes, maxBytes, low);
    if best.None? {
      assert ps[1] == Fallback(encode, scale);
      if InBudget(ps[1], maxBytes) {
        forall j | 0 <= j < |ps| && InBudget(ps[j], maxBytes)
          ensures ps[j].quality <= ps[1].quality
        {
        }
      }
    }
  }

  /** A fitting bisection call followed by the rest of the search from the upper half. */
  lemma HitStep(encode: Encoder, maxBytes: nat, scale: real, low: real, high: real, mid: real, best: Option<nat>,
                p: Probe, rest: Search)
    requires QualityLow <= low < mid && p.quality == mid && InBudget(p, maxBytes)
    requires Bisected(encode, scale, mid, high, false, rest.probes)
    requires Handed(encode, maxBytes, scale, mid, p.size, rest)
    ensures Handed(encode, maxBytes, scale, low, best, Prepend(p, rest))
  {
    var ps := [p] + rest.probes;
    FitsCons(p, rest.probes, maxBytes);
    FitsAboveCons(p, rest.probes, maxBytes, low);
    BestFitPastHit(p, rest.probes, maxBytes, rest.blob);
    if rest.probes != [] {
      assert Last(rest.probes).quality > mid;
    }
  }

  /** An over-budget bisection call followed by the rest of the search from the lower half. */
  lemma MissStep(encode: Encoder, maxBytes: nat, scale: real, low: real, mid: real, best: Option<nat>,
                 p: Probe, rest: Search)
    requires QualityLow <= low < mid && p.quality == mid && OverBudget(p, maxBytes)
    requires Bisected(encode, scale, low, mid, best.None?, rest.probes)
    requires Handed(encode, maxBytes, scale, low, best, rest)
    ensures Handed(encode, maxBytes, scale, low, best, Prepend(p, rest))
  {
    FitsCons(p, rest.probes, maxBytes);
    FitsAboveCons(p, rest.probes, maxBytes, low);
    if Fits(rest.probes, maxBytes) {
      BestFitPastMiss(p, rest.probes, maxBytes, rest.blob);
    }
  }

  /** `binarySearchQuality` as a function. */
  function QualitySearch(encode: Encoder, maxBytes: nat, scale: real): Search
  {
    QualityPhase(encode, maxBytes, scale, QualityLow, QualityHigh, None, 0)
  }

  /** `optimizeToSize` as a function: phase 1 from scale 1.0, then phase 2 unless an encode failed. */
  function Optimization(encode: Encoder, sqrt: real -> real, maxBytes: nat): Search
  {
    var s := ScalePhase(encode, sqrt, maxBytes, 1.0, 0);
    match s.settled
    case None => Search(None, s.probes)
    case Some(scale) =>
      var q := QualitySearch(encode, maxBytes, scale);
      Search(q.blob, s.probes + q.probes)
  }

  // ---------------------------------------------------------------- what the search promises

  /**
   * The bisection: after a call that came back, the next bisection call moves by a quarter of
   * the bracket that call halved, up after a fit and down otherwise; the step from call `k`
   * of iteration `i` is 0.9 / 2^(i + k + 2).
   */
  predicate Halving(ps: seq<Probe>, maxBytes: nat, i: nat)
  {
    forall k :: 0 <= k < |ps| - 1 && i + k + 1 < QualitySteps && ps[k].size.Some? ==> Moved(ps[k], ps[k + 1], i + k + 2, maxBytes)
  }

  /** `next` lies 0.9 / 2^n above `p` when `p` fit, and as far below when it did not. */
  predicate Moved(p: Probe, next: Probe, n: nat, maxBytes: nat)
  {
    (next.quality - p.quality) * Pow2(n) as real ==
      if InBudget(p, maxBytes) then QualityHigh - QualityLow else QualityLow - QualityHigh
  }

  /** The next bisection call is a quarter of the bracket away from the midpoint `p` was made at. */
  lemma QuarterStep(low: real, high: real, i: nat, p: Probe, next: Probe, maxBytes: nat)
    requires Bracket(low, high, i) && p.quality == (low + high) / 2.0
    requires next.quality == if InBudget(p, maxBytes) then (p.quality + high) / 2.0 else (low + p.quality) / 2.0
    ensures Moved(p, next, i + 2, maxBytes)
  {
    var d := Pow2(i) as real;
    assert Pow2(i + 2) as real == 4.0 * d;
    assert (high - low) / 4.0 * (4.0 * d) == (high - low) * d;
    if InBudget(p, maxBytes) {
      assert next.quality - p.quality == (high - low) / 4.0;
    } else {
      assert next.quality - p.quality == -((high - low) / 4.0);
    }
  }

  lemma HalvingCons(p: Probe, rest: seq<Probe>, maxBytes: nat, i: nat)
    requires Halving(rest, maxBytes, i + 1)
    requires rest != [] && i + 1 < QualitySteps && p.size.Some? ==> Moved(p, rest[0], i + 2, maxBytes)
    ensures Halving([p] + rest, maxBytes, i)
  {
    var ps := [p] + rest;
    forall k | 0 <= k < |ps| - 1 && i + k + 1 < QualitySteps && ps[k].size.Some?
      ensures Moved(ps[k], ps[k + 1], i + k + 2, maxBytes)
    {
      if k > 0 {
        assert ps[k] == rest[k - 1] && ps[k + 1] == rest[k - 1 + 1];
        assert (i + 1) + (k - 1) + 2 == i + k + 2;
      }
    }
  }

  lemma {:induction false} QualityPhaseHalving(encode: Encoder, maxBytes: nat, scale: real, low: real, high: real,
                                               best: Option<nat>, i: nat)
    requires i <= QualitySteps && Bracket(low, high, i)
    ensures Halving(QualityPhase(encode, maxBytes, scale, low, high, best, i).probes, maxBytes, i)
    decreases QualitySteps - i, 0
  {
    if i < QualitySteps {
      var mid := (low + high) / 2.0;
      BracketStep(low, high, i);
      var p := Probe(scale, mid, encode(scale, mid));
      if p.size.None? {
        QualityPhaseFailed(encode, maxBytes, scale, low, high, best, i);
        HalvingCons(p, Finish(encode, scale, best).probes, maxBytes, i);
      } else if p.size.value <= maxBytes {
        QualityPhaseHit(encode, maxBytes, scale, low, high, best, i);
        HalvingAfter(encode, maxBytes, scale, low, high, i, p, mid, high, p.size);
      } else {
        QualityPhaseMiss(encode, maxBytes, scale, low, high, best, i);
        HalvingAfter(encode, maxBytes, scale, low, high, i, p, low, mid, best);
      }
    }
  }

  /** `Halving` across a call `p` that came back, followed by the search from the bracket it leads to. */
  lemma {:induction false} HalvingAfter(encode: Encoder, maxBytes: nat, scale: real, low: real, high: real, i: nat,
                                        p: Probe, low': real, high': real, best': Option<nat>)
    requires i < QualitySteps && Bracket(low, high, i)
    requires p.quality == (low + high) / 2.0 && p.size.Some?
    requires if InBudget(p, maxBytes) then low' == p.quality && high' == high else low' == low && high' == p.quality
    requires Bracket(low', high', i + 1)
    ensures Halving([p] + QualityPhase(encode, maxBytes, scale, low', high', best', i + 1).probes, maxBytes, i)
    decreases QualitySteps - i - 1, 1
  {
    var rest := QualityPhase(encode, maxBytes, scale, low', high', best', i + 1);
    QualityPhaseCalls(encode, maxBytes, scale, low', high', best', i + 1);
    QualityPhaseHalving(encode, maxBytes, scale, low', high', best', i + 1);
    if rest.probes != [] && i + 1 < QualitySteps {
      QuarterStep(low, high, i, p, rest.probes[0], maxBytes);
    }
    HalvingCons(p, rest.probes, maxBytes, i);
  }

  /**
   * `binarySearchQuality` calls the encoder one to six times, all at `scale` and at qualities
   * in [0.1, 1.0), the first at 0.55 and each later bisection call a quarter-bracket step
   * from the one before.
   */
  lemma QualitySearchCalls(encode: Encoder, maxBytes: nat, scale: real)
    ensures var r := QualitySearch(encode, maxBytes, scale);
      && 1 <= |r.probes| <= QualitySteps + 1
      && r.probes[0] == Probe(scale, 0.55, encode(scale, 0.55))
      && (forall k :: 0 <= k < |r.probes| ==> Logged(encode, r.probes[k]) && r.probes[k].scale == scale)
      && (forall k :: 0 <= k < |r.probes| ==> QualityLow <= r.probes[k].quality < QualityHigh)
      && Halving(r.probes, maxBytes, 0)
  {
    assert Bracket(QualityLow, QualityHigh, 0);
    QualityPhaseCalls(encode, maxBytes, scale, QualityLow, QualityHigh, None, 0);
    QualityPhaseShape(encode, maxBytes, scale, QualityLow, QualityHigh, None, 0);
    QualityPhaseHalving(encode, maxBytes, scale, QualityLow, QualityHigh, None, 0);
  }

  /**
   * The blob `binarySearchQuality` hands back: the highest-quality one that fit, or else the
   * fallback blob at quality 0.1, which is made exactly when no bisection call fit and may
   * be over budget or missing.
   */
  lemma QualitySearchResult(encode: Encoder, maxBytes: nat, scale: real)
    ensures var r := QualitySearch(encode, maxBytes, scale);
      && r.probes != []
      && (Fits(r.probes, maxBytes) ==> BestFit(r.probes, maxBytes, r.blob))
      && (!Fits(r.probes, maxBytes) ==> Last(r.probes) == Fallback(encode, scale) && r.blob == Last(r.probes).size)
      && (Last(r.probes) == Fallback(encode, scale) <==> !FitsAbove(r.probes, maxBytes, QualityLow))
  {
    assert Bracket(QualityLow, QualityHigh, 0);
    QualityPhaseCalls(encode, maxBytes, scale, QualityLow, QualityHigh, None, 0);
    QualityPhaseResult(encode, maxBytes, scale, QualityLow, QualityHigh, None, 0);
  }

  /** Scales never grow along `ps` and all lie in [lo, hi]. */
  predicate Descending(ps: seq<Probe>, lo: real, hi: real)
  {
    && (forall k :: 0 <= k < |ps| ==> lo <= ps[k].scale <= hi)
    && (forall j, k :: 0 <= j <= k < |ps| ==> ps[k].scale <= ps[j].scale)
  }

  lemma DescendingConcat(ps: seq<Probe>, qs: seq<Probe>, settled: real, lo: real, hi: real)
    requires Descending(ps, lo, hi) && lo <= settled <= hi
    requires forall k :: 0 <= k < |ps| ==> settled <= ps[k].scale
    requires forall k :: 0 <= k < |qs| ==> qs[k].scale == settled
    ensures Descending(ps + qs, lo, hi)
  {
    var all := ps + qs;
    forall k | 0 <= k < |all|
      ensures lo <= all[k].scale <= hi
    {
      if k >= |ps| {
        assert all[k] == qs[k - |ps|];
      }
    }
    forall j, k | 0 <= j <= k < |all|
      ensures all[k].scale <= all[j].scale
    {
      if k >= |ps| {
        assert all[k] == qs[k - |ps|];
        if j >= |ps| {
          assert all[j] == qs[j - |ps|];
        }
      }
    }
  }

  lemma LoggedConcat(encode: Encoder, ps: seq<Probe>, qs: seq<Probe>)
    requires forall k :: 0 <= k < |ps| ==> Logged(encode, ps[k])
    requires forall k :: 0 <= k < |qs| ==> Logged(encode, qs[k])
    ensures forall k :: 0 <= k < |ps + qs| ==> Logged(encode, (ps + qs)[k])
  {
    forall k | 0 <= k < |ps + qs|
      ensures Logged(encode, (ps + qs)[k])
    {
      if k >= |ps| {
        assert (ps + qs)[k] == qs[k - |ps|];
      }
    }
  }

  /**
   * `optimizeToSize` calls the encoder between once and 8 + 5 + 1 = 14 times, first at
   * scale 1.0 and quality 0.5, at scales in [0.1, 1.0] that never grow.
   */
  lemma OptimizationCalls(encode: Encoder, sqrt: real -> real, maxBytes: nat)
    requires SqrtInUnit(sqrt)
    ensures var r := Optimization(encode, sqrt, maxBytes);
      && 1 <= |r.probes| <= MaxAttempts + QualitySteps + 1
      && r.probes[0] == Probe(1.0, ProbeQuality, encode(1.0, ProbeQuality))
      && (forall k :: 0 <= k < |r.probes| ==> Logged(encode, r.probes[k]))
      && Descending(r.probes, ScaleFloor, 1.0)
  {
    var s := ScalePhase(encode, sqrt, maxBytes, 1.0, 0);
    ScalePhaseShape(encode, sqrt, maxBytes, 1.0, 0);
    ScalePhaseExit(encode, sqrt, maxBytes, 1.0, 0);
    var r := Optimization(encode, sqrt, maxBytes);
    if s.settled.Some? {
      var scale := s.settled.value;
      var q := QualitySearch(encode, maxBytes, scale);
      QualitySearchCalls(encode, maxBytes, scale);
      assert r.probes == s.probes + q.probes;
      DescendingConcat(s.probes, q.probes, scale, ScaleFloor, 1.0);
      LoggedConcat(encode, s.probes, q.probes);
      assert r.probes[0] == s.probes[0];
    }
  }

  /**
   * The blob `optimizeToSize` hands back is one the encoder returned; there is none only
   * when the last call failed, and it is over budget only when it is the last call, made
   * at quality 0.1 and at the scale phase 1 settled on (not necessarily the floor 0.1).
   */
  lemma OptimizationBlob(encode: Encoder, sqrt: real -> real, maxBytes: nat)
    ensures var r := Optimization(encode, sqrt, maxBytes);
      && r.probes != []
      && (exists k :: 0 <= k < |r.probes| && r.probes[k].size == r.blob)
      && (r.blob.None? ==> Last(r.probes).size.None?)
      && (r.blob.Some? && r.blob.value > maxBytes ==>
            && Last(r.probes).quality == QualityLow && r.blob == Last(r.probes).size
            && ScalePhase(encode, sqrt, maxBytes, 1.0, 0).settled == Some(Last(r.probes).scale))
  {
    var s := ScalePhase(encode, sqrt, maxBytes, 1.0, 0);
    ScalePhaseExit(encode, sqrt, maxBytes, 1.0, 0);
    var r := Optimization(encode, sqrt, maxBytes);
    if s.settled.Some? {
      var q := QualitySearch(encode, maxBytes, s.settled.value);
      QualitySearchResult(encode, maxBytes, s.settled.value);
      assert r.probes == s.probes + q.probes;
      assert Last(r.probes) == Last(q.probes);
      if Fits(q.probes, maxBytes) {
        var k :| 0 <= k < |q.probes| && InBudget(q.probes[k], maxBytes) && q.blob == q.probes[k].size &&
          forall j :: 0 <= j < |q.probes| && InBudget(q.probes[j], maxBytes) ==> q.probes[j].quality <= q.probes[k].quality;
        assert r.probes[|s.probes| + k] == q.probes[k];
      } else {
        assert r.probes[|r.probes| - 1] == Last(q.probes);
      }
    } else {
      assert r.probes[|r.probes| - 1].size == r.blob;
    }
  }

  /** An encoder whose every blob is one byte over budget. */
  function Oversized(maxBytes: nat): Encoder
  {
    (scale: real, quality: real) => Some(maxBytes + 1)
  }

  lemma {:induction false} ScalePhaseOversized(sqrt: real -> real, maxBytes: nat, scale: real, attempt: nat)
    requires attempt <= MaxAttempts
    ensures var s := ScalePhase(Oversized(maxBytes), sqrt, maxBytes, scale, attempt);
      |s.probes| == MaxAttempts - attempt && s.settled.Some?
    decreases MaxAttempts - attempt
  {
    if attempt < MaxAttempts {
      ScalePhaseStep(Oversized(maxBytes), sqrt, maxBytes, scale, attempt);
      ScalePhaseOversized(sqrt, maxBytes, NextScale(sqrt, scale, maxBytes + 1, maxBytes), attempt + 1);
    }
  }

  lemma {:induction false} QualityPhaseOversized(maxBytes: nat, scale: real, low: real, high: real, best: Option<nat>, i: nat)
    requires i <= QualitySteps
    ensures var r := QualityPhase(Oversized(maxBytes), maxBytes, scale, low, high, best, i);
      && |r.probes| == QualitySteps - i + (if best.None? then 1 else 0)
      && r.blob == if best.None? then Some(maxBytes + 1) else best
    decreases QualitySteps - i
  {
    if i < QualitySteps {
      QualityPhaseMiss(Oversized(maxBytes), maxBytes, scale, low, high, best, i);
      QualityPhaseOversized(maxBytes, scale, low, (low + high) / 2.0, best, i + 1);
    }
  }

  /**
   * The budget is a target, not a guarantee: when every blob is too large, `optimizeToSize`
   * makes all 8 + 5 + 1 = 14 encoder calls and still hands back an over-budget blob.
   */
  lemma BudgetIsSoft(sqrt: real -> real, maxBytes: nat)
    ensures var r := Optimization(Oversized(maxBytes), sqrt, maxBytes);
      |r.probes| == MaxAttempts + QualitySteps + 1 && r.blob == Some(maxBytes + 1)
  {
    ScalePhaseOversized(sqrt, maxBytes, 1.0, 0);
    var s := ScalePhase(Oversized(maxBytes), sqrt, maxBytes, 1.0, 0);
    QualityPhaseOversized(maxBytes, s.settled.value, QualityLow, QualityHigh, None, 0);
  }

  /** An encoder whose blobs are one byte over budget above scale 0.2 and exactly on budget at or below it. */
  function Threshold(maxBytes: nat): Encoder
  {
    (scale: real, quality: real) => if scale > 0.2 then Some(maxBytes + 1) else Some(maxBytes)
  }

  /** With blobs one byte over, each attempt keeps at least 0.9154 of the scale, so phase 1 ends well above 0.2. */
  lemma {:induction false} ScalePhaseThreshold(sqrt: real -> real, maxBytes: nat, scale: real, attempt: nat)
    requires sqrt(maxBytes as real / (maxBytes + 1) as real) >= 0.995
    requires attempt <= MaxAttempts && scale >= 0.21 + 0.06 * (MaxAttempts - attempt) as real
    ensures var s := ScalePhase(Threshold(maxBytes), sqrt, maxBytes, scale, attempt);
      |s.probes| == MaxAttempts - attempt && s.settled.Some? && s.settled.value >= 0.21
    decreases MaxAttempts - attempt
  {
    if attempt < MaxAttempts {
      ScalePhaseOver(Threshold(maxBytes), sqrt, maxBytes, scale, attempt);
      var c := sqrt(maxBytes as real / (maxBytes + 1) as real);
      assert scale * (c - 0.995) >= 0.0;
      var next := NextScale(sqrt, scale, maxBytes + 1, maxBytes);
      assert next >= scale * 0.995 * Damping;
      ScalePhaseThreshold(sqrt, maxBytes, next, attempt + 1);
    }
  }

  /** Above scale 0.2 every bisection call misses, and the fallback at quality 0.1 is made at that scale. */
  lemma {:induction false} QualityPhaseThreshold(maxBytes: nat, scale: real, low: real, high: real, i: nat)
    requires scale > 0.2 && i <= QualitySteps
    ensures var r := QualityPhase(Threshold(maxBytes), maxBytes, scale, low, high, None, i);
      && |r.probes| == QualitySteps - i + 1 && r.blob == Some(maxBytes + 1)
      && Last(r.probes) == Probe(scale, QualityLow, Some(maxBytes + 1))
    decreases QualitySteps - i
  {
    if i < QualitySteps {
      QualityPhaseMiss(Threshold(maxBytes), maxBytes, scale, low, high, None, i);
      QualityPhaseThreshold(maxBytes, scale, low, (low + high) / 2.0, i + 1);
    }
  }

  /**
   * The over-budget result need not come from the floor settings. With blobs one byte over
   * budget above scale 0.2 and on budget below it, and `sqrt` of the size ratio at least
   * 0.995 (as for any budget of 100 bytes or more), phase 1 spends its 8 attempts above
   * 0.2, and `optimizeToSize` hands back the over-budget fallback made at quality 0.1 at a
   * scale above 0.2, although every call at scale 0.2 or below would have fit.
   */
  lemma OverBudgetAboveFloor(sqrt: real -> real, maxBytes: nat)
    requires sqrt(maxBytes as real / (maxBytes + 1) as real) >= 0.995
    ensures Threshold(maxBytes)(0.2, QualityLow) == Some(maxBytes)
    ensures var r := Optimization(Threshold(maxBytes), sqrt, maxBytes);
      && |r.probes| == MaxAttempts + QualitySteps + 1 && r.blob == Some(maxBytes + 1)
      && Last(r.probes).quality == QualityLow && Last(r.probes).scale > 0.2
  {
    ScalePhaseThreshold(sqrt, maxBytes, 1.0, 0);
    var s := ScalePhase(Threshold(maxBytes), sqrt, maxBytes, 1.0, 0);
    QualityPhaseThreshold(maxBytes, s.settled.value, QualityLow, QualityHigh, 0);
    var q := QualitySearch(Threshold(maxBytes), maxBytes, s.settled.value);
    var r := Optimization(Threshold(maxBytes), sqrt, maxBytes);
    assert r.probes == s.probes + q.probes;
    assert Last(r.probes) == Last(q.probes);
  }

  // ---------------------------------------------------------------- the loops

  /** The source's `for` loop with `break`; the blob and the encoder calls are those of `QualitySearch`. */
  method BinarySearchQuality(encode: Encoder, scale: real, maxBytes: nat) returns (blob: Option<nat>, probes: seq<Probe>)
    ensures Search(blob, probes) == QualitySearch(encode, maxBytes, scale)
  {
    var low, high := QualityLow, QualityHigh;
    var best: Option<nat> := None;
    probes := [];
    ghost var whole := QualitySearch(encode, maxBytes, scale);
    var i := 0;
    while i < QualitySteps
      invariant i <= QualitySteps
      invariant whole == After(probes, QualityPhase(encode, maxBytes, scale, low, high, best, i))
    {
      var mid := (low + high) / 2.0;
      var size := encode(scale, mid);
      ghost var before := probes;
      probes := probes + [Probe(scale, mid, size)];
      QualityIteration(encode, maxBytes, scale, low, high, best, i, mid, size, before, probes, whole);
      if size.None? {
        break;
      }
      if size.value <= maxBytes {
        best := size;
        low := mid;
      } else {
        high := mid;
      }
      i := i + 1;
    }
    if i == QualitySteps {
      QualityPhaseDone(encode, maxBytes, scale, low, high, best, i);
    }
    FinishAfter(encode, scale, best, probes, whole);
    if best.None? {
      var fallback := encode(scale, QualityLow);
      probes := probes + [Probe(scale, QualityLow, fallback)];
      blob := fallback;
    } else {
      blob := best;
    }
  }

  /** The source's `while` loop; the blob and the encoder calls are those of `Optimization`. */
  method OptimizeToSize(encode: Encoder, sqrt: real -> real, maxBytes: nat) returns (blob: Option<nat>, probes: seq<Probe>)
    requires SqrtInUnit(sqrt)
    ensures Search(blob, probes) == Optimization(encode, sqrt, maxBytes)
  {
    var scale := 1.0;
    var attempt := 0;
    probes := [];
    ghost var whole := ScalePhase(encode, sqrt, maxBytes, 1.0, 0);
    while attempt < MaxAttempts
      invariant attempt <= MaxAttempts
      invariant ScaleFloor <= scale <= 1.0
      invariant whole == Resumed(probes, ScalePhase(encode, sqrt, maxBytes, scale, attempt))
    {
      var size := encode(scale, ProbeQuality);
      ScalePhaseStep(encode, sqrt, maxBytes, scale, attempt);
      if size.None? {
        return None, probes + [Probe(scale, ProbeQuality, size)];
      }
      if size.value <= maxBytes {
        var qualityBlob, qualityProbes := BinarySearchQuality(encode, scale, maxBytes);
        return qualityBlob, probes + [Probe(scale, ProbeQuality, size)] + qualityProbes;
      }
      ResumedPrepend(probes, Probe(scale, ProbeQuality, size),
        ScalePhase(encode, sqrt, maxBytes, NextScale(sqrt, scale, size.value, maxBytes), attempt + 1));
      probes := probes + [Probe(scale, ProbeQuality, size)];
      NextScaleBounds(sqrt, scale, size.value, maxBytes);
      scale := NextScale(sqrt, scale, size.value, maxBytes);
      attempt := attempt + 1;
    }
    assert whole == ScaleOutcome(Some(scale), probes);
    var qualityBlob, qualityProbes := BinarySearchQuality(encode, scale, maxBytes);
    blob, probes := qualityBlob, probes + qualityProbes;
  }
}
