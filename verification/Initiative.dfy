/** The leaky integrator behind tomoko's initiative (server/initiative.py). */
module Initiative {
  datatype Inputs = Inputs(
    silenceSec: real, candidatePressure: real, userPresent: bool, pYielding: real, intrusion: real, rejection: real)

  datatype Key = Candidate | Floor | Intrusion | Rejection | Attachment | Curiosity | Teasing | Unspoken

  /** The order in which an update goes through the targets. */
  const KEYS := [Candidate, Floor, Intrusion, Rejection, Attachment, Curiosity, Teasing, Unspoken]

  type Pressures = p: map<Key, real> | forall k :: k in p witness map k: Key | true :: 0.0

  function Min(a: real, b: real): real { if b < a then b else a }
  function Max(a: real, b: real): real { if b > a then b else a }

  function Target(i: Inputs, k: Key): real {
    match k
    case Candidate => i.candidatePressure
    case Floor => Min(1.0, i.silenceSec / 12.0) * i.pYielding
    case Intrusion => i.intrusion
    case Rejection => i.rejection
    case Attachment => if i.userPresent then 0.2 else 0.0
    case Curiosity => i.candidatePressure * 0.4
    case Teasing => Max(0.0, i.candidatePressure - 0.5) * 0.2
    case Unspoken => Min(1.0, i.silenceSec / 30.0) * i.candidatePressure
  }

  function Leak(p: real, target: real, alpha: real): real { p * (1.0 - alpha) + target * alpha }

  function Updated(p: Pressures, i: Inputs, alpha: real): Pressures {
    map k | k in p :: Leak(p[k], Target(i, k), alpha)
  }

  function Sum(candidate: real, floor: real, attachment: real, curiosity: real, intrusion: real, rejection: real)
    : real
  {
    candidate + floor + attachment + curiosity - intrusion - rejection
  }

  function Speakability(p: Pressures): real {
    Sum(p[Candidate], p[Floor], p[Attachment], p[Curiosity], p[Intrusion], p[Rejection])
  }

  /** Four pressures speak for an initiative and two against it; teasing and what is unspoken do not count. */
  lemma SpeakabilityMoves(p: Pressures, q: Pressures)
    ensures Speakability(q) - Speakability(p) ==
            (q[Candidate] - p[Candidate]) + (q[Floor] - p[Floor]) + (q[Attachment] - p[Attachment])
            + (q[Curiosity] - p[Curiosity]) - (q[Intrusion] - p[Intrusion]) - (q[Rejection] - p[Rejection])
    ensures (forall k :: p[k] == 0.0) ==> Speakability(p) == 0.0
  {
  }

  /** Twelve seconds of silence give a yielding user's floor, thirty let a candidate count as unspoken, and before that
      they come in proportion; teasing starts when a candidate presses more than half. */
  lemma TargetsExactly(i: Inputs)
    requires 0.0 <= i.silenceSec
    ensures i.silenceSec >= 12.0 ==> Target(i, Floor) == i.pYielding
    ensures i.silenceSec < 12.0 ==> Target(i, Floor) == i.silenceSec / 12.0 * i.pYielding
    ensures i.silenceSec >= 30.0 ==> Target(i, Unspoken) == i.candidatePressure
    ensures i.silenceSec < 30.0 ==> Target(i, Unspoken) == i.silenceSec / 30.0 * i.candidatePressure
    ensures Target(i, Candidate) == i.candidatePressure && Target(i, Curiosity) * 5.0 == i.candidatePressure * 2.0
    ensures i.candidatePressure <= 0.5 ==> Target(i, Teasing) == 0.0
    ensures i.candidatePressure > 0.5 ==> Target(i, Teasing) * 5.0 + 0.5 == i.candidatePressure
    ensures Target(i, Intrusion) == i.intrusion && Target(i, Rejection) == i.rejection
    ensures i.userPresent ==> Target(i, Attachment) * 5.0 == 1.0
    ensures !i.userPresent ==> Target(i, Attachment) == 0.0
  {
  }

  // ----- bounds -----

  predicate InUnit(x: real) { 0.0 <= x <= 1.0 }

  predicate GoodInputs(i: Inputs) {
    && 0.0 <= i.silenceSec && InUnit(i.candidatePressure) && InUnit(i.pYielding)
    && InUnit(i.intrusion) && InUnit(i.rejection)
  }

  ghost predicate Bounded(p: Pressures) { forall k :: InUnit(p[k]) }

  function Times(a: real, b: real): real { a * b }

  lemma TimesOrder(a: real, b: real)
    ensures 0.0 <= a && 0.0 <= b ==> 0.0 <= Times(a, b)
    ensures 0.0 < a && 0.0 < b ==> 0.0 < Times(a, b)
    ensures Times(a, -b) == -Times(a, b) && Times(a, b) == Times(b, a) && Times(1.0, b) == b && Times(0.0, b) == 0.0
  {
  }

  lemma TimesMonotone(a: real, b: real, c: real)
    requires a <= b && 0.0 <= c
    ensures Times(a, c) <= Times(b, c)
  {
    TimesOrder(b - a, c);
    assert Times(b - a, c) == Times(b, c) - Times(a, c);
  }

  lemma ProductInUnit(a: real, b: real)
    requires InUnit(a) && InUnit(b)
    ensures InUnit(a * b)
  {
    TimesOrder(a, b);
    TimesMonotone(a, 1.0, b);
  }

  lemma TargetInUnit(i: Inputs, k: Key)
    requires GoodInputs(i)
    ensures InUnit(Target(i, k))
  {
    ProductInUnit(Min(1.0, i.silenceSec / 12.0), i.pYielding);
    ProductInUnit(Min(1.0, i.silenceSec / 30.0), i.candidatePressure);
  }

  lemma LeakMoves(p: real, target: real, alpha: real)
    ensures Leak(p, target, alpha) == p + Times(alpha, target - p) == target + Times(1.0 - alpha, p - target)
  {
  }

  /** A leak stays between where it is and where it goes. */
  lemma LeakBetween(p: real, target: real, alpha: real)
    requires InUnit(alpha)
    ensures Min(p, target) <= Leak(p, target, alpha) <= Max(p, target)
  {
    hide Leak, Times;
    LeakMoves(p, target, alpha);
    if p <= target {
      TimesOrder(alpha, target - p);
      TimesMonotone(alpha, 1.0, target - p);
      TimesOrder(1.0, target - p);
    } else {
      TimesOrder(1.0 - alpha, p - target);
      TimesMonotone(1.0 - alpha, 1.0, p - target);
      TimesOrder(1.0, p - target);
    }
  }

  lemma UpdateKeepsBounds(p: Pressures, i: Inputs, alpha: real)
    requires Bounded(p) && GoodInputs(i) && InUnit(alpha)
    ensures Bounded(Updated(p, i, alpha))
  {
    forall k: Key
      ensures InUnit(Updated(p, i, alpha)[k])
    {
      TargetInUnit(i, k);
      LeakBetween(p[k], Target(i, k), alpha);
    }
  }

  function RunAll(p: Pressures, inputs: seq<Inputs>, alpha: real): Pressures {
    if inputs == [] then p else Updated(RunAll(p, inputs[..|inputs| - 1], alpha), inputs[|inputs| - 1], alpha)
  }

  /** With inputs in [0, 1] every pressure stays in [0, 1], and so speakability stays between -2 and 4. */
  lemma {:induction false} EveryRunIsBounded(p: Pressures, inputs: seq<Inputs>, alpha: real)
    requires Bounded(p) && InUnit(alpha) && forall n :: 0 <= n < |inputs| ==> GoodInputs(inputs[n])
    ensures Bounded(RunAll(p, inputs, alpha)) && -2.0 <= Speakability(RunAll(p, inputs, alpha)) <= 4.0
  {
    hide GoodInputs;
    if inputs != [] {
      var n := |inputs| - 1;
      EveryRunIsBounded(p, inputs[..n], alpha);
      UpdateKeepsBounds(RunAll(p, inputs[..n], alpha), inputs[n], alpha);
    }
    hide RunAll;
    var q := RunAll(p, inputs, alpha);
    assert InUnit(q[Candidate]) && InUnit(q[Floor]) && InUnit(q[Attachment]) && InUnit(q[Curiosity]);
    assert InUnit(q[Intrusion]) && InUnit(q[Rejection]);
  }

  // ----- constant inputs -----

  function Pow(b: real, n: nat): real { if n == 0 then 1.0 else Times(b, Pow(b, n - 1)) }

  function Ticks(p: Pressures, i: Inputs, alpha: real, n: nat): Pressures {
    if n == 0 then p else Updated(Ticks(p, i, alpha, n - 1), i, alpha)
  }

  /** Where speakability is headed. */
  function Steady(i: Inputs): real {
    Sum(Target(i, Candidate), Target(i, Floor), Target(i, Attachment), Target(i, Curiosity),
        Target(i, Intrusion), Target(i, Rejection))
  }

  /** Ticks are a run of the same inputs. */
  lemma {:induction false} TicksAreARun(p: Pressures, i: Inputs, alpha: real, inputs: seq<Inputs>)
    requires forall k :: 0 <= k < |inputs| ==> inputs[k] == i
    ensures RunAll(p, inputs, alpha) == Ticks(p, i, alpha, |inputs|)
  {
    if inputs != [] {
      hide Updated;
      TicksAreARun(p, i, alpha, inputs[..|inputs| - 1]);
    }
  }

  lemma LeakClosed(p: real, target: real, alpha: real, pow: real)
    ensures Leak(target + Times(pow, p - target), target, alpha) == target + Times(Times(1.0 - alpha, pow), p - target)
  {
  }

  /** Each pressure after n ticks. */
  lemma {:induction false} PressureClosedForm(p: Pressures, i: Inputs, alpha: real, n: nat, k: Key)
    ensures Ticks(p, i, alpha, n)[k] == Target(i, k) + Times(Pow(1.0 - alpha, n), p[k] - Target(i, k))
  {
    hide Target, Leak, Times;
    if n == 0 {
      TimesOrder(1.0, p[k] - Target(i, k));
    } else {
      PressureClosedForm(p, i, alpha, n - 1, k);
      LeakClosed(p[k], Target(i, k), alpha, Pow(1.0 - alpha, n - 1));
    }
  }

  lemma SumIsLinear(w: real, a: real, b: real, c: real, d: real, e: real, f: real,
                    u: real, v: real, x: real, y: real, z: real, q: real)
    ensures Sum(a + Times(w, u - a), b + Times(w, v - b), c + Times(w, x - c),
                d + Times(w, y - d), e + Times(w, z - e), f + Times(w, q - f))
         == Sum(a, b, c, d, e, f) + Times(w, Sum(u, v, x, y, z, q) - Sum(a, b, c, d, e, f))
  {
  }

  /** Under constant inputs speakability after n ticks is S* + (1 - alpha)^n (S0 - S*). */
  lemma SpeakabilityClosedForm(p: Pressures, i: Inputs, alpha: real, n: nat)
    ensures Speakability(Ticks(p, i, alpha, n)) == Steady(i) + Times(Pow(1.0 - alpha, n), Speakability(p) - Steady(i))
  {
    hide Target, Pow, Sum, Ticks, Times;
    forall k: Key
      ensures Ticks(p, i, alpha, n)[k] == Target(i, k) + Times(Pow(1.0 - alpha, n), p[k] - Target(i, k))
    {
      PressureClosedForm(p, i, alpha, n, k);
    }
    SumIsLinear(Pow(1.0 - alpha, n), Target(i, Candidate), Target(i, Floor), Target(i, Attachment),
                Target(i, Curiosity), Target(i, Intrusion), Target(i, Rejection),
                p[Candidate], p[Floor], p[Attachment], p[Curiosity], p[Intrusion], p[Rejection]);
  }

  /** Bernoulli's inequality, for a base of at most one. */
  lemma {:induction false} PowShrinks(alpha: real, n: nat)
    requires InUnit(alpha)
    ensures 0.0 <= Pow(1.0 - alpha, n) <= 1.0
    ensures Times(Pow(1.0 - alpha, n), 1.0 + Times(n as real, alpha)) <= 1.0
    ensures alpha < 1.0 ==> 0.0 < Pow(1.0 - alpha, n)
    ensures alpha == 1.0 && n > 0 ==> Pow(1.0 - alpha, n) == 0.0
  {
    hide Times;
    if n == 0 {
      TimesOrder(0.0, alpha);
      TimesOrder(1.0, 1.0);
    } else {
      var pow := Pow(1.0 - alpha, n - 1);
      PowShrinks(alpha, n - 1);
      PowStep(pow, alpha, (n - 1) as real);
      TimesOrder(1.0 - alpha, pow);
      TimesMonotone(1.0 - alpha, 1.0, pow);
      TimesOrder(1.0, pow);
      assert (n - 1) as real + 1.0 == n as real;
      if alpha == 1.0 {
        TimesOrder(0.0, pow);
      }
    }
  }

  lemma PowStep(pow: real, alpha: real, m: real)
    requires 0.0 <= pow && 0.0 <= m && Times(pow, 1.0 + Times(m, alpha)) <= 1.0
    ensures Times(Times(1.0 - alpha, pow), 1.0 + Times(m + 1.0, alpha)) <= 1.0
  {
    var lost := (m + 1.0) * (alpha * alpha);
    assert 0.0 <= lost by {
      assert 0.0 <= alpha * alpha;
      TimesOrder(m + 1.0, alpha * alpha);
    }
    TimesOrder(pow, lost);
    PowExpanded(pow, alpha, m);
  }

  lemma PowExpanded(pow: real, alpha: real, m: real)
    ensures Times(Times(1.0 - alpha, pow), 1.0 + Times(m + 1.0, alpha))
         == Times(pow, 1.0 + Times(m, alpha)) - Times(pow, (m + 1.0) * (alpha * alpha))
  {
    assert (1.0 - alpha) * (1.0 + (m + 1.0) * alpha) == 1.0 + m * alpha - (m + 1.0) * (alpha * alpha);
    var a := 1.0 + m * alpha;
    var b := (m + 1.0) * (alpha * alpha);
    assert pow * (a - b) == pow * a - pow * b;
    assert ((1.0 - alpha) * pow) * (1.0 + (m + 1.0) * alpha) == pow * ((1.0 - alpha) * (1.0 + (m + 1.0) * alpha));
  }

  /** A number of ticks after which any distance has shrunk below the gap. */
  function Enough(distance: real, gap: real, alpha: real): nat
    requires 0.0 <= distance && 0.0 < gap && 0.0 < alpha
  {
    TimesOrder(alpha, gap);
    NonNegativeQuotient(distance, Times(alpha, gap));
    (distance / Times(alpha, gap)).Floor + 1
  }

  lemma NonNegativeQuotient(a: real, b: real)
    requires 0.0 <= a && 0.0 < b
    ensures 0.0 <= a / b && Times(a / b, b) == a
  {
  }

  lemma EnoughReaches(distance: real, gap: real, alpha: real, n: nat)
    requires 0.0 <= distance && 0.0 < gap && 0.0 < alpha && Enough(distance, gap, alpha) <= n
    ensures distance <= Times(Times(n as real, alpha), gap)
  {
    var unit := Times(alpha, gap);
    TimesOrder(alpha, gap);
    NonNegativeQuotient(distance, unit);
    assert distance / unit <= n as real;
    TimesMonotone(distance / unit, n as real, unit);
    assert Times(n as real, unit) == Times(Times(n as real, alpha), gap);
  }

  lemma Distributes(pow: real, m: real, gap: real)
    ensures Times(Times(pow, 1.0 + m), gap) == Times(pow, gap) + Times(pow, Times(m, gap))
  {
  }

  lemma DistanceShrinks(distance: real, gap: real, alpha: real, n: nat)
    requires 0.0 <= distance && 0.0 < gap && 0.0 < alpha <= 1.0 && Enough(distance, gap, alpha) <= n
    ensures 0.0 <= Times(Pow(1.0 - alpha, n), distance) < gap
  {
    hide Pow, Enough, Times;
    var pow, m := Pow(1.0 - alpha, n), Times(n as real, alpha);
    PowShrinks(alpha, n);
    EnoughReaches(distance, gap, alpha, n);
    TimesOrder(pow, distance);
    TimesOrder(distance, pow);
    TimesOrder(Times(m, gap), pow);
    TimesMonotone(distance, Times(m, gap), pow);
    TimesMonotone(Times(pow, 1.0 + m), 1.0, gap);
    TimesOrder(1.0, gap);
    Distributes(pow, m, gap);
    TimesOrder(pow, gap);
    TimesOrder(0.0, distance);
  }

  // ----- when it fires -----

  /** The decision of the n-th update, n counted from one. */
  predicate Fires(p: Pressures, i: Inputs, alpha: real, threshold: real, n: nat) {
    Speakability(Ticks(p, i, alpha, n)) >= threshold
  }

  ghost predicate FiresFrom(p: Pressures, i: Inputs, alpha: real, threshold: real, start: nat) {
    forall n :: n >= start ==> Fires(p, i, alpha, threshold, n)
  }

  function Abs(x: real): real { if x < 0.0 then -x else x }

  lemma NearSteady(p: Pressures, i: Inputs, alpha: real, gap: real, n: nat)
    requires 0.0 < gap && 0.0 < alpha <= 1.0
    ensures Enough(Abs(Speakability(p) - Steady(i)), gap, alpha) <= n ==>
              Steady(i) - gap < Speakability(Ticks(p, i, alpha, n)) < Steady(i) + gap
  {
    hide Enough, Speakability, Ticks, Steady, Pow, Times;
    var d, pow := Speakability(p) - Steady(i), Pow(1.0 - alpha, n);
    SpeakabilityClosedForm(p, i, alpha, n);
    if Enough(Abs(d), gap, alpha) <= n {
      DistanceShrinks(Abs(d), gap, alpha, n);
      TimesOrder(pow, d);
    }
  }

  /** Under constant inputs there is a tick after which it always fires if and only if speakability is headed
      above the threshold, or exactly to it from above or in one step. */
  lemma FiresForeverExactly(p: Pressures, i: Inputs, alpha: real, threshold: real)
    requires 0.0 < alpha <= 1.0
    ensures (exists start :: FiresFrom(p, i, alpha, threshold, start))
       <==> Steady(i) > threshold || (Steady(i) == threshold && (Speakability(p) >= threshold || alpha == 1.0))
  {
    hide Speakability, Ticks, Steady, Pow, Enough;
    var d := Speakability(p) - Steady(i);
    if Steady(i) > threshold {
      var start := Enough(Abs(d), Steady(i) - threshold, alpha);
      forall n | n >= start
        ensures Fires(p, i, alpha, threshold, n)
      {
        NearSteady(p, i, alpha, Steady(i) - threshold, n);
      }
      assert FiresFrom(p, i, alpha, threshold, start);
    } else if Steady(i) < threshold {
      forall start: nat
        ensures !FiresFrom(p, i, alpha, threshold, start)
      {
        var n := start + Enough(Abs(d), threshold - Steady(i), alpha);
        NearSteady(p, i, alpha, threshold - Steady(i), n);
        assert !Fires(p, i, alpha, threshold, n);
      }
    } else {
      AtTheThreshold(p, i, alpha);
      if Speakability(p) >= threshold || alpha == 1.0 {
        assert FiresFrom(p, i, alpha, threshold, 1);
      } else {
        forall start: nat
          ensures !FiresFrom(p, i, alpha, threshold, start)
        {
          assert !Fires(p, i, alpha, threshold, start + 1);
        }
      }
    }
  }

  lemma AtTheThreshold(p: Pressures, i: Inputs, alpha: real)
    requires 0.0 < alpha <= 1.0
    ensures forall n: nat :: n >= 1 ==>
              (Fires(p, i, alpha, Steady(i), n) <==> Speakability(p) >= Steady(i) || alpha == 1.0)
  {
    hide Speakability, Ticks, Steady, Pow, Times;
    forall n: nat | n >= 1
      ensures Fires(p, i, alpha, Steady(i), n) <==> Speakability(p) >= Steady(i) || alpha == 1.0
    {
      var d, pow := Speakability(p) - Steady(i), Pow(1.0 - alpha, n);
      SpeakabilityClosedForm(p, i, alpha, n);
      PowShrinks(alpha, n);
      TimesOrder(pow, d);
      TimesOrder(pow, -d);
    }
  }

  /** Starting below the threshold and headed below it, it never fires. */
  lemma {:induction false} NeverFires(p: Pressures, i: Inputs, alpha: real, threshold: real, n: nat)
    requires InUnit(alpha) && Speakability(p) < threshold && Steady(i) < threshold
    ensures !Fires(p, i, alpha, threshold, n)
  {
    hide Speakability, Ticks, Steady, Pow, Times;
    var d, pow := Speakability(p) - Steady(i), Pow(1.0 - alpha, n);
    SpeakabilityClosedForm(p, i, alpha, n);
    PowShrinks(alpha, n);
    TimesOrder(pow, -d);
    TimesOrder(pow, d);
    TimesOrder(1.0, d);
    if d >= 0.0 {
      TimesMonotone(pow, 1.0, d);
    }
  }

  // ----- the model object -----

  class InitiativeMotivationModel {
    const alpha: real
    const threshold: real
    var pressures: Pressures

    constructor (alpha: real, threshold: real, pressures: Pressures)
      ensures this.alpha == alpha && this.threshold == threshold && this.pressures == pressures
    {
      this.alpha, this.threshold, this.pressures := alpha, threshold, pressures;
    }

    method Update(inputs: Inputs) returns (fires: bool, speakability: real)
      modifies this
      ensures pressures == Updated(old(pressures), inputs, alpha)
      ensures speakability == Speakability(pressures) && (fires <==> speakability >= threshold)
    {
      hide KEYS, Target, Leak, Updated;
      for n := 0 to |KEYS|
        invariant pressures == UpdatedAt(old(pressures), inputs, alpha, KEYS[..n])
      {
        assert KEYS[..n + 1][..n] == KEYS[..n];
        pressures := pressures[KEYS[n] := Leak(pressures[KEYS[n]], Target(inputs, KEYS[n]), alpha)];
      }
      assert KEYS[..|KEYS|] == KEYS;
      AllKeysUpdated(old(pressures), inputs, alpha);
      hide UpdatedAt;
      speakability := Speakability(pressures);
      fires := speakability >= threshold;
    }
  }

  /** The pressures once the given keys have been gone through. */
  function UpdatedAt(p: Pressures, i: Inputs, alpha: real, keys: seq<Key>): Pressures {
    if keys == [] then p
    else
      var n := |keys| - 1;
      var q := UpdatedAt(p, i, alpha, keys[..n]);
      q[keys[n] := Leak(q[keys[n]], Target(i, keys[n]), alpha)]
  }

  lemma {:induction false} UpdatedAtKeys(p: Pressures, i: Inputs, alpha: real, keys: seq<Key>, k: Key)
    requires forall a, b :: 0 <= a < b < |keys| ==> keys[a] != keys[b]
    ensures UpdatedAt(p, i, alpha, keys)[k] == if k in keys then Leak(p[k], Target(i, k), alpha) else p[k]
  {
    hide Leak, Target;
    if keys != [] {
      UpdatedAtKeys(p, i, alpha, keys[..|keys| - 1], k);
    }
  }

  lemma AllKeys(k: Key)
    ensures k in KEYS
  {
    assert KEYS[0] == Candidate && KEYS[1] == Floor && KEYS[2] == Intrusion && KEYS[3] == Rejection;
    assert KEYS[4] == Attachment && KEYS[5] == Curiosity && KEYS[6] == Teasing && KEYS[7] == Unspoken;
  }

  lemma AllKeysUpdated(p: Pressures, i: Inputs, alpha: real)
    ensures UpdatedAt(p, i, alpha, KEYS) == Updated(p, i, alpha)
  {
    assert forall a, b :: 0 <= a < b < |KEYS| ==> KEYS[a] != KEYS[b];
    hide KEYS, Leak, Target, UpdatedAt;
    forall k: Key
      ensures UpdatedAt(p, i, alpha, KEYS)[k] == Updated(p, i, alpha)[k]
    {
      AllKeys(k);
      UpdatedAtKeys(p, i, alpha, KEYS, k);
    }
  }
}
