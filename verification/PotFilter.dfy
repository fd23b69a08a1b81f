/** The potentiometer's integer low-pass filter, duty conversion and dead band. */
module PotFilter {
  import opened Words

  const ADC_MAX := 4095
  const DIVISOR := 8
  const DEADBAND := 4

  datatype Pot = Pot(filtered: int, raw: word, duty: word, ready: bool)

  const INITIAL := Pot(0, 0, 800, false)

  function RawToDuty(raw: word): word {
    U16(800 + U16(U32(raw * 200) / 4095))
  }

  function Clamp(sample: word): word {
    if sample > ADC_MAX then ADC_MAX else sample
  }

  function Distance(a: int, b: int): nat {
    if a > b then a - b else b - a
  }

  /** A successful acquisition. A failed one changes nothing. */
  function Acquire(p: Pot, sample: word): Pot {
    var s := Clamp(sample);
    var filtered := if p.ready then p.filtered + TruncDiv(s - p.filtered, DIVISOR) else s;
    var converted := RawToDuty(U16(filtered));
    Pot(filtered, s, if Distance(converted, p.duty) >= DEADBAND then converted else p.duty, true)
  }

  function AcquireAll(p: Pot, samples: seq<word>): Pot
    decreases |samples|
  {
    if |samples| == 0 then p else Acquire(AcquireAll(p, samples[..|samples| - 1]), Last(samples))
  }

  ghost predicate Bounded(p: Pot) {
    0 <= p.filtered <= ADC_MAX && p.raw <= ADC_MAX && 800 <= p.duty <= 1000
  }

  ghost predicate InRange(p: Pot) {
    Bounded(p) && (p.ready ==> Distance(p.duty, RawToDuty(p.filtered)) < DEADBAND)
  }

  lemma ConversionRange(raw: word)
    requires raw <= ADC_MAX
    ensures RawToDuty(raw) == 800 + raw * 200 / 4095
    ensures 800 <= RawToDuty(raw) <= 1000
  {
  }

  lemma FilterStaysInRange(f: int, s: int)
    requires 0 <= f <= ADC_MAX && 0 <= s <= ADC_MAX
    ensures 0 <= f + TruncDiv(s - f, DIVISOR) <= ADC_MAX
  {
  }

  lemma AcquireKeepsRange(p: Pot, sample: word)
    requires Bounded(p)
    ensures InRange(Acquire(p, sample))
  {
    hide RawToDuty, TruncDiv;
    FilterStaysInRange(p.filtered, Clamp(sample));
    var filtered := Acquire(p, sample).filtered;
    ConversionRange(filtered);
    assert U16(filtered) == filtered;
  }

  /** For every sequence of samples the filter stays in the converter's range, and the published
      duty stays legal and within the dead band of the converted filter value. */
  lemma {:induction false} AcquireAllInRange(p: Pot, samples: seq<word>)
    requires InRange(p)
    ensures InRange(AcquireAll(p, samples))
    decreases |samples|
  {
    if |samples| > 0 {
      AcquireAllInRange(p, samples[..|samples| - 1]);
      AcquireKeepsRange(AcquireAll(p, samples[..|samples| - 1]), Last(samples));
    }
  }

  /** The first sample is taken as it is; a later one moves the filter by an eighth of the difference,
      rounded toward the filter. The duty is published anew exactly when it has moved by 4 or more. */
  lemma AcquireExactly(p: Pot, sample: word)
    requires Bounded(p)
    ensures var r := Acquire(p, sample);
            var s := if sample > 4095 then 4095 else sample;
            var ideal := 800 + r.filtered * 200 / 4095;
            && r.ready && r.raw == s
            && (!p.ready ==> r.filtered == s)
            && (p.ready && s >= p.filtered ==> r.filtered == p.filtered + (s - p.filtered) / 8)
            && (p.ready && s <= p.filtered ==> r.filtered == p.filtered - (p.filtered - s) / 8)
            && r.duty == if -4 < ideal - p.duty < 4 then p.duty else ideal
  {
    hide RawToDuty;
    AcquireKeepsRange(p, sample);
    ConversionRange(Acquire(p, sample).filtered);
  }

  // ----- A constant sample -----

  function Hold(p: Pot, sample: word, n: nat): Pot {
    if n == 0 then p else Acquire(Hold(p, sample, n - 1), sample)
  }

  /** Sample minus filter. */
  function Error(p: Pot, sample: word): int {
    Clamp(sample) - p.filtered
  }

  /** One step never changes the sign of the error, shrinks it by an eighth rounded down, hence
      strictly while it is at least 8, and leaves it alone below that. */
  lemma ErrorShrinks(p: Pot, sample: word)
    requires p.ready
    ensures var e, e' := Error(p, sample), Error(Acquire(p, sample), sample);
            && (e >= 0 ==> e' == e - e / 8)
            && (e <= 0 ==> -e' == -e - (-e) / 8)
            && (-8 < e < 8 ==> e' == e)
            && (e >= 8 ==> 0 < e' < e)
            && (e <= -8 ==> e < e' < 0)
  {
  }

  lemma {:induction false} HoldConverges(p: Pot, sample: word, n: nat)
    requires InRange(p) && p.ready
    ensures var e, e' := Error(p, sample), Error(Hold(p, sample, n), sample);
            && InRange(Hold(p, sample, n)) && Hold(p, sample, n).ready
            && (e >= 0 ==> 0 <= e' <= e && (e' >= 8 ==> e' + n <= e))
            && (e <= 0 ==> e <= e' <= 0 && (e' <= -8 ==> e <= e' - n))
  {
    if n > 0 {
      HoldConverges(p, sample, n - 1);
      ErrorShrinks(Hold(p, sample, n - 1), sample);
      AcquireKeepsRange(Hold(p, sample, n - 1), sample);
    }
  }

  /** Neighbouring raw values convert to duties at most one apart. */
  lemma ConversionIsFlat(a: word, b: word)
    requires a <= ADC_MAX && b <= ADC_MAX && Distance(a, b) < 8
    ensures Distance(RawToDuty(a), RawToDuty(b)) <= 1
  {
    ConversionRange(a);
    ConversionRange(b);
  }

  /** A constant input settles: within 4088 polls the filter is less than 8 away without having
      crossed the input, and from then on the published duty is within 4 of the ideal one. */
  lemma PublishedDutySettles(p: Pot, sample: word, n: nat)
    requires InRange(p) && p.ready && n >= 4088
    ensures Distance(Hold(p, sample, n).filtered, Clamp(sample)) < 8
    ensures Distance(Hold(p, sample, n).duty, RawToDuty(Clamp(sample))) <= 4
  {
    HoldConverges(p, sample, n);
    ConversionIsFlat(Hold(p, sample, n).filtered, Clamp(sample));
  }

  lemma AcquireMore(p: Pot, samples: seq<word>, sample: word)
    ensures AcquireAll(p, samples + [sample]) == Acquire(AcquireAll(p, samples), sample)
  {
  }

  lemma ConversionNear(raw: word)
    requires 21 <= raw <= 82
    ensures 801 <= RawToDuty(raw) <= 804
  {
    ConversionRange(raw);
  }

  /** A zero sample lowers the filter by an eighth; 804 stays within the dead band. */
  lemma ZeroSample(p: Pot)
    requires 24 <= p.filtered <= 82 && p.duty == 804 && p.ready
    ensures Acquire(p, 0) == Pot(p.filtered - p.filtered / 8, 0, 804, true)
  {
    hide RawToDuty;
    var f := p.filtered - p.filtered / 8;
    assert 21 <= f <= 82;
    ConversionNear(f);
  }

  lemma Falls(samples: seq<word>, f: word) returns (more: seq<word>)
    requires 24 <= f <= 82
    requires AcquireAll(INITIAL, samples) in {Pot(f, 0, 804, true), Pot(f, f, 804, true)}
    ensures AcquireAll(INITIAL, more) == Pot(f - f / 8, 0, 804, true)
  {
    hide AcquireAll, Acquire;
    AcquireMore(INITIAL, samples, 0);
    more := samples + [0];
    ZeroSample(AcquireAll(INITIAL, samples));
  }

  /** Eleven zero samples after a first sample of 82. */
  lemma Descent() returns (samples: seq<word>)
    ensures AcquireAll(INITIAL, samples) == Pot(21, 0, 804, true)
  {
    AcquireMore(INITIAL, [], 82);
    samples := [] + [82];
    assert AcquireAll(INITIAL, samples) == Pot(82, 82, 804, true);
    hide AcquireAll;
    samples := Falls(samples, 82);
    samples := Falls(samples, 72);
    samples := Falls(samples, 63);
    samples := Falls(samples, 56);
    samples := Falls(samples, 49);
    samples := Falls(samples, 43);
    samples := Falls(samples, 38);
    samples := Falls(samples, 34);
    samples := Falls(samples, 30);
    samples := Falls(samples, 27);
    samples := Falls(samples, 24);
  }

  /** The bound of 4 is reached from power-up, so the settled duty cannot be promised any closer: the
      filter rests one above the sample, across a conversion step, and the published duty three above
      the filter's conversion. */
  lemma SettledDutyBoundIsTight()
    ensures exists samples, sample ::
              var p := AcquireAll(INITIAL, samples);
              && Acquire(p, sample) == p.(raw := sample)
              && Distance(p.duty, RawToDuty(Clamp(sample))) == 4
  {
    var samples := Descent();
    hide TruncDiv, AcquireAll;
    var p := AcquireAll(INITIAL, samples);
    assert RawToDuty(21) == 801 && RawToDuty(20) == 800;
    assert Acquire(p, 20) == p.(raw := 20);
    assert Distance(p.duty, RawToDuty(Clamp(20))) == 4;
  }
}
