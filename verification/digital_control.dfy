/** Analog speed input: a five-slot ring buffer of ADC samples, their
    average, and the conversion of that average to a percentage. */
module DigitalControl {
  import opened Ints

  const NUM_READINGS: nat := 5
  const MIN_ANALOG: nat := 1240
  const MAX_ANALOG: nat := 3940

  /** The sample ring, the slot the next sample goes to, and whether the
      ring has not yet been filled once. */
  datatype Sampler = Sampler(speeds: seq<u16>, index: nat, firstLoop: bool)

  predicate Valid(s: Sampler) {
    |s.speeds| == NUM_READINGS && s.index < NUM_READINGS
  }

  /** Static initial values. */
  const Init: Sampler := Sampler([0, 0, 0, 0, 0], 0, true)

  function Sum(xs: seq<int>): int {
    if |xs| == 0 then 0 else xs[0] + Sum(xs[1..])
  }

  /** Integer mean, 0 for no values. */
  function Mean(xs: seq<int>): int {
    if |xs| == 0 then 0 else Sum(xs) / |xs|
  }

  /** The periodic sampler: store the reading in the current slot and move
      to the next slot; writing the last slot ends the first loop. */
  function ReadSample(s: Sampler, sample: u16): (r: Sampler)
    requires Valid(s)
    ensures Valid(r)
    ensures r.speeds == s.speeds[s.index := sample]
    ensures r.index == (s.index + 1) % NUM_READINGS
    ensures !s.firstLoop ==> !r.firstLoop
    ensures s.firstLoop ==> (r.firstLoop <==> s.index != NUM_READINGS - 1)
  {
    var firstLoop := if s.index == NUM_READINGS - 1 then false else s.firstLoop;
    Sampler(s.speeds[s.index := sample], (s.index + 1) % NUM_READINGS, firstLoop)
  }

  /** How many slots the average reads. */
  function SampleCount(s: Sampler): (n: nat)
    requires Valid(s)
    ensures n <= NUM_READINGS
  {
    if s.firstLoop then s.index else NUM_READINGS
  }

  lemma {:induction false} SumBounds(xs: seq<int>, lo: int, hi: int)
    requires forall i :: 0 <= i < |xs| ==> lo <= xs[i] <= hi
    ensures |xs| * lo <= Sum(xs) <= |xs| * hi
  {
    if |xs| > 0 {
      SumBounds(xs[1..], lo, hi);
    }
  }

  lemma DivisionBounds(total: int, n: int, lo: int, hi: int)
    requires 0 < n <= NUM_READINGS && n * lo <= total <= n * hi
    ensures lo <= total / n <= hi
  {
    if n == 1 {
    } else if n == 2 {
    } else if n == 3 {
    } else if n == 4 {
    } else {
    }
  }

  /** The average of the stored samples: the first `index` of them during
      the first loop, all five afterwards; 0 when nothing has been read. */
  function AnalogSpeed(s: Sampler): (r: u16)
    requires Valid(s)
    ensures SampleCount(s) == 0 ==> r == 0
    ensures SampleCount(s) > 0 ==> r == Mean(s.speeds[..SampleCount(s)])
  {
    var n := SampleCount(s);
    if n == 0 then 0
    else
      SumBounds(s.speeds[..n], 0, U16_LIMIT - 1);
      DivisionBounds(Sum(s.speeds[..n]), n, 0, U16_LIMIT - 1);
      Sum(s.speeds[..n]) / n
  }

  /** The average lies within any bounds of the samples it reads. */
  lemma AverageWithinSamples(s: Sampler, lo: int, hi: int)
    requires Valid(s) && SampleCount(s) > 0
    requires forall i :: 0 <= i < SampleCount(s) ==> lo <= s.speeds[i] <= hi
    ensures lo <= AnalogSpeed(s) <= hi
  {
    var n := SampleCount(s);
    SumBounds(s.speeds[..n], lo, hi);
    DivisionBounds(Sum(s.speeds[..n]), n, lo, hi);
  }

  /** Percentage of the analog range: 0 up to 1240, then 100 per 2700
      counts, rounded down, with no upper clamp. */
  function Percentage(avg: u16): (r: int)
    ensures avg <= MIN_ANALOG ==> r == 0
    ensures avg > MIN_ANALOG ==>
              r * (MAX_ANALOG - MIN_ANALOG) <= 100 * (avg - MIN_ANALOG) < (r + 1) * (MAX_ANALOG - MIN_ANALOG)
  {
    var value := avg - MIN_ANALOG;
    var clamped := if value < 0 then 0 else value;
    100 * clamped / (MAX_ANALOG - MIN_ANALOG)
  }

  /** The largest reading of the 12-bit ADC. */
  const MAX_ADC_READING: nat := 4095

  /** The speed percentage: never negative, and at most 105 while every
      stored sample is a 12-bit ADC reading. */
  function PercSpeed(s: Sampler): (r: int)
    requires Valid(s)
    ensures r == Percentage(AnalogSpeed(s))
    ensures r >= 0
    ensures (forall i :: 0 <= i < NUM_READINGS ==> s.speeds[i] <= MAX_ADC_READING) ==> r <= 105
  {
    ConversionBounded(s);
    Percentage(AnalogSpeed(s))
  }

  /** Over 12-bit samples the converted average is at most 105. */
  lemma ConversionBounded(s: Sampler)
    requires Valid(s)
    ensures (forall i :: 0 <= i < NUM_READINGS ==> s.speeds[i] <= MAX_ADC_READING) ==>
              Percentage(AnalogSpeed(s)) <= 105
  {
    if SampleCount(s) > 0 && forall i :: 0 <= i < NUM_READINGS ==> s.speeds[i] <= MAX_ADC_READING {
      AverageWithinSamples(s, 0, MAX_ADC_READING);
      PercentageMonotone(AnalogSpeed(s), MAX_ADC_READING);
      PercentageScale();
    }
  }

  lemma PercentageMonotone(a: u16, b: u16)
    requires a <= b
    ensures Percentage(a) <= Percentage(b)
  {
    if a > MIN_ANALOG {
      var ra, rb := Percentage(a), Percentage(b);
      assert ra * 2700 < (rb + 1) * 2700;
      assert (ra - rb - 1) * 2700 < 0;
    }
  }

  /** Full scale is at 3940; a 12-bit reading of 4095 gives 105. */
  lemma PercentageScale()
    ensures Percentage(MIN_ANALOG) == 0
    ensures Percentage(MAX_ANALOG) == 100
    ensures Percentage(4095) == 105
  {
  }

  // ---------------------------------------------------------------------
  // The ring against the history of readings

  /** The sampler after reading `h` in order, starting from `s`. */
  function Feed(s: Sampler, h: seq<u16>): (r: Sampler)
    requires Valid(s)
    ensures Valid(r)
  {
    if |h| == 0 then s else ReadSample(Feed(s, h[..|h| - 1]), h[|h| - 1])
  }

  /** The last (up to) five readings. */
  function Recent(h: seq<u16>): seq<u16> {
    if |h| <= NUM_READINGS then h else h[|h| - NUM_READINGS..]
  }

  /** The ring holds the newest reading for each slot of the history `h`. */
  predicate Reflects(s: Sampler, h: seq<u16>) {
    && Valid(s)
    && s.index == |h| % NUM_READINGS
    && (s.firstLoop <==> |h| < NUM_READINGS)
    && forall k :: 0 <= k < |h| && |h| - NUM_READINGS <= k ==> s.speeds[k % NUM_READINGS] == h[k]
  }

  /** Two of five consecutive positions never share a ring slot. */
  lemma SlotsDistinct(a: nat, b: nat)
    requires a < b < a + NUM_READINGS
    ensures a % NUM_READINGS != b % NUM_READINGS
  {
    var qa, qb := a / 5, b / 5;
    assert a == 5 * qa + a % 5 && b == 5 * qb + b % 5;
  }

  lemma ModSucc(n: nat)
    ensures (n % NUM_READINGS + 1) % NUM_READINGS == (n + 1) % NUM_READINGS
  {
    var q := n / 5;
    assert n == 5 * q + n % 5;
    ModAddMultiple(q, n % 5 + 1);
  }

  /** Reading one more sample keeps the ring in step with the history. */
  lemma ReadSampleReflects(t: Sampler, prev: seq<u16>, x: u16)
    requires Reflects(t, prev)
    ensures Reflects(ReadSample(t, x), prev + [x])
  {
    var h := prev + [x];
    var n := |prev|;
    var r := ReadSample(t, x);
    ModSucc(n);
    assert r.index == |h| % NUM_READINGS;
    assert r.firstLoop <==> |h| < NUM_READINGS;
    forall k | 0 <= k < |h| && |h| - NUM_READINGS <= k
      ensures r.speeds[k % NUM_READINGS] == h[k]
    {
      if k < n {
        SlotsDistinct(k, n);
        assert h[k] == prev[k];
      }
    }
  }

  lemma {:induction false} FeedReflects(h: seq<u16>)
    ensures Reflects(Feed(Init, h), h)
  {
    if |h| > 0 {
      var n := |h| - 1;
      var prev := h[..n];
      FeedReflects(prev);
      ReadSampleReflects(Feed(Init, prev), prev, h[n]);
      assert prev + [h[n]] == h;
    }
  }

  lemma Sum5(xs: seq<int>)
    requires |xs| == 5
    ensures Sum(xs) == xs[0] + xs[1] + xs[2] + xs[3] + xs[4]
  {
    var t1, t2, t3, t4 := xs[1..], xs[2..], xs[3..], xs[4..];
    assert t1[1..] == t2 && t2[1..] == t3 && t3[1..] == t4 && t4[1..] == [];
    assert Sum(t4) == xs[4];
    assert Sum(t3) == xs[3] + Sum(t4);
    assert Sum(t2) == xs[2] + Sum(t3);
    assert Sum(t1) == xs[1] + Sum(t2);
  }

  lemma ModAddMultiple(x: int, y: int)
    ensures (5 * x + y) % 5 == y % 5
  {
  }

  /** Five values read starting at slot r of a five-slot ring have the sum
      of the ring. */
  lemma RotationSum(ring: seq<int>, w: seq<int>, r: nat)
    requires |ring| == 5 && |w| == 5 && r < 5
    requires forall j :: 0 <= j < 5 ==> w[j] == ring[(r + j) % 5]
    ensures Sum(w) == Sum(ring)
  {
    Sum5(w);
    Sum5(ring);
    assert w[0] == ring[r % 5] && w[1] == ring[(r + 1) % 5] && w[2] == ring[(r + 2) % 5];
    assert w[3] == ring[(r + 3) % 5] && w[4] == ring[(r + 4) % 5];
    if r == 0 {
      assert w == ring;
    } else if r == 1 {
      assert w[0] == ring[1] && w[4] == ring[0];
    } else if r == 2 {
      assert w[0] == ring[2] && w[3] == ring[0];
    } else if r == 3 {
      assert w[0] == ring[3] && w[2] == ring[0];
    } else {
      assert w[0] == ring[4] && w[1] == ring[0];
    }
  }

  /** Before the ring is full, the ring's first slots are the readings so far. */
  lemma FirstLoopPrefix(s: Sampler, h: seq<u16>)
    requires Reflects(s, h) && |h| < NUM_READINGS
    ensures SampleCount(s) == |h|
    ensures s.speeds[..|h|] == h
  {
    forall k | 0 <= k < |h|
      ensures s.speeds[k] == h[k]
    {
      assert k % NUM_READINGS == k;
    }
  }

  /** Reading j of the last five sits in ring slot (|h| + j) mod 5. */
  lemma RingSlot(s: Sampler, h: seq<u16>, j: nat)
    requires Reflects(s, h) && |h| >= NUM_READINGS && j < NUM_READINGS
    ensures s.speeds[(|h| % 5 + j) % 5] == h[|h| - 5 + j]
  {
    var L := |h|;
    var k := L - 5 + j;
    assert s.speeds[k % 5] == h[k];
    var q := L / 5;
    assert L == 5 * q + L % 5;
    assert k == 5 * (q - 1) + (L % 5 + j);
    ModAddMultiple(q - 1, L % 5 + j);
  }

  /** Once the ring is full, it holds the last five readings in rotated order. */
  lemma FullRingHoldsRecent(s: Sampler, h: seq<u16>)
    requires Reflects(s, h) && |h| >= NUM_READINGS
    ensures Sum(s.speeds) == Sum(Recent(h))
  {
    var w := Recent(h);
    var L := |h|;
    forall j | 0 <= j < 5
      ensures w[j] == s.speeds[(L % 5 + j) % 5]
    {
      RingSlot(s, h, j);
    }
    RotationSum(s.speeds, w, L % 5);
  }

  /** The averaged value is exactly the mean of the last five readings (of
      all readings while fewer than five have been taken). */
  lemma AverageOfRecentReadings(h: seq<u16>)
    ensures AnalogSpeed(Feed(Init, h)) == Mean(Recent(h))
  {
    var s := Feed(Init, h);
    FeedReflects(h);
    if |h| < NUM_READINGS {
      FirstLoopPrefix(s, h);
    } else {
      FullRingHoldsRecent(s, h);
      assert s.speeds[..5] == s.speeds;
    }
  }
}
