/** Phase-cut (triac) firing controller: a percentage picks a firing delay
    from a linearisation table; a zero-cross edge schedules one firing per
    phase; a 100 us timer tick counts the pending firings down, raises a
    phase's gate pin when its countdown expires and drops it two ticks later.

    Gate pins and the timer's run state are plain fields of the state: the
    GPIO and timer driver calls are the only effect the firmware has on them. */
module PhaseCut {
  import opened Ints

  const INTERRUPT_PERIOD_USECS: nat := 100
  const PHASE_HALFPERIOD: u32 := 10000
  const PERIOD_CORRECTION_USECS: nat := 50
  const MAX_PERIOD: nat := 9500
  const MIN_PERIOD: nat := 4000
  const NUM_COUNTERS: nat := 3
  const NUM_PHASES: nat := 3
  const TABLE_SIZE: nat := 100
  /** Ticks a gate pin stays high after its countdown expires. */
  const PULSE_TICKS: nat := 2
  /** Offsets of phases 2 and 3 after the zero-cross: 2/3 and 4/3 of the
      10000 us half-period in integer division, (10000 * 2) / 3 and
      (10000 * 4) / 3, i.e. a third and two thirds of the 20 ms mains
      period. Since every dimming delay is at least 4026 us, phases 2 and 3
      both fire after the next zero-cross, and phase 3 with a delay above
      6667 us only after the one following it. */
  const PHASE2_OFFSET: nat := 6666
  const PHASE3_OFFSET: nat := 13333
  /** The longest countdown a zero-cross can schedule. */
  const MAX_DELAY: nat := 22833

  /** The firing delay (us after the zero-cross) for each percentage 0..99;
      entry i is the delay that delivers about i percent of full power. */
  function Linearization(i: nat): u16
    requires i < TABLE_SIZE
  {
    match i
    case 0 => 9999
    case 1 => 9361
    case 2 => 9095
    case 3 => 8890
    case 4 => 8716
    case 5 => 8563
    case 6 => 8423
    case 7 => 8294
    case 8 => 8173
    case 9 => 8058
    case 10 => 7950
    case 11 => 7846
    case 12 => 7746
    case 13 => 7650
    case 14 => 7556
    case 15 => 7466
    case 16 => 7378
    case 17 => 7292
    case 18 => 7208
    case 19 => 7126
    case 20 => 7046
    case 21 => 6967
    case 22 => 6889
    case 23 => 6813
    case 24 => 6738
    case 25 => 6664
    case 26 => 6591
    case 27 => 6519
    case 28 => 6447
    case 29 => 6377
    case 30 => 6307
    case 31 => 6238
    case 32 => 6169
    case 33 => 6101
    case 34 => 6034
    case 35 => 5967
    case 36 => 5900
    case 37 => 5834
    case 38 => 5768
    case 39 => 5703
    case 40 => 5638
    case 41 => 5573
    case 42 => 5508
    case 43 => 5444
    case 44 => 5380
    case 45 => 5315
    case 46 => 5252
    case 47 => 5188
    case 48 => 5124
    case 49 => 5060
    case 50 => 4996
    case 51 => 4933
    case 52 => 4869
    case 53 => 4805
    case 54 => 4741
    case 55 => 4677
    case 56 => 4613
    case 57 => 4549
    case 58 => 4485
    case 59 => 4420
    case 60 => 4355
    case 61 => 4290
    case 62 => 4225
    case 63 => 4159
    case 64 => 4093
    case 65 => 4026
    case 66 => 3959
    case 67 => 3892
    case 68 => 3824
    case 69 => 3755
    case 70 => 3686
    case 71 => 3616
    case 72 => 3546
    case 73 => 3474
    case 74 => 3402
    case 75 => 3329
    case 76 => 3255
    case 77 => 3180
    case 78 => 3104
    case 79 => 3026
    case 80 => 2947
    case 81 => 2867
    case 82 => 2785
    case 83 => 2701
    case 84 => 2615
    case 85 => 2527
    case 86 => 2437
    case 87 => 2343
    case 88 => 2247
    case 89 => 2147
    case 90 => 2043
    case 91 => 1935
    case 92 => 1820
    case 93 => 1699
    case 94 => 1570
    case 95 => 1430
    case 96 => 1276
    case 97 => 1103
    case 98 => 898
    case 99 => 632
    case _ => 0
  }

  lemma LinearizationStepLow()
    ensures forall i :: 0 <= i < 50 ==> Linearization(i + 1) < Linearization(i)
  {
  }

  lemma LinearizationStepHigh()
    ensures forall i :: 50 <= i < TABLE_SIZE - 1 ==> Linearization(i + 1) < Linearization(i)
  {
  }

  /** Adjacent entries strictly decrease. */
  lemma LinearizationStep()
    ensures forall i :: 0 <= i < TABLE_SIZE - 1 ==> Linearization(i + 1) < Linearization(i)
  {
    LinearizationStepLow();
    LinearizationStepHigh();
  }

  /** The table is strictly decreasing: more power means an earlier firing. */
  lemma {:induction false} LinearizationDecreasing(i: nat, j: nat)
    requires i < j < TABLE_SIZE
    ensures Linearization(j) < Linearization(i)
    decreases j - i
  {
    LinearizationStep();
    if i + 1 < j {
      LinearizationDecreasing(i + 1, j);
    }
  }

  /** Pending firings of one phase, its pulse countdown and its gate pin. */
  datatype Phase = Phase(slots: seq<u32>, turnOff: nat, pin: bool)

  datatype State = State(
    phases: seq<Phase>,
    full: bool,          // full-on: pins held high from each zero-cross
    period: u32,         // firing delay of phase 1, us
    halfPeriod: u32,     // half-period used for the phase offsets, us
    elapsed: u32,        // us since the last zero-cross, counted by the tick
    timerEnabled: bool)  // the 100 us tick timer is running

  predicate ValidPhase(p: Phase) {
    && |p.slots| == NUM_COUNTERS
    && p.turnOff <= PULSE_TICKS
    && forall j :: 0 <= j < |p.slots| ==> p.slots[j] <= MAX_DELAY
  }

  /** Shape of the C arrays plus the bounds every reachable state keeps. */
  predicate Valid(s: State) {
    && |s.phases| == NUM_PHASES
    && (forall k :: 0 <= k < |s.phases| ==> ValidPhase(s.phases[k]))
    && s.period <= MAX_PERIOD
    && s.halfPeriod == PHASE_HALFPERIOD
  }

  const IdlePhase: Phase := Phase([0, 0, 0], 0, false)

  /** Static initial values; the init routine leaves the tick timer running. */
  const Init: State := State([IdlePhase, IdlePhase, IdlePhase], false, 0, PHASE_HALFPERIOD, 0, true)

  predicate AllPins(s: State, level: bool) {
    forall k :: 0 <= k < |s.phases| ==> s.phases[k].pin == level
  }

  lemma InitValid()
    ensures Valid(Init) && AllPins(Init, false)
  {
  }

  // ---------------------------------------------------------------------
  // Percentage to mode

  /** Requests of 100 or more use the last table entry. */
  function TableIndex(perc: u32): (i: nat)
    ensures i < TABLE_SIZE
    ensures i == Min(perc, TABLE_SIZE - 1)
  {
    if perc >= 100 then 99 else perc
  }

  /** Where the three outcomes of the table lookup fall. */
  lemma {:induction false} TableThresholds(perc: u32)
    ensures perc == 0 ==> Linearization(TableIndex(perc)) > MAX_PERIOD
    ensures 1 <= perc <= 65 ==> 4026 <= Linearization(TableIndex(perc)) <= 9361
    ensures perc >= 66 ==> Linearization(TableIndex(perc)) < MIN_PERIOD
  {
    var i := TableIndex(perc);
    if 1 < i {
      LinearizationDecreasing(1, i);
    }
    if i < 65 && 1 <= i {
      LinearizationDecreasing(i, 65);
    }
    if 66 < i {
      LinearizationDecreasing(66, i);
    }
  }

  /** The source's percentage setter: 0 is off, 1..65 dims, 66 and above is full-on. */
  function SetPercentageAsWritten(s: State, perc: u32): (r: State)
    ensures r.phases == s.phases && r.halfPeriod == s.halfPeriod && r.elapsed == s.elapsed
    ensures perc == 0 ==> !r.full && !r.timerEnabled && r.period == s.period
    ensures 1 <= perc <= 65 ==>
              && !r.full && r.timerEnabled
              && r.period == Linearization(perc)
              && 4026 <= r.period <= 9361
    ensures perc >= 66 ==> r.full && !r.timerEnabled && r.period == s.period
  {
    TableThresholds(perc);
    var delay := Linearization(TableIndex(perc));
    if delay < MIN_PERIOD then
      s.(full := true, timerEnabled := false)
    else if delay > MAX_PERIOD then
      s.(full := false, timerEnabled := false)
    else
      s.(full := false, timerEnabled := true, period := delay)
  }

  /** A larger request never yields a later firing while dimming. */
  lemma SetPercentageMonotone(s: State, p: u32, q: u32)
    requires 1 <= p <= q <= 65
    ensures SetPercentageAsWritten(s, q).period <= SetPercentageAsWritten(s, p).period
  {
    if p < q {
      LinearizationDecreasing(p, q);
    }
  }

  lemma SaturatesAt99(s: State, perc: u32)
    requires perc >= 100
    ensures SetPercentageAsWritten(s, perc) == SetPercentageAsWritten(s, 99)
  {
  }

  /** The source's stop: leaves full-on and pauses the tick timer. */
  function StopAsWritten(s: State): (r: State)
    ensures !r.full && !r.timerEnabled
    ensures r.phases == s.phases && r.period == s.period
    ensures r.halfPeriod == s.halfPeriod && r.elapsed == s.elapsed
  {
    s.(full := false, timerEnabled := false)
  }

  /** In the idle mode (not full-on, timer paused) drive every gate pin low. */
  function Release(s: State): (r: State)
    ensures !s.full && !s.timerEnabled ==> AllPins(r, false)
    ensures s.full || s.timerEnabled ==> r == s
    ensures r.full == s.full && r.timerEnabled == s.timerEnabled && r.period == s.period
    ensures |r.phases| == |s.phases|
    ensures forall k :: 0 <= k < |s.phases| ==> r.phases[k] == s.phases[k].(pin := r.phases[k].pin)
    ensures r == s.(phases := r.phases)
  {
    if s.full || s.timerEnabled then s
    else s.(phases := seq(|s.phases|, k requires 0 <= k < |s.phases| => s.phases[k].(pin := false)))
  }

  /** Corrected setter: as the source, but an idle request also drops the gate pins. */
  function SetPercentage(s: State, perc: u32): (r: State)
    ensures r.full == SetPercentageAsWritten(s, perc).full
    ensures r.timerEnabled == SetPercentageAsWritten(s, perc).timerEnabled
    ensures r.period == SetPercentageAsWritten(s, perc).period
    ensures perc == 0 ==> !r.full && !r.timerEnabled && AllPins(r, false)
    ensures perc == 0 ==>
              && |r.phases| == |s.phases|
              && (forall k :: 0 <= k < |s.phases| ==> r.phases[k] == s.phases[k].(pin := false))
              && r.halfPeriod == s.halfPeriod && r.elapsed == s.elapsed
    ensures perc > 0 ==> r == SetPercentageAsWritten(s, perc)
  {
    Release(SetPercentageAsWritten(s, perc))
  }

  /** Corrected stop: as the source, but the gate pins are dropped too. */
  function Stop(s: State): (r: State)
    ensures !r.full && !r.timerEnabled && AllPins(r, false)
    ensures r.period == s.period && |r.phases| == |s.phases|
    ensures r.halfPeriod == s.halfPeriod && r.elapsed == s.elapsed
    ensures forall k :: 0 <= k < |s.phases| ==> r.phases[k] == s.phases[k].(pin := false)
  {
    Release(StopAsWritten(s))
  }

  // ---------------------------------------------------------------------
  // Timer tick

  /** Slot j of `slots` at or after `i` fires on this tick. */
  predicate FiresFrom(slots: seq<u32>, i: nat) {
    exists j :: i <= j < |slots| && 0 < slots[j] <= INTERRUPT_PERIOD_USECS
  }

  /** One step of one countdown slot. */
  function CountDown(c: u32): u32 {
    if c > 0 then (if c > INTERRUPT_PERIOD_USECS then c - INTERRUPT_PERIOD_USECS else 0) else c
  }

  /** The slot loop from index `i` on: count each slot down and, when one
      expires, raise the pin and arm the pulse countdown. */
  function FireFrom(p: Phase, i: nat): (r: Phase)
    requires i <= |p.slots|
    ensures |r.slots| == |p.slots|
    ensures forall j :: 0 <= j < i ==> r.slots[j] == p.slots[j]
    ensures forall j :: i <= j < |p.slots| ==>
              r.slots[j] == p.slots[j] - Min(INTERRUPT_PERIOD_USECS, p.slots[j])
    ensures FiresFrom(p.slots, i) ==> r.pin && r.turnOff == PULSE_TICKS
    ensures !FiresFrom(p.slots, i) ==> r.pin == p.pin && r.turnOff == p.turnOff
    decreases |p.slots| - i
  {
    if i == |p.slots| then p
    else
      var c := p.slots[i];
      var slots := p.slots[i := CountDown(c)];
      var next :=
        if c > 0 && CountDown(c) == 0 then Phase(slots, PULSE_TICKS, true)
        else p.(slots := slots);
      FireFrom(next, i + 1)
  }

  /** Tick handler for one phase: end of pulse first, then the slot loop. */
  function TickPhase(p: Phase, full: bool): (r: Phase)
    ensures |r.slots| == |p.slots|
    ensures forall j :: 0 <= j < |p.slots| ==>
              r.slots[j] == p.slots[j] - Min(INTERRUPT_PERIOD_USECS, p.slots[j])
    ensures FiresFrom(p.slots, 0) ==> r.pin && r.turnOff == PULSE_TICKS
    ensures !FiresFrom(p.slots, 0) ==> r.turnOff == Max(p.turnOff - 1, 0)
    ensures !FiresFrom(p.slots, 0) ==> (r.pin <==> p.pin && (full || p.turnOff > 1))
  {
    var turnOff := if p.turnOff > 0 then p.turnOff - 1 else p.turnOff;
    var pin := if turnOff == 0 && !full then false else p.pin;
    FireFrom(Phase(p.slots, turnOff, pin), 0)
  }

  /** The 100 us timer interrupt. */
  function Tick(s: State): (r: State)
    requires Valid(s)
    ensures Valid(r)
    ensures r.full == s.full && r.period == s.period
    ensures r.halfPeriod == s.halfPeriod && r.timerEnabled == s.timerEnabled
    ensures r.elapsed == WrapU32(s.elapsed + INTERRUPT_PERIOD_USECS)
    ensures forall k, j :: 0 <= k < NUM_PHASES && 0 <= j < NUM_COUNTERS ==>
              r.phases[k].slots[j] == s.phases[k].slots[j] - Min(INTERRUPT_PERIOD_USECS, s.phases[k].slots[j])
    ensures forall k :: 0 <= k < NUM_PHASES ==>
              (r.phases[k].pin <==>
                 FiresFrom(s.phases[k].slots, 0)
                 || (s.phases[k].pin && (s.full || s.phases[k].turnOff > 1)))
    ensures forall k :: 0 <= k < NUM_PHASES ==>
              r.phases[k].turnOff ==
                if FiresFrom(s.phases[k].slots, 0) then PULSE_TICKS else Max(s.phases[k].turnOff - 1, 0)
    ensures forall k :: 0 <= k < NUM_PHASES && r.phases[k].pin && !s.phases[k].pin ==>
              r.phases[k].turnOff == PULSE_TICKS
  {
    var phases := seq(NUM_PHASES, k requires 0 <= k < NUM_PHASES => TickPhase(s.phases[k], s.full));
    s.(phases := phases, elapsed := WrapU32(s.elapsed + INTERRUPT_PERIOD_USECS))
  }

  /** While dimming, a freshly armed pulse holds the pin high for exactly
      two ticks when no new firing intervenes. */
  lemma PulseEnds(s: State, k: nat)
    requires Valid(s) && !s.full && k < NUM_PHASES
    requires s.phases[k].pin && s.phases[k].turnOff == PULSE_TICKS
    requires !FiresFrom(s.phases[k].slots, 0) && !FiresFrom(Tick(s).phases[k].slots, 0)
    ensures Tick(s).phases[k].pin && Tick(s).phases[k].turnOff == 1
    ensures !Tick(Tick(s)).phases[k].pin && Tick(Tick(s)).phases[k].turnOff == 0
  {
  }

  // ---------------------------------------------------------------------
  // Zero-cross

  /** Slot k is the first free (zero) slot of `c`. */
  predicate FirstFree(c: seq<u32>, k: nat) {
    k < |c| && c[k] == 0 && forall j :: 0 <= j < k ==> c[j] != 0
  }

  /** Store `v` in the first free slot; with no free slot, drop it. */
  function AddCounter(c: seq<u32>, v: u32): (r: seq<u32>)
    ensures |r| == |c|
    ensures forall j :: 0 <= j < |c| ==> r[j] == c[j] || r[j] == v
    ensures (forall j :: 0 <= j < |c| ==> c[j] != 0) ==> r == c
    ensures forall k: nat :: FirstFree(c, k) ==> r == c[k := v]
  {
    if |c| == 0 then c
    else if c[0] == 0 then [v] + c[1..]
    else
      var rest := AddCounter(c[1..], v);
      assert forall k: nat :: 1 <= k && FirstFree(c, k) ==> FirstFree(c[1..], k - 1);
      [c[0]] + rest
  }

  /** The closed-loop step toward the measured half-period (its result is
      overwritten by the nominal half-period right after). */
  function CorrectHalfPeriod(elapsed: u32, halfPeriod: u32): u32 {
    if elapsed > halfPeriod then WrapU32(halfPeriod + PERIOD_CORRECTION_USECS)
    else if elapsed < halfPeriod then WrapU32(halfPeriod - PERIOD_CORRECTION_USECS)
    else halfPeriod
  }

  /** Delay of phase k's firing after the zero-cross, before the period is
      added: 0, 6666 or 13333 us (the last one beyond the half-period). */
  function Offset(k: nat): (o: nat)
    ensures o <= PHASE3_OFFSET
  {
    if k == 0 then 0 else if k == 1 then PHASE2_OFFSET else PHASE3_OFFSET
  }

  /** Delay of phase k as the handler computes it from the half-period
      variable: 0, 2/3 or 4/3 of it (integer division), plus the period. */
  function PhaseDelay(halfPeriod: u32, period: u32, k: nat): (d: u32)
    ensures halfPeriod == PHASE_HALFPERIOD && period <= MAX_PERIOD ==>
              d == Offset(k) + period && d <= MAX_DELAY
  {
    if k == 0 then period
    else if k == 1 then WrapU32(halfPeriod * 2 / 3 + period)
    else WrapU32(halfPeriod * 4 / 3 + period)
  }

  /** Queue one firing `delay` us ahead on phase `p`. */
  function Schedule(p: Phase, delay: u32): (r: Phase)
    requires ValidPhase(p) && delay <= MAX_DELAY
    ensures ValidPhase(r)
    ensures r.pin == p.pin && r.turnOff == p.turnOff
    ensures r.slots == AddCounter(p.slots, delay)
  {
    p.(slots := AddCounter(p.slots, delay))
  }

  /** A phase's pin level at the start of the zero-cross handler: high in
      full-on, untouched otherwise. */
  function Raise(p: Phase, full: bool): (r: Phase)
    ensures r.slots == p.slots && r.turnOff == p.turnOff
    ensures r.pin == (full || p.pin)
  {
    if full then p.(pin := true) else p
  }

  /** Phase k after the zero-cross: the state the handler leaves it in. */
  predicate ScheduledFrom(s: State, r: Phase, k: nat)
    requires Valid(s) && k < NUM_PHASES
  {
    && ValidPhase(r)
    && r.turnOff == s.phases[k].turnOff
    && r.pin == (s.full || s.phases[k].pin)
    && r.slots == AddCounter(s.phases[k].slots, Offset(k) + s.period)
  }

  /** The zero-cross handler's work on phase k: raise in full-on, then queue
      the phase's firing computed from the half-period variable. */
  function ZeroCrossPhase(s: State, halfPeriod: u32, k: nat): (r: Phase)
    requires Valid(s) && halfPeriod == PHASE_HALFPERIOD && k < NUM_PHASES
    ensures ScheduledFrom(s, r, k)
  {
    var raised := Raise(s.phases[k], s.full);
    assert ValidPhase(raised);
    Schedule(raised, PhaseDelay(halfPeriod, s.period, k))
  }

  /** All three phases after the zero-cross handler. */
  function ZeroCrossPhases(s: State, halfPeriod: u32): (phases: seq<Phase>)
    requires Valid(s) && halfPeriod == PHASE_HALFPERIOD
    ensures |phases| == NUM_PHASES
    ensures forall k :: 0 <= k < NUM_PHASES ==> ScheduledFrom(s, phases[k], k)
  {
    [ZeroCrossPhase(s, halfPeriod, 0), ZeroCrossPhase(s, halfPeriod, 1), ZeroCrossPhase(s, halfPeriod, 2)]
  }

  /** The zero-cross interrupt. */
  function ZeroCross(s: State): (r: State)
    requires Valid(s)
    ensures Valid(r)
    ensures r.elapsed == 0 && r.halfPeriod == PHASE_HALFPERIOD
    ensures r.full == s.full && r.period == s.period && r.timerEnabled == s.timerEnabled
    ensures forall k :: 0 <= k < NUM_PHASES ==> ScheduledFrom(s, r.phases[k], k)
  {
    var corrected := CorrectHalfPeriod(s.elapsed, s.halfPeriod);
    // the correction is immediately overwritten by the nominal half-period
    var halfPeriod := PHASE_HALFPERIOD;
    State(ZeroCrossPhases(s, halfPeriod), s.full, s.period, halfPeriod, 0, s.timerEnabled)
  }

  /** The offsets are 2/3 and 4/3 of the nominal half-period, rounded down. */
  lemma OffsetsAreThirds()
    ensures Offset(1) == PHASE_HALFPERIOD * 2 / 3 && Offset(2) == PHASE_HALFPERIOD * 4 / 3
    ensures MAX_DELAY == Offset(2) + MAX_PERIOD
  {
  }

  /** The zero-cross result does not depend on the measured half-period:
      the correction is overwritten before it is used. */
  lemma ZeroCrossIgnoresMeasurement(s: State, elapsed: u32)
    requires Valid(s)
    ensures ZeroCross(s.(elapsed := elapsed)) == ZeroCross(s)
  {
  }

  // ---------------------------------------------------------------------
  // Event-level behaviour

  datatype Event = TimerAlarm | ZeroCrossEdge | Percentage(perc: u32) | StopRequest

  predicate IsHardwareEvent(e: Event) {
    e.TimerAlarm? || e.ZeroCrossEdge?
  }

  /** One event; the tick interrupt only arrives while the timer runs. */
  function Next(s: State, e: Event): (r: State)
    requires Valid(s)
    ensures Valid(r)
  {
    match e
    case TimerAlarm => if s.timerEnabled then Tick(s) else s
    case ZeroCrossEdge => ZeroCross(s)
    case Percentage(p) => SetPercentage(s, p)
    case StopRequest => Stop(s)
  }

  function Run(s: State, es: seq<Event>): (r: State)
    requires Valid(s)
    ensures Valid(r)
    decreases |es|
  {
    if |es| == 0 then s else Run(Next(s, es[0]), es[1..])
  }

  function PinLevels(s: State): seq<bool> {
    seq(|s.phases|, k requires 0 <= k < |s.phases| => s.phases[k].pin)
  }

  /** With the timer paused and full-on off, interrupts never move a gate pin. */
  lemma {:induction false} PausedPinsFrozen(s: State, es: seq<Event>)
    requires Valid(s) && !s.full && !s.timerEnabled
    requires forall i :: 0 <= i < |es| ==> IsHardwareEvent(es[i])
    ensures PinLevels(Run(s, es)) == PinLevels(s)
    ensures !Run(s, es).full && !Run(s, es).timerEnabled
    decreases |es|
  {
    if |es| > 0 {
      var t := Next(s, es[0]);
      assert PinLevels(t) == PinLevels(s);
      PausedPinsFrozen(t, es[1..]);
    }
  }

  /** After an off request (corrected model) the gate pins stay low for any
      sequence of interrupts. */
  lemma {:induction false} OffStaysOff(s: State, es: seq<Event>)
    requires Valid(s)
    requires forall i :: 0 <= i < |es| ==> IsHardwareEvent(es[i])
    ensures AllPins(Run(SetPercentage(s, 0), es), false)
    ensures AllPins(Run(Stop(s), es), false)
  {
    var a := SetPercentage(s, 0);
    PausedPinsFrozen(a, es);
    assert forall k :: 0 <= k < NUM_PHASES ==> Run(a, es).phases[k].pin == PinLevels(Run(a, es))[k];
    var b := Stop(s);
    PausedPinsFrozen(b, es);
    assert forall k :: 0 <= k < NUM_PHASES ==> Run(b, es).phases[k].pin == PinLevels(Run(b, es))[k];
  }

  /** In full-on mode the gate pins, once high, stay high under interrupts. */
  lemma {:induction false} FullOnHoldsPins(s: State, es: seq<Event>)
    requires Valid(s) && s.full && AllPins(s, true)
    requires forall i :: 0 <= i < |es| ==> IsHardwareEvent(es[i])
    ensures AllPins(Run(s, es), true) && Run(s, es).full
    decreases |es|
  {
    if |es| > 0 {
      FullOnHoldsPins(Next(s, es[0]), es[1..]);
    }
  }

  /** A full-on request drives all three gate pins high at the next zero-cross. */
  lemma FullOnAfterZeroCross(s: State, perc: u32)
    requires Valid(s) && perc >= 66
    ensures SetPercentage(s, perc).full
    ensures AllPins(ZeroCross(SetPercentage(s, perc)), true)
  {
  }

  // ---------------------------------------------------------------------
  // Finding: the source's off request can leave the gates held high

  /** From any state, request full-on (66 % or more) and let one zero-cross
      pass; then ask for 0 percent, or stop, as the source does. The timer is
      paused with all three gate pins still high, and no interrupt ever
      lowers them. */
  lemma {:induction false} OffAfterFullOnAsWritten(s: State, perc: u32, es: seq<Event>)
    requires Valid(s) && perc >= 66
    requires forall i :: 0 <= i < |es| ==> IsHardwareEvent(es[i])
    ensures var on := ZeroCross(SetPercentageAsWritten(s, perc));
            && AllPins(Run(SetPercentageAsWritten(on, 0), es), true)
            && AllPins(Run(StopAsWritten(on), es), true)
  {
    var on := ZeroCross(SetPercentageAsWritten(s, perc));
    assert AllPins(on, true);
    HeldHighStaysHigh(SetPercentageAsWritten(on, 0), es);
    HeldHighStaysHigh(StopAsWritten(on), es);
  }

  lemma {:induction false} HeldHighStaysHigh(s: State, es: seq<Event>)
    requires Valid(s) && !s.full && !s.timerEnabled && AllPins(s, true)
    requires forall i :: 0 <= i < |es| ==> IsHardwareEvent(es[i])
    ensures AllPins(Run(s, es), true)
  {
    PausedPinsFrozen(s, es);
    var r := Run(s, es);
    assert forall k :: 0 <= k < NUM_PHASES ==> r.phases[k].pin == PinLevels(r)[k] == PinLevels(s)[k];
  }
}
