/** Motor ramp state machine: a speed request is clamped to 40..100; a start
    from standstill forces 100 % for a one-second bootstrap; afterwards a
    100 ms tick moves the applied percentage toward the requested one by at
    most 5 per tick. Every change is handed to the phase-cut controller.

    The one-second timer is an input of the tick (`bootstrapExpired`). */
module Motor {
  import opened Ints
  import opened Optional
  import PhaseCut

  const PERCENTAGE_ADJUSTMENT_STEP: nat := 5
  const MINIMUM_PERCENTAGE: nat := 40
  const MAXIMUM_PERCENTAGE: nat := 100
  /** The percentage forced while the motor starts. */
  const BOOTSTRAP_PERCENTAGE: u8 := 100

  datatype Motor = Motor(actual: u8, objective: u8, on: bool, bootstrap: bool)

  /** A motor operation's new state and the percentage it passed to the
      phase-cut controller, if it made that call. */
  datatype Step = Step(motor: Motor, applied: Option<u8>)

  /** Both percentages stay in the operating range. */
  predicate Valid(m: Motor) {
    && MINIMUM_PERCENTAGE <= m.actual <= MAXIMUM_PERCENTAGE
    && MINIMUM_PERCENTAGE <= m.objective <= MAXIMUM_PERCENTAGE
  }

  /** Static initial values. */
  const Init: Motor := Motor(40, 40, false, false)

  /** The static initial values are within the operating range, stopped. */
  lemma InitValid()
    ensures Valid(Init) && !Init.on && !Init.bootstrap
  {
  }

  function Abs(x: int): nat {
    if x < 0 then -x else x
  }

  /** The request raised to the stall floor or capped at 100: the point of
      the operating range nearest to it. */
  function Clamp(perc: u8): (r: u8)
    ensures MINIMUM_PERCENTAGE <= r <= MAXIMUM_PERCENTAGE
    ensures MINIMUM_PERCENTAGE <= perc <= MAXIMUM_PERCENTAGE ==> r == perc
    ensures perc < MINIMUM_PERCENTAGE ==> r == MINIMUM_PERCENTAGE
    ensures perc > MAXIMUM_PERCENTAGE ==> r == MAXIMUM_PERCENTAGE
  {
    if perc < MINIMUM_PERCENTAGE then MINIMUM_PERCENTAGE
    else if perc > MAXIMUM_PERCENTAGE then MAXIMUM_PERCENTAGE
    else perc
  }

  /** No point of the operating range is nearer to the request than its clamp. */
  lemma ClampIsNearest(perc: u8, x: int)
    requires MINIMUM_PERCENTAGE <= x <= MAXIMUM_PERCENTAGE
    ensures Abs(Clamp(perc) - perc) <= Abs(x - perc)
  {
  }

  /** Speed request. From standstill: start at 100 % in bootstrap. While
      running: only the objective changes. */
  function SetSpeed(m: Motor, perc: u8): (r: Step)
    ensures !m.on ==>
              r == Step(Motor(BOOTSTRAP_PERCENTAGE, Clamp(perc), true, true), Some(BOOTSTRAP_PERCENTAGE))
    ensures m.on ==> r == Step(m.(objective := Clamp(perc)), None)
    ensures Valid(m) ==> Valid(r.motor)
  {
    var p := Clamp(perc);
    if !m.on || m.objective != p then
      var m1 := m.(objective := p);
      if !m.on then
        Step(m1.(actual := BOOTSTRAP_PERCENTAGE, bootstrap := true, on := true), Some(BOOTSTRAP_PERCENTAGE))
      else
        Step(m1, None)
    else
      Step(m, None)
  }

  /** Repeating a request changes nothing and calls nothing. */
  lemma SetSpeedIdempotent(m: Motor, perc: u8)
    ensures var once := SetSpeed(m, perc).motor;
            SetSpeed(once, perc) == Step(once, None)
  {
  }

  /** Stop: the motor is marked off and the phase cut is set to 0 %. The
      percentages and the bootstrap flag are kept. */
  function TurnOff(m: Motor): (r: Step)
    ensures !r.motor.on && r.applied == Some(0)
    ensures r.motor.actual == m.actual && r.motor.objective == m.objective
    ensures r.motor.bootstrap == m.bootstrap
  {
    Step(m.(on := false), Some(0))
  }

  /** Enable with a percentage, or disable. */
  function Control(m: Motor, enable: u8, perc: u8): (r: Step)
    ensures enable != 0 ==> r == SetSpeed(m, perc)
    ensures enable == 0 ==> r == TurnOff(m)
  {
    if enable != 0 then SetSpeed(m, perc) else TurnOff(m)
  }

  function GetState(m: Motor): (on: bool)
    ensures on == m.on
  {
    m.on
  }

  /** One step of the ramp: move `actual` toward `objective` by at most 5.
      The downward comparison is done in signed 8-bit arithmetic as in the
      source. */
  function Ramp(m: Motor): Step {
    if m.objective > m.actual then
      if m.objective > m.actual + PERCENTAGE_ADJUSTMENT_STEP then
        Step(m.(actual := m.actual + PERCENTAGE_ADJUSTMENT_STEP), Some(m.actual + PERCENTAGE_ADJUSTMENT_STEP))
      else
        Step(m.(actual := m.objective), Some(m.objective))
    else if m.objective < m.actual then
      if AsInt8(m.objective) < AsInt8(m.actual) - AsInt8(PERCENTAGE_ADJUSTMENT_STEP) then
        Step(m.(actual := m.actual - PERCENTAGE_ADJUSTMENT_STEP), Some(m.actual - PERCENTAGE_ADJUSTMENT_STEP))
      else
        Step(m.(actual := m.objective), Some(m.objective))
    else
      Step(m, None)
  }

  /** The 100 ms tick. During bootstrap it only ends the bootstrap once the
      second has passed; while running it ramps; when off it does nothing. */
  function RampTick(m: Motor, bootstrapExpired: bool): (r: Step)
    ensures m.bootstrap ==> r == Step(m.(bootstrap := !bootstrapExpired), None)
    ensures !m.bootstrap && (!m.on || m.actual == m.objective) ==> r == Step(m, None)
    ensures Valid(m) ==> Valid(r.motor)
    ensures Valid(m) && !m.bootstrap && m.on ==>
              && r.motor == m.(actual := r.motor.actual)
              && Abs(r.motor.actual - m.objective)
                 == Abs(m.actual - m.objective) - Min(PERCENTAGE_ADJUSTMENT_STEP, Abs(m.actual - m.objective))
              && (r.motor.actual - m.objective) * (m.actual - m.objective) >= 0
              && (r.applied.Some? <==> r.motor.actual != m.actual)
              && (r.applied.Some? ==> r.applied.value == r.motor.actual)
  {
    if m.bootstrap then
      Step(m.(bootstrap := !bootstrapExpired), None)
    else if m.on then
      Ramp(m)
    else
      Step(m, None)
  }

  /** `n` ticks after the bootstrap. */
  function Ticks(m: Motor, n: nat): (r: Motor)
    ensures Valid(m) ==> Valid(r)
    decreases n
  {
    if n == 0 then m else Ticks(RampTick(m, true).motor, n - 1)
  }

  /** A running motor reaches its objective after ceil(distance / 5) ticks. */
  lemma {:induction false} RampConverges(m: Motor, n: nat)
    requires Valid(m) && m.on && !m.bootstrap
    requires n * PERCENTAGE_ADJUSTMENT_STEP >= Abs(m.actual - m.objective)
    ensures Ticks(m, n).actual == m.objective
    ensures Ticks(m, n).objective == m.objective
    decreases n
  {
    if n > 0 {
      var next := RampTick(m, true).motor;
      RampConverges(next, n - 1);
    }
  }

  // ---------------------------------------------------------------------
  // Driving the phase-cut controller

  /** Apply the percentage a motor step handed over, if any, through the
      source's phase-cut setter. */
  function DriveAsWritten(pc: PhaseCut.State, st: Step): (r: PhaseCut.State)
    ensures st.applied.None? ==> r == pc
    ensures st.applied.Some? ==> r == PhaseCut.SetPercentageAsWritten(pc, st.applied.value)
  {
    match st.applied
    case None => pc
    case Some(p) => PhaseCut.SetPercentageAsWritten(pc, p)
  }

  /** As written, a start from standstill goes full-on, the next zero-cross
      raises every gate pin, and turning the motor off then leaves all three
      pins high under any sequence of interrupts. */
  lemma {:induction false} StartThenStopAsWritten(m: Motor, pc: PhaseCut.State, perc: u8, es: seq<PhaseCut.Event>)
    requires PhaseCut.Valid(pc) && !m.on
    requires forall i :: 0 <= i < |es| ==> PhaseCut.IsHardwareEvent(es[i])
    ensures var start := SetSpeed(m, perc);
            var crossed := PhaseCut.ZeroCross(DriveAsWritten(pc, start));
            var stopped := DriveAsWritten(crossed, TurnOff(start.motor));
            PhaseCut.AllPins(PhaseCut.Run(stopped, es), true)
  {
    var start := SetSpeed(m, perc);
    assert start.applied == Some(BOOTSTRAP_PERCENTAGE);
    PhaseCut.OffAfterFullOnAsWritten(pc, BOOTSTRAP_PERCENTAGE, es);
  }

  /** Apply the percentage a motor step handed over, if any, through the
      corrected phase-cut setter. */
  function Drive(pc: PhaseCut.State, st: Step): (r: PhaseCut.State)
    ensures st.applied.None? ==> r == pc
    ensures st.applied.Some? ==> r == PhaseCut.SetPercentage(pc, st.applied.value)
  {
    match st.applied
    case None => pc
    case Some(p) => PhaseCut.SetPercentage(pc, p)
  }

  /** Starting from standstill puts the triacs full-on. */
  lemma StartIsFullOn(m: Motor, pc: PhaseCut.State, perc: u8)
    requires !m.on
    ensures Drive(pc, SetSpeed(m, perc)).full
    ensures !Drive(pc, SetSpeed(m, perc)).timerEnabled
  {
  }

  /** Stopping idles the phase cut with every gate pin low. */
  lemma TurnOffIdles(m: Motor, pc: PhaseCut.State)
    ensures var r := Drive(pc, TurnOff(m));
            !r.full && !r.timerEnabled && PhaseCut.AllPins(r, false)
  {
  }

  /** A running motor never idles the phase cut: every percentage it hands
      over is full-on or a delay no later than the one for 40 %. */
  lemma RunningNeverIdles(m: Motor, pc: PhaseCut.State, bootstrapExpired: bool)
    requires Valid(m)
    ensures var r := Drive(pc, RampTick(m, bootstrapExpired));
            r == pc || r.full || (r.timerEnabled && r.period <= PhaseCut.Linearization(MINIMUM_PERCENTAGE))
  {
    var st := RampTick(m, bootstrapExpired);
    if st.applied.Some? {
      var p := st.applied.value;
      assert MINIMUM_PERCENTAGE <= p <= MAXIMUM_PERCENTAGE;
      if p <= 65 && p > MINIMUM_PERCENTAGE {
        PhaseCut.LinearizationDecreasing(MINIMUM_PERCENTAGE, p);
      }
    }
  }
}
