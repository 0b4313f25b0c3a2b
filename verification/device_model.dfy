/** The device model record with its defaults, the start-up repair of the
    group, the speed-step table and the field accessors. The accessors come
    in a locked and an unlocked flavour; both read or write exactly one
    field, and the lock is not modelled. */
module DeviceModel {
  import opened Ints

  const NUM_SPEED_STEPS: nat := 5
  const DEFAULT_ADDRESS: u16 := 1
  const DEFAULT_SERIAL_NUMBER: u16 := 2
  const DEFAULT_SPEED_STEPS: seq<u8> := [40, 55, 70, 85, 100]

  /** Fan group: the two declared groups, or any other stored byte. `raw`
      stands only for bytes that are neither declared group's code, so each
      stored value has one representation; the numeric codes live in a
      header that is not part of this model. */
  datatype Group = FanSiphoning | FanImmission | Undeclared(raw: u8)

  datatype Model = Model(
    address: u16,
    serialNumber: u16,
    deviceClass: u16,
    motorControlOverride: u8,
    speedSteps: seq<u8>,
    speedStep: u32,
    group: Group)

  predicate Valid(m: Model) {
    |m.speedSteps| == NUM_SPEED_STEPS
  }

  /** Defaults after start-up. The class field is not written here, so its
      initial content is a parameter. */
  function Init(initialClass: u16): (m: Model)
    ensures Valid(m)
    ensures m.address == DEFAULT_ADDRESS && m.serialNumber == DEFAULT_SERIAL_NUMBER
    ensures m.motorControlOverride == 0 && m.group == FanSiphoning && m.speedStep == 0
    ensures m.speedSteps == DEFAULT_SPEED_STEPS && m.deviceClass == initialClass
  {
    Model(DEFAULT_ADDRESS, DEFAULT_SERIAL_NUMBER, initialClass, 0, DEFAULT_SPEED_STEPS, 0, FanSiphoning)
  }

  /** The default speed steps rise strictly and stay within the motor's
      operating range. */
  lemma DefaultStepsIncreasing()
    ensures |DEFAULT_SPEED_STEPS| == NUM_SPEED_STEPS
    ensures forall i, j :: 0 <= i < j < NUM_SPEED_STEPS ==> DEFAULT_SPEED_STEPS[i] < DEFAULT_SPEED_STEPS[j]
    ensures forall i :: 0 <= i < NUM_SPEED_STEPS ==> 40 <= DEFAULT_SPEED_STEPS[i] <= 100
  {
  }

  predicate GroupDeclared(g: Group) {
    g == FanSiphoning || g == FanImmission
  }

  /** Start-up repair: an undeclared group becomes the siphoning group;
      nothing else changes. */
  function CheckValues(m: Model): (r: Model)
    ensures GroupDeclared(r.group)
    ensures GroupDeclared(m.group) ==> r == m
    ensures !GroupDeclared(m.group) ==> r.group == FanSiphoning
    ensures r == m.(group := r.group)
  {
    if m.group != FanSiphoning && m.group != FanImmission then m.(group := FanSiphoning) else m
  }

  lemma CheckValuesIdempotent(m: Model)
    ensures CheckValues(CheckValues(m)) == CheckValues(m)
  {
  }

  lemma InitNeedsNoRepair(initialClass: u16)
    ensures CheckValues(Init(initialClass)) == Init(initialClass)
  {
  }

  /** The configured percentage of speed step `step`. */
  function ConfiguredSpeedStep(m: Model, step: nat): (p: u8)
    requires Valid(m) && step < NUM_SPEED_STEPS
    ensures p == m.speedSteps[step]
    ensures p in m.speedSteps
  {
    m.speedSteps[step]
  }

  /** The percentage of the current speed step; the step index is only
      asserted, never range-checked on write. */
  function CurrentSpeed(m: Model): (p: u8)
    requires Valid(m) && m.speedStep < NUM_SPEED_STEPS
    ensures p == m.speedSteps[m.speedStep]
    ensures p in m.speedSteps
    ensures forall i :: 0 <= i < NUM_SPEED_STEPS && m.speedSteps == DEFAULT_SPEED_STEPS && i < m.speedStep ==>
              m.speedSteps[i] < p
  {
    DefaultStepsIncreasing();
    ConfiguredSpeedStep(m, m.speedStep)
  }

  /** With the default table, selecting a higher speed step through the
      setter always gives a strictly higher current speed. */
  lemma CurrentSpeedIncreasing(m: Model, a: nat, b: nat)
    requires Valid(m) && m.speedSteps == DEFAULT_SPEED_STEPS
    requires a < b < NUM_SPEED_STEPS
    ensures CurrentSpeed(Set(m, SpeedStep, a)) < CurrentSpeed(Set(m, SpeedStep, b))
  {
    DefaultStepsIncreasing();
    var ma, mb := Set(m, SpeedStep, a), Set(m, SpeedStep, b);
    assert ma.speedStep == a && mb.speedStep == b;
    assert DEFAULT_SPEED_STEPS[a] < DEFAULT_SPEED_STEPS[b];
  }

  // ---------------------------------------------------------------------
  // Accessors

  /** Fields with generated accessors. */
  datatype Field = Address | SerialNumber | SpeedStep | MotorControlOverride

  /** Range of each field's C type (size_t is 32 bits on the target). */
  function Limit(f: Field): nat {
    match f
    case Address => U16_LIMIT
    case SerialNumber => U16_LIMIT
    case SpeedStep => U32_LIMIT
    case MotorControlOverride => U8_LIMIT
  }

  function Get(m: Model, f: Field): (v: nat)
    ensures v < Limit(f)
    ensures f == Address ==> v == m.address
    ensures f == SerialNumber ==> v == m.serialNumber
    ensures f == SpeedStep ==> v == m.speedStep
    ensures f == MotorControlOverride ==> v == m.motorControlOverride
  {
    match f
    case Address => m.address
    case SerialNumber => m.serialNumber
    case SpeedStep => m.speedStep
    case MotorControlOverride => m.motorControlOverride
  }

  function Set(m: Model, f: Field, v: nat): (r: Model)
    requires v < Limit(f)
    ensures Get(r, f) == v
    ensures forall g :: g != f ==> Get(r, g) == Get(m, g)
    ensures r.deviceClass == m.deviceClass && r.speedSteps == m.speedSteps && r.group == m.group
  {
    match f
    case Address => m.(address := v)
    case SerialNumber => m.(serialNumber := v)
    case SpeedStep => m.(speedStep := v)
    case MotorControlOverride => m.(motorControlOverride := v)
  }

  /** Writing back what was read changes nothing. */
  lemma SetGet(m: Model, f: Field)
    ensures Set(m, f, Get(m, f)) == m
  {
  }

  /** The last write to a field wins. */
  lemma SetSet(m: Model, f: Field, v: nat, w: nat)
    requires v < Limit(f) && w < Limit(f)
    ensures Set(Set(m, f, v), f, w) == Set(m, f, w)
  {
  }

  /** Writes to different fields commute. */
  lemma SetCommutes(m: Model, f: Field, g: Field, v: nat, w: nat)
    requires f != g && v < Limit(f) && w < Limit(g)
    ensures Set(Set(m, f, v), g, w) == Set(Set(m, g, w), f, v)
  {
  }
}
