# Three-phase fan motor firmware — Dafny model

This project models the control core of an ESP32 firmware that drives a
three-phase fan motor through triacs. The model covers these parts:

- **Phase cut** (`phase_cut.dfy`, module `PhaseCut`). A requested percentage
  selects a firing delay from a 100-entry linearisation table:
  - 0 % idles the triacs;
  - 1–65 % dims them;
  - 66 % and above switches them fully on.

  A zero-cross edge queues one firing per phase, 0, 6666 and 13333 us
  (0, 2/3 and 4/3 of the 10 ms half-period, rounded down) plus the
  selected delay after the edge. Every dimming delay is at least 4026 us,
  so phases 2 and 3 both fire after the next zero-cross, and phase 3 with a
  delay above 6667 us only after the one following it. A 100 us timer tick
  counts the queued
  firings down. It raises a phase's gate pin when its countdown expires and
  drops the pin two ticks later, unless the triacs are fully on.
- **Motor ramp** (`motor.dfy`, module `Motor`).
  - A speed request is clamped to 40–100 %.
  - A start from standstill forces 100 % during a one-second bootstrap.
  - After that, a 100 ms tick moves the applied percentage toward the
    requested one by at most 5 per tick.
  - Every change is handed to the phase cut.
- **Analog speed input** (`digital_control.dfy`, module `DigitalControl`). A
  five-slot ring buffer of ADC samples, their average, and its conversion to
  a percentage.
- **Modbus slave callbacks** (`minion.dfy`, module `Minion`). These are:
  - the register callback over the two holding registers (speed percentage,
    on/off), with its access check;
  - the exception callback;
  - the decision whether a response frame is written back.

  Register classes and exception codes follow sections 4.3 and 7 of the
  Modbus Application Protocol Specification V1.1b3.
- **Device model** (`device_model.dfy`, module `DeviceModel`). The settings
  record with its defaults, the start-up repair of the fan group, the
  speed-step table and the field accessors.
- **Configuration** (`configuration.dfy`, module `Configuration`). Loading and
  saving the address, serial number and class through a key/value store.
- `ints.dfy` holds the fixed-width integer types and the C conversions the
  firmware relies on. `optional.dfy` holds an option type.

Each interrupt handler and operation is a pure function from state to state.
Effects on hardware become state fields:

- the three gate pins;
- whether the tick timer runs;
- the percentage handed to the phase cut.

The one-second bootstrap timeout is an input of the motor tick. A storage
map stands in for the persistent store. The tick is applied only while the
tick timer runs, because that is when the hardware delivers it.

Three facts about the code that shape the model:

- `configuration_save_address` stores the address without a range check,
  and `configuration_save_class` leaves validation to `model_set_class`,
  whose body is not part of this model.
- The zero-cross handler computes a half-period correction and overwrites
  it with 10000 before use (`PhaseCut.CorrectHalfPeriod` models the dead
  computation; `PhaseCut.ZeroCrossIgnoresMeasurement` proves it has no
  effect).
- `main/model/model.c` reads and writes a `group` field that the `model_t`
  struct in `main/model/model.h` lacks; the model includes the field as
  `model.c` uses it.

## Model

| member | source | states |
|---|---|---|
| Ints.WrapU32 | main/peripherals/phase_cut.c:53 | The elapsed-time counter is a 32-bit unsigned sum. The result equals the sum when it fits and is congruent to it modulo 2^32 otherwise. |
| Ints.AsInt8 | main/controller/motor.c:114 | The signed 8-bit view of a byte: identity below 128, congruent modulo 256, and within -128..127. |
| PhaseCut.LinearizationDecreasing | main/peripherals/phase_cut.c:28-35 | The linearisation table strictly decreases. More power always means an earlier firing. |
| PhaseCut.TableThresholds | main/peripherals/phase_cut.c:20-35 | Where each percentage lands against the 4000/9500 us thresholds. 0 is above the maximum, 1..65 fall in 4026..9361 us, and 66 or more fall below the minimum. |
| PhaseCut.InitValid | main/peripherals/phase_cut.c:38-45 | The static initial state meets the invariant (three phases of three slots, bounded countdowns) with every gate pin low. |
| PhaseCut.SetPercentageAsWritten | main/peripherals/phase_cut.c:197-213 | The three-way mode choice. 0: idle with the timer paused and the period kept. 1..65: dimming with the timer running and the period set to the table entry. 66 or more: full-on with the timer paused. The pending firings are not touched. |
| PhaseCut.SetPercentageMonotone | main/peripherals/phase_cut.c:197-213 | While dimming, a larger request never gives a later firing delay. |
| PhaseCut.SaturatesAt99 | main/peripherals/phase_cut.c:198-200 | Any request of 100 or more behaves exactly as 99. |
| PhaseCut.StopAsWritten | main/peripherals/phase_cut.c:191-194 | Stop leaves full-on and pauses the timer. Everything else, the gate pins included, is unchanged. |
| PhaseCut.SetPercentage | main/peripherals/phase_cut.c:197-213 | Corrected setter: same mode, period and timer state as the source. An idle request also leaves every gate pin low and keeps every pending firing, pulse countdown, the elapsed time and the half-period; a non-idle request is exactly the source's. |
| PhaseCut.Stop | main/peripherals/phase_cut.c:191-194 | Corrected stop: not full-on, timer paused, every gate pin low; pending firings, pulse countdowns, period, elapsed time and half-period kept. |
| PhaseCut.FireFrom | main/peripherals/phase_cut.c:75-111 | The slot loop. Each slot counts down by 100 us, saturating at 0. Slots before the start index are untouched. The pin goes high and the pulse countdown is re-armed to 2 exactly when some slot expires on this tick. |
| PhaseCut.TickPhase | main/peripherals/phase_cut.c:55-111 | One phase's tick. The pulse countdown decreases. Without an expiring slot, the pin stays high only if it was high and either the triacs are full-on or the pulse has ticks left. |
| PhaseCut.Tick | main/peripherals/phase_cut.c:50-114 | The timer interrupt. Elapsed time grows by 100 us modulo 2^32. Every slot counts down. A pin is high afterwards if and only if one of its slots expired, or it was high and is still held (full-on or pulse not over). An expired slot arms a 2-tick pulse countdown; otherwise the countdown drops by one, stopping at 0. The invariant is kept. |
| PhaseCut.PulseEnds | main/peripherals/phase_cut.c:55-73 | While dimming, a freshly armed pulse keeps the pin high for the next tick and drops it on the second, when no new firing intervenes. |
| PhaseCut.AddCounter | main/peripherals/phase_cut.c:260-268 | The delay goes into the first free (zero) slot and nothing else changes. With no free slot the request is dropped. |
| PhaseCut.PhaseDelay | main/peripherals/phase_cut.c:253-257 | With the nominal half-period, phase k's delay is its offset (0, 6666 or 13333 us) plus the period, and never exceeds 22833 us. |
| PhaseCut.Raise | main/peripherals/phase_cut.c:235-243 | At a zero-cross, full-on drives the phase's gate pin high. Otherwise the pin is left alone; slots and pulse countdown are untouched. |
| PhaseCut.ZeroCrossPhase | main/peripherals/phase_cut.c:234-258 | One phase after the zero-cross handler: still valid, pulse countdown kept, pin high in full-on or as before, and its offset plus the period queued into its first free slot. |
| PhaseCut.ZeroCross | main/peripherals/phase_cut.c:234-258 | The zero-cross interrupt. Elapsed time restarts at 0 and the half-period is reset to nominal. Each phase queues its offset plus the period into its first free slot. Pins are raised in full-on. Mode and period are unchanged. |
| PhaseCut.OffsetsAreThirds | main/peripherals/phase_cut.c:254-257 | The phase offsets are the integer thirds 2/3 and 4/3 of the 10000 us half-period. The longest countdown is the third phase's offset plus the maximum period. |
| PhaseCut.ZeroCrossIgnoresMeasurement | main/peripherals/phase_cut.c:245-251 | The measured half-period has no effect on the zero-cross result: the correction is overwritten before use. |
| PhaseCut.Next | main/peripherals/phase_cut.c:127-136 | Every event (a tick while the timer runs, a zero-cross, a percentage request, a stop) keeps the state invariant. |
| PhaseCut.PausedPinsFrozen | main/peripherals/phase_cut.c:234-243 | With the timer paused and full-on off, no sequence of interrupts moves any gate pin. |
| PhaseCut.OffStaysOff | main/peripherals/phase_cut.c:191-213 | After the corrected off request or stop, every gate pin stays low under any sequence of interrupts. |
| PhaseCut.FullOnHoldsPins | main/peripherals/phase_cut.c:65-73 | In full-on with all pins high, no sequence of interrupts lowers a pin. |
| PhaseCut.FullOnAfterZeroCross | main/peripherals/phase_cut.c:234-238 | A request of 66 % or more puts the triacs full-on, and the next zero-cross drives all three gate pins high. |
| PhaseCut.OffAfterFullOnAsWritten | main/peripherals/phase_cut.c:191-213 | As written, from any state: a request of 66 % or more, one zero-cross, then an off request or a stop leaves all three gate pins high forever under interrupts. |
| Motor.InitValid | main/controller/motor.c:23-26 | The static initial values lie in the 40..100 operating range with the motor off and no bootstrap. |
| Motor.Clamp | main/controller/motor.c:43-48 | Requests are raised to 40 or capped at 100. In-range requests pass unchanged. |
| Motor.ClampIsNearest | main/controller/motor.c:43-48 | The clamped value is the point of the 40..100 range nearest to the request. |
| Motor.SetSpeed | main/controller/motor.c:43-65 | From standstill: bootstrap at 100 %, passed to the phase cut, with the clamped objective. While running: only the objective changes and nothing is passed on. The 40..100 bounds are kept. |
| Motor.SetSpeedIdempotent | main/controller/motor.c:50-63 | Repeating a request changes nothing and calls nothing. |
| Motor.TurnOff | main/controller/motor.c:68-74 | The motor is marked off and the phase cut gets 0 %. The percentages and bootstrap flag are kept. |
| Motor.Control | main/controller/motor.c:77-84 | A non-zero enable is a speed request; zero is a stop. |
| Motor.RampTick | main/controller/motor.c:95-131 | During bootstrap only the flag clears, once the second has passed. When off or on target nothing happens. While running, the distance to the objective shrinks by min(5, distance) without overshoot, and the phase cut is called exactly when the applied value changes, with the new value. The bounds are kept. |
| Motor.Ticks | main/controller/motor.c:95-124 | Any number of ramp ticks keeps both percentages within 40..100. |
| Motor.RampConverges | main/controller/motor.c:104-121 | A running motor reaches its objective after ceil(distance / 5) ticks, and the objective does not move. |
| Motor.StartIsFullOn | main/controller/motor.c:54-60 | Starting from standstill puts the phase cut full-on with its timer paused. |
| Motor.Drive | main/controller/motor.c:127-130 | A motor step's percentage, if any, goes to the corrected phase-cut setter (`PhaseCut.SetPercentage`), not the source's; a step without one leaves the phase cut alone. |
| Motor.TurnOffIdles | main/controller/motor.c:68-74 | With the corrected phase-cut setter, stopping idles the phase cut with every gate pin low. |
| Motor.DriveAsWritten | main/controller/motor.c:127-130 | A motor step's percentage, if any, goes to the source's phase-cut setter; a step without one leaves the phase cut alone. |
| Motor.StartThenStopAsWritten | main/controller/motor.c:54-73 | As written, from any phase-cut state: a start from standstill goes full-on, one zero-cross raises every gate pin, and turning the motor off leaves all three pins high under any sequence of interrupts. |
| Motor.RunningNeverIdles | main/controller/motor.c:104-130 | A ramp tick never idles the phase cut. What it hands over is full-on or a delay no later than the one for 40 %. |
| DigitalControl.ReadSample | main/peripherals/controllo_digitale.c:36-44 | The sample goes into the current slot and the index advances modulo 5. Writing the last slot ends the first loop, which never restarts. |
| DigitalControl.AnalogSpeed | main/peripherals/controllo_digitale.c:75-90 | 0 before any sample. Otherwise the integer mean of the slots read so far during the first loop, and of all five afterwards. |
| DigitalControl.AverageWithinSamples | main/peripherals/controllo_digitale.c:75-90 | The average lies within any bounds that hold for the samples it reads. |
| DigitalControl.Percentage | main/peripherals/controllo_digitale.c:92-99 | 0 up to 1240 counts. Above that, the floor of 100 × (avg − 1240) / 2700, with no upper clamp. |
| DigitalControl.PercentageMonotone | main/peripherals/controllo_digitale.c:92-99 | A larger average never gives a smaller percentage. |
| DigitalControl.PercSpeed | main/peripherals/controllo_digitale.c:92-99 | The speed percentage is the conversion of the averaged reading; it is never negative, and at most 105 while every stored sample is a 12-bit ADC reading. |
| DigitalControl.ConversionBounded | main/peripherals/controllo_digitale.c:92-99 | Over 12-bit samples the converted average never exceeds 105 %: the conversion has no upper clamp. |
| DigitalControl.PercentageScale | main/peripherals/controllo_digitale.c:92-99 | 1240 counts give 0 %, 3940 give 100 %, and a full-scale 12-bit reading of 4095 gives 105 %. |
| DigitalControl.ReadSampleReflects | main/peripherals/controllo_digitale.c:36-44 | One more reading keeps the ring in step with the history: newest reading per slot, index the count modulo 5, first loop until five readings. |
| DigitalControl.FeedReflects | main/peripherals/controllo_digitale.c:36-44 | After any history of readings, the ring holds the newest reading for each slot, the index is the count modulo 5, and the first loop lasts until five readings. |
| DigitalControl.AverageOfRecentReadings | main/peripherals/controllo_digitale.c:36-90 | The averaged value is exactly the mean of the last five readings, or of all readings while there are fewer than five. |
| Minion.WriteHolding | main/controller/minion.c:139-142 | A write replaces exactly the addressed holding register. |
| Minion.AccessCheck | main/controller/minion.c:107-116 | As written: no exception if and only if the index is below 3, for every register class. Otherwise illegal data address. |
| Minion.RegisterCallback | main/controller/minion.c:99-156 | The callback always returns success. Checks report the access check's exception and touch nothing. Reads return the addressed holding register or the analog average, and nothing for coils or discrete inputs. Writes store into the addressed holding register and ignore other classes. |
| Minion.ExceptionCallback | main/controller/minion.c:158-163 | The exception callback always returns success. |
| Minion.InputRegisterRejectionLost | main/controller/minion.c:112-115 | The illegal-function code meant for input registers is lost: input registers are checked exactly like holding registers. |
| Minion.IndexTwoOverruns | main/controller/minion.c:115-123 | Index 2 passes the access check, yet a read or write of holding register 2 is outside the two-element register array. |
| Minion.AccessCheckFixed | main/controller/minion.c:107-116 | Corrected check: holding registers admit exactly indices 0 and 1. Other classes keep the source's bound. |
| Minion.FixedCheckGuardsAccess | main/controller/minion.c:115-141 | Every access the corrected check admits stays inside the register array. |
| Minion.Serve | main/controller/minion.c:105-152 | One access: an exception (illegal data address) if and only if the corrected check fails, and then nothing changes. Otherwise a write is acknowledged; a holding-register write stores the value in the addressed register and nothing else, and a write to any other class changes nothing. A read never changes the registers: a holding register returns the addressed register, an input register the averaged analog speed, and a coil or discrete input no value. |
| Minion.ServeRejectionCode | main/controller/minion.c:112-115 | An access is rejected exactly when its index is past the corrected bound (2 for holding registers, 3 otherwise), and the rejection carries wire exception code 02, illegal data address. |
| Minion.WriteThenRead | main/controller/minion.c:119-142 | A holding-register write followed by a read returns the value written and leaves the other register unchanged. |
| Minion.ResponseWritten | main/controller/minion.c:77-96 | A response is written back if and only if bytes were received, the request parsed, and the response is non-empty. Its length is then the response length. |
| DeviceModel.Init | main/model/model.c:7-21 | The defaults: address 1, serial number 2, no override, siphoning group, speed step 0, steps 40/55/70/85/100. The class is not written. |
| DeviceModel.DefaultStepsIncreasing | main/model/model.c:9 | The default speed steps rise strictly and lie within the motor's 40..100 range. |
| DeviceModel.CheckValues | main/model/model.c:24-31 | After the repair the group is declared: an undeclared group becomes the siphoning group, a declared group is left as is, and no other field changes. |
| DeviceModel.CheckValuesIdempotent | main/model/model.c:24-31 | Repairing twice is the same as repairing once. |
| DeviceModel.InitNeedsNoRepair | main/model/model.c:7-31 | The defaults already pass the start-up repair. |
| DeviceModel.ConfiguredSpeedStep | main/model/model.c:34-39 | A valid step index yields that step's configured percentage. |
| DeviceModel.CurrentSpeed | main/model/model.c:42-45 | The current speed is the configured percentage of the current step. With the default table it exceeds every lower step. |
| DeviceModel.CurrentSpeedIncreasing | main/model/model.c:42-45 | With the default table, setting a higher speed step always gives a strictly higher current speed. |
| DeviceModel.Get | main/model/model.h:30-38 | A getter returns its field's stored value, which lies within the field's C type. |
| DeviceModel.Set | main/model/model.h:40-48 | A setter writes exactly its field: reading it back gives the value and every other field is unchanged. |
| DeviceModel.SetGet | main/model/model.h:92-95 | Writing back what was read changes nothing. |
| DeviceModel.SetSet | main/model/model.h:92-95 | The last write to a field wins. |
| DeviceModel.SetCommutes | main/model/model.h:92-95 | Writes to different fields commute. |
| Configuration.LoadIdentity | main/controller/configuration.c:17-22 | The address and serial number come from the store when it holds them. Otherwise they are kept, and nothing else changes. |
| Configuration.Init | main/controller/configuration.c:14-26 | Start-up applies the stored identity. A stored class also goes through the class setter, whose status is ignored. |
| Configuration.SaveSerialNumber | main/controller/configuration.c:29-32 | The serial number is stored under its key and applied to the model, and nothing else changes. |
| Configuration.SaveAddress | main/controller/configuration.c:35-38 | The address is stored under its key and applied to the model, and nothing else changes. |
| Configuration.SaveClass | main/controller/configuration.c:41-49 | If the class setter succeeds, its corrected class is stored and 0 returned. Otherwise the store is unchanged and -1 returned. |
| Configuration.IdentitySurvivesReload | main/controller/configuration.c:14-38 | A saved address and serial number are what a restart loads, into any model. |
| Configuration.ClassSurvivesReload | main/controller/configuration.c:14-49 | After a successful class save, a restart hands the class setter the corrected class. |
| Configuration.EmptyStoreKeepsModel | main/controller/configuration.c:14-26 | With nothing stored, start-up leaves the model unchanged. |

## Left out

- ESP-IDF driver calls are not modelled, only their effect on the state. These are GPIO, the hardware timer and its counter reset, the ADC, UART set-up, and the FreeRTOS timers and semaphores. The locks are not modelled: every operation is atomic.
- Concurrency is not modelled. Interrupts, the motor timer task and the Modbus task are events applied one at a time.
- Modbus RTU framing, CRC and the frame parser belong to the Modbus library and are not part of this model. `Minion.ResponseWritten` takes the parser's outcome as an input. An address mismatch only changes what is logged.
- Logging, the debug `printf` and the heartbeat LED rate (`heartbeat_faster`) are not modelled.
- The on/off digital input and its debounce filter in `controllo_digitale.c` are not modelled. The digital input module, the device commands, the controller loop, the RS-485 helper and `main.c` are not part of this model.
- The class getter and setter (`model_get_class`, `model_set_class`) and the class encoding are not part of this model. The setter is the `Configuration.ClassSetter` parameter, and the class field's start-up content is a parameter of `DeviceModel.Init`.
- The store's own failures are not modelled: a load either finds the key or not, and a save always lands.
- `PhaseCut.Linearization` is the table as a function of the index, not an array.
- `PhaseCut.CorrectHalfPeriod` models the half-period correction, but `PhaseCut.ZeroCross` does not use its result, because the source overwrites it before any use.
- `Motor.RampTick` takes the one-second bootstrap timeout as a boolean. The millisecond clock and its wrap-around are not modelled.
- `Motor.GetState` is a plain read of the on flag, so its contract is that read and it has no row above.
- `DigitalControl.AnalogSpeed` does not model the 32-bit sum's overflow, because five 16-bit samples cannot reach it.
- `DeviceModel.CurrentSpeed` requires the speed step to be below 5. The source only asserts this and never range-checks the setter.

## Findings

| source | as written | input that shows it | evidently intended | confidence | as-written member | corrected member |
|---|---|---|---|---|---|---|
| main/peripherals/phase_cut.c:191-213 | Leaving full-on pauses the tick timer but never drives the gate pins low. The zero-cross handler no longer lowers them either (lines 240-242 are commented out). | Set 100 % (or anything from 66 %), then a zero-cross raises all three pins. Then set 0 % or call stop. The timer is paused, so no tick lowers the pins, and every later zero-cross leaves them high. | Turning off lowers the gate pins. | medium, not executed | PhaseCut.OffAfterFullOnAsWritten | PhaseCut.OffStaysOff |
| main/controller/minion.c:115-123 | The access check admits indices 0..2 (the register count is 3). The holding-register arrays have two elements, so index 2 reads or writes past the array. | Read holding register 2, or write it with any value. | Holding registers admit only indices 0 and 1 and answer illegal data address otherwise. | high, not executed | Minion.IndexTwoOverruns | Minion.FixedCheckGuardsAccess |

The corrected phase-cut setter and stop (`PhaseCut.SetPercentage`,
`PhaseCut.Stop`) are the ones the event model and `Motor.Drive` use. The
first finding is reachable in normal use: every motor start goes full-on,
and `Motor.StartThenStopAsWritten` shows that start, one zero-cross and
turn-off, with the source's setter (`Motor.DriveAsWritten`), leave every
gate pin high.
`Minion.Serve` uses the corrected access check (`Minion.AccessCheckFixed`).
`Minion.RegisterCallback` models the callback as written and requires its
index to be in bounds. Index 2 cannot meet that requirement, which is what
`Minion.IndexTwoOverruns` shows.
