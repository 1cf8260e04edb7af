# VarSpeedServo (megaAVR) in Dafny

This project models the megaAVR driver of the VarSpeedServo Arduino library,
`megaavr/VarSpeedServo.cpp`. The driver keeps a fixed table of up to 12 servo
records. Each record holds a pin, an active flag, the pulse width in timer
ticks, the last written value, a target in ticks and a speed. One hardware
timer pulses the active channels in turn from its compare interrupt.

The model has seven modules:

- `CArith`: C's truncating division, the `int8_t` and `uint16_t` casts, and the Arduino `map` and `constrain`.
- `ServoMath`: the microsecond/tick conversions and the calibrated range `SERVO_MIN()`/`SERVO_MAX()`. It also holds the record updates made by the write family and what `read`, `readMicroseconds` and `isMoving` compute.
- `TimerGroups`: the index-to-timer/channel mapping, the cursor walk of the pulse scheduler, and the refresh-gap compare value.
- `Sequencer`: the waypoint cursor of `sequencePlay`.
- `Registry`: class `ServoSystem`, the process-wide state.
  - The `servos[]` table is an array.
  - `ServoCount`, the compare register `CCMP`, the pin levels (a map from pin to HIGH/LOW) and the set of output pins are fields.
  - The per-timer cursors and interrupt-enable flags are arrays.
  - Methods: `ServoHandler`, `isTimerActive`, and `initISR`/`finISR`.
- `VarSpeed`: class `VarSpeedServo`, one servo object, with the constructor, attach/detach, the write family, the reads and the sequence player.
- `AsWritten`: the table accesses the source makes outside the table (see Findings).

Assumed header values, because `VarSpeedServo.h` is not part of this model:
- `MAX_SERVOS` = `SERVOS_PER_TIMER` = 12 and `_Nbr_16timers` = 1;
- `INVALID_SERVO` = `CURRENT_SEQUENCE_STOP` = 255;
- `DEFAULT_PULSE_WIDTH` = 1500;
- `MIN_PULSE_WIDTH` = 544 and `MAX_PULSE_WIDTH` = 2400;
- the calibration offsets `min` and `max` are `int8_t`.

`clockCyclesPerMicrosecond()` is the constant `clock` of the `ServoSystem`, and it must be at least 16. Below 16 (an 8 MHz board, say) `clockCyclesPerMicrosecond() / 16` in `usToTicks` (line 75) is 0, so every pulse width becomes 0 ticks (`ServoMath.SlowClockPulsesVanish`).

Where the code and the library's intended design differ, the model follows the code:
- The compare value loaded for a channel is `0 + ticks`, not "now + ticks", because the counter reading is hard-coded to 0 (line 129). The refresh branch compares the value left by the last channel, not the elapsed time.
- The cursors start at 0 (zero-initialised statics), not at the refresh-gap value -1.
- Angles do not round-trip. At 16 MHz, `write(90)` reads back 89, and in general `read()` after `write(a)` is `a` or `a - 1` (`ServoMath.AngleRoundTripAt16`).
- `isMoving()` can stay true for ever after an immediate write: at 16 MHz any width `u` with `u % 4 != 1` reads back lower than `u` (`ServoMath.SettlesAfterWriteMicrosecondsIff`).
- A pin can stay HIGH for good. The handler lowers a pin only when its channel is still active (line 115), so a `detach()` between the interrupt that raised the pin and the next one leaves the pulse unfinished (`Registry.DetachMidPulseLeavesPinHigh`). With the table unchanged, every raise is paired with the lower at the next interrupt (`Registry.PulseEndsAtNextInterrupt`).
- A one-shot playback reaches STOP after `numPositions - startPos` advances, not `numPositions`.

## Model

| member | source | states |
|---|---|---|
| CArith.CDiv | megaavr/VarSpeedServo.cpp:222-223 | C division by a positive divisor truncates toward zero: the remainder lies in [0, b) for a non-negative dividend and in (-b, 0] for a negative one |
| CArith.Int8 | megaavr/VarSpeedServo.cpp:222-223 | storing into `int8_t` wraps modulo 256 into [-128, 128) and keeps values already in range |
| CArith.U16 | megaavr/VarSpeedServo.cpp:130 | the `(uint16_t)` cast reduces modulo 65536 and keeps values already in range |
| CArith.Constrain | megaavr/VarSpeedServo.cpp:266-271 | the clamp of `writeMicroseconds` and `constrain`: the result lies in [lo, hi], equals x inside, lo below and hi above |
| CArith.Map | megaavr/VarSpeedServo.cpp:255 | `map` with truncating division sends an input inside [inLo, inHi] to an output inside [outLo, outHi] |
| ServoMath.ServoMin | megaavr/VarSpeedServo.cpp:101 | `SERVO_MIN()` lies in [36, 1056] and on the 4 us grid through 544, for every `int8_t` offset |
| ServoMath.ServoMax | megaavr/VarSpeedServo.cpp:102 | `SERVO_MAX()` lies in [1892, 2912] and on the 4 us grid through 2400 |
| ServoMath.MinTrim | megaavr/VarSpeedServo.cpp:222 | the stored `min` offset is the truncated quarter of 544 - min whenever that fits in `int8_t` |
| ServoMath.MaxTrim | megaavr/VarSpeedServo.cpp:223 | the stored `max` offset is the truncated quarter of 2400 - max whenever that fits in `int8_t` |
| ServoMath.UsToTicks | megaavr/VarSpeedServo.cpp:75 | `usToTicks` of a non-negative duration is the truncated quarter of (clock / 16) * us |
| ServoMath.TicksToUs | megaavr/VarSpeedServo.cpp:76 | `ticksToUs` is the floor of 16 * ticks over clock / 4 |
| ServoMath.PulseTicks | megaavr/VarSpeedServo.cpp:266-275 | the ticks `writeMicroseconds` stores always lie between the ticks of `SERVO_MIN() - 5` and of `SERVO_MAX() - 5` |
| ServoMath.RequestedUs | megaavr/VarSpeedServo.cpp:248-257 | a value below 544 is an angle and lands inside [SERVO_MIN(), SERVO_MAX()], a non-positive angle at SERVO_MIN(); any other value passes through unchanged |
| ServoMath.ReadUsOf | megaavr/VarSpeedServo.cpp:363-364 | `readMicroseconds` of a registered servo is at least 5, and exactly 4 * ticks + 5 at 16-19 cycles per microsecond |
| ServoMath.ReadDegreesOf | megaavr/VarSpeedServo.cpp:357 | `read()` lies in [0, 180] whenever readMicroseconds() + 1 is inside the calibrated range |
| ServoMath.MovingOf | megaavr/VarSpeedServo.cpp:434-448 | `isMoving` is true exactly when the stored value differs from `read()` (value below 544) or from `readMicroseconds()` (otherwise) |
| ServoMath.AfterWriteMicroseconds | megaavr/VarSpeedServo.cpp:260-277 | `writeMicroseconds` stores the value as given and the clamped, trimmed, converted ticks, and leaves pin, active flag, target and speed alone |
| ServoMath.AfterWrite | megaavr/VarSpeedServo.cpp:245-258 | `write(v)` is `writeMicroseconds` of the requested width; for an angle the stored value is a width inside the calibrated range |
| ServoMath.AfterSpeedWrite | megaavr/VarSpeedServo.cpp:289-325 | `write(v, s)` with s = 0 is exactly `write(v)`; with s != 0 it stores value and speed and leaves ticks, pin and active flag alone |
| ServoMath.UsToTicksMonotone | megaavr/VarSpeedServo.cpp:75 | `usToTicks` is monotone |
| ServoMath.CalibratedRangeOrdered | megaavr/VarSpeedServo.cpp:101-102 | every storable calibration gives SERVO_MIN() + 836 <= SERVO_MAX(), so `map` in `read()` never divides by zero |
| ServoMath.CalibrationRoundTrip | megaavr/VarSpeedServo.cpp:214-223 | attach bounds on the 4 us grid within the `int8_t` range come back exactly as SERVO_MIN() and SERVO_MAX() (lines 101-102) |
| ServoMath.CalibrationWraps | megaavr/VarSpeedServo.cpp:222-223 | attach(pin, 1000, 1000) stores max offset 94, so SERVO_MAX() is 2024, not 1000 |
| ServoMath.ReadBackNeverExceeds | megaavr/VarSpeedServo.cpp:273-275 | after writeMicroseconds(u) with u in the calibrated range, readMicroseconds() never exceeds u, at any clock rate |
| ServoMath.ReadBackAt16 | megaavr/VarSpeedServo.cpp:363-364 | at 16 cycles per microsecond the read-back lies in [u - 3, u], and equals u exactly when u % 4 == 1 |
| ServoMath.AngleRequest | megaavr/VarSpeedServo.cpp:255 | the width requested for angle a is SERVO_MIN() plus the floor of a/180 of the calibrated range |
| ServoMath.AngleRoundTripAt16 | megaavr/VarSpeedServo.cpp:245-258 | write(a) then read() at 16 MHz gives a or a - 1 for every angle in [0, 180] and every calibration |
| ServoMath.WriteZeroReadsZeroAt16 | megaavr/VarSpeedServo.cpp:357 | write(0) reads back 541 us, and `read()` gives 0 through truncation where a flooring division would give -1 |
| ServoMath.WriteNinetyReadsEightyNineAt16 | megaavr/VarSpeedServo.cpp:245-258 | write(90) on the default range requests 1472 us, reads back 1469 us and 89 degrees |
| ServoMath.ReadBackAt20 | megaavr/VarSpeedServo.cpp:75-76 | at 20 cycles per microsecond, writeMicroseconds(1500) reads back as 1198 |
| ServoMath.SlowClockPulsesVanish | megaavr/VarSpeedServo.cpp:75 | below 16 cycles per microsecond every width writeMicroseconds stores is 0 ticks |
| ServoMath.SettlesAfterWriteMicrosecondsIff | megaavr/VarSpeedServo.cpp:434-448 | after an immediate writeMicroseconds(u), u >= 544, isMoving() is false exactly when u % 4 == 1 |
| ServoMath.ImmediateWriteNinetyKeepsMoving | megaavr/VarSpeedServo.cpp:434-448 | after the immediate write(90) the stored value is 1472 and isMoving() stays true |
| ServoMath.SpeedWriteMovesUntilReached | megaavr/VarSpeedServo.cpp:295-318 | right after write(v, s) with s != 0 the pulse is unchanged, so isMoving() holds exactly when the servo does not already report v |
| ServoMath.SpeedWriteTargetsImmediatePulse | megaavr/VarSpeedServo.cpp:297-318 | a speed-limited write aims at exactly the ticks the immediate write of the same value outputs |
| TimerGroups.TimerOf | megaavr/VarSpeedServo.cpp:96 | `SERVO_INDEX_TO_TIMER` gives the timer whose block of 12 consecutive indices holds the index |
| TimerGroups.ChannelOf | megaavr/VarSpeedServo.cpp:97 | `SERVO_INDEX_TO_CHANNEL` gives a channel below 12 that differs from the index by a multiple of 12 |
| TimerGroups.ServoIndex | megaavr/VarSpeedServo.cpp:98 | for a channel below 12, `SERVO_INDEX(timer, channel)` divided by 12 gives the timer back and its remainder gives the channel back |
| TimerGroups.ChannelsOnTimer | megaavr/VarSpeedServo.cpp:123 | a channel of a timer is scheduled exactly when its table index is below ServoCount |
| TimerGroups.IndexSplits | megaavr/VarSpeedServo.cpp:96-98 | every table index splits into a timer below _Nbr_16timers and a channel, and SERVO_INDEX of the pair gives it back |
| TimerGroups.SlotJoins | megaavr/VarSpeedServo.cpp:96-98 | SERVO_INDEX followed by the timer and channel macros gives the pair back |
| TimerGroups.NextCursor | megaavr/VarSpeedServo.cpp:121-145 | the cursor moves to the next channel when that one is registered and on the timer, otherwise to the refresh gap -1 |
| TimerGroups.CycleVisitsChannelsInOrder | megaavr/VarSpeedServo.cpp:121-145 | from the gap, the j-th interrupt selects channel j - 1, for every registered channel of the timer |
| TimerGroups.CycleReturnsToGap | megaavr/VarSpeedServo.cpp:121-145 | one cycle from the gap takes exactly the number of registered channels plus one interrupts |
| TimerGroups.CursorStaysInRange | megaavr/VarSpeedServo.cpp:121-145 | after any number of interrupts the cursor is -1 or a channel below SERVOS_PER_TIMER |
| TimerGroups.CursorAfterStep | megaavr/VarSpeedServo.cpp:121-145 | k + 1 interrupts are k interrupts followed by one more |
| TimerGroups.RefreshCompare | megaavr/VarSpeedServo.cpp:136-143 | the refresh compare value is a 16-bit value, and without overflow it is the larger of usToTicks(16000) and the old value + 4 |
| TimerGroups.RefreshAt16 | megaavr/VarSpeedServo.cpp:138-139 | at 16 MHz the refresh compare value is 4000 ticks when the old value is below 3996 |
| Sequencer.Advance | megaavr/VarSpeedServo.cpp:387-395 | an advance goes to the next waypoint, or past the end to 0 (loop) or STOP; STOP never advances |
| Sequencer.PlayCursor | megaavr/VarSpeedServo.cpp:386-396 | the cursor moves only when it is not STOP and read() equals the waypoint's position, and then it advances |
| Sequencer.PlayWrites | megaavr/VarSpeedServo.cpp:398-402 | a waypoint is written only when the cursor is not STOP; on a new sequence, whenever it is not STOP |
| Sequencer.AdvanceTimesStep | megaavr/VarSpeedServo.cpp:387-395 | k + 1 advances are k advances followed by one more |
| Sequencer.OneShotPlayback | megaavr/VarSpeedServo.cpp:387-395 | without looping, k advances from start reach start + k while that is a waypoint and STOP from then on |
| Sequencer.LoopedPlayback | megaavr/VarSpeedServo.cpp:387-395 | with looping, k advances from start reach (start + k) mod n, visiting every waypoint in order and never STOP |
| Sequencer.InitialSequenceCycles | megaavr/VarSpeedServo.cpp:91 | the built-in sequence {0,100},{45,100} goes 0 to 1 at 0 degrees and 1 to 0 at 45 degrees, and otherwise stays |
| Sequencer.StopIsFinal | megaavr/VarSpeedServo.cpp:386 | once stopped, playback stays stopped for any number of calls |
| Registry.TimerActiveShrinks | megaavr/VarSpeedServo.cpp:184-192 | clearing active flags can make a timer idle but never busy |
| Registry.TimerActiveFollowsFlags | megaavr/VarSpeedServo.cpp:184-192 | writes that keep every active flag keep every timer's activity |
| Registry.LoweredPin | megaavr/VarSpeedServo.cpp:111-118 | the handler lowers a pin exactly when the cursor is on a registered, active channel, and lowers none on the gap entry |
| Registry.RaisedPin | megaavr/VarSpeedServo.cpp:123-126 | the handler raises a pin exactly when the new cursor is on an active channel |
| Registry.Drive | megaavr/VarSpeedServo.cpp:116 | `digitalWrite` sets one pin's level and leaves every other pin's level alone |
| Registry.PulseEndsAtNextInterrupt | megaavr/VarSpeedServo.cpp:111-126 | a pin raised when the cursor moves to a channel is lowered by the next interrupt, and after it stays HIGH only if the next selected channel drives the same pin |
| Registry.DetachMidPulseLeavesPinHigh | megaavr/VarSpeedServo.cpp:115-116 | when the channel's flag is cleared between the raise and the next interrupt, that interrupt lowers nothing, the pin stays HIGH, and no later interrupt lowers it for this channel |
| Registry.ServoSystem.constructor | megaavr/VarSpeedServo.cpp:83-91 | the static initial state: empty table, ServoCount 0, cursors 0, interrupts off, the built-in sequence |
| Registry.ServoSystem.IsTimerActive | megaavr/VarSpeedServo.cpp:184-192 | the channel scan returns true exactly when some channel of the timer is active |
| Registry.ServoSystem.InitIsr | megaavr/VarSpeedServo.cpp:164-176 | enables the timer's interrupt and nothing else; it may only be run on a timer whose interrupt is off |
| Registry.ServoSystem.FinIsr | megaavr/VarSpeedServo.cpp:178-182 | disables the timer's interrupt and nothing else |
| Registry.ServoSystem.ServoHandler | megaavr/VarSpeedServo.cpp:109-150 | the cursor takes its next value; a selected channel's compare value is its 16-bit ticks; the gap loads the refresh value, from 0 when entered from the gap; exactly the lowered and raised pins change; the table invariants are kept |
| VarSpeed.VarSpeedServo.constructor | megaavr/VarSpeedServo.cpp:197-207 | below capacity: the index is the old ServoCount, ServoCount grows by one, only that slot's ticks change, to usToTicks(1500); at capacity: INVALID_SERVO and nothing changes |
| VarSpeed.VarSpeedServo.AttachRange | megaavr/VarSpeedServo.cpp:214-232 | a registered servo records pin and calibration, marks its pin output and its channel active, and leaves its timer's interrupt enabled, starting it (InitIsr, which requires an idle timer) only when no channel was active; an unregistered one changes nothing |
| VarSpeed.VarSpeedServo.Attach | megaavr/VarSpeedServo.cpp:209-212 | attach with the default range, whose offsets are 0, so SERVO_MIN() is 544 and SERVO_MAX() 2400 |
| VarSpeed.VarSpeedServo.Detach | megaavr/VarSpeedServo.cpp:234-243 | clears only this channel's active flag and leaves the interrupt enabled exactly while another channel of the timer is active; detaching a detached servo changes nothing |
| VarSpeed.VarSpeedServo.Attached | megaavr/VarSpeedServo.cpp:371-374 | the channel's active flag, false for an unregistered object |
| VarSpeed.VarSpeedServo.WriteMicroseconds | megaavr/VarSpeedServo.cpp:260-277 | only this servo's record changes, as AfterWriteMicroseconds says |
| VarSpeed.VarSpeedServo.Write | megaavr/VarSpeedServo.cpp:245-258 | only this servo's record changes, as AfterWrite says |
| VarSpeed.VarSpeedServo.WriteSpeed | megaavr/VarSpeedServo.cpp:289-325 | only this servo's record changes, as AfterSpeedWrite says |
| VarSpeed.VarSpeedServo.Slowmove | megaavr/VarSpeedServo.cpp:347-350 | the same change as write(value, speed) |
| VarSpeed.VarSpeedServo.ReadMicroseconds | megaavr/VarSpeedServo.cpp:360-369 | 0 exactly for an unregistered object, otherwise ticksToUs(ticks) + 5, which is 1 mod 4 at 16-19 MHz |
| VarSpeed.VarSpeedServo.Read | megaavr/VarSpeedServo.cpp:355-358 | readMicroseconds() + 1 mapped onto degrees, within [0, 180] when inside the calibrated range |
| VarSpeed.VarSpeedServo.IsMoving | megaavr/VarSpeedServo.cpp:434-448 | agrees with MovingOf on this servo's record |
| VarSpeed.VarSpeedServo.Stop | megaavr/VarSpeedServo.cpp:343-345 | writes back the angle read before the call, as AfterWrite says |
| VarSpeed.VarSpeedServo.SequencePlay | megaavr/VarSpeedServo.cpp:376-406 | a new sequence restarts at startPos; the returned cursor is PlayCursor of the entry cursor; the record changes by the waypoint's speed write exactly when PlayWrites holds |
| VarSpeed.VarSpeedServo.SequencePlayLooped | megaavr/VarSpeedServo.cpp:408-410 | looped playback from 0, which never returns STOP unless it was already stopped on this sequence |
| VarSpeed.VarSpeedServo.SequenceStop | megaavr/VarSpeedServo.cpp:412-415 | writes back the current angle and parks the cursor on STOP |
| AsWritten.StoreValueAsWritten | megaavr/VarSpeedServo.cpp:264 | the unchecked value store needs the index inside the table |
| AsWritten.ThirteenthObjectStoresOutsideTable | megaavr/VarSpeedServo.cpp:295 | INVALID_SERVO fails the bound the unchecked store needs |
| AsWritten.ObjectBeyondCapacity | megaavr/VarSpeedServo.cpp:197-207 | an object built on a full table gets INVALID_SERVO, an index outside the table |
| AsWritten.ScanAsWritten | megaavr/VarSpeedServo.cpp:184-192 | the channel scan reads servos[timer * 12 + c] unchecked and is true exactly when one of those flags is set |
| AsWritten.DetachAsWritten | megaavr/VarSpeedServo.cpp:234-243 | detach as written clears only the object's flag and disarms exactly when no channel of its timer is active; both accesses need in-table indices |
| AsWritten.AttachedAsWritten | megaavr/VarSpeedServo.cpp:371-374 | attached as written is the flag at the object's index, which must lie inside the table |
| AsWritten.UnregisteredDetachLeavesTable | megaavr/VarSpeedServo.cpp:238-240 | for INVALID_SERVO the cleared flag and all twelve scanned slots of timer 21 lie outside the table |
| AsWritten.CorrectedDetachAgrees | megaavr/VarSpeedServo.cpp:234-243 | for a registered object, detach as written and the model's Detach give the same table and the same disarm decision |
| AsWritten.OneShotEndReadsPastSequence | megaavr/VarSpeedServo.cpp:386 | a one-shot playback of at most 255 waypoints ends on STOP, an index past the sequence, which the as-written test then reads |
| AsWritten.AdvanceTestAsWritten | megaavr/VarSpeedServo.cpp:386 | the source's advance test reads the waypoint before comparing the cursor with STOP |
| AsWritten.CorrectedAdvanceAgrees | megaavr/VarSpeedServo.cpp:386-396 | wherever the as-written test can be evaluated, the corrected cursor step agrees with it |

## Left out

- The interrupt vector glue (lines 152-161) and the interrupt-flag acknowledge (line 149): hardware only. `ServoHandler` is a method called with the timer number.
- The register programming in `initISR`/`finISR`: each only sets or clears an interrupt-enable flag of the timer.
- `pinMode`/`digitalWrite` are not I/O here. They update a set of output pins and a map from pin to level.
- The `SREG`/`cli()` critical section of `write(value, speed)`: interrupt exclusion is concurrency, and the target/speed update is atomic.
- `wait()` and `write(value, speed, wait)`: unbounded `delay(5)` polling loops that wait for a ramp process this file does not contain. Only their loop condition, `isMoving`, is modelled.
- The commented-out `targetPosition` and `targetPositionMicroseconds`.
- The ramp that moves `ticks` toward `target`: no code in this file does it.
- VarSpeed.VarSpeedServo.IsMoving: requires a registered object. The source reads `servos[255]` for an unregistered one.
- VarSpeed.VarSpeedServo.SequencePlay: requires `0 < numPositions <= sequenceIn.Length`. For a new sequence it requires `startPos < numPositions`; for the same sequence it requires the kept cursor to be STOP or below `numPositions`. Other values make the source read past the waypoints.
- The 16-bit width of `int` on the AVR is not modelled: values and widths are unbounded integers. `ticksToUs` overflows its `unsigned` product only above roughly 90 cycles per microsecond. The model requires a clock of at least 16, because below that `usToTicks` gives 0 ticks for every width (`ServoMath.SlowClockPulsesVanish`).
- Registry.ServoSystem.ServoHandler: there is a single compare register, because the source drives one timer `_timer`. Interrupt enables and cursors are per timer.
- VarSpeed.VarSpeedServo.constructor: sets `min` and `max` to 0 for every object. The source constructor never sets them; only attach does (lines 222-223). A write before attach therefore uses the default 544..2400 range here, which is what a zero-initialised static object gets.
- VarSpeed.VarSpeedServo.constructor: an unregistered object's sequence pointer is null and its cursor 0. The source leaves both uninitialised, which is zero for static objects.

## Findings

| source | as written | input that shows it | evidently intended | confidence | as-written member | corrected member |
|---|---|---|---|---|---|---|
| megaavr/VarSpeedServo.cpp:264 | `writeMicroseconds` stores `servos[channel].value` before checking that the channel is valid; `write(value, speed)` does the same at line 295 | a thirteenth object gets INVALID_SERVO (255), and any write on it stores into `servos[255]` of a 12-entry table | store only for a valid channel, like the rest of the function | high, not executed | AsWritten.StoreValueAsWritten | VarSpeed.VarSpeedServo.WriteMicroseconds |
| megaavr/VarSpeedServo.cpp:238 | `detach` (and `attached` at line 373, `wait` at line 420 and `isMoving` at line 436) index `servos[]` with the object's index unchecked | an unregistered object: `attached`, `wait` and `isMoving` read `servos[255]`; `detach` writes `servos[255]`, then `servos[252..263]` of timer 21 are scanned; `finISR` ignores its timer argument, so if no flag is found the one real timer is disarmed and every servo stops | do nothing for an unregistered object, and report not attached | high, not executed | AsWritten.DetachAsWritten | VarSpeed.VarSpeedServo.Detach |
| megaavr/VarSpeedServo.cpp:386 | `sequenceIn[curSeqPosition]` is read before `curSeqPosition != CURRENT_SEQUENCE_STOP` is tested | a one-shot playback of a 2-waypoint sequence ends on 255; the next call reads `sequenceIn[255]` | test for STOP first | high, not executed | AsWritten.OneShotEndReadsPastSequence | Sequencer.PlayCursor |
