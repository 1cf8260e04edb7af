/** Pulse-width arithmetic of the driver: microseconds to timer ticks and back,
    the per-servo calibrated range, the angle-or-microseconds reading of a
    written value, and what `read`/`readMicroseconds`/`isMoving` report. */
module ServoMath {
  import opened CArith

  const MIN_PULSE_WIDTH: int := 544       // shortest pulse, and the angle/microsecond threshold
  const MAX_PULSE_WIDTH: int := 2400
  const DEFAULT_PULSE_WIDTH: int := 1500
  const REFRESH_INTERVAL: int := 16000
  const TRIM_DURATION: int := 5           // compensation for the digitalWrite overhead

  /** The per-object calibration offsets `min` and `max` are `int8_t`. */
  type Trim = t: int | -128 <= t < 128

  /** One entry of the static `servos[]` table (`servo_t`). */
  datatype ServoRecord = ServoRecord(
    pin: int,          // Pin.nbr
    isActive: bool,    // Pin.isActive
    ticks: nat,        // pulse width the scheduler outputs
    value: int,        // last value handed to a write, in the caller's unit
    target: nat,       // ticks a speed-limited move heads for
    speed: nat)        // 0 = immediate, 1..255 ramp rate

  /** A zero-initialised table entry. */
  const BlankRecord := ServoRecord(0, false, 0, 0, 0, 0)

  /** `SERVO_MIN()`: the calibrated shortest pulse, in microseconds. */
  function ServoMin(trim: Trim): (us: int)
    ensures 36 <= us <= 1056
    ensures (MIN_PULSE_WIDTH - us) % 4 == 0
  {
    MIN_PULSE_WIDTH - trim * 4
  }

  /** `SERVO_MAX()`: the calibrated longest pulse, in microseconds. */
  function ServoMax(trim: Trim): (us: int)
    ensures 1892 <= us <= 2912
    ensures (MAX_PULSE_WIDTH - us) % 4 == 0
  {
    MAX_PULSE_WIDTH - trim * 4
  }

  /** `min` as `attach(pin, min, max)` stores it: `(MIN_PULSE_WIDTH - min) / 4` narrowed to `int8_t`. */
  function MinTrim(minUs: int): (t: Trim)
    ensures -128 <= CDiv(MIN_PULSE_WIDTH - minUs, 4) < 128 ==> t == CDiv(MIN_PULSE_WIDTH - minUs, 4)
  {
    Int8(CDiv(MIN_PULSE_WIDTH - minUs, 4))
  }

  /** `max` as `attach(pin, min, max)` stores it. */
  function MaxTrim(maxUs: int): (t: Trim)
    ensures -128 <= CDiv(MAX_PULSE_WIDTH - maxUs, 4) < 128 ==> t == CDiv(MAX_PULSE_WIDTH - maxUs, 4)
  {
    Int8(CDiv(MAX_PULSE_WIDTH - maxUs, 4))
  }

  /** `usToTicks`: `(clockCyclesPerMicrosecond() / 16 * us) / 4`, the inner
      division on the clock rate included. For a non-negative duration the
      result is the truncated quarter of (clock / 16) * us. */
  function UsToTicks(us: int, clock: nat): (t: int)
    ensures us >= 0 ==> 0 <= 4 * t <= (clock / 16) * us < 4 * t + 4
  {
    CDiv((clock / 16) * us, 4)
  }

  /** `ticksToUs`: `(ticks * 16) / (clockCyclesPerMicrosecond() / 4)`, unsigned. */
  function TicksToUs(t: nat, clock: nat): (us: nat)
    requires clock >= 4
    ensures (clock / 4) * us <= 16 * t < (clock / 4) * (us + 1)
  {
    (t * 16) / (clock / 4)
  }

  /** What `writeMicroseconds` stores in `ticks` for a request of `us`
      microseconds: clamp to the calibrated range, subtract the trim, convert. */
  function PulseTicks(us: int, mn: Trim, mx: Trim, clock: nat): (t: nat)
    ensures UsToTicks(ServoMin(mn) - TRIM_DURATION, clock) <= t <= UsToTicks(ServoMax(mx) - TRIM_DURATION, clock)
  {
    var clamped := Constrain(us, ServoMin(mn), ServoMax(mx));
    UsToTicksMonotone(ServoMin(mn) - TRIM_DURATION, clamped - TRIM_DURATION, clock);
    UsToTicksMonotone(clamped - TRIM_DURATION, ServoMax(mx) - TRIM_DURATION, clock);
    UsToTicks(clamped - TRIM_DURATION, clock)
  }

  /** The pulse width `write(value)` asks for: a value below 544 is an angle,
      clamped to [0, 180] and mapped onto the calibrated range; anything else
      is already a width in microseconds. */
  function RequestedUs(value: int, mn: Trim, mx: Trim): (us: int)
    ensures value < MIN_PULSE_WIDTH ==> ServoMin(mn) <= us <= ServoMax(mx)
    ensures value >= MIN_PULSE_WIDTH ==> us == value
    ensures value <= 0 ==> us == ServoMin(mn)
  {
    if value < MIN_PULSE_WIDTH then Map(Constrain(value, 0, 180), 0, 180, ServoMin(mn), ServoMax(mx))
    else value
  }

  /** `readMicroseconds()` of a registered servo whose record holds `ticks`. */
  function ReadUsOf(ticks: nat, clock: nat): (us: int)
    requires clock >= 4
    ensures us >= TRIM_DURATION
    ensures 16 <= clock < 20 ==> us == 4 * ticks + TRIM_DURATION
  {
    TicksToUs(ticks, clock) + TRIM_DURATION
  }

  /** `read()`: `map(readMicroseconds() + 1, SERVO_MIN(), SERVO_MAX(), 0, 180)`. */
  function ReadDegreesOf(us: int, mn: Trim, mx: Trim): (deg: int)
    ensures ServoMin(mn) <= us + 1 <= ServoMax(mx) ==> 0 <= deg <= 180
  {
    Map(us + 1, ServoMin(mn), ServoMax(mx), 0, 180)
  }

  /** `isMoving()` of a registered servo: the last written value differs from
      what the servo reports, compared in degrees for a value below 544 and in
      microseconds otherwise. */
  function MovingOf(value: int, ticks: nat, mn: Trim, mx: Trim, clock: nat): (moving: bool)
    requires clock >= 4
    ensures value < MIN_PULSE_WIDTH ==> (moving <==> ReadDegreesOf(ReadUsOf(ticks, clock), mn, mx) != value)
    ensures value >= MIN_PULSE_WIDTH ==> (moving <==> ReadUsOf(ticks, clock) != value)
  {
    if value < MIN_PULSE_WIDTH then ReadDegreesOf(ReadUsOf(ticks, clock), mn, mx) != value
    else ReadUsOf(ticks, clock) != value
  }

  // ---- record updates made by the write family ----

  /** `writeMicroseconds(value)` on a registered entry: `value` is stored as
      given, `ticks` as the clamped, trimmed, converted width; nothing else moves. */
  function AfterWriteMicroseconds(r: ServoRecord, value: int, mn: Trim, mx: Trim, clock: nat): (r': ServoRecord)
    ensures r'.value == value && r'.ticks == PulseTicks(value, mn, mx, clock)
    ensures r'.pin == r.pin && r'.isActive == r.isActive && r'.target == r.target && r'.speed == r.speed
  {
    r.(value := value, ticks := PulseTicks(value, mn, mx, clock))
  }

  /** `write(value)`: writeMicroseconds of the requested width, so the stored
      `value` is that width in microseconds, not the angle passed in. */
  function AfterWrite(r: ServoRecord, value: int, mn: Trim, mx: Trim, clock: nat): (r': ServoRecord)
    ensures r' == AfterWriteMicroseconds(r, RequestedUs(value, mn, mx), mn, mx, clock)
    ensures value < MIN_PULSE_WIDTH ==> ServoMin(mn) <= r'.value <= ServoMax(mx)
  {
    AfterWriteMicroseconds(r, RequestedUs(value, mn, mx), mn, mx, clock)
  }

  /** `write(value, speed)`: with a non-zero speed only `value`, `target` and
      `speed` change and the pulse being output (`ticks`) is left alone; with
      speed 0 it is exactly `write(value)`. */
  function AfterSpeedWrite(r: ServoRecord, value: int, speed: nat, mn: Trim, mx: Trim, clock: nat): (r': ServoRecord)
    ensures speed == 0 ==> r' == AfterWrite(r, value, mn, mx, clock)
    ensures speed != 0 ==> r'.value == value && r'.speed == speed
    ensures speed != 0 ==> r'.ticks == r.ticks && r'.pin == r.pin && r'.isActive == r.isActive
  {
    if speed == 0 then AfterWrite(r, value, mn, mx, clock)
    else r.(value := value, target := PulseTicks(RequestedUs(value, mn, mx), mn, mx, clock), speed := speed)
  }

  // ---- properties of the arithmetic ----

  lemma UsToTicksMonotone(a: int, b: int, clock: nat)
    requires a <= b
    ensures UsToTicks(a, clock) <= UsToTicks(b, clock)
  {
    MulMonotone(clock / 16, a, b);
    CDivMonotone((clock / 16) * a, (clock / 16) * b, 4);
  }

  /** Every calibration attach can store gives an ordered range, at least
      836 us wide: `map` in `read()` never divides by zero. */
  lemma CalibratedRangeOrdered(mn: Trim, mx: Trim)
    ensures ServoMin(mn) + 836 <= ServoMax(mx)
  {
  }

  /** attach(pin, min, max) with bounds on the 4 us grid inside the int8_t
      range reproduces those bounds exactly as SERVO_MIN()/SERVO_MAX(). */
  lemma CalibrationRoundTrip(minUs: int, maxUs: int)
    requires 36 <= minUs <= 1056 && minUs % 4 == 0
    requires 1892 <= maxUs <= 2912 && maxUs % 4 == 0
    ensures ServoMin(MinTrim(minUs)) == minUs && ServoMax(MaxTrim(maxUs)) == maxUs
  {
    assert CDiv(MIN_PULSE_WIDTH - minUs, 4) * 4 == MIN_PULSE_WIDTH - minUs;
    assert CDiv(MAX_PULSE_WIDTH - maxUs, 4) * 4 == MAX_PULSE_WIDTH - maxUs;
  }

  /** A bound outside the int8_t range wraps: attach(pin, 1000, 1000) yields
      SERVO_MAX() = 2024, not 1000. */
  lemma CalibrationWraps()
    ensures MaxTrim(1000) == 94 && ServoMax(MaxTrim(1000)) == 2024
    ensures ServoMin(MinTrim(1000)) == 1000
  {
    assert CDiv(MAX_PULSE_WIDTH - 1000, 4) == 350;
    assert Int8(350) == 94;
  }

  /** The conversion rate: clock / 4 is at least four times clock / 16. */
  lemma ClockRates(clock: nat)
    ensures 4 * (clock / 16) <= clock / 4
  {
  }

  /** writeMicroseconds(u) followed by readMicroseconds() never reports more
      than u, at any clock rate, for u in the calibrated range. */
  lemma ReadBackNeverExceeds(u: int, mn: Trim, mx: Trim, clock: nat)
    requires clock >= 4 && ServoMin(mn) <= u <= ServoMax(mx)
    ensures ReadUsOf(PulseTicks(u, mn, mx, clock), clock) <= u
  {
    var k, m := clock / 16, clock / 4;
    var v := u - TRIM_DURATION;
    var t := PulseTicks(u, mn, mx, clock);
    assert t == UsToTicks(v, clock);
    assert 4 * t <= k * v;
    ClockRates(clock);
    MulMonotone(v, 4 * k, m);
    assert 16 * t <= m * v;
    DivAtMost(t * 16, m, v);
  }

  /** At 16 cycles per microsecond the read-back lies in [u - 3, u], and it is
      exactly u precisely when u - 5 is a multiple of 4 (u % 4 == 1). */
  lemma ReadBackAt16(u: int, mn: Trim, mx: Trim)
    requires ServoMin(mn) <= u <= ServoMax(mx)
    ensures u - 3 <= ReadUsOf(PulseTicks(u, mn, mx, 16), 16) <= u
    ensures ReadUsOf(PulseTicks(u, mn, mx, 16), 16) == u <==> u % 4 == 1
  {
    var t := PulseTicks(u, mn, mx, 16);
    assert t == (u - TRIM_DURATION) / 4;
  }

  /** The width write(a) requests for an angle a in [0, 180] is SERVO_MIN()
      plus the floor of a/180 of the calibrated range. */
  lemma AngleRequest(a: int, mn: Trim, mx: Trim)
    requires 0 <= a <= 180
    ensures var d := ServoMax(mx) - ServoMin(mn);
            var q := RequestedUs(a, mn, mx) - ServoMin(mn);
            180 * q <= a * d < 180 * q + 180
  {
    var d := ServoMax(mx) - ServoMin(mn);
    CalibratedRangeOrdered(mn, mx);
    MulMonotone(d, 0, a);
    assert RequestedUs(a, mn, mx) == CDiv(a * d, 180) + ServoMin(mn);
  }

  /** The integer core of the angle round trip: a pulse q/d of the way along
      a range d >= 540 wide, read back up to two steps low or one step high,
      maps back onto a or a - 1. */
  lemma AngleBracket(a: int, d: int, q: int, x: int)
    requires 540 <= d && 0 <= a <= 180
    requires 180 * q <= a * d < 180 * q + 180
    requires q - 2 <= x <= q + 1
    ensures a - 1 <= CDiv(x * 180, d) <= a
  {
    assert x * 180 < (a + 1) * d;
    if x >= 0 {
      DivAtMost(x * 180, d, a);
      assert (a - 1) * d <= x * 180;
      DivAtLeast(x * 180, d, a - 1);
    } else {
      assert q < 2;
      if a >= 1 {
        MulMonotone(d, 1, a);
      }
      assert -(x * 180) < d;
    }
  }

  /** write(a) followed by read() for an angle a in [0, 180], at 16 cycles per
      microsecond and any calibration: the angle comes back as a or a - 1,
      never more. */
  lemma AngleRoundTripAt16(a: int, mn: Trim, mx: Trim)
    requires 0 <= a <= 180
    ensures var deg := ReadDegreesOf(ReadUsOf(PulseTicks(RequestedUs(a, mn, mx), mn, mx, 16), 16), mn, mx);
            a - 1 <= deg <= a
  {
    var lo, hi := ServoMin(mn), ServoMax(mx);
    CalibratedRangeOrdered(mn, mx);
    AngleRequest(a, mn, mx);
    var us := RequestedUs(a, mn, mx);
    var r := ReadUsOf(PulseTicks(us, mn, mx, 16), 16);
    ReadBackAt16(us, mn, mx);
    assert ReadDegreesOf(r, mn, mx) == CDiv((r + 1 - lo) * 180, hi - lo);
    AngleBracket(a, hi - lo, us - lo, r + 1 - lo);
  }

  /** write(0) with the default range at 16 MHz: readMicroseconds() is 541,
      so read() maps 542 < 544, a negative numerator; C truncation gives 0
      where a flooring division would give -1. */
  lemma WriteZeroReadsZeroAt16()
    ensures ReadUsOf(PulseTicks(RequestedUs(0, 0, 0), 0, 0, 16), 16) == 541
    ensures ReadDegreesOf(541, 0, 0) == 0
    ensures (541 + 1 - 544) * 180 / (2400 - 544) == -1
  {
    WriteZeroPulse();
    ReadDegreesOfShortPulse();
  }

  lemma WriteZeroPulse()
    ensures ReadUsOf(PulseTicks(RequestedUs(0, 0, 0), 0, 0, 16), 16) == 541
  {
    assert ReadUsOf(134, 16) == 541;
    assert Map(0, 0, 180, 544, 2400) == 544;
    assert UsToTicks(539, 16) == 134;
  }

  lemma ReadDegreesOfShortPulse()
    ensures ReadDegreesOf(541, 0, 0) == 0
    ensures (541 + 1 - 544) * 180 / (2400 - 544) == -1
  {
    assert CDiv(-360, 1856) == 0;
  }

  /** write(90) with the default range at 16 MHz: 1472 us is requested,
      readMicroseconds() reports 1469 and read() reports 89, not 90. */
  lemma WriteNinetyReadsEightyNineAt16()
    ensures RequestedUs(90, 0, 0) == 1472
    ensures ReadUsOf(PulseTicks(1472, 0, 0, 16), 16) == 1469
    ensures ReadDegreesOf(1469, 0, 0) == 89
  {
    assert CDiv(90 * 1856, 180) == 928;
    assert PulseTicks(1472, 0, 0, 16) == 366;
    assert CDiv(926 * 180, 1856) == 89;
  }

  /** At 20 cycles per microsecond, clock / 16 truncates to 1 while clock / 4
      is 5: writeMicroseconds(1500) reads back as 1198. */
  lemma ReadBackAt20()
    ensures ReadUsOf(PulseTicks(1500, 0, 0, 20), 20) == 1198
  {
    assert PulseTicks(1500, 0, 0, 20) == 373;
    assert TicksToUs(373, 20) == 1193;
  }

  /** Why the driver needs at least 16 cycles per microsecond: below that,
      clock / 16 truncates to 0 (8 MHz, say), so every width
      writeMicroseconds stores is 0 ticks. */
  lemma SlowClockPulsesVanish(us: int, mn: Trim, mx: Trim, clock: nat)
    requires clock < 16
    ensures PulseTicks(us, mn, mx, clock) == 0
  {
  }

  /** After an immediate writeMicroseconds(u), u >= 544 inside the calibrated
      range, at 16 MHz, isMoving() is false exactly when u % 4 == 1: every
      other width reads back lower and the servo counts as moving for ever. */
  lemma SettlesAfterWriteMicrosecondsIff(u: int, mn: Trim, mx: Trim)
    requires MIN_PULSE_WIDTH <= u && ServoMin(mn) <= u <= ServoMax(mx)
    ensures var r := AfterWriteMicroseconds(BlankRecord, u, mn, mx, 16);
            !MovingOf(r.value, r.ticks, mn, mx, 16) <==> u % 4 == 1
  {
    ReadBackAt16(u, mn, mx);
  }

  /** The immediate write(90) of the default range at 16 MHz stores 1472 us as
      the value and never stops counting as moving. */
  lemma ImmediateWriteNinetyKeepsMoving(r: ServoRecord)
    ensures var r' := AfterWrite(r, 90, 0, 0, 16);
            r'.value == 1472 && MovingOf(r'.value, r'.ticks, 0, 0, 16)
  {
    WriteNinetyReadsEightyNineAt16();
  }

  /** Right after write(value, speed) with a non-zero speed the output pulse
      is still the old one, so isMoving() holds exactly when the servo does
      not already report `value`: it counts as moving until the ramp, which
      is not part of this file, brings the pulse there. */
  lemma SpeedWriteMovesUntilReached(r: ServoRecord, value: int, speed: nat, mn: Trim, mx: Trim, clock: nat)
    requires speed != 0 && clock >= 4
    ensures var r' := AfterSpeedWrite(r, value, speed, mn, mx, clock);
            var reported := if value < MIN_PULSE_WIDTH then ReadDegreesOf(ReadUsOf(r.ticks, clock), mn, mx)
                            else ReadUsOf(r.ticks, clock);
            MovingOf(r'.value, r'.ticks, mn, mx, clock) <==> reported != value
  {
    var r' := AfterSpeedWrite(r, value, speed, mn, mx, clock);
    assert r'.value == value && r'.ticks == r.ticks;
  }

  /** A speed-limited write aims at exactly the ticks the immediate write of
      the same value would output. */
  lemma SpeedWriteTargetsImmediatePulse(r: ServoRecord, value: int, speed: nat, mn: Trim, mx: Trim, clock: nat)
    requires speed != 0
    ensures AfterSpeedWrite(r, value, speed, mn, mx, clock).target == AfterWrite(r, value, mn, mx, clock).ticks
  {
  }
}
