/** One `VarSpeedServo` object: its slot in the shared table, its calibration,
    the write family that fills its record, what it reads back, and its
    waypoint sequence player. */
module VarSpeed {
  import opened CArith
  import opened ServoMath
  import opened TimerGroups
  import opened Sequencer
  import opened Registry

  class VarSpeedServo {
    const sys: ServoSystem                        // the driver's shared tables
    const servoIndex: int                         // slot in servos[], or INVALID_SERVO
    var min: Trim                                 // int8_t offset of SERVO_MIN(), 4 us units
    var max: Trim                                 // int8_t offset of SERVO_MAX(), 4 us units
    var curSequence: array?<SequencePoint>        // sequence being played, null before any
    var curSeqPosition: UInt8                     // waypoint cursor, or CURRENT_SEQUENCE_STOP

    /** What indexing the table and converting ticks needs; it holds in every
        valid state and reads no mutable field. */
    predicate Indexable()
    {
      && sys.servos.Length == MAX_SERVOS
      && sys.clock >= 16
      && (servoIndex == INVALID_SERVO || 0 <= servoIndex < MAX_SERVOS)
    }

    ghost predicate Valid()
      reads sys, sys.servos, sys.currentServoIndex, sys.isrEnabled
    {
      && Indexable()
      && sys.Valid()
      && (servoIndex == INVALID_SERVO || 0 <= servoIndex < sys.servoCount)
    }

    /** The constructor: the next dense slot while the table has room, whose
        ticks are set to the default 1500 us pulse; INVALID_SERVO once it is full. */
    constructor (sys: ServoSystem)
      requires sys.Valid()
      modifies sys`servoCount, sys.servos
      ensures this.sys == sys && Valid()
      ensures min == 0 && max == 0
      ensures old(sys.servoCount) < MAX_SERVOS ==>
                && servoIndex == old(sys.servoCount)
                && sys.servoCount == old(sys.servoCount) + 1
                && sys.servos[..] == old(sys.servos[..])[old(sys.servoCount) :=
                     old(sys.servos[sys.servoCount]).(ticks := UsToTicks(DEFAULT_PULSE_WIDTH, sys.clock))]
                && curSequence == sys.initSeq && curSeqPosition == 0
      ensures old(sys.servoCount) >= MAX_SERVOS ==>
                && servoIndex == INVALID_SERVO
                && sys.servoCount == old(sys.servoCount)
                && sys.servos[..] == old(sys.servos[..])
                && curSequence == null && curSeqPosition == 0
    {
      var registered := sys.servoCount < MAX_SERVOS;
      this.sys := sys;
      min := 0;
      max := 0;
      servoIndex := if registered then sys.servoCount else INVALID_SERVO;
      curSeqPosition := 0;
      curSequence := if registered then sys.initSeq else null;
      new;
      if registered {
        sys.servoCount := sys.servoCount + 1;
        sys.servos[servoIndex] := sys.servos[servoIndex].(ticks := UsToTicks(DEFAULT_PULSE_WIDTH, sys.clock));
        TimerActiveFollowsFlags(old(sys.servos[..]), sys.servos[..]);
      }
    }

    /** `attach(pin, min, max)`: put the pin in output mode, record it and the
        calibration, arm the timer's interrupt if none of its channels was
        active yet, then mark the channel active. Returns the slot. */
    method AttachRange(pin: int, minUs: int, maxUs: int) returns (index: int)
      requires Valid()
      modifies this`min, this`max, sys`outputPins, sys.servos, sys.isrEnabled
      ensures Valid() && index == servoIndex
      ensures servoIndex == INVALID_SERVO ==>
                && min == old(min) && max == old(max)
                && sys.outputPins == old(sys.outputPins)
                && sys.servos[..] == old(sys.servos[..])
                && sys.isrEnabled[..] == old(sys.isrEnabled[..])
      ensures servoIndex != INVALID_SERVO ==>
                && min == MinTrim(minUs) && max == MaxTrim(maxUs)
                && sys.outputPins == old(sys.outputPins) + {pin}
                && sys.servos[..] == old(sys.servos[..])[servoIndex := old(sys.servos[servoIndex]).(pin := pin, isActive := true)]
                && sys.isrEnabled[..] == old(sys.isrEnabled[..])[TimerOf(servoIndex) := true]
    {
      if 0 <= servoIndex < MAX_SERVOS {
        sys.outputPins := sys.outputPins + {pin};
        sys.servos[servoIndex] := sys.servos[servoIndex].(pin := pin);
        min := MinTrim(minUs);
        max := MaxTrim(maxUs);
        var timer := TimerOf(servoIndex);
        IndexSplits(servoIndex);
        TimerActiveFollowsFlags(old(sys.servos[..]), sys.servos[..]);
        var active := sys.IsTimerActive(timer);
        if !active {
          sys.InitIsr(timer);
        }
        sys.servos[servoIndex] := sys.servos[servoIndex].(isActive := true);
        assert sys.servos[ServoIndex(timer, ChannelOf(servoIndex))].isActive;
      }
      index := servoIndex;
    }

    /** `attach(pin)`: the default 544..2400 us range, so both offsets are 0. */
    method Attach(pin: int) returns (index: int)
      requires Valid()
      modifies this`min, this`max, sys`outputPins, sys.servos, sys.isrEnabled
      ensures Valid() && index == servoIndex
      ensures servoIndex == INVALID_SERVO ==>
                && min == old(min) && max == old(max)
                && sys.outputPins == old(sys.outputPins)
                && sys.servos[..] == old(sys.servos[..])
                && sys.isrEnabled[..] == old(sys.isrEnabled[..])
      ensures servoIndex != INVALID_SERVO ==>
                && min == 0 && max == 0
                && ServoMin(min) == MIN_PULSE_WIDTH && ServoMax(max) == MAX_PULSE_WIDTH
                && sys.outputPins == old(sys.outputPins) + {pin}
                && sys.servos[..] == old(sys.servos[..])[servoIndex := old(sys.servos[servoIndex]).(pin := pin, isActive := true)]
                && sys.isrEnabled[..] == old(sys.isrEnabled[..])[TimerOf(servoIndex) := true]
    {
      index := AttachRange(pin, MIN_PULSE_WIDTH, MAX_PULSE_WIDTH);
    }

    /** `detach()`: clear the channel's active flag and disarm the timer's
        interrupt once none of its channels is active. The model skips an
        unregistered object, whose index lies outside the table. */
    method Detach()
      requires Valid()
      modifies sys.servos, sys.isrEnabled
      ensures Valid()
      ensures servoIndex == INVALID_SERVO ==>
                sys.servos[..] == old(sys.servos[..]) && sys.isrEnabled[..] == old(sys.isrEnabled[..])
      ensures servoIndex != INVALID_SERVO ==>
                && sys.servos[..] == old(sys.servos[..])[servoIndex := old(sys.servos[servoIndex]).(isActive := false)]
                && sys.isrEnabled[..] == old(sys.isrEnabled[..])[TimerOf(servoIndex) := TimerActive(sys.servos[..], TimerOf(servoIndex))]
      ensures old(!Attached()) ==>
                sys.servos[..] == old(sys.servos[..]) && sys.isrEnabled[..] == old(sys.isrEnabled[..])
    {
      if servoIndex != INVALID_SERVO {
        sys.servos[servoIndex] := sys.servos[servoIndex].(isActive := false);
        var timer := TimerOf(servoIndex);
        IndexSplits(servoIndex);
        TimerActiveShrinks(old(sys.servos[..]), sys.servos[..], timer);
        var active := sys.IsTimerActive(timer);
        if !active {
          sys.FinIsr(timer);
        }
        if old(!sys.servos[servoIndex].isActive) {
          assert sys.servos[..] == old(sys.servos[..]);
        }
      }
    }

    /** `attached()`: the channel's active flag; false for an unregistered object. */
    function Attached(): (attached: bool)
      reads sys.servos
      requires Indexable()
      ensures attached ==> servoIndex != INVALID_SERVO
      ensures servoIndex != INVALID_SERVO ==> (attached <==> sys.servos[servoIndex].isActive)
    {
      servoIndex != INVALID_SERVO && sys.servos[servoIndex].isActive
    }

    /** `writeMicroseconds(value)`: store `value` as given, and the clamped,
        trimmed width in ticks; no other record changes. */
    method WriteMicroseconds(value: int)
      requires Valid()
      modifies sys.servos
      ensures Valid()
      ensures servoIndex == INVALID_SERVO ==> sys.servos[..] == old(sys.servos[..])
      ensures servoIndex != INVALID_SERVO ==>
                sys.servos[..] == old(sys.servos[..])[servoIndex := AfterWriteMicroseconds(old(sys.servos[servoIndex]), value, min, max, sys.clock)]
    {
      var channel := servoIndex;
      if channel != INVALID_SERVO {
        sys.servos[channel] := sys.servos[channel].(value := value);
      }
      if 0 <= channel < MAX_SERVOS {
        var v := value;
        if v < ServoMin(min) {
          v := ServoMin(min);
        } else if v > ServoMax(max) {
          v := ServoMax(max);
        }
        v := v - TRIM_DURATION;
        v := UsToTicks(v, sys.clock);
        sys.servos[channel] := sys.servos[channel].(ticks := v);
      }
      TimerActiveFollowsFlags(old(sys.servos[..]), sys.servos[..]);
    }

    /** `write(value)`: an angle below 544 is clamped to [0, 180] and mapped
        onto the calibrated range; the width is then written as microseconds. */
    method Write(value: int)
      requires Valid()
      modifies sys.servos
      ensures Valid()
      ensures servoIndex == INVALID_SERVO ==> sys.servos[..] == old(sys.servos[..])
      ensures servoIndex != INVALID_SERVO ==>
                sys.servos[..] == old(sys.servos[..])[servoIndex := AfterWrite(old(sys.servos[servoIndex]), value, min, max, sys.clock)]
    {
      var v := value;
      if v < MIN_PULSE_WIDTH {
        if v < 0 {
          v := 0;
        } else if v > 180 {
          v := 180;
        }
        v := Map(v, 0, 180, ServoMin(min), ServoMax(max));
      }
      WriteMicroseconds(v);
    }

    /** `write(value, speed)`: `value` is stored as given; a non-zero speed
        sets the target ticks and the speed and leaves the pulse being output
        alone, speed 0 is `write(value)`. */
    method WriteSpeed(value: int, speed: UInt8)
      requires Valid()
      modifies sys.servos
      ensures Valid()
      ensures servoIndex == INVALID_SERVO ==> sys.servos[..] == old(sys.servos[..])
      ensures servoIndex != INVALID_SERVO ==>
                sys.servos[..] == old(sys.servos[..])[servoIndex := AfterSpeedWrite(old(sys.servos[servoIndex]), value, speed, min, max, sys.clock)]
    {
      var channel := servoIndex;
      if channel != INVALID_SERVO {
        sys.servos[channel] := sys.servos[channel].(value := value);
      }
      TimerActiveFollowsFlags(old(sys.servos[..]), sys.servos[..]);
      if speed != 0 {
        var v := value;
        if v < MIN_PULSE_WIDTH {
          v := Constrain(v, 0, 180);
          v := Map(v, 0, 180, ServoMin(min), ServoMax(max));
        }
        if 0 <= channel < MAX_SERVOS {
          v := Constrain(v, ServoMin(min), ServoMax(max));
          v := v - TRIM_DURATION;
          v := UsToTicks(v, sys.clock);
          sys.servos[channel] := sys.servos[channel].(target := v, speed := speed);
          TimerActiveFollowsFlags(old(sys.servos[..]), sys.servos[..]);
        }
      } else {
        Write(value);
      }
    }

    /** `slowmove(value, speed)`: the legacy name of `write(value, speed)`. */
    method Slowmove(value: int, speed: UInt8)
      requires Valid()
      modifies sys.servos
      ensures Valid()
      ensures servoIndex == INVALID_SERVO ==> sys.servos[..] == old(sys.servos[..])
      ensures servoIndex != INVALID_SERVO ==>
                sys.servos[..] == old(sys.servos[..])[servoIndex := AfterSpeedWrite(old(sys.servos[servoIndex]), value, speed, min, max, sys.clock)]
    {
      WriteSpeed(value, speed);
    }

    /** `readMicroseconds()`: the output pulse width, 0 for an unregistered object. */
    function ReadMicroseconds(): (us: int)
      reads sys.servos
      requires Indexable()
      ensures us == 0 <==> servoIndex == INVALID_SERVO
      ensures servoIndex != INVALID_SERVO ==> us == ReadUsOf(sys.servos[servoIndex].ticks, sys.clock)
      ensures servoIndex != INVALID_SERVO && sys.clock < 20 ==> us % 4 == 1
    {
      if servoIndex != INVALID_SERVO then TicksToUs(sys.servos[servoIndex].ticks, sys.clock) + TRIM_DURATION
      else 0
    }

    /** `read()`: the pulse width, one microsecond up, mapped back to degrees
        over the calibrated range. */
    function Read(): (deg: int)
      reads this`min, this`max, sys.servos
      requires Indexable()
      ensures deg == ReadDegreesOf(ReadMicroseconds(), min, max)
      ensures ServoMin(min) <= ReadMicroseconds() + 1 <= ServoMax(max) ==> 0 <= deg <= 180
    {
      Map(ReadMicroseconds() + 1, ServoMin(min), ServoMax(max), 0, 180)
    }

    /** `isMoving()`: the last written value is not what the servo reports,
        in degrees for a value below 544 and in microseconds otherwise. */
    function IsMoving(): (moving: bool)
      reads this`min, this`max, sys.servos
      requires Indexable() && servoIndex != INVALID_SERVO
      ensures moving == MovingOf(sys.servos[servoIndex].value, sys.servos[servoIndex].ticks, min, max, sys.clock)
    {
      var value := sys.servos[servoIndex].value;
      if value < MIN_PULSE_WIDTH then Read() != value else ReadMicroseconds() != value
    }

    /** `stop()`: write back the position the servo reads now. */
    method Stop()
      requires Valid()
      modifies sys.servos
      ensures Valid()
      ensures servoIndex == INVALID_SERVO ==> sys.servos[..] == old(sys.servos[..])
      ensures servoIndex != INVALID_SERVO ==>
                sys.servos[..] == old(sys.servos[..])[servoIndex := AfterWrite(old(sys.servos[servoIndex]), old(Read()), min, max, sys.clock)]
    {
      Write(Read());
    }

    /** `sequencePlay(sequenceIn, numPositions, loop, startPos)`: a sequence
        not seen before (by identity) restarts the cursor at `startPos`; the
        cursor advances when the servo reads the current waypoint's position;
        a speed write of the waypoint under the cursor follows whenever the
        cursor changed and playback is not stopped. Returns the cursor. */
    method SequencePlay(sequenceIn: array<SequencePoint>, numPositions: UInt8, loop: bool, startPos: UInt8)
      returns (position: UInt8)
      requires Valid()
      requires 0 < numPositions <= sequenceIn.Length
      requires curSequence != sequenceIn ==> startPos < numPositions
      requires curSequence == sequenceIn ==> CursorFor(curSeqPosition, numPositions)
      modifies this`curSequence, this`curSeqPosition, sys.servos
      ensures Valid()
      ensures curSequence == sequenceIn && position == curSeqPosition
      ensures CursorFor(position, numPositions)
      ensures position == PlayCursor(if old(curSequence) != sequenceIn then startPos else old(curSeqPosition),
                                     old(Read()), sequenceIn[..], numPositions, loop)
      ensures var marker := if old(curSequence) != sequenceIn then CURRENT_SEQUENCE_STOP else old(curSeqPosition);
              if PlayWrites(marker, position) && servoIndex != INVALID_SERVO
              then sys.servos[..] == old(sys.servos[..])[servoIndex :=
                     AfterSpeedWrite(old(sys.servos[servoIndex]), sequenceIn[position].position,
                                     sequenceIn[position].speed, min, max, sys.clock)]
              else sys.servos[..] == old(sys.servos[..])
    {
      var oldSeqPosition: int := curSeqPosition;
      if curSequence != sequenceIn {
        curSequence := sequenceIn;
        curSeqPosition := startPos;
        oldSeqPosition := 255;
      }

      if curSeqPosition != CURRENT_SEQUENCE_STOP && Read() == sequenceIn[curSeqPosition].position {
        curSeqPosition := curSeqPosition + 1;
        if curSeqPosition >= numPositions {
          if loop {
            curSeqPosition := 0;
          } else {
            curSeqPosition := CURRENT_SEQUENCE_STOP;
          }
        }
      }

      if curSeqPosition != oldSeqPosition && curSeqPosition != CURRENT_SEQUENCE_STOP {
        WriteSpeed(sequenceIn[curSeqPosition].position, sequenceIn[curSeqPosition].speed);
      }
      position := curSeqPosition;
    }

    /** `sequencePlay(sequenceIn, numPositions)`: looped playback from waypoint 0. */
    method SequencePlayLooped(sequenceIn: array<SequencePoint>, numPositions: UInt8) returns (position: UInt8)
      requires Valid()
      requires 0 < numPositions <= sequenceIn.Length
      requires curSequence == sequenceIn ==> CursorFor(curSeqPosition, numPositions)
      modifies this`curSequence, this`curSeqPosition, sys.servos
      ensures Valid()
      ensures curSequence == sequenceIn && position == curSeqPosition
      ensures position != CURRENT_SEQUENCE_STOP || (old(curSequence) == sequenceIn && old(curSeqPosition) == CURRENT_SEQUENCE_STOP)
      ensures position == PlayCursor(if old(curSequence) != sequenceIn then 0 else old(curSeqPosition),
                                     old(Read()), sequenceIn[..], numPositions, true)
      ensures var marker := if old(curSequence) != sequenceIn then CURRENT_SEQUENCE_STOP else old(curSeqPosition);
              if PlayWrites(marker, position) && servoIndex != INVALID_SERVO
              then sys.servos[..] == old(sys.servos[..])[servoIndex :=
                     AfterSpeedWrite(old(sys.servos[servoIndex]), sequenceIn[position].position,
                                     sequenceIn[position].speed, min, max, sys.clock)]
              else sys.servos[..] == old(sys.servos[..])
    {
      position := SequencePlay(sequenceIn, numPositions, true, 0);
    }

    /** `sequenceStop()`: hold the current position and park the cursor on STOP. */
    method SequenceStop()
      requires Valid()
      modifies this`curSeqPosition, sys.servos
      ensures Valid() && curSeqPosition == CURRENT_SEQUENCE_STOP
      ensures servoIndex == INVALID_SERVO ==> sys.servos[..] == old(sys.servos[..])
      ensures servoIndex != INVALID_SERVO ==>
                sys.servos[..] == old(sys.servos[..])[servoIndex := AfterWrite(old(sys.servos[servoIndex]), old(Read()), min, max, sys.clock)]
    {
      Write(Read());
      curSeqPosition := CURRENT_SEQUENCE_STOP;
    }
  }
}
