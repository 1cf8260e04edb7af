/** The driver's table accesses as the source writes them, where they can
    leave the table. The rest of the model uses guarded versions: the
    VarSpeedServo methods skip an unregistered object, and `PlayCursor`
    tests for STOP before it reads a waypoint. */
module AsWritten {
  import opened ServoMath
  import opened TimerGroups
  import opened Sequencer
  import opened Registry
  import opened VarSpeed

  /** `servos[servoIndex].value = value` as writeMicroseconds and
      write(value, speed) perform it, before their channel check: it can only
      be carried out when the index lies inside the table. */
  function StoreValueAsWritten(table: seq<ServoRecord>, servoIndex: int, value: int): (table': seq<ServoRecord>)
    requires |table| == MAX_SERVOS && 0 <= servoIndex < |table|
    ensures |table'| == |table| && table'[servoIndex].value == value
  {
    table[servoIndex := table[servoIndex].(value := value)]
  }

  /** The index the constructor gives an object once the table is full,
      INVALID_SERVO, fails the bound of the unchecked store. */
  lemma ThirteenthObjectStoresOutsideTable(table: seq<ServoRecord>)
    requires |table| == MAX_SERVOS
    ensures !(0 <= INVALID_SERVO < |table|)
  {
  }

  /** A thirteenth object: its index is INVALID_SERVO, outside the table, so
      every write it makes runs the store above out of bounds. */
  method ObjectBeyondCapacity(sys: ServoSystem) returns (s: VarSpeedServo)
    requires sys.Valid() && sys.servoCount == MAX_SERVOS
    modifies sys`servoCount, sys.servos
    ensures s.sys == sys && s.servoIndex == INVALID_SERVO
    ensures !(0 <= s.servoIndex < sys.servos.Length)
    ensures sys.servoCount == MAX_SERVOS
  {
    s := new VarSpeedServo(sys);
  }

  /** `isTimerActive` as written, over channels c and up of `timer`: it reads
      `servos[timer * 12 + c]` with no bound of its own on the index. */
  function ScanAsWritten(table: seq<ServoRecord>, timer: nat, c: nat): (active: bool)
    requires c <= SERVOS_PER_TIMER && ServoIndex(timer, SERVOS_PER_TIMER - 1) < |table|
    ensures active <==> exists j :: c <= j < SERVOS_PER_TIMER && table[ServoIndex(timer, j)].isActive
    decreases SERVOS_PER_TIMER - c
  {
    if c == SERVOS_PER_TIMER then false
    else table[ServoIndex(timer, c)].isActive || ScanAsWritten(table, timer, c + 1)
  }

  /** What `detach()` as written leaves: the table with the object's flag
      cleared, and whether `finISR` runs. `finISR` ignores its argument and
      disables the one hardware timer, so `disarm` stops every servo. */
  datatype DetachOutcome = DetachOutcome(table: seq<ServoRecord>, disarm: bool)

  /** `detach()` as written: clear `servos[servoIndex]`, then scan the
      channels of timer servoIndex / 12 and disarm when none is active. Both
      accesses need their indices inside the table. */
  function DetachAsWritten(table: seq<ServoRecord>, servoIndex: int): (out: DetachOutcome)
    requires 0 <= servoIndex < |table|
    requires ServoIndex(TimerOf(servoIndex), SERVOS_PER_TIMER - 1) < |table|
    ensures |out.table| == |table| && !out.table[servoIndex].isActive
    ensures forall i :: 0 <= i < |table| && i != servoIndex ==> out.table[i] == table[i]
    ensures out.disarm <==> forall j :: 0 <= j < SERVOS_PER_TIMER ==> !out.table[ServoIndex(TimerOf(servoIndex), j)].isActive
  {
    var cleared := table[servoIndex := table[servoIndex].(isActive := false)];
    DetachOutcome(cleared, !ScanAsWritten(cleared, TimerOf(servoIndex), 0))
  }

  /** `attached()` as written: the flag at the object's index, unchecked. */
  function AttachedAsWritten(table: seq<ServoRecord>, servoIndex: int): (attached: bool)
    requires 0 <= servoIndex < |table|
    ensures attached <==> table[servoIndex].isActive
  {
    table[servoIndex].isActive
  }

  /** For an unregistered object, `detach` and `attached` as written index
      the table at INVALID_SERVO, and the scan of timer 255 / 12 = 21 reads
      servos[252..263]: every one of those accesses is outside the table. */
  lemma UnregisteredDetachLeavesTable(table: seq<ServoRecord>)
    requires |table| == MAX_SERVOS
    ensures !(0 <= INVALID_SERVO < |table|)
    ensures TimerOf(INVALID_SERVO) == 21
    ensures forall j :: 0 <= j < SERVOS_PER_TIMER ==> !(ServoIndex(TimerOf(INVALID_SERVO), j) < |table|)
  {
  }

  /** For a registered object the guarded `Detach` of the model does what
      the source does: the same cleared table, and the interrupt left
      enabled exactly while the scan finds an active channel. */
  lemma CorrectedDetachAgrees(table: seq<ServoRecord>, servoIndex: int)
    requires |table| == MAX_SERVOS && 0 <= servoIndex < MAX_SERVOS
    ensures TimerOf(servoIndex) < NBR_TIMERS
    ensures var out := DetachAsWritten(table, servoIndex);
            && out.table == table[servoIndex := table[servoIndex].(isActive := false)]
            && (out.disarm <==> !TimerActive(out.table, TimerOf(servoIndex)))
  {
    IndexSplits(servoIndex);
    var out := DetachAsWritten(table, servoIndex);
    assert out.table == table[servoIndex := table[servoIndex].(isActive := false)];
    if TimerActive(out.table, TimerOf(servoIndex)) {
      var c :| 0 <= c < SERVOS_PER_TIMER && out.table[ServoIndex(TimerOf(servoIndex), c)].isActive;
      assert !out.disarm;
    }
  }

  /** The advance test of `sequencePlay` in the source's order: the waypoint
      `points[pos]` is read first and the cursor is compared with STOP after,
      so the test needs `pos` to be a waypoint index. */
  function AdvanceTestAsWritten(degrees: int, points: seq<SequencePoint>, pos: int): (advance: bool)
    requires 0 <= pos < |points|
    ensures advance ==> pos != CURRENT_SEQUENCE_STOP && degrees == points[pos].position
  {
    degrees == points[pos].position && pos != CURRENT_SEQUENCE_STOP
  }

  /** A one-shot playback of a sequence of at most 255 waypoints ends on
      STOP after n - start advances; the next call with the same sequence then
      reads waypoint 255, past the end of the sequence, so the as-written test
      cannot be evaluated. */
  lemma OneShotEndReadsPastSequence(points: seq<SequencePoint>, start: int)
    requires 0 <= start < |points| <= 255
    ensures AdvanceTimes(start, |points|, false, |points| - start) == CURRENT_SEQUENCE_STOP
    ensures !(0 <= AdvanceTimes(start, |points|, false, |points| - start) < |points|)
  {
    OneShotPlayback(start, |points|, |points| - start);
  }

  /** Wherever the as-written test can be evaluated, the corrected cursor
      step agrees with it. */
  lemma CorrectedAdvanceAgrees(p0: int, degrees: int, points: seq<SequencePoint>, n: int, loop: bool)
    requires 0 < n <= |points| && n <= 255 && 0 <= p0 < n
    ensures PlayCursor(p0, degrees, points, n, loop) ==
              if AdvanceTestAsWritten(degrees, points, p0) then Advance(p0, n, loop) else p0
  {
  }
}
