/** The driver's process-wide state: the fixed `servos[]` table and
    `ServoCount`, each timer's channel cursor, the timer's compare register,
    its interrupt enable, and the levels of the pins it drives. It owns the
    interrupt handler `ServoHandler` and the `isTimerActive` scan. */
module Registry {
  import opened CArith
  import opened ServoMath
  import opened TimerGroups
  import opened Sequencer

  datatype Option<T> = None | Some(value: T)

  /** Some channel of `timer` is active: what `isTimerActive` scans for. It
      looks at all SERVOS_PER_TIMER slots, registered or not. */
  ghost predicate TimerActive(s: seq<ServoRecord>, timer: nat)
    requires timer < NBR_TIMERS && |s| == MAX_SERVOS
  {
    exists c :: 0 <= c < SERVOS_PER_TIMER && s[ServoIndex(timer, c)].isActive
  }

  /** Clearing active flags can only make a timer idle, never busy. */
  lemma TimerActiveShrinks(s: seq<ServoRecord>, s': seq<ServoRecord>, timer: nat)
    requires timer < NBR_TIMERS && |s| == |s'| == MAX_SERVOS
    requires forall i :: 0 <= i < MAX_SERVOS && s'[i].isActive ==> s[i].isActive
    ensures TimerActive(s', timer) ==> TimerActive(s, timer)
  {
    if TimerActive(s', timer) {
      var c :| 0 <= c < SERVOS_PER_TIMER && s'[ServoIndex(timer, c)].isActive;
      assert s[ServoIndex(timer, c)].isActive;
    }
  }

  /** Writes that leave every active flag alone leave every timer's activity alone. */
  lemma TimerActiveFollowsFlags(s: seq<ServoRecord>, s': seq<ServoRecord>)
    requires |s| == |s'| == MAX_SERVOS
    requires forall i :: 0 <= i < MAX_SERVOS ==> s'[i].isActive == s[i].isActive
    ensures forall t :: 0 <= t < NBR_TIMERS ==> TimerActive(s', t) == TimerActive(s, t)
  {
    forall t | 0 <= t < NBR_TIMERS
      ensures TimerActive(s', t) == TimerActive(s, t)
    {
      TimerActiveShrinks(s, s', t);
      TimerActiveShrinks(s', s, t);
    }
  }

  /** The pin the handler drives LOW on entry with cursor `c` (lines 111-118):
      the channel just pulsed, and only when it is registered and active; on
      the refresh-gap entry, none. */
  function LoweredPin(s: seq<ServoRecord>, count: nat, timer: nat, c: int): (p: Option<int>)
    requires |s| == MAX_SERVOS && timer < NBR_TIMERS && GAP <= c < SERVOS_PER_TIMER
    ensures c == GAP ==> p == None
    ensures p.Some? <==> c != GAP && ServoIndex(timer, c) < count && s[ServoIndex(timer, c)].isActive
    ensures p.Some? ==> p.value == s[ServoIndex(timer, c)].pin
  {
    if 0 <= c && ServoIndex(timer, c) < count && s[ServoIndex(timer, c)].isActive
    then Some(s[ServoIndex(timer, c)].pin) else None
  }

  /** The pin the handler drives HIGH once the cursor is `n` (lines 123-126):
      the newly selected channel's, and only when that channel is active. */
  function RaisedPin(s: seq<ServoRecord>, timer: nat, n: int): (p: Option<int>)
    requires |s| == MAX_SERVOS && timer < NBR_TIMERS && GAP <= n < SERVOS_PER_TIMER
    ensures n == GAP ==> p == None
    ensures p.Some? <==> n != GAP && s[ServoIndex(timer, n)].isActive
    ensures p.Some? ==> p.value == s[ServoIndex(timer, n)].pin
  {
    if 0 <= n && s[ServoIndex(timer, n)].isActive then Some(s[ServoIndex(timer, n)].pin) else None
  }

  /** `digitalWrite(pin, level)` when there is a pin to drive. */
  function Drive(levels: map<int, bool>, p: Option<int>, level: bool): (levels': map<int, bool>)
    ensures p.Some? ==> p.value in levels' && levels'[p.value] == level
    ensures forall q :: q in levels && (p.None? || q != p.value) ==> q in levels' && levels'[q] == levels[q]
    ensures levels'.Keys == levels.Keys + (if p.Some? then {p.value} else {})
  {
    match p
    case None => levels
    case Some(pin) => levels[pin := level]
  }

  /** The pulse pairing of the handler: a pin raised when the cursor moves to
      channel n is lowered by the next interrupt, which enters with cursor n,
      and after that interrupt it is HIGH only if the next channel selected
      drives the same pin. So, with the table unchanged between the two
      interrupts, every pulse is one high-then-low pair. */
  lemma PulseEndsAtNextInterrupt(s: seq<ServoRecord>, count: nat, timer: nat, c: int, levels: map<int, bool>)
    requires |s| == MAX_SERVOS && timer < NBR_TIMERS && GAP <= c < SERVOS_PER_TIMER
    ensures var n := NextCursor(timer, c, count);
            RaisedPin(s, timer, n).Some? ==>
              var p := RaisedPin(s, timer, n).value;
              var afterRaise := Drive(Drive(levels, LoweredPin(s, count, timer, c), false), RaisedPin(s, timer, n), true);
              var afterNext := Drive(Drive(afterRaise, LoweredPin(s, count, timer, n), false),
                                     RaisedPin(s, timer, NextCursor(timer, n, count)), true);
              && LoweredPin(s, count, timer, n) == Some(p)
              && p in afterRaise && afterRaise[p]
              && p in afterNext && (afterNext[p] <==> RaisedPin(s, timer, NextCursor(timer, n, count)) == Some(p))
  {
    var n := NextCursor(timer, c, count);
    if RaisedPin(s, timer, n).Some? {
      assert 0 <= n && ServoIndex(timer, n) < count;
      assert LoweredPin(s, count, timer, n) == RaisedPin(s, timer, n);
    }
  }

  /** The lowering test of the handler also requires the channel to be
      active, so a `detach()` that clears the flag between the interrupt that
      raised the pin and the next one leaves the pin HIGH: that interrupt
      lowers nothing, and no later interrupt lowers it on this channel's behalf. */
  lemma DetachMidPulseLeavesPinHigh(s: seq<ServoRecord>, count: nat, timer: nat, c: int, levels: map<int, bool>)
    requires |s| == MAX_SERVOS && timer < NBR_TIMERS && GAP <= c < SERVOS_PER_TIMER
    requires NextCursor(timer, c, count) != GAP
    requires s[ServoIndex(timer, NextCursor(timer, c, count))].isActive
    ensures var n := NextCursor(timer, c, count);
            var p := s[ServoIndex(timer, n)].pin;
            var s' := s[ServoIndex(timer, n) := s[ServoIndex(timer, n)].(isActive := false)];
            var afterRaise := Drive(Drive(levels, LoweredPin(s, count, timer, c), false), RaisedPin(s, timer, n), true);
            var afterNext := Drive(Drive(afterRaise, LoweredPin(s', count, timer, n), false),
                                   RaisedPin(s', timer, NextCursor(timer, n, count)), true);
            && RaisedPin(s, timer, n) == Some(p)
            && LoweredPin(s', count, timer, n) == None
            && p in afterNext && afterNext[p]
            && (forall k :: GAP <= k < SERVOS_PER_TIMER && LoweredPin(s', count, timer, k) == Some(p) ==> k != n)
  {
    var n := NextCursor(timer, c, count);
    var p := s[ServoIndex(timer, n)].pin;
    var s' := s[ServoIndex(timer, n) := s[ServoIndex(timer, n)].(isActive := false)];
    var afterRaise := Drive(Drive(levels, LoweredPin(s, count, timer, c), false), RaisedPin(s, timer, n), true);
    assert p in afterRaise && afterRaise[p];
    assert LoweredPin(s', count, timer, n) == None;
  }

  class ServoSystem {
    const clock: nat                        // clockCyclesPerMicrosecond()
    const servos: array<ServoRecord>        // servos[MAX_SERVOS]
    var servoCount: nat                     // ServoCount
    const currentServoIndex: array<int>     // per-timer cursor, GAP between cycles
    var ccmp: int                           // the timer's compare register CCMP
    const isrEnabled: array<bool>           // per-timer interrupt enable (initISR / finISR)
    var pinLevel: map<int, bool>            // level last written to each pin, true = HIGH
    var outputPins: set<int>                // pins put in OUTPUT mode
    const initSeq: array<SequencePoint>     // initSeq[], every new servo's starting sequence

    ghost predicate Valid()
      reads this, servos, currentServoIndex, isrEnabled
    {
      && clock >= 16
      && servos.Length == MAX_SERVOS
      && currentServoIndex.Length == NBR_TIMERS
      && isrEnabled.Length == NBR_TIMERS
      && servoCount <= MAX_SERVOS
      && 0 <= ccmp < 0x1_0000
      && (forall t :: 0 <= t < NBR_TIMERS ==> GAP <= currentServoIndex[t] < SERVOS_PER_TIMER)
      // a slot becomes active only once it has been handed out
      && (forall i :: servoCount <= i < MAX_SERVOS ==> !servos[i].isActive)
      // a timer's interrupt is enabled exactly while one of its channels is active
      && (forall t :: 0 <= t < NBR_TIMERS ==> isrEnabled[t] == TimerActive(servos[..], t))
    }

    /** The static initial state: an empty table, `ServoCount` 0, and the
        cursors zero-initialised (not GAP). */
    constructor (clockCyclesPerMicrosecond: nat)
      requires clockCyclesPerMicrosecond >= 16
      ensures Valid()
      ensures fresh(servos) && fresh(currentServoIndex) && fresh(isrEnabled) && fresh(initSeq)
      ensures clock == clockCyclesPerMicrosecond && servoCount == 0
      ensures servos[..] == seq(MAX_SERVOS, _ => BlankRecord)
      ensures currentServoIndex[..] == seq(NBR_TIMERS, _ => 0)
      ensures isrEnabled[..] == seq(NBR_TIMERS, _ => false)
      ensures ccmp == 0 && pinLevel == map[] && outputPins == {}
      ensures initSeq[..] == [SequencePoint(0, 100), SequencePoint(45, 100)]
    {
      clock := clockCyclesPerMicrosecond;
      servos := new ServoRecord[MAX_SERVOS](_ => BlankRecord);
      servoCount := 0;
      currentServoIndex := new int[NBR_TIMERS](_ => 0);
      ccmp := 0;
      isrEnabled := new bool[NBR_TIMERS](_ => false);
      pinLevel := map[];
      outputPins := {};
      initSeq := new SequencePoint[2][SequencePoint(0, 100), SequencePoint(45, 100)];
    }

    /** `isTimerActive`: scans the timer's channels for an active one. */
    method IsTimerActive(timer: nat) returns (active: bool)
      requires servos.Length == MAX_SERVOS && timer < NBR_TIMERS
      ensures active == TimerActive(servos[..], timer)
    {
      var channel := 0;
      while channel < SERVOS_PER_TIMER
        invariant 0 <= channel <= SERVOS_PER_TIMER
        invariant forall c :: 0 <= c < channel ==> !servos[ServoIndex(timer, c)].isActive
      {
        if servos[ServoIndex(timer, channel)].isActive {
          return true;
        }
        channel := channel + 1;
      }
      return false;
    }

    /** `initISR`: programs and enables the timer's interrupt. It is only
        ever run on an idle timer: re-programming an armed one would disturb
        the pulses in flight. */
    method InitIsr(timer: nat)
      requires isrEnabled.Length == NBR_TIMERS && timer < NBR_TIMERS
      requires !isrEnabled[timer]
      modifies isrEnabled
      ensures isrEnabled[..] == old(isrEnabled[..])[timer := true]
    {
      isrEnabled[timer] := true;
    }

    /** `finISR`: disables the timer's interrupt. */
    method FinIsr(timer: nat)
      requires isrEnabled.Length == NBR_TIMERS && timer < NBR_TIMERS
      modifies isrEnabled
      ensures isrEnabled[..] == old(isrEnabled[..])[timer := false]
    {
      isrEnabled[timer] := false;
    }

    /** `ServoHandler(timer)`, run on each compare interrupt: end the pulse of
        the current channel, select the next one, start its pulse and load its
        width; after the last channel, load the refresh gap and park the
        cursor on GAP. The compare value of a channel is its ticks counted
        from 0, because the counter reading is hard-coded to 0 (line 129). */
    method ServoHandler(timer: nat)
      requires Valid() && timer < NBR_TIMERS
      modifies this`ccmp, this`pinLevel, currentServoIndex
      ensures Valid()
      ensures currentServoIndex[..] ==
                old(currentServoIndex[..])[timer := NextCursor(timer, old(currentServoIndex[timer]), servoCount)]
      ensures currentServoIndex[timer] != GAP ==>
                ccmp == U16(servos[ServoIndex(timer, currentServoIndex[timer])].ticks)
      ensures currentServoIndex[timer] == GAP ==>
                ccmp == RefreshCompare(if old(currentServoIndex[timer]) == GAP then 0 else old(ccmp), clock)
      ensures pinLevel ==
                Drive(Drive(old(pinLevel), LoweredPin(servos[..], servoCount, timer, old(currentServoIndex[timer])), false),
                      RaisedPin(servos[..], timer, currentServoIndex[timer]), true)
    {
      var c := currentServoIndex[timer];
      if c < 0 {
        ccmp := 0;
      } else if ServoIndex(timer, c) < servoCount && servos[ServoIndex(timer, c)].isActive {
        pinLevel := pinLevel[servos[ServoIndex(timer, c)].pin := false];
      }

      c := c + 1;
      currentServoIndex[timer] := c;

      if ServoIndex(timer, c) < servoCount && c < SERVOS_PER_TIMER {
        var s := servos[ServoIndex(timer, c)];
        if s.isActive {
          pinLevel := pinLevel[s.pin := true];
        }
        var tcCounterValue := 0;
        ccmp := U16(tcCounterValue + s.ticks);
      } else {
        var tcCounterValue := ccmp;
        if tcCounterValue + 4 < UsToTicks(REFRESH_INTERVAL, clock) {
          ccmp := U16(UsToTicks(REFRESH_INTERVAL, clock));
        } else {
          ccmp := U16(tcCounterValue + 4);
        }
        currentServoIndex[timer] := GAP;
      }
    }
  }
}
