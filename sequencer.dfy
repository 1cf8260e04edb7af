/** The waypoint cursor of `sequencePlay`: when it advances, where it goes
    past the last waypoint, and when a new waypoint is written. */
module Sequencer {
  import opened CArith

  const CURRENT_SEQUENCE_STOP: int := 255

  type UInt8 = x: int | 0 <= x < 256

  /** `servoSequencePoint`: a target (angle or microseconds) and the speed to reach it. */
  datatype SequencePoint = SequencePoint(position: UInt8, speed: UInt8)

  /** A cursor value `sequencePlay` can hold for a sequence of n waypoints. */
  predicate CursorFor(pos: int, n: int)
  {
    pos == CURRENT_SEQUENCE_STOP || 0 <= pos < n
  }

  /** One advance (lines 387-395): the next waypoint, or past the end either
      back to 0 (loop) or to STOP; STOP itself never advances. */
  function Advance(pos: int, n: int, loop: bool): (r: int)
    requires 0 < n <= 255 && CursorFor(pos, n)
    ensures CursorFor(r, n)
    ensures pos == CURRENT_SEQUENCE_STOP ==> r == CURRENT_SEQUENCE_STOP
    ensures pos != CURRENT_SEQUENCE_STOP && pos + 1 < n ==> r == pos + 1
    ensures pos != CURRENT_SEQUENCE_STOP && pos + 1 == n ==> r == (if loop then 0 else CURRENT_SEQUENCE_STOP)
  {
    if pos == CURRENT_SEQUENCE_STOP then pos
    else if pos + 1 >= n then (if loop then 0 else CURRENT_SEQUENCE_STOP)
    else pos + 1
  }

  /** The cursor after one call of `sequencePlay` whose cursor was `p0` on
      entry (after the new-sequence reset) and whose servo reads `degrees`:
      it moves only when playback is not stopped and the servo stands on the
      current waypoint's position. */
  function PlayCursor(p0: int, degrees: int, points: seq<SequencePoint>, n: int, loop: bool): (r: int)
    requires 0 < n <= |points| && n <= 255 && CursorFor(p0, n)
    ensures CursorFor(r, n)
    ensures r != p0 ==> p0 != CURRENT_SEQUENCE_STOP && degrees == points[p0].position
    ensures p0 != CURRENT_SEQUENCE_STOP && degrees == points[p0].position ==> r == Advance(p0, n, loop)
  {
    if p0 != CURRENT_SEQUENCE_STOP && degrees == points[p0].position then Advance(p0, n, loop) else p0
  }

  /** Whether the call writes the waypoint at the new cursor (line 398): the
      cursor differs from its value on entry, where a new sequence counts as
      entry value 255, and playback is not stopped. */
  function PlayWrites(oldMarker: int, r: int): (w: bool)
    ensures w ==> r != CURRENT_SEQUENCE_STOP
    ensures oldMarker == CURRENT_SEQUENCE_STOP ==> (w <==> r != CURRENT_SEQUENCE_STOP)
  {
    r != oldMarker && r != CURRENT_SEQUENCE_STOP
  }

  /** The cursor after k advances. */
  function AdvanceTimes(pos: int, n: int, loop: bool, k: nat): (r: int)
    requires 0 < n <= 255 && CursorFor(pos, n)
    ensures CursorFor(r, n)
    decreases k
  {
    if k == 0 then pos else AdvanceTimes(Advance(pos, n, loop), n, loop, k - 1)
  }

  lemma {:induction false} AdvanceTimesStep(pos: int, n: int, loop: bool, k: nat)
    requires 0 < n <= 255 && CursorFor(pos, n)
    ensures AdvanceTimes(pos, n, loop, k + 1) == Advance(AdvanceTimes(pos, n, loop, k), n, loop)
    decreases k
  {
    if k > 0 {
      AdvanceTimesStep(Advance(pos, n, loop), n, loop, k - 1);
    }
  }

  /** Without looping, k advances from `start` reach start + k while that is a
      waypoint, and STOP from then on: exactly n - start advances end playback. */
  lemma {:induction false} OneShotPlayback(start: int, n: int, k: nat)
    requires 0 <= start < n <= 255
    ensures AdvanceTimes(start, n, false, k) == if start + k < n then start + k else CURRENT_SEQUENCE_STOP
  {
    if k > 0 {
      OneShotPlayback(start, n, k - 1);
      AdvanceTimesStep(start, n, false, k - 1);
    }
  }

  /** With looping, k advances from `start` visit every waypoint in order and
      wrap around: the cursor is (start + k) mod n, and never STOP. */
  lemma {:induction false} LoopedPlayback(start: int, n: int, k: nat)
    requires 0 <= start < n <= 255
    ensures AdvanceTimes(start, n, true, k) == (start + k) % n
  {
    if k > 0 {
      var m := start + k - 1;
      LoopedPlayback(start, n, k - 1);
      AdvanceTimesStep(start, n, true, k - 1);
      ModSuccessor(m, n);
      var p := AdvanceTimes(start, n, true, k - 1);
      assert p == m % n && p != CURRENT_SEQUENCE_STOP;
      assert Advance(p, n, true) == if p + 1 < n then p + 1 else 0;
    }
  }

  lemma ModSuccessor(m: nat, n: int)
    requires n > 0
    ensures (m + 1) % n == if m % n + 1 < n then m % n + 1 else 0
  {
    var q, p := m / n, m % n;
    assert m == q * n + p;
    if p + 1 < n {
      DivModUnique(m + 1, n, q, p + 1);
    } else {
      assert m + 1 == (q + 1) * n;
      DivModUnique(m + 1, n, q + 1, 0);
    }
  }

  /** The two-waypoint sequence every new servo holds, played with looping:
      waypoint 0 moves on to 1 once the servo reads 0 degrees, 1 moves back
      to 0 once it reads 45, and the cursor stays put while the servo reads
      anything else. */
  lemma InitialSequenceCycles(degrees: int)
    ensures var points := [SequencePoint(0, 100), SequencePoint(45, 100)];
            && PlayCursor(0, 0, points, 2, true) == 1
            && PlayCursor(1, 45, points, 2, true) == 0
            && (degrees != 0 ==> PlayCursor(0, degrees, points, 2, true) == 0)
            && (degrees != 45 ==> PlayCursor(1, degrees, points, 2, true) == 1)
  {
  }

  /** Once stopped, playback stays stopped. */
  lemma {:induction false} StopIsFinal(n: int, loop: bool, k: nat)
    requires 0 < n <= 255
    ensures AdvanceTimes(CURRENT_SEQUENCE_STOP, n, loop, k) == CURRENT_SEQUENCE_STOP
  {
    if k > 0 {
      StopIsFinal(n, loop, k - 1);
    }
  }
}
