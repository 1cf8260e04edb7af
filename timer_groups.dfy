/** How servo indices are grouped onto hardware timers, and the pure part of
    the pulse scheduler: where a timer's channel cursor goes next and what the
    compare register is loaded with for the refresh gap. */
module TimerGroups {
  import opened CArith
  import opened ServoMath

  const SERVOS_PER_TIMER: int := 12
  const NBR_TIMERS: int := 1                           // _Nbr_16timers
  const MAX_SERVOS: int := NBR_TIMERS * SERVOS_PER_TIMER
  const INVALID_SERVO: int := 255
  const GAP: int := -1                                 // cursor value for "in the refresh gap"

  /** `SERVO_INDEX_TO_TIMER`: the timer whose block of SERVOS_PER_TIMER
      consecutive indices holds `index`. */
  function TimerOf(index: nat): (timer: nat)
    ensures timer * SERVOS_PER_TIMER <= index < timer * SERVOS_PER_TIMER + SERVOS_PER_TIMER
  {
    index / SERVOS_PER_TIMER
  }

  /** `SERVO_INDEX_TO_CHANNEL`: the position of `index` inside its timer's block. */
  function ChannelOf(index: nat): (channel: nat)
    ensures channel < SERVOS_PER_TIMER
    ensures (index - channel) % SERVOS_PER_TIMER == 0
  {
    index % SERVOS_PER_TIMER
  }

  /** `SERVO_INDEX(timer, channel)`: a valid channel's index lies in its
      timer's block, and the quotient and remainder by SERVOS_PER_TIMER give
      the pair back. */
  function ServoIndex(timer: int, channel: int): (index: int)
    ensures 0 <= channel < SERVOS_PER_TIMER ==>
              index / SERVOS_PER_TIMER == timer && index % SERVOS_PER_TIMER == channel
  {
    timer * SERVOS_PER_TIMER + channel
  }

  /** Every table index lies on exactly one (timer, channel) pair, and the
      pair gives the index back. */
  lemma IndexSplits(index: nat)
    requires index < MAX_SERVOS
    ensures TimerOf(index) < NBR_TIMERS && ChannelOf(index) < SERVOS_PER_TIMER
    ensures ServoIndex(TimerOf(index), ChannelOf(index)) == index
  {
  }

  lemma SlotJoins(timer: nat, channel: nat)
    requires channel < SERVOS_PER_TIMER
    ensures TimerOf(ServoIndex(timer, channel)) == timer && ChannelOf(ServoIndex(timer, channel)) == channel
  {
  }

  /** Number of registered servos that fall on `timer` when `count` are registered. */
  function ChannelsOnTimer(timer: nat, count: nat): (n: nat)
    ensures n <= SERVOS_PER_TIMER
    ensures forall c :: 0 <= c < SERVOS_PER_TIMER ==> (c < n <==> ServoIndex(timer, c) < count)
  {
    if count <= timer * SERVOS_PER_TIMER then 0
    else if count - timer * SERVOS_PER_TIMER < SERVOS_PER_TIMER then count - timer * SERVOS_PER_TIMER
    else SERVOS_PER_TIMER
  }

  /** The cursor after one handler call (lines 121-123 and 145): step to the
      next channel while it is registered and on this timer, otherwise enter
      the refresh gap. */
  function NextCursor(timer: nat, c: int, count: nat): (n: int)
    requires GAP <= c
    ensures n == GAP || (0 <= n < SERVOS_PER_TIMER && n == c + 1 && ServoIndex(timer, n) < count)
    ensures n == GAP ==> c + 1 >= SERVOS_PER_TIMER || ServoIndex(timer, c + 1) >= count
  {
    if ServoIndex(timer, c + 1) < count && c + 1 < SERVOS_PER_TIMER then c + 1 else GAP
  }

  /** The cursor after k successive handler calls. */
  function CursorAfter(timer: nat, count: nat, c: int, k: nat): int
    requires GAP <= c
    decreases k
  {
    if k == 0 then c else CursorAfter(timer, count, NextCursor(timer, c, count), k - 1)
  }

  lemma {:induction false} CursorAfterStep(timer: nat, count: nat, c: int, k: nat)
    requires GAP <= c
    ensures GAP <= CursorAfter(timer, count, c, k)
    ensures CursorAfter(timer, count, c, k + 1) == NextCursor(timer, CursorAfter(timer, count, c, k), count)
    decreases k
  {
    if k > 0 {
      CursorAfterStep(timer, count, NextCursor(timer, c, count), k - 1);
    }
  }

  /** From the refresh gap, the j-th call selects channel j - 1: the timer's
      registered channels are visited once each, in order. */
  lemma {:induction false} CycleVisitsChannelsInOrder(timer: nat, count: nat, j: nat)
    requires j <= ChannelsOnTimer(timer, count)
    ensures CursorAfter(timer, count, GAP, j) == j - 1
  {
    if j > 0 {
      CycleVisitsChannelsInOrder(timer, count, j - 1);
      CursorAfterStep(timer, count, GAP, j - 1);
    }
  }

  /** After the last registered channel the next call returns to the gap, so
      one cycle from the gap is exactly ChannelsOnTimer + 1 calls long. */
  lemma CycleReturnsToGap(timer: nat, count: nat)
    ensures CursorAfter(timer, count, GAP, ChannelsOnTimer(timer, count) + 1) == GAP
  {
    var n := ChannelsOnTimer(timer, count);
    CycleVisitsChannelsInOrder(timer, count, n);
    CursorAfterStep(timer, count, GAP, n);
  }

  /** The cursor never leaves {GAP} + [0, SERVOS_PER_TIMER), whatever it started at. */
  lemma {:induction false} CursorStaysInRange(timer: nat, count: nat, c: int, k: nat)
    requires GAP <= c && k > 0
    ensures GAP <= CursorAfter(timer, count, c, k) < SERVOS_PER_TIMER
    decreases k
  {
    if k > 1 {
      CursorStaysInRange(timer, count, NextCursor(timer, c, count), k - 1);
    }
  }

  /** The compare value loaded for the refresh gap (lines 136-143), from the
      value `tc` left in the register by the last channel: the refresh period
      `usToTicks(16000)`, or tc + 4 when that is already later, cast to 16 bits.
      Without 16-bit overflow it is the larger of the two. */
  function RefreshCompare(tc: int, clock: nat): (r: int)
    ensures 0 <= r < 0x1_0000
    ensures 0 <= tc && tc + 4 < 0x1_0000 && UsToTicks(REFRESH_INTERVAL, clock) < 0x1_0000 ==>
              r >= UsToTicks(REFRESH_INTERVAL, clock) && r >= tc + 4 &&
              (r == UsToTicks(REFRESH_INTERVAL, clock) || r == tc + 4)
  {
    var refresh := UsToTicks(REFRESH_INTERVAL, clock);
    if tc + 4 < refresh then U16(refresh) else U16(tc + 4)
  }

  /** At 16 MHz the gap is 4000 ticks (16000 us at 4 us per tick) unless
      the last channel's compare value was 3996 or more. */
  lemma RefreshAt16(tc: int)
    requires 0 <= tc < 3996
    ensures RefreshCompare(tc, 16) == 4000
  {
    assert UsToTicks(REFRESH_INTERVAL, 16) == 4000;
  }
}
