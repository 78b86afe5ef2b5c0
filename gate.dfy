/**
 * The clock gate of the main loop: the hours [IdleStartHour, IdleEndHour) of a day
 * are the idle window, during which nothing is captured; the controller listens
 * at every other hour.
 */
module Gate {

  /** First idle hour (inclusive). */
  const IdleStartHour: nat := 1
  /** First listening hour after the idle window (the window's exclusive end). */
  const IdleEndHour: nat := 18
  /** Hours on a clock face, as the local-time hour reports them (0 to 23). */
  const HoursPerDay: nat := 24

  /** True when the loop must tear down its handles and back off at this hour. */
  predicate IsIdle(hour: nat)
  {
    hour >= IdleStartHour && hour < IdleEndHour
  }

  /** The boundaries of the window: its first hour is idle, its end is not. */
  lemma GateBoundaries()
    ensures IsIdle(IdleStartHour) && !IsIdle(IdleStartHour - 1)
    ensures IsIdle(IdleEndHour - 1) && !IsIdle(IdleEndHour)
    ensures IsIdle(1) && IsIdle(17) && !IsIdle(0) && !IsIdle(18)
  {
  }

  /** Over one day, the controller listens exactly at midnight and from 18:00 to 23:59. */
  lemma ListeningHours()
    ensures (set h: nat | h < HoursPerDay && !IsIdle(h)) == {0, 18, 19, 20, 21, 22, 23}
    ensures (set h: nat | h < HoursPerDay && IsIdle(h)) == {1, 2, 3, 4, 5, 6, 7, 8, 9, 10, 11, 12, 13, 14, 15, 16, 17}
  {
  }
}
