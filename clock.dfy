/**
 The wall-clock stopwatch `MovieGl` keeps in `mUpdateTimer` (a Cinder timer).
 Its reading is `now - origin` while it runs and is frozen at
 `stoppedAt - origin` while it is stopped; `Start(offset, now)` makes the
 reading continue from `offset`. The wall clock itself (`now`) is a parameter.
 */
module Clock {

  datatype Timer = Timer(running: bool, origin: real, stoppedAt: real) {

    /** `getSeconds()` at wall time `now`. */
    function Seconds(now: real): real {
      if running then now - origin else stoppedAt - origin
    }

    /** `start(offset)` at wall time `now`: the timer runs and reads `offset` now. */
    function Start(offset: real, now: real): (t: Timer)
      ensures t.running
      ensures t.Seconds(now) == offset
      ensures forall later :: t.Seconds(later) == offset + (later - now)
    {
      Timer(true, now - offset, stoppedAt)
    }

    /** `stop()` at wall time `now`: the reading is frozen at what it was. */
    function Stop(now: real): (t: Timer)
      ensures !t.running
      ensures forall later :: t.Seconds(later) == Seconds(now)
    {
      if running then Timer(false, origin, now) else this
    }
  }

  /** A timer that has never been started reads zero. */
  const Idle: Timer := Timer(false, 0.0, 0.0)
}
