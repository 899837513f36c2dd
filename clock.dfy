/**
 * Go's time.Time, reduced to what the task core uses: an instant and the
 * location it is displayed in. The instant is counted from Go's zero time
 * (January 1, year 1, 00:00:00 UTC), so `IsZero` is "the instant is 0", and
 * `UTC` keeps the instant and switches the location to UTC.
 */
module Clock {

  datatype Time = Time(sinceZero: int, offset: int)

  predicate IsZero(t: Time) {
    t.sinceZero == 0
  }

  predicate IsUtc(t: Time) {
    t.offset == 0
  }

  /** time.Time.Equal: the same instant, whatever the locations. */
  predicate Equal(t: Time, u: Time) {
    t.sinceZero == u.sinceZero
  }

  function UTC(t: Time): (u: Time)
    ensures Equal(u, t) && IsUtc(u)
    ensures IsZero(u) <==> IsZero(t)
    ensures IsUtc(t) ==> u == t
  {
    Time(t.sinceZero, 0)
  }
}
