/** Sessions and instants of the exchange clock. */
module Clock {

  /** A session by its day ordinal. */
  type Session = int

  /** An instant in seconds. */
  type Time = int

  const DAY: int := 86400

  /** The instant at an hour of a session's day. */
  function MarketTime(session: Session, hour: int): (t: Time)
    ensures t - 3600 * hour == 86400 * session
  {
    session * DAY + hour * 3600
  }

  /** The session on whose day an instant falls. */
  function SessionOf(t: Time): (s: Session)
    ensures 86400 * s <= t < 86400 * s + 86400
  {
    t / DAY
  }

  lemma {:induction false} SessionMonotone(a: Time, b: Time)
    requires a <= b
    ensures SessionOf(a) <= SessionOf(b)
  {
  }
}
