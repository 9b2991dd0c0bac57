/** Points in time, in nanoseconds since Go's zero time, and the text they are
    stored as.
  */
module Clock {
  import opened Text

  type Time = nat
  type Duration = nat

  const SECOND: Duration := 1_000_000_000
  const ZERO: Time := 0

  predicate IsZero(t: Time) { t == ZERO }

  /** A timestamp as text keeps whole seconds only (section 5.6 of RFC 3339, without
      a fraction); the calendar is replaced by the number of seconds. */
  function Format(t: Time): string {
    Decimal(t / SECOND)
  }

  function Parse(s: string): Option<Time> {
    match ParseDecimal(s)
    case None => None
    case Some(seconds) => Some(seconds * SECOND)
  }

  function Truncate(t: Time): (r: Time)
    ensures r <= t < r + SECOND
  {
    t / SECOND * SECOND
  }

  lemma FormatKeepsSeconds(t: Time)
    ensures Parse(Format(t)) == Some(Truncate(t))
  {
    DecimalRoundTrip(t / SECOND);
  }
}
