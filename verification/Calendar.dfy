/** src/swingdash/domain/calendar.py: trading sessions, and which one is live. Moments are seconds, in IST. */
module Calendar {
  import opened Wrappers
  import opened Dates

  const MAX_LOOKBACK_DAYS := 10

  datatype Session = Session(date: int, openAt: int, closeAt: int)

  /** Whole minutes of the session. */
  function Minutes(s: Session): (minutes: int)
    ensures 60 * minutes <= s.closeAt - s.openAt < 60 * (minutes + 1)
  {
    (s.closeAt - s.openAt) / 60
  }

  /** Which minute a moment falls in: none before the open, and the last one takes everything after the close. */
  function MinuteOf(s: Session, moment: int): Option<int> {
    if moment < s.openAt then None
    else
      var index := (moment - s.openAt) / 60;
      if index >= Minutes(s) then Some(Minutes(s) - 1) else Some(index)
  }

  /** In a session of a minute or more, minute `m` starts `m` minutes after the open, and the last one never ends. */
  lemma MinuteOfExact(s: Session, moment: int, m: int)
    requires Minutes(s) >= 1
    ensures MinuteOf(s, moment) == Some(m) <==>
      && 0 <= m < Minutes(s)
      && s.openAt + 60 * m <= moment
      && (m < Minutes(s) - 1 ==> moment < s.openAt + 60 * (m + 1))
    ensures MinuteOf(s, moment).None? <==> moment < s.openAt
  {}

  /** Time never moves the index back. */
  lemma MinuteOfMonotone(s: Session, a: int, b: int)
    requires a <= b && MinuteOf(s, a).Some?
    ensures MinuteOf(s, b).Some? && MinuteOf(s, a).value <= MinuteOf(s, b).value
  {}

  /** The latest session opened by `now`, searching back ten days. */
  method ActiveSession(now: int, sessionFor: int -> Option<Session>) returns (active: Option<Session>)
    ensures
      var today := now / 86400;
      match active
      case Some(s) =>
        exists day :: today - 10 < day <= today && sessionFor(day) == Some(s) && s.openAt <= now
          && forall later :: day < later <= today && sessionFor(later).Some? ==> now < sessionFor(later).value.openAt
      case None =>
        forall day :: today - 10 < day <= today && sessionFor(day).Some? ==> now < sessionFor(day).value.openAt
  {
    var today := now / SECONDS_PER_DAY;
    var day := today;
    for i := 0 to MAX_LOOKBACK_DAYS
      invariant day == today - i
      invariant forall later :: day < later <= today && sessionFor(later).Some? ==> now < sessionFor(later).value.openAt
    {
      var session := sessionFor(day);
      if session.Some? && session.value.openAt <= now {
        return session;
      }
      day := day - 1;
    }
    active := None;
  }
}
