/**
 * `RateLimiter` of src/swingdash/adapters/upstox/client.py: several sliding windows and a global
 * pause shared by threads. `Attempt` is one turn of `acquire` under the lock.
 */
module RateLimiter {
  import opened Wrappers

  /** At most `limit` grants in any `seconds`. */
  datatype Window = Window(limit: pos, seconds: real, stamps: seq<real>)

  // --- what a limiter is for ------------------------------------------------------------

  ghost predicate Monotone(grants: seq<real>) {
    forall i, j :: 0 <= i < j < |grants| ==> grants[i] <= grants[j]
  }

  /** Grant number i + limit comes at least `seconds` after grant number i, over the whole history. */
  ghost predicate Spaced(grants: seq<real>, limit: pos, seconds: real) {
    forall i :: 0 <= i && i + limit < |grants| ==> grants[i + limit] >= grants[i] + seconds
  }

  /** One more grant at `t` would keep the window's bound. */
  ghost predicate Fits(grants: seq<real>, limit: pos, seconds: real, t: real) {
    |grants| >= limit ==> t >= grants[|grants| - limit] + seconds
  }

  /** A grant at `t` is allowed by every window and the pause. */
  ghost predicate Legal(grants: seq<real>, windows: seq<Window>, pausedUntil: Option<real>, t: real) {
    && (pausedUntil.Some? ==> t >= pausedUntil.value)
    && forall k :: 0 <= k < |windows| ==> Fits(grants, windows[k].limit, windows[k].seconds, t)
  }

  /** The deque is the recent end of the history, at most `limit` long, and what it forgot is too old to matter. */
  ghost predicate Tracks(w: Window, grants: seq<real>, last: Option<real>) {
    && |w.stamps| <= w.limit && |w.stamps| <= |grants|
    && w.stamps == grants[|grants| - |w.stamps|..]
    && (forall i :: 0 <= i < |grants| - |w.stamps| ==> last.Some? && grants[i] + w.seconds <= last.value)
    && Spaced(grants, w.limit, w.seconds)
  }

  // --- one attempt ------------------------------------------------------------------------

  /** Stamps no later than the bound leave the front of the deque. */
  function Purged(stamps: seq<real>, bound: real): seq<real> {
    if stamps != [] && stamps[0] <= bound then Purged(stamps[1..], bound) else stamps
  }

  lemma {:induction false} PurgedSuffix(stamps: seq<real>, bound: real)
    ensures var rest := Purged(stamps, bound);
      && |rest| <= |stamps| && rest == stamps[|stamps| - |rest|..]
      && (forall i :: 0 <= i < |stamps| - |rest| ==> stamps[i] <= bound)
      && (rest != [] ==> rest[0] > bound)
  {
    if stamps != [] && stamps[0] <= bound {
      PurgedSuffix(stamps[1..], bound);
      var rest := Purged(stamps, bound);
      forall i | 0 <= i < |stamps| - |rest| ensures stamps[i] <= bound {
        assert i > 0 ==> stamps[i] == stamps[1..][i - 1];
      }
    }
  }

  lemma PurgeTracks(w: Window, grants: seq<real>, last: Option<real>, now: real)
    requires Tracks(w, grants, last) && (last.Some? ==> last.value <= now)
    ensures Tracks(w.(stamps := Purged(w.stamps, now - w.seconds)), grants, Some(now))
  {
    PurgedSuffix(w.stamps, now - w.seconds);
    var rest := Purged(w.stamps, now - w.seconds);
    forall i | 0 <= i < |grants| - |rest| ensures grants[i] + w.seconds <= now {
      if i >= |grants| - |w.stamps| {
        assert grants[i] == w.stamps[i - (|grants| - |w.stamps|)];
      }
    }
  }

  /** How long this window alone makes a caller wait. */
  function WindowWait(w: Window, now: real): Option<real> {
    if |w.stamps| >= w.limit then Some(w.stamps[0] + w.seconds - now) else None
  }

  /** A full window is free again exactly when its wait is over; one that is not full is free at once. */
  lemma WaitIsExact(w: Window, grants: seq<real>, now: real, t: real)
    requires Tracks(w, grants, Some(now)) && t >= now
    ensures Fits(grants, w.limit, w.seconds, t) <==> WindowWait(w, now).None? || t >= now + WindowWait(w, now).value
  {
    if |w.stamps| == w.limit {
      assert w.stamps[0] == grants[|grants| - w.limit];
    } else if |grants| >= w.limit {
      assert grants[|grants| - w.limit] + w.seconds <= now;
    }
  }

  lemma GrantTracks(w: Window, grants: seq<real>, now: real)
    requires Tracks(w, grants, Some(now)) && Fits(grants, w.limit, w.seconds, now)
    requires |w.stamps| < w.limit
    ensures Tracks(w.(stamps := w.stamps + [now]), grants + [now], Some(now))
  {
    var more := grants + [now];
    assert more[|more| - |w.stamps + [now]|..] == w.stamps + [now];
  }

  // --- a limiter as a value ------------------------------------------------------------------

  /** The fields, with the grants so far and the last clock reading taken under the lock. */
  datatype Limiter = Limiter(windows: seq<Window>, pausedUntil: Option<real>, grants: seq<real>, last: Option<real>)

  ghost predicate Valid(l: Limiter) {
    && Monotone(l.grants)
    && (l.grants != [] ==> l.last.Some? && l.grants[|l.grants| - 1] <= l.last.value)
    && forall k :: 0 <= k < |l.windows| ==> Tracks(l.windows[k], l.grants, l.last)
  }

  ghost predicate NotBefore(l: Limiter, now: real) {
    l.last.Some? ==> l.last.value <= now
  }

  function PurgedWindow(w: Window, now: real): Window {
    w.(stamps := Purged(w.stamps, now - w.seconds))
  }

  function PurgedWindows(windows: seq<Window>, now: real): seq<Window> {
    seq(|windows|, k requires 0 <= k < |windows| => PurgedWindow(windows[k], now))
  }

  function Longer(a: Option<real>, b: Option<real>): Option<real> {
    if b.Some? && (a.None? || b.value > a.value) then b else a
  }

  /** `wait`: what is left of the pause, or the longest any window asks for. */
  function LongestWait(windows: seq<Window>, pause: Option<real>, now: real): Option<real> {
    if windows == [] then pause
    else Longer(LongestWait(windows[..|windows| - 1], pause, now), WindowWait(windows[|windows| - 1], now))
  }

  function PauseLeft(pausedUntil: Option<real>, now: real): Option<real> {
    if pausedUntil.Some? then Some(pausedUntil.value - now) else None
  }

  function Granted(windows: seq<Window>, now: real): seq<Window> {
    seq(|windows|, k requires 0 <= k < |windows| => windows[k].(stamps := windows[k].stamps + [now]))
  }

  /** The wait, or None when the call is granted. */
  function AttemptWait(l: Limiter, now: real): Option<real> {
    var wait := LongestWait(PurgedWindows(l.windows, now), PauseLeft(l.pausedUntil, now), now);
    if wait.Some? && wait.value > 0.0 then wait else None
  }

  function AfterAttempt(l: Limiter, now: real): Limiter {
    var windows := PurgedWindows(l.windows, now);
    if AttemptWait(l, now).Some? then l.(windows := windows, last := Some(now))
    else l.(windows := Granted(windows, now), grants := l.grants + [now], last := Some(now))
  }

  function PausedUntil(pausedUntil: Option<real>, until: real): Option<real> {
    Some(if pausedUntil.Some? then MaxReal(pausedUntil.value, until) else until)
  }

  function AfterPause(l: Limiter, now: real, seconds: real): Limiter {
    l.(pausedUntil := PausedUntil(l.pausedUntil, now + seconds), last := Some(now))
  }

  ghost predicate SameBounds(a: seq<Window>, b: seq<Window>) {
    |a| == |b| && forall k :: 0 <= k < |a| ==> a[k].limit == b[k].limit && a[k].seconds == b[k].seconds
  }

  lemma LongestWaitSnoc(windows: seq<Window>, w: Window, pause: Option<real>, now: real)
    ensures LongestWait(windows + [w], pause, now) == Longer(LongestWait(windows, pause, now), WindowWait(w, now))
  {
    assert (windows + [w])[..|windows + [w]| - 1] == windows;
  }

  /** The windows halfway through the loop: the first `i` purged, the rest as they were. */
  function PartlyPurged(windows: seq<Window>, i: nat, now: real): seq<Window>
    requires i <= |windows|
  {
    PurgedWindows(windows[..i], now) + windows[i..]
  }

  lemma OneMorePurged(windows: seq<Window>, i: nat, now: real)
    requires i < |windows|
    ensures PartlyPurged(windows, i, now)[i] == windows[i]
    ensures PartlyPurged(windows, i, now)[i := PurgedWindow(windows[i], now)] == PartlyPurged(windows, i + 1, now)
    ensures PurgedWindows(windows[..i + 1], now) == PurgedWindows(windows[..i], now) + [PurgedWindow(windows[i], now)]
  {}

  lemma NonePurged(windows: seq<Window>, now: real)
    ensures PartlyPurged(windows, 0, now) == windows && PurgedWindows(windows[..0], now) == []
  {}

  lemma AllPurged(windows: seq<Window>, now: real)
    ensures PartlyPurged(windows, |windows|, now) == PurgedWindows(windows, now)
    ensures PurgedWindows(windows[..|windows|], now) == PurgedWindows(windows, now)
  {}

  lemma OneMoreWait(windows: seq<Window>, i: nat, pause: Option<real>, now: real)
    requires i < |windows|
    ensures LongestWait(PurgedWindows(windows[..i + 1], now), pause, now)
      == Longer(LongestWait(PurgedWindows(windows[..i], now), pause, now),
        WindowWait(PurgedWindow(windows[i], now), now))
    ensures |PartlyPurged(windows, i + 1, now)| == |windows|
  {
    OneMorePurged(windows, i, now);
    LongestWaitSnoc(PurgedWindows(windows[..i], now), PurgedWindow(windows[i], now), pause, now);
  }

  lemma {:induction false} LongestWaitExact(windows: seq<Window>, pausedUntil: Option<real>, grants: seq<real>,
      now: real, t: real)
    requires t >= now && forall k :: 0 <= k < |windows| ==> Tracks(windows[k], grants, Some(now))
    ensures var wait := LongestWait(windows, PauseLeft(pausedUntil, now), now);
      Legal(grants, windows, pausedUntil, t) <==> wait.None? || t >= now + wait.value
  {
    if windows != [] {
      var front, w := windows[..|windows| - 1], windows[|windows| - 1];
      LongestWaitExact(front, pausedUntil, grants, now, t);
      WaitIsExact(w, grants, now, t);
      assert Legal(grants, windows, pausedUntil, t) <==>
        Legal(grants, front, pausedUntil, t) && Fits(grants, w.limit, w.seconds, t);
    }
  }

  lemma PurgeKeeps(l: Limiter, now: real)
    requires Valid(l) && NotBefore(l, now)
    ensures Valid(l.(windows := PurgedWindows(l.windows, now), last := Some(now)))
    ensures SameBounds(PurgedWindows(l.windows, now), l.windows)
  {
    forall k | 0 <= k < |l.windows| ensures Tracks(PurgedWindow(l.windows[k], now), l.grants, Some(now)) {
      PurgeTracks(l.windows[k], l.grants, l.last, now);
    }
  }

  lemma LegalSameBounds(grants: seq<real>, a: seq<Window>, b: seq<Window>, pausedUntil: Option<real>, t: real)
    requires SameBounds(a, b)
    ensures Legal(grants, a, pausedUntil, t) <==> Legal(grants, b, pausedUntil, t)
  {}

  /**
   * A call is granted exactly when it is legal. Otherwise the wait is positive and exact: no moment
   * before it is legal and every moment from it on is, as long as no one else is granted or pauses.
   */
  lemma AttemptExact(l: Limiter, now: real, t: real)
    requires Valid(l) && NotBefore(l, now) && t >= now
    ensures AttemptWait(l, now).None? <==> Legal(l.grants, l.windows, l.pausedUntil, now)
    ensures AttemptWait(l, now).Some? ==> AttemptWait(l, now).value > 0.0
    ensures AttemptWait(l, now).Some? ==>
      (Legal(l.grants, l.windows, l.pausedUntil, t) <==> t >= now + AttemptWait(l, now).value)
  {
    var windows := PurgedWindows(l.windows, now);
    PurgeKeeps(l, now);
    LongestWaitExact(windows, l.pausedUntil, l.grants, now, now);
    LongestWaitExact(windows, l.pausedUntil, l.grants, now, t);
    LegalSameBounds(l.grants, windows, l.windows, l.pausedUntil, now);
    LegalSameBounds(l.grants, windows, l.windows, l.pausedUntil, t);
  }

  lemma {:induction false} NoWindowFull(windows: seq<Window>, pause: Option<real>, now: real, k: nat)
    requires k < |windows| && WindowWait(windows[k], now).Some?
    ensures LongestWait(windows, pause, now).Some? &&
      LongestWait(windows, pause, now).value >= WindowWait(windows[k], now).value
  {
    if k < |windows| - 1 {
      NoWindowFull(windows[..|windows| - 1], pause, now, k);
    }
  }

  /** A full purged window asks for a wait. */
  lemma FullWaits(w: Window, now: real)
    requires |PurgedWindow(w, now).stamps| >= w.limit
    ensures WindowWait(PurgedWindow(w, now), now).Some? && WindowWait(PurgedWindow(w, now), now).value > 0.0
  {
    PurgedSuffix(w.stamps, now - w.seconds);
  }

  /** When a call is granted, every purged window has room. */
  lemma RoomWhenGranted(l: Limiter, now: real, k: nat)
    requires AttemptWait(l, now).None? && k < |l.windows|
    ensures |PurgedWindow(l.windows[k], now).stamps| < l.windows[k].limit
  {
    if |PurgedWindow(l.windows[k], now).stamps| >= l.windows[k].limit {
      FullWaits(l.windows[k], now);
      NoWindowFull(PurgedWindows(l.windows, now), PauseLeft(l.pausedUntil, now), now, k);
    }
  }

  lemma MonotoneSnoc(grants: seq<real>, now: real)
    requires Monotone(grants) && (grants != [] ==> grants[|grants| - 1] <= now)
    ensures Monotone(grants + [now])
  {}

  lemma GrantFits(l: Limiter, now: real, k: nat)
    requires Valid(l) && NotBefore(l, now) && AttemptWait(l, now).None? && k < |l.windows|
    ensures Fits(l.grants, l.windows[k].limit, l.windows[k].seconds, now)
  {
    AttemptExact(l, now, now);
  }

  lemma GrantedWindow(w: Window, grants: seq<real>, last: Option<real>, now: real)
    requires Tracks(w, grants, last) && (last.Some? ==> last.value <= now)
    requires |PurgedWindow(w, now).stamps| < w.limit && Fits(grants, w.limit, w.seconds, now)
    ensures
      var purged := PurgedWindow(w, now);
      Tracks(purged.(stamps := purged.stamps + [now]), grants + [now], Some(now))
  {
    PurgeTracks(w, grants, last, now);
    GrantTracks(PurgedWindow(w, now), grants, now);
  }

  lemma GrantedWindowTracks(l: Limiter, now: real, k: nat)
    requires Valid(l) && NotBefore(l, now) && AttemptWait(l, now).None? && k < |l.windows|
    ensures Tracks(AfterAttempt(l, now).windows[k], l.grants + [now], Some(now))
  {
    RoomWhenGranted(l, now, k);
    GrantFits(l, now, k);
    GrantedWindow(l.windows[k], l.grants, l.last, now);
    var purged := PurgedWindow(l.windows[k], now);
    assert AfterAttempt(l, now).windows[k] == purged.(stamps := purged.stamps + [now]);
  }

  lemma GrantedKeeps(l: Limiter, now: real)
    requires Valid(l) && NotBefore(l, now) && AttemptWait(l, now).None?
    ensures Valid(AfterAttempt(l, now))
  {
    var after := AfterAttempt(l, now);
    MonotoneSnoc(l.grants, now);
    assert |after.windows| == |l.windows|;
    forall k | 0 <= k < |l.windows| ensures Tracks(after.windows[k], after.grants, after.last) {
      GrantedWindowTracks(l, now, k);
    }
  }

  lemma AttemptKeeps(l: Limiter, now: real)
    requires Valid(l) && NotBefore(l, now)
    ensures Valid(AfterAttempt(l, now)) && SameBounds(AfterAttempt(l, now).windows, l.windows)
  {
    PurgeKeeps(l, now);
    if AttemptWait(l, now).None? {
      GrantedKeeps(l, now);
    }
  }

  // --- any run of any number of threads ---------------------------------------------------------

  /** What a thread does under the lock, with the clock reading it takes there. */
  datatype Event = Attempt(now: real) | Pause(now: real, seconds: real)

  function After(l: Limiter, e: Event): Limiter {
    match e
    case Attempt(now) => AfterAttempt(l, now)
    case Pause(now, seconds) => AfterPause(l, now, seconds)
  }

  function Run(l: Limiter, events: seq<Event>): Limiter {
    if events == [] then l else After(Run(l, events[..|events| - 1]), events[|events| - 1])
  }

  /** The monotonic clock, read in the order the lock is taken. */
  ghost predicate ClockMonotone(events: seq<Event>) {
    forall i, j :: 0 <= i < j < |events| ==> events[i].now <= events[j].now
  }

  function Start(limits: seq<(pos, real)>): Limiter {
    Limiter(seq(|limits|, k requires 0 <= k < |limits| => Window(limits[k].0, limits[k].1, [])), None, [], None)
  }

  lemma EventKeeps(l: Limiter, e: Event)
    requires Valid(l) && NotBefore(l, e.now)
    ensures Valid(After(l, e)) && SameBounds(After(l, e).windows, l.windows) && After(l, e).last == Some(e.now)
  {
    if e.Attempt? {
      AttemptKeeps(l, e.now);
    } else {
      forall k | 0 <= k < |l.windows| ensures Tracks(l.windows[k], l.grants, Some(e.now)) {
      }
    }
  }

  /** What a run leaves: a valid limiter with its bounds, and the clock reading of the last event. */
  ghost predicate Holds(l: Limiter, start: Limiter, events: seq<Event>) {
    && Valid(l) && SameBounds(l.windows, start.windows)
    && l.last == if events == [] then None else Some(events[|events| - 1].now)
  }

  lemma {:induction false} RunValid(limits: seq<(pos, real)>, events: seq<Event>)
    requires ClockMonotone(events)
    ensures Holds(Run(Start(limits), events), Start(limits), events)
  {
    if events != [] {
      var front, e := events[..|events| - 1], events[|events| - 1];
      RunValid(limits, front);
      assert front != [] ==> front[|front| - 1] == events[|events| - 2];
      EventKeeps(Run(Start(limits), front), e);
    }
  }

  /** Rate safety: however threads interleave, no window ever sees more than its limit of grants. */
  lemma RateSafety(limits: seq<(pos, real)>, events: seq<Event>, k: nat)
    requires ClockMonotone(events) && k < |limits|
    ensures Spaced(Run(Start(limits), events).grants, limits[k].0, limits[k].1)
    ensures |Run(Start(limits), events).windows| == |limits|
    ensures |Run(Start(limits), events).windows[k].stamps| <= limits[k].0
  {
    RunValid(limits, events);
    assert Tracks(Run(Start(limits), events).windows[k], Run(Start(limits), events).grants,
      Run(Start(limits), events).last);
  }

  ghost predicate GrantedAt(limits: seq<(pos, real)>, events: seq<Event>, j: nat)
    requires j < |events|
  {
    events[j].Attempt? && AttemptWait(Run(Start(limits), events[..j]), events[j].now).None?
  }

  lemma {:induction false} PauseRemembered(l: Limiter, events: seq<Event>, i: nat)
    requires i < |events| && events[i].Pause?
    ensures Run(l, events).pausedUntil.Some? && Run(l, events).pausedUntil.value >= events[i].now + events[i].seconds
  {
    if i < |events| - 1 {
      PauseRemembered(l, events[..|events| - 1], i);
    }
  }

  /** No grant comes before the end of any earlier pause. */
  lemma PausesRespected(limits: seq<(pos, real)>, events: seq<Event>, i: nat, j: nat)
    requires ClockMonotone(events) && i < j < |events|
    requires events[i].Pause? && GrantedAt(limits, events, j)
    ensures events[j].now >= events[i].now + events[i].seconds
  {
    var front := events[..j];
    RunValid(limits, front);
    assert front[i] == events[i] && front[|front| - 1] == events[j - 1];
    PauseRemembered(Start(limits), front, i);
    AttemptExact(Run(Start(limits), front), events[j].now, events[j].now);
  }

  // --- as it runs -------------------------------------------------------------------------------

  class RateLimiter {
    var windows: seq<Window>
    var pausedUntil: Option<real>
    ghost var grants: seq<real>
    ghost var last: Option<real>

    ghost function State(): Limiter
      reads this
    {
      Limiter(windows, pausedUntil, grants, last)
    }

    constructor (limits: seq<(pos, real)>)
      ensures State() == Start(limits)
    {
      windows := seq(|limits|, k requires 0 <= k < |limits| => Window(limits[k].0, limits[k].1, []));
      pausedUntil, grants, last := None, [], None;
    }

    /** Holds every caller back for `seconds`. */
    method Pause(now: real, seconds: real)
      modifies this
      ensures State() == AfterPause(old(State()), now, seconds)
    {
      pausedUntil := PausedUntil(pausedUntil, now + seconds);
      last := Some(now);
    }

    /** One turn of the loop over the windows: this one forgets what is too old. */
    method PurgeWindow(i: nat, now: real, ghost before: seq<Window>) returns (w: Window)
      requires i < |before| && windows == PartlyPurged(before, i, now)
      modifies this`windows
      ensures windows == PartlyPurged(before, i + 1, now)
      ensures w == PurgedWindow(before[i], now)
    {
      OneMorePurged(before, i, now);
      var stamps := PopOld(windows[i].stamps, now - windows[i].seconds);
      w := windows[i].(stamps := stamps);
      windows := windows[i := w];
    }

    /** The loop over the windows: drop what is too old, and find the longest wait. */
    method PurgeAndWait(now: real) returns (longest: Option<real>)
      modifies this`windows
      ensures windows == PurgedWindows(old(windows), now)
      ensures longest == LongestWait(windows, PauseLeft(pausedUntil, now), now)
    {
      ghost var before, pause := windows, PauseLeft(pausedUntil, now);
      longest := PauseLeft(pausedUntil, now);
      NonePurged(before, now);
      for i := 0 to |windows|
        invariant |windows| == |before| && windows == PartlyPurged(before, i, now)
        invariant longest == LongestWait(PurgedWindows(before[..i], now), pause, now)
      {
        OneMoreWait(before, i, pause, now);
        var w := PurgeWindow(i, now, before);
        longest := Longer(longest, WindowWait(w, now));
      }
      AllPurged(before, now);
    }

    /**
     * One turn of `acquire` under the lock: purge every window, work out the wait, and stamp all of them if
     * there is none.
     */
    method Attempt(now: real) returns (wait: Option<real>)
      modifies this
      ensures State() == AfterAttempt(old(State()), now)
      ensures wait == AttemptWait(old(State()), now)
    {
      var longest := PurgeAndWait(now);
      last := Some(now);
      wait := if longest.Some? && longest.value > 0.0 then longest else None;
      if wait.None? {
        windows := Granted(windows, now);
        grants := grants + [now];
      }
    }

    /**
     * `acquire` for a caller no one competes with: attempt, sleep for the wait (and perhaps a little
     * longer), attempt again. It is granted at the second attempt at the latest, at the first moment
     * the bounds allow when the sleep is exact.
     */
    method Acquire(start: real, oversleep: real) returns (at: real, attempts: nat)
      requires Valid(State()) && NotBefore(State(), start) && oversleep >= 0.0
      modifies this
      ensures Valid(State()) && attempts <= 2
      ensures grants == old(grants) + [at] && last == Some(at) && pausedUntil == old(pausedUntil)
      ensures Legal(old(grants), old(windows), pausedUntil, at)
      ensures forall t :: start <= t < at - oversleep ==> !Legal(old(grants), old(windows), pausedUntil, t)
    {
      at, attempts := start, 0;
      var granted := false;
      ghost var first := State();
      while !granted
        invariant Valid(State()) && SameBounds(windows, first.windows) && pausedUntil == first.pausedUntil
        invariant 0 <= attempts <= 2 && at >= start
        invariant granted ==> grants == first.grants + [at] && last == Some(at)
        invariant granted ==> Legal(first.grants, first.windows, first.pausedUntil, at)
        invariant !granted ==> grants == first.grants && NotBefore(State(), at)
        invariant !granted ==> attempts < 2 && (attempts == 0 ==> at == start)
        invariant !granted && attempts == 1 ==> Legal(first.grants, first.windows, first.pausedUntil, at)
        invariant forall t :: start <= t < at - oversleep ==> !Legal(first.grants, first.windows, first.pausedUntil, t)
        decreases !granted, 2 - attempts
      {
        var now := at;
        AttemptOutcome(State(), first, now);
        var wait := Attempt(now);
        attempts := attempts + 1;
        if wait.None? {
          granted := true;
        } else {
          at := now + wait.value + oversleep;
        }
      }
    }
  }

  /** What one attempt decides, measured against an earlier state with the same bounds, pause and grants. */
  lemma AttemptOutcome(l: Limiter, first: Limiter, now: real)
    requires Valid(l) && NotBefore(l, now)
    requires SameBounds(l.windows, first.windows) && l.pausedUntil == first.pausedUntil && l.grants == first.grants
    ensures Valid(AfterAttempt(l, now)) && SameBounds(AfterAttempt(l, now).windows, first.windows)
    ensures AttemptWait(l, now).None? <==> Legal(first.grants, first.windows, first.pausedUntil, now)
    ensures AttemptWait(l, now).Some? ==> AttemptWait(l, now).value > 0.0
    ensures AttemptWait(l, now).Some? ==>
      forall t :: t >= now ==>
        (Legal(first.grants, first.windows, first.pausedUntil, t) <==> t >= now + AttemptWait(l, now).value)
  {
    AttemptKeeps(l, now);
    AttemptExact(l, now, now);
    LegalSameBounds(l.grants, l.windows, first.windows, l.pausedUntil, now);
    forall t | t >= now
      ensures AttemptWait(l, now).Some? ==>
        (Legal(first.grants, first.windows, first.pausedUntil, t) <==> t >= now + AttemptWait(l, now).value)
    {
      AttemptExact(l, now, t);
      LegalSameBounds(l.grants, l.windows, first.windows, l.pausedUntil, t);
    }
  }

  method PopOld(stamps: seq<real>, bound: real) returns (rest: seq<real>)
    ensures rest == Purged(stamps, bound)
  {
    rest := stamps;
    while rest != [] && rest[0] <= bound
      invariant Purged(rest, bound) == Purged(stamps, bound)
      decreases |rest|
    {
      rest := rest[1..];
    }
  }
}
