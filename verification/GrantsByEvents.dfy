/**
 * Who is let through, from the events alone: a call is granted exactly when every pause before it is over and,
 * for every bound, fewer than its limit were granted in the seconds before. No deque, no running pause.
 */
module GrantsByEvents {
  import opened Wrappers
  import opened RateLimiter

  /** How many of the grants came after `bound`. */
  function Since(grants: seq<real>, bound: real): nat {
    if grants == [] then 0
    else Since(grants[..|grants| - 1], bound) + if grants[|grants| - 1] > bound then 1 else 0
  }

  ghost predicate PausesOver(events: seq<Event>, now: real) {
    forall i :: 0 <= i < |events| && events[i].Pause? ==> events[i].now + events[i].seconds <= now
  }

  ghost predicate Room(grants: seq<real>, limits: seq<(pos, real)>, now: real) {
    forall k :: 0 <= k < |limits| ==> Since(grants, now - limits[k].1) < limits[k].0
  }

  ghost predicate LetThrough(limits: seq<(pos, real)>, before: seq<Event>, grants: seq<real>, e: Event) {
    e.Attempt? && PausesOver(before, e.now) && Room(grants, limits, e.now)
  }

  /** When calls are granted, over a whole run. */
  ghost function Grants(limits: seq<(pos, real)>, events: seq<Event>): seq<real> {
    if events == [] then []
    else
      var before, e := events[..|events| - 1], events[|events| - 1];
      var grants := Grants(limits, before);
      if LetThrough(limits, before, grants, e) then grants + [e.now] else grants
  }

  lemma {:induction false} NoneSince(grants: seq<real>, bound: real)
    requires forall i :: 0 <= i < |grants| ==> grants[i] <= bound
    ensures Since(grants, bound) == 0
  {
    if grants != [] {
      NoneSince(grants[..|grants| - 1], bound);
    }
  }

  /** A window has room exactly when fewer than its limit came in its last seconds. */
  lemma {:induction false} FitsIff(grants: seq<real>, limit: pos, seconds: real, now: real)
    requires Monotone(grants)
    ensures Fits(grants, limit, seconds, now) <==> Since(grants, now - seconds) < limit
    decreases |grants|
  {
    if grants != [] {
      var front, last := grants[..|grants| - 1], grants[|grants| - 1];
      if last <= now - seconds {
        NoneSince(grants, now - seconds);
      } else if limit > 1 {
        FitsIff(front, limit - 1, seconds, now);
        assert |grants| >= limit ==> front[|front| - (limit - 1)] == grants[|grants| - limit];
      }
    }
  }

  /** The running pause ends when the last of all pauses does. */
  lemma {:induction false} PauseIff(l: Limiter, events: seq<Event>, now: real)
    requires l.pausedUntil.None?
    ensures var until := Run(l, events).pausedUntil;
      PausesOver(events, now) <==> until.None? || until.value <= now
  {
    if events != [] {
      var front, e := events[..|events| - 1], events[|events| - 1];
      PauseIff(l, front, now);
      assert PausesOver(events, now) <==>
        PausesOver(front, now) && (e.Pause? ==> e.now + e.seconds <= now);
    }
  }

  lemma RoomIff(grants: seq<real>, limits: seq<(pos, real)>, windows: seq<Window>, now: real)
    requires Monotone(grants) && SameBounds(windows, Start(limits).windows)
    ensures Room(grants, limits, now) <==>
      forall k :: 0 <= k < |windows| ==> Fits(grants, windows[k].limit, windows[k].seconds, now)
  {
    forall k | 0 <= k < |limits|
      ensures Fits(grants, windows[k].limit, windows[k].seconds, now) <==>
        Since(grants, now - limits[k].1) < limits[k].0
    {
      FitsIff(grants, limits[k].0, limits[k].1, now);
    }
  }

  /** An attempt of a run is granted exactly when it is let through. */
  lemma GrantedIff(limits: seq<(pos, real)>, events: seq<Event>, j: nat)
    requires ClockMonotone(events) && j < |events| && events[j].Attempt?
    ensures GrantedAt(limits, events, j) <==>
      LetThrough(limits, events[..j], Run(Start(limits), events[..j]).grants, events[j])
  {
    var before, now := events[..j], events[j].now;
    var l := Run(Start(limits), before);
    assert before != [] ==> before[|before| - 1] == events[j - 1];
    RunValid(limits, before);
    AttemptExact(l, now, now);
    PauseIff(Start(limits), before, now);
    RoomIff(l.grants, limits, l.windows, now);
  }

  /** However threads interleave, the grants are those the events call for: none more, none fewer. */
  lemma {:induction false} GrantsExact(limits: seq<(pos, real)>, events: seq<Event>)
    requires ClockMonotone(events)
    ensures Run(Start(limits), events).grants == Grants(limits, events)
  {
    if events != [] {
      var j := |events| - 1;
      GrantsExact(limits, events[..j]);
      if events[j].Attempt? {
        GrantedIff(limits, events, j);
      }
    }
  }

  /** A reason to refuse a call: a pause still running, or a bound with its limit of grants in its last seconds. */
  ghost predicate Reason(limits: seq<(pos, real)>, events: seq<Event>, j: nat)
    requires j < |events|
  {
    var now := events[j].now;
    || (exists i :: 0 <= i < j && events[i].Pause? && now < events[i].now + events[i].seconds)
    || (exists k :: 0 <= k < |limits| && Since(Grants(limits, events[..j]), now - limits[k].1) >= limits[k].0)
  }

  lemma ReasonIff(limits: seq<(pos, real)>, events: seq<Event>, j: nat)
    requires j < |events| && events[j].Attempt?
    ensures Reason(limits, events, j) <==> !LetThrough(limits, events[..j], Grants(limits, events[..j]), events[j])
  {
    assert PausesOver(events[..j], events[j].now) <==>
      forall i :: 0 <= i < j && events[i].Pause? ==> events[i].now + events[i].seconds <= events[j].now;
  }

  /** A call is refused exactly when the earlier events hold a reason. */
  lemma RefusedForReason(limits: seq<(pos, real)>, events: seq<Event>, j: nat)
    requires ClockMonotone(events) && j < |events| && events[j].Attempt?
    ensures !GrantedAt(limits, events, j) <==> Reason(limits, events, j)
  {
    var granted, grants := GrantedAt(limits, events, j), Grants(limits, events[..j]);
    assert granted <==> LetThrough(limits, events[..j], grants, events[j]) by {
      GrantedIff(limits, events, j);
      GrantsExact(limits, events[..j]);
    }
    ReasonIff(limits, events, j);
  }
}
