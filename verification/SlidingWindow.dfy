/** SlidingWindowRateLimiter and the backing-off of AdaptiveRateLimiter. */
module SlidingWindow {

  datatype Limits = Limits(max: int, window: real)

  // The stamps that are later than a cutoff, in order.
  function Trim(stamps: seq<real>, cutoff: real): seq<real> {
    if stamps == [] then []
    else
      var last := stamps[|stamps| - 1];
      Trim(stamps[..|stamps| - 1], cutoff) + if last > cutoff then [last] else []
  }

  // `acquire`, and the append that follows the sleep of `wait_and_acquire` without a new check.
  datatype Event = Acquire(at: real) | AppendAfterSleep(at: real)

  predicate HasRoom(c: Limits, stamps: seq<real>, at: real) {
    |Trim(stamps, at - c.window)| < c.max
  }

  predicate IsGrant(c: Limits, stamps: seq<real>, e: Event) {
    e.AppendAfterSleep? || HasRoom(c, stamps, e.at)
  }

  function After(c: Limits, stamps: seq<real>, e: Event): seq<real> {
    var kept := Trim(stamps, e.at - c.window);
    if IsGrant(c, stamps, e) then kept + [e.at] else kept
  }

  function GrantsAfter(c: Limits, stamps: seq<real>, grants: seq<real>, e: Event): seq<real> {
    if IsGrant(c, stamps, e) then grants + [e.at] else grants
  }

  // A history of critical sections: the list the limiter held, and the moments of all its grants,
  // before each of them and after the last.
  datatype History = History(events: seq<Event>, stamps: seq<seq<real>>, grants: seq<seq<real>>)

  ghost predicate IsStep(c: Limits, h: History, k: nat) {
    && k < |h.events| && k + 1 < |h.stamps| && k + 1 < |h.grants|
    && h.stamps[k + 1] == After(c, h.stamps[k], h.events[k])
    && h.grants[k + 1] == GrantsAfter(c, h.stamps[k], h.grants[k], h.events[k])
  }

  // A history under one limit that starts with a list of stamps left by earlier grants, as it does
  // when `max` has just been changed.
  ghost predicate IsHistoryFrom(c: Limits, start: seq<real>, h: History) {
    && |h.stamps| == |h.grants| == |h.events| + 1
    && h.stamps[0] == start == h.grants[0]
    && forall k :: 0 <= k < |h.events| ==> IsStep(c, h, k)
  }

  // The history of a new limiter.
  ghost predicate IsHistory(c: Limits, h: History) {
    IsHistoryFrom(c, [], h)
  }

  // The list at the end of a history, and all its grants.
  function LastStamps(h: History): seq<real> {
    if h.stamps == [] then [] else h.stamps[|h.stamps| - 1]
  }

  function AllGrants(h: History): seq<real> {
    if h.grants == [] then [] else h.grants[|h.grants| - 1]
  }

  function Begin(start: seq<real>): History {
    History([], [start], [start])
  }

  function Then(c: Limits, h: History, e: Event): History {
    History(h.events + [e], h.stamps + [After(c, LastStamps(h), e)],
            h.grants + [GrantsAfter(c, LastStamps(h), AllGrants(h), e)])
  }

  lemma HistoryGoesOn(c: Limits, start: seq<real>, h: History, e: Event)
    requires IsHistoryFrom(c, start, h)
    ensures IsHistoryFrom(c, start, Then(c, h, e))
  {
    var more := Then(c, h, e);
    forall k | 0 <= k < |more.events| ensures IsStep(c, more, k) {
      if k < |h.events| {
        assert IsStep(c, h, k);
      }
    }
  }

  // Any events, in any order, make a history from any list.
  lemma {:induction false} EventsMakeHistory(c: Limits, start: seq<real>, events: seq<Event>)
    ensures exists h :: IsHistoryFrom(c, start, h) && h.events == events
  {
    if events == [] {
      assert IsHistoryFrom(c, start, Begin(start));
    } else {
      var n := |events| - 1;
      EventsMakeHistory(c, start, events[..n]);
      var h :| IsHistoryFrom(c, start, h) && h.events == events[..n];
      HistoryGoesOn(c, start, h, events[n]);
      assert Then(c, h, events[n]).events == events;
    }
  }

  // The clock never goes back from one critical section to the next.
  predicate ClockForward(events: seq<Event>) {
    forall i, j :: 0 <= i < j < |events| ==> events[i].at <= events[j].at
  }

  // A stretch of time that includes one of its ends.
  datatype Interval = OpenClosed(lo: real, length: real) | ClosedOpen(lo: real, length: real)

  predicate Inside(i: Interval, t: real) {
    match i
    case OpenClosed(lo, length) => lo < t <= lo + length
    case ClosedOpen(lo, length) => lo <= t < lo + length
  }

  function CountInside(i: Interval, ts: seq<real>): nat {
    if ts == [] then 0
    else CountInside(i, ts[..|ts| - 1]) + if Inside(i, ts[|ts| - 1]) then 1 else 0
  }

  // ----- what the list of stamps is -----

  lemma {:induction false} TrimAppend(stamps: seq<real>, t: real, cutoff: real)
    ensures Trim(stamps + [t], cutoff) == Trim(stamps, cutoff) + if t > cutoff then [t] else []
  {
    assert (stamps + [t])[..|stamps|] == stamps;
  }

  lemma {:induction false} TrimTwice(stamps: seq<real>, early: real, late: real)
    requires early <= late
    ensures Trim(Trim(stamps, early), late) == Trim(stamps, late)
  {
    if stamps != [] {
      var front, last := stamps[..|stamps| - 1], stamps[|stamps| - 1];
      TrimTwice(front, early, late);
      if last > early {
        TrimAppend(Trim(front, early), last, late);
      } else {
        assert Trim(front, early) + [] == Trim(front, early);
      }
    }
  }

  // Two lists hold the same stamps after the cutoff.
  predicate SameSince(a: seq<real>, b: seq<real>, cutoff: real) {
    Trim(a, cutoff) == Trim(b, cutoff)
  }

  // One critical section, on the list and on the record of grants.
  lemma StepKeepsRecent(c: Limits, stamps: seq<real>, grants: seq<real>, e: Event, cutoff: real)
    requires SameSince(stamps, grants, e.at - c.window) && e.at - c.window <= cutoff
    ensures SameSince(After(c, stamps, e), GrantsAfter(c, stamps, grants, e), cutoff)
  {
    hide Trim;
    var kept := Trim(stamps, e.at - c.window);
    TrimTwice(grants, e.at - c.window, cutoff);
    TrimTwice(stamps, e.at - c.window, cutoff);
    TrimAppend(kept, e.at, cutoff);
    TrimAppend(grants, e.at, cutoff);
  }

  // Trimming never drops a stamp that still counts: at every moment the list holds exactly the
  // grants of the last `window` seconds.
  lemma {:induction false} StampsAreRecentGrants(c: Limits, start: seq<real>, h: History, n: nat, at: real)
    requires c.window > 0.0 && IsHistoryFrom(c, start, h) && ClockForward(h.events)
    requires n <= |h.events| && (n > 0 ==> h.events[n - 1].at <= at)
    ensures SameSince(h.stamps[n], h.grants[n], at - c.window)
  {
    if n > 0 {
      var e := h.events[n - 1];
      assert IsStep(c, h, n - 1);
      StampsAreRecentGrants(c, start, h, n - 1, e.at);
      assert SameSince(h.stamps[n], h.grants[n], at - c.window) by {
        StepKeepsRecent(c, h.stamps[n - 1], h.grants[n - 1], e, at - c.window);
      }
    }
  }

  // ----- the limit -----

  predicate NoneAfter(ts: seq<real>, at: real) {
    forall k :: 0 <= k < |ts| ==> ts[k] <= at
  }

  lemma {:induction false} GrantsFollowClock(c: Limits, start: seq<real>, h: History, n: nat, at: real)
    requires IsHistoryFrom(c, start, h) && ClockForward(h.events)
    requires n <= |h.events| && NoneAfter(start, at) && (n > 0 ==> h.events[n - 1].at <= at)
    ensures NoneAfter(h.grants[n], at)
  {
    if n > 0 {
      GrantsFollowClock(c, start, h, n - 1, at);
      assert IsStep(c, h, n - 1);
    }
  }

  // Stamps in an interval that also holds `at` all lie within `window` before `at`.
  lemma {:induction false} InsideIsRecent(i: Interval, ts: seq<real>, at: real, cutoff: real)
    requires Inside(i, at) && NoneAfter(ts, at) && cutoff == at - i.length
    ensures CountInside(i, ts) <= |Trim(ts, cutoff)|
  {
    if ts != [] {
      InsideIsRecent(i, ts[..|ts| - 1], at, cutoff);
    }
  }

  lemma CountOneMore(i: Interval, ts: seq<real>, t: real)
    ensures CountInside(i, ts + [t]) == CountInside(i, ts) + if Inside(i, t) then 1 else 0
  {
    assert (ts + [t])[..|ts|] == ts;
  }

  lemma {:induction false} CountAtMost(i: Interval, ts: seq<real>)
    ensures CountInside(i, ts) <= |ts|
  {
    if ts != [] {
      CountAtMost(i, ts[..|ts| - 1]);
    }
  }

  // No append found the window full.
  predicate AppendsFindRoom(c: Limits, h: History, n: nat) {
    forall k :: 0 <= k < n && k < |h.events| && k < |h.stamps| && h.events[k].AppendAfterSleep? ==>
      HasRoom(c, h.stamps[k], h.events[k].at)
  }

  ghost predicate WithinLimit(c: Limits, ts: seq<real>) {
    forall i: Interval :: i.length == c.window ==> CountInside(i, ts) <= c.max
  }

  // Each grant found fewer than `bound` stamps that still counted.
  predicate GrantsFindFewer(c: Limits, h: History, n: nat, bound: int) {
    forall k :: 0 <= k < n && k < |h.events| && k < |h.stamps| && IsGrant(c, h.stamps[k], h.events[k]) ==>
      HasRoom(Limits(bound, c.window), h.stamps[k], h.events[k].at)
  }

  // No event comes before the grants the history started with.
  predicate StartsBefore(start: seq<real>, events: seq<Event>) {
    forall k :: 0 <= k < |events| ==> NoneAfter(start, events[k].at)
  }

  // A grant with room finds at most max - 1 earlier ones in any window it falls into.
  lemma GrantWithRoomFits(c: Limits, stamps: seq<real>, grants: seq<real>, at: real, i: Interval)
    requires i.length == c.window && Inside(i, at) && NoneAfter(grants, at)
    requires SameSince(stamps, grants, at - c.window) && HasRoom(c, stamps, at)
    ensures CountInside(i, grants) < c.max
  {
    InsideIsRecent(i, grants, at, at - c.window);
  }

  // Then no window holds more than `bound`, as long as the starting list did not.
  lemma {:induction false} RoomKeepsBound(c: Limits, start: seq<real>, h: History, n: nat, i: Interval, bound: int)
    requires c.window > 0.0 && IsHistoryFrom(c, start, h) && ClockForward(h.events) && StartsBefore(start, h.events)
    requires n <= |h.events| && GrantsFindFewer(c, h, n, bound) && |start| <= bound && i.length == c.window
    ensures CountInside(i, h.grants[n]) <= bound
  {
    hide Trim, SameSince, NoneAfter, HasRoom;
    if n == 0 {
      CountAtMost(i, start);
    } else {
      var e := h.events[n - 1];
      RoomKeepsBound(c, start, h, n - 1, i, bound);
      assert IsStep(c, h, n - 1);
      if IsGrant(c, h.stamps[n - 1], e) {
        CountOneMore(i, h.grants[n - 1], e.at);
        if Inside(i, e.at) {
          GrantsFollowClock(c, start, h, n - 1, e.at);
          StampsAreRecentGrants(c, start, h, n - 1, e.at);
          GrantWithRoomFits(Limits(bound, c.window), h.stamps[n - 1], h.grants[n - 1], e.at, i);
        }
      }
    }
  }

  lemma {:induction false} CountRecent(i: Interval, ts: seq<real>, at: real, cutoff: real)
    requires i == OpenClosed(cutoff, at - cutoff) && NoneAfter(ts, at)
    ensures CountInside(i, ts) == |Trim(ts, cutoff)|
  {
    if ts != [] {
      CountRecent(i, ts[..|ts| - 1], at, cutoff);
    }
  }

  // A grant without room completes a window with more than max.
  lemma GrantWithoutRoomOverruns(c: Limits, stamps: seq<real>, grants: seq<real>, at: real)
    requires c.window > 0.0 && SameSince(stamps, grants, at - c.window) && NoneAfter(grants, at)
    requires !HasRoom(c, stamps, at)
    ensures !WithinLimit(c, grants + [at])
  {
    var i := OpenClosed(at - c.window, c.window);
    CountRecent(i, grants, at, at - c.window);
    CountOneMore(i, grants, at);
    assert CountInside(i, grants + [at]) > c.max;
  }

  lemma OverrunStays(c: Limits, ts: seq<real>, t: real)
    requires !WithinLimit(c, ts)
    ensures !WithinLimit(c, ts + [t])
  {
    var i: Interval :| i.length == c.window && CountInside(i, ts) > c.max;
    CountOneMore(i, ts, t);
  }

  lemma {:induction false} OverrunBreaksLimit(c: Limits, h: History, n: nat)
    requires c.window > 0.0 && IsHistory(c, h) && ClockForward(h.events) && n <= |h.events|
    requires !AppendsFindRoom(c, h, n)
    ensures !WithinLimit(c, h.grants[n])
  {
    var e := h.events[n - 1];
    assert IsStep(c, h, n - 1);
    if AppendsFindRoom(c, h, n - 1) {
      GrantsFollowClock(c, [], h, n - 1, e.at);
      StampsAreRecentGrants(c, [], h, n - 1, e.at);
      GrantWithoutRoomOverruns(c, h.stamps[n - 1], h.grants[n - 1], e.at);
    } else {
      OverrunBreaksLimit(c, h, n - 1);
      OverrunStays(c, h.grants[n - 1], e.at);
    }
  }

  // Any interleaving of the limiter's critical sections respects the limit, in every window of
  // the configured length, exactly when each append after a sleep still finds room.
  lemma LimitHoldsIffAppendsFindRoom(c: Limits, h: History)
    requires c.window > 0.0 && c.max >= 0 && IsHistory(c, h) && ClockForward(h.events)
    ensures WithinLimit(c, AllGrants(h)) <==> AppendsFindRoom(c, h, |h.events|)
  {
    if AppendsFindRoom(c, h, |h.events|) {
      assert GrantsFindFewer(c, h, |h.events|, c.max);
      forall i: Interval | i.length == c.window ensures CountInside(i, AllGrants(h)) <= c.max {
        RoomKeepsBound(c, [], h, |h.events|, i, c.max);
      }
    } else {
      OverrunBreaksLimit(c, h, |h.events|);
    }
  }

  predicate OnlyAcquires(events: seq<Event>) {
    forall k :: 0 <= k < |events| ==> events[k].Acquire?
  }

  // `acquire` alone keeps the limit under any clock that does not go back.
  lemma AcquireKeepsLimit(c: Limits, h: History)
    requires c.window > 0.0 && c.max >= 0 && IsHistory(c, h) && ClockForward(h.events) && OnlyAcquires(h.events)
    ensures WithinLimit(c, AllGrants(h))
  {
    LimitHoldsIffAppendsFindRoom(c, h);
  }

  // The seconds a refused caller is told to wait.
  function WaitTime(c: Limits, stamps: seq<real>, at: real): real
    requires Trim(stamps, at - c.window) != []
  {
    var wait := Trim(stamps, at - c.window)[0] + c.window - at;
    if wait > 0.0 then wait else 0.0
  }

  lemma {:induction false} TrimmedIsRecent(stamps: seq<real>, cutoff: real)
    ensures forall t :: t in Trim(stamps, cutoff) ==> t > cutoff && t in stamps
  {
    if stamps != [] {
      TrimmedIsRecent(stamps[..|stamps| - 1], cutoff);
      assert stamps[|stamps| - 1] in stamps;
      assert forall t :: t in stamps[..|stamps| - 1] ==> t in stamps;
    }
  }

  // A refused caller is never told to wait zero seconds, so zero means granted.
  lemma RefusedMustWait(c: Limits, stamps: seq<real>, at: real)
    requires Trim(stamps, at - c.window) != []
    ensures WaitTime(c, stamps, at) > 0.0
  {
    TrimmedIsRecent(stamps, at - c.window);
    assert Trim(stamps, at - c.window)[0] in Trim(stamps, at - c.window);
  }

  // Every append belongs to a `wait_and_acquire` that was refused just before and slept long
  // enough, with no other call in between.
  ghost predicate WaitsDoNotOverlap(c: Limits, h: History) {
    forall k :: 0 <= k < |h.events| && h.events[k].AppendAfterSleep? ==> IsLoneWait(c, h, k)
  }

  ghost predicate IsLoneWait(c: Limits, h: History, k: nat) {
    && 0 < k < |h.events| && k < |h.stamps| && h.events[k - 1].Acquire?
    && var refused := h.events[k - 1].at;
    && !HasRoom(c, h.stamps[k - 1], refused)
    && Trim(h.stamps[k - 1], refused - c.window) != []
    && h.events[k].at >= refused + WaitTime(c, h.stamps[k - 1], refused)
  }

  lemma {:induction false} TrimShorter(stamps: seq<real>, cutoff: real)
    ensures |Trim(stamps, cutoff)| <= |stamps|
  {
    if stamps != [] {
      TrimShorter(stamps[..|stamps| - 1], cutoff);
    }
  }

  lemma {:induction false} OldestDropped(stamps: seq<real>, cutoff: real)
    requires stamps != [] && stamps[0] <= cutoff
    ensures |Trim(stamps, cutoff)| < |stamps|
  {
    if |stamps| > 1 {
      OldestDropped(stamps[..|stamps| - 1], cutoff);
    }
  }

  // A waiter alone finds the oldest stamp of the list gone.
  lemma LoneWaitFindsFewer(c: Limits, start: seq<real>, h: History, k: nat, bound: int)
    requires c.window > 0.0 && IsHistoryFrom(c, start, h) && IsLoneWait(c, h, k) && |h.stamps[k]| <= bound
    ensures HasRoom(Limits(bound, c.window), h.stamps[k], h.events[k].at)
  {
    assert IsStep(c, h, k - 1);
    OldestDropped(h.stamps[k], h.events[k].at - c.window);
  }

  // Without overlap the list never grows beyond the limit and what it started with.
  lemma {:induction false} LoneWaitsFindFewer(c: Limits, start: seq<real>, h: History, n: nat, bound: int)
    requires c.window > 0.0 && IsHistoryFrom(c, start, h) && WaitsDoNotOverlap(c, h) && n <= |h.events|
    requires c.max <= bound && |start| <= bound
    ensures |h.stamps[n]| <= bound && GrantsFindFewer(c, h, n, bound)
  {
    hide IsLoneWait;
    if n > 0 {
      LoneWaitsFindFewer(c, start, h, n - 1, bound);
      TrimShorter(h.stamps[n - 1], h.events[n - 1].at - c.window);
      assert IsStep(c, h, n - 1);
      if h.events[n - 1].AppendAfterSleep? {
        LoneWaitFindsFewer(c, start, h, n - 1, bound);
      }
    }
  }

  // `wait_and_acquire` keeps the limit as long as no two of its calls overlap.
  lemma LoneWaitsKeepLimit(c: Limits, h: History)
    requires c.window > 0.0 && c.max >= 0 && IsHistory(c, h) && ClockForward(h.events) && WaitsDoNotOverlap(c, h)
    ensures WithinLimit(c, AllGrants(h))
  {
    LoneWaitsFindFewer(c, [], h, |h.events|, c.max);
    assert AppendsFindRoom(c, h, |h.events|);
    LimitHoldsIffAppendsFindRoom(c, h);
  }

  // After the limit was changed, by a header or a 429, calls that do not overlap keep every window
  // and the list within the new limit or what the list held then, whichever is more.
  lemma LoneWaitsAfterChange(c: Limits, start: seq<real>, h: History, i: Interval, bound: int)
    requires c.window > 0.0 && IsHistoryFrom(c, start, h) && WaitsDoNotOverlap(c, h)
    requires ClockForward(h.events) && StartsBefore(start, h.events) && i.length == c.window
    requires bound == if c.max >= |start| then c.max else |start|
    ensures CountInside(i, AllGrants(h)) <= bound && |LastStamps(h)| <= bound
  {
    LoneWaitsFindFewer(c, start, h, |h.events|, bound);
    RoomKeepsBound(c, start, h, |h.events|, i, bound);
  }

  // A list in order whose stamps all count when the last one was made.
  predicate IsCrowded(c: Limits, stamps: seq<real>) {
    && stamps != []
    && (forall i, j :: 0 <= i < j < |stamps| ==> stamps[i] < stamps[j])
    && stamps[|stamps| - 1] < stamps[0] + c.window
  }

  lemma {:induction false} TrimKeepsAll(stamps: seq<real>, cutoff: real)
    requires forall k :: 0 <= k < |stamps| ==> stamps[k] > cutoff
    ensures Trim(stamps, cutoff) == stamps
  {
    if stamps != [] {
      TrimKeepsAll(stamps[..|stamps| - 1], cutoff);
    }
  }

  lemma {:induction false} TrimDropsFirst(stamps: seq<real>, cutoff: real)
    requires stamps != [] && stamps[0] <= cutoff
    requires forall k :: 1 <= k < |stamps| ==> stamps[k] > cutoff
    ensures Trim(stamps, cutoff) == stamps[1..]
  {
    if |stamps| > 1 {
      TrimDropsFirst(stamps[..|stamps| - 1], cutoff);
    }
  }

  // The list after a waiter that found it crowded took the place of its oldest stamp.
  function Rotated(c: Limits, stamps: seq<real>): seq<real>
    requires stamps != []
  {
    stamps[1..] + [stamps[0] + c.window]
  }

  lemma RotatedIsCrowded(c: Limits, stamps: seq<real>)
    requires c.window > 0.0 && IsCrowded(c, stamps)
    ensures IsCrowded(c, Rotated(c, stamps))
  {
    var n, more := |stamps| - 1, Rotated(c, stamps);
    assert more[n] == stamps[0] + c.window;
    assert forall k :: 0 <= k < n ==> more[k] == stamps[k + 1];
    assert forall k :: 0 <= k < n ==> more[k] <= stamps[n];
  }

  // A waiter that comes with the last stamp of a crowded list is refused, and it falls to the waiter
  // to wake when the oldest stamp stops counting.
  lemma CrowdedRefuses(c: Limits, stamps: seq<real>, grants: seq<real>, at: real)
    requires c.window > 0.0 && IsCrowded(c, stamps) && c.max <= |stamps| && at == stamps[|stamps| - 1]
    ensures Trim(stamps, at - c.window) == stamps && !HasRoom(c, stamps, at)
    ensures at <= stamps[0] + c.window == at + WaitTime(c, stamps, at)
    ensures After(c, stamps, Acquire(at)) == stamps && GrantsAfter(c, stamps, grants, Acquire(at)) == grants
  {
    hide Trim;
    TrimKeepsAll(stamps, at - c.window);
  }

  // Waking then, it leaves as many stamps as it found.
  lemma WakingRotates(c: Limits, stamps: seq<real>, grants: seq<real>, woken: real)
    requires c.window > 0.0 && IsCrowded(c, stamps) && woken == stamps[0] + c.window
    ensures After(c, stamps, AppendAfterSleep(woken)) == Rotated(c, stamps)
    ensures GrantsAfter(c, stamps, grants, AppendAfterSleep(woken)) == grants + [woken]
  {
    hide Trim;
    assert woken - c.window == stamps[0];
    TrimDropsFirst(stamps, stamps[0]);
  }

  // n calls of `wait_and_acquire`, one after the other: each was refused, slept, and was then served.
  ghost predicate ServedInTurn(c: Limits, start: seq<real>, h: History, n: nat) {
    && IsHistoryFrom(c, start, h) && ClockForward(h.events) && StartsBefore(start, h.events)
    && WaitsDoNotOverlap(c, h) && |h.events| == 2 * n
    && forall k :: 0 <= k < 2 * n ==> (h.events[k].AppendAfterSleep? <==> k % 2 == 1)
  }

  lemma LoneWaitsStay(c: Limits, h: History, e: Event)
    requires |h.stamps| == |h.grants| == |h.events| + 1 && WaitsDoNotOverlap(c, h)
    requires e.Acquire? || IsLoneWait(c, Then(c, h, e), |h.events|)
    ensures WaitsDoNotOverlap(c, Then(c, h, e))
  {
    hide HasRoom, WaitTime, Trim;
    var more := Then(c, h, e);
    forall k | 0 <= k < |more.events| && more.events[k].AppendAfterSleep? ensures IsLoneWait(c, more, k) {
      if k < |h.events| {
        assert IsLoneWait(c, h, k);
        assert more.stamps[k - 1] == h.stamps[k - 1];
      }
    }
  }

  // No event lies after a moment.
  predicate NoEventAfter(events: seq<Event>, at: real) {
    forall k :: 0 <= k < |events| ==> events[k].at <= at
  }

  function Last(ts: seq<real>): real
    requires ts != []
  {
    ts[|ts| - 1]
  }

  lemma WaitedLongEnough(c: Limits, h: History, at: real, woken: real)
    requires |h.stamps| == |h.grants| == |h.events| + 1 && !HasRoom(c, LastStamps(h), at)
    requires Trim(LastStamps(h), at - c.window) != [] && woken >= at + WaitTime(c, LastStamps(h), at)
    ensures IsLoneWait(c, Then(c, Then(c, h, Acquire(at)), AppendAfterSleep(woken)), |h.events| + 1)
  {
    hide Trim, HasRoom, WaitTime;
    var more := Then(c, Then(c, h, Acquire(at)), AppendAfterSleep(woken));
    assert more.stamps[|h.events|] == LastStamps(h);
    assert more.events[|h.events|] == Acquire(at) && more.events[|h.events| + 1] == AppendAfterSleep(woken);
  }

  lemma ClockGoesOn(start: seq<real>, events: seq<Event>, at: real, woken: real)
    requires ClockForward(events) && StartsBefore(start, events)
    requires NoEventAfter(events, at) && NoneAfter(start, at) && at <= woken
    ensures
      var more := events + [Acquire(at)] + [AppendAfterSleep(woken)];
      ClockForward(more) && StartsBefore(start, more) && NoEventAfter(more, woken) && NoneAfter(start, woken)
  {
  }

  // That many waiters have been served one after the other, and the list is as long and crowded as ever.
  ghost predicate StaysCrowded(c: Limits, start: seq<real>, h: History, n: nat) {
    && ServedInTurn(c, start, h, n)
    && |LastStamps(h)| == |start| > 0 && IsCrowded(c, LastStamps(h)) && |AllGrants(h)| == |start| + n
    && NoEventAfter(h.events, Last(LastStamps(h))) && NoneAfter(start, Last(LastStamps(h)))
  }

  lemma OneMoreServed(c: Limits, start: seq<real>, h: History, n: nat)
    requires c.window > 0.0 && n > 0 && StaysCrowded(c, start, h, n - 1) && c.max <= |start|
    ensures exists more :: StaysCrowded(c, start, more, n)
  {
    hide IsCrowded, After, GrantsAfter, HasRoom, IsLoneWait, WaitTime, Trim, WaitsDoNotOverlap;
    hide ClockForward, StartsBefore, NoEventAfter, NoneAfter, IsStep;
    var stamps := LastStamps(h);
    var at, woken := Last(stamps), stamps[0] + c.window;
    CrowdedRefuses(c, stamps, AllGrants(h), at);
    WakingRotates(c, stamps, AllGrants(h), woken);
    RotatedIsCrowded(c, stamps);
    ClockGoesOn(start, h.events, at, woken);
    HistoryGoesOn(c, start, h, Acquire(at));
    var asked := Then(c, h, Acquire(at));
    LoneWaitsStay(c, h, Acquire(at));
    HistoryGoesOn(c, start, asked, AppendAfterSleep(woken));
    var more := Then(c, asked, AppendAfterSleep(woken));
    WaitedLongEnough(c, h, at, woken);
    LoneWaitsStay(c, asked, AppendAfterSleep(woken));
    assert StaysCrowded(c, start, more, n);
  }

  lemma {:induction false} CrowdedListServes(c: Limits, start: seq<real>, n: nat)
    requires c.window > 0.0 && IsCrowded(c, start) && c.max <= |start|
    ensures exists h :: StaysCrowded(c, start, h, n)
  {
    if n == 0 {
      assert StaysCrowded(c, start, Begin(start), 0);
    } else {
      hide StaysCrowded;
      CrowdedListServes(c, start, n - 1);
      var h :| StaysCrowded(c, start, h, n - 1);
      OneMoreServed(c, start, h, n);
    }
  }

  lemma CountCrowded(c: Limits, stamps: seq<real>, grants: seq<real>, at: real)
    requires c.window > 0.0 && IsCrowded(c, stamps) && at == Last(stamps)
    requires SameSince(stamps, grants, at - c.window) && NoneAfter(grants, at)
    ensures CountInside(OpenClosed(at - c.window, c.window), grants) == |stamps|
  {
    hide Trim, CountInside, Inside;
    CountRecent(OpenClosed(at - c.window, c.window), grants, at, at - c.window);
    TrimKeepsAll(stamps, at - c.window);
  }

  // The last window is as full as the list.
  lemma LastWindowIsFull(c: Limits, start: seq<real>, h: History, n: nat)
    requires c.window > 0.0 && ServedInTurn(c, start, h, n) && LastStamps(h) != [] && IsCrowded(c, LastStamps(h))
    requires NoEventAfter(h.events, Last(LastStamps(h))) && NoneAfter(start, Last(LastStamps(h)))
    ensures CountInside(OpenClosed(Last(LastStamps(h)) - c.window, c.window), AllGrants(h)) == |LastStamps(h)|
  {
    hide IsCrowded, SameSince, WaitsDoNotOverlap, CountInside, ClockForward, StartsBefore;
    var at := Last(LastStamps(h));
    StampsAreRecentGrants(c, start, h, 2 * n, at);
    GrantsFollowClock(c, start, h, 2 * n, at);
    CountCrowded(c, LastStamps(h), AllGrants(h), at);
  }

  // The list holds that many stamps, and so many grants lie in the window that ends with the last.
  predicate EndsAsFull(c: Limits, h: History, count: nat) {
    && |LastStamps(h)| == count > 0
    && CountInside(OpenClosed(Last(LastStamps(h)) - c.window, c.window), AllGrants(h)) == count
  }

  // A limit that was lowered below what the list holds is not reached by lone waiters: from any
  // crowded list, any number of calls one after the other can all be served with the last window
  // as full as it was, so with more than the new limit.
  lemma LoweredLimitIsNotReached(c: Limits, start: seq<real>, n: nat)
    requires c.window > 0.0 && IsCrowded(c, start) && c.max < |start|
    ensures exists h ::
      ServedInTurn(c, start, h, n) && |AllGrants(h)| == |start| + n && EndsAsFull(c, h, |start|)
  {
    CrowdedListServes(c, start, n);
    var h :| StaysCrowded(c, start, h, n);
    assert EndsAsFull(c, h, |start|) by {
      hide ServedInTurn, IsCrowded, NoEventAfter, NoneAfter, CountInside;
      LastWindowIsFull(c, start, h, n);
    }
  }

  lemma TrimOne(t: real, cutoff: real)
    ensures Trim([t], cutoff) == if t > cutoff then [t] else []
  {
    assert [t][..0] == [];
  }

  // With a single place, taken at `t`: a caller still inside the window is refused, and an append
  // takes the place, free or not.
  lemma SinglePlace(c: Limits, t: real, at: real, grants: seq<real>)
    requires c.max == 1
    ensures at - c.window < t ==>
      After(c, [t], Acquire(at)) == [t] && GrantsAfter(c, [t], grants, Acquire(at)) == grants && !HasRoom(c, [t], at)
    ensures at - c.window >= t ==> After(c, [t], AppendAfterSleep(at)) == [at]
    ensures at - c.window < t ==> After(c, [t], AppendAfterSleep(at)) == [t, at]
    ensures GrantsAfter(c, [t], grants, AppendAfterSleep(at)) == grants + [at]
  {
    TrimOne(t, at - c.window);
  }

  lemma FirstPlace(c: Limits, t: real)
    requires c.max == 1
    ensures After(c, [], Acquire(t)) == [t] == GrantsAfter(c, [], [], Acquire(t))
  {
  }

  // Whatever the window, two overlapping waiters overrun a limit of one: refused while the place
  // is taken, both wake when it falls free, and both take it.
  lemma OverlappingWaitersOverrun(c: Limits, t: real, u: real, v: real)
    requires c.max == 1 && t <= u <= v < t + c.window
    ensures
      var late := t + c.window;
      exists h ::
        && IsHistory(c, h) && ClockForward(h.events)
        && h.events == [Acquire(t), Acquire(u), Acquire(v), AppendAfterSleep(late), AppendAfterSleep(late)]
        && AllGrants(h) == [t, late, late] && !WithinLimit(c, AllGrants(h))
  {
    var late := t + c.window;
    var h := History(
      [Acquire(t), Acquire(u), Acquire(v), AppendAfterSleep(late), AppendAfterSleep(late)],
      [[], [t], [t], [t], [late], [late, late]],
      [[], [t], [t], [t], [t, late], [t, late, late]]);
    hide After, GrantsAfter, Trim, HasRoom, WithinLimit;
    FirstPlace(c, t);
    SinglePlace(c, t, u, [t]);
    SinglePlace(c, t, v, [t]);
    SinglePlace(c, t, late, [t]);
    SinglePlace(c, late, late, [t, late]);
    assert IsStep(c, h, 0) && IsStep(c, h, 1) && IsStep(c, h, 2);
    assert IsStep(c, h, 3) by {
      assert [t] + [late] == [t, late];
    }
    assert IsStep(c, h, 4) by {
      assert [t, late] + [late] == [t, late, late];
    }
    assert h.events[4].AppendAfterSleep? && !HasRoom(c, h.stamps[4], h.events[4].at);
    OverrunBreaksLimit(c, h, 5);
  }

  // `wait_and_acquire` grants at once or, while some stamp still counts, after a sleep and without
  // looking at the limit again; otherwise it raises.
  predicate WaitGrants(c: Limits, stamps: seq<real>, at: real) {
    HasRoom(c, stamps, at) || Trim(stamps, at - c.window) != []
  }

  // The list after such a call, `woken` being the clock after the sleep.
  function AfterWait(c: Limits, stamps: seq<real>, now: real, woken: real): seq<real> {
    var asked := After(c, stamps, Acquire(now));
    if HasRoom(c, stamps, now) then asked else After(c, asked, AppendAfterSleep(woken))
  }

  // One such call: when it came, and when it woke if it had to sleep.
  datatype WaitCall = WaitCall(now: real, woken: real)

  // The list after a call, or what is left of it if the call raised.
  function AfterCall(c: Limits, stamps: seq<real>, call: WaitCall): seq<real> {
    if WaitGrants(c, stamps, call.now) then AfterWait(c, stamps, call.now, call.woken)
    else Trim(stamps, call.now - c.window)
  }

  function AfterCalls(c: Limits, calls: seq<WaitCall>): seq<real> {
    if calls == [] then []
    else AfterCall(c, AfterCalls(c, calls[..|calls| - 1]), calls[|calls| - 1])
  }

  // The moment at which a call is granted: at once if there is room, else on waking, if ever.
  function GrantOf(c: Limits, stamps: seq<real>, call: WaitCall): seq<real> {
    if HasRoom(c, stamps, call.now) then [call.now]
    else if Trim(stamps, call.now - c.window) != [] then [call.woken]
    else []
  }

  function Granted(c: Limits, calls: seq<WaitCall>): seq<real> {
    if calls == [] then []
    else
      var front := calls[..|calls| - 1];
      Granted(c, front) + GrantOf(c, AfterCalls(c, front), calls[|calls| - 1])
  }

  // Calls one after the other, each of which, if it has to sleep, sleeps as long as it was told.
  predicate AreSerial(c: Limits, calls: seq<WaitCall>) {
    && (forall i :: 0 <= i < |calls| ==> calls[i].now <= calls[i].woken)
    && (forall i, j :: 0 <= i < j < |calls| ==> calls[i].woken <= calls[j].now)
    && (forall i :: 0 <= i < |calls| ==> SleepsEnough(c, AfterCalls(c, calls[..i]), calls[i]))
  }

  predicate SleepsEnough(c: Limits, stamps: seq<real>, call: WaitCall) {
    !HasRoom(c, stamps, call.now) && Trim(stamps, call.now - c.window) != [] ==>
      call.woken >= call.now + WaitTime(c, stamps, call.now)
  }

  // The history goes on with one call, which leaves its list and grants what it is granted.
  ghost predicate GoesOnWith(c: Limits, h: History, call: WaitCall, more: History) {
    && IsHistory(c, more) && WaitsDoNotOverlap(c, more)
    && ClockForward(more.events) && NoEventAfter(more.events, call.woken)
    && LastStamps(more) == AfterCall(c, LastStamps(h), call)
    && AllGrants(more) == AllGrants(h) + GrantOf(c, LastStamps(h), call)
  }

  // A call is one or two critical sections, the second of them a wait that overlaps no other.
  lemma CallMakesHistory(c: Limits, h: History, call: WaitCall)
    requires IsHistory(c, h) && WaitsDoNotOverlap(c, h) && SleepsEnough(c, LastStamps(h), call)
    requires ClockForward(h.events) && NoEventAfter(h.events, call.now) && call.now <= call.woken
    ensures exists more :: GoesOnWith(c, h, call, more)
  {
    hide Trim, HasRoom, WaitTime, IsLoneWait, WaitsDoNotOverlap, IsStep;
    var stamps := LastStamps(h);
    HistoryGoesOn(c, [], h, Acquire(call.now));
    var more := Then(c, h, Acquire(call.now));
    LoneWaitsStay(c, h, Acquire(call.now));
    if !HasRoom(c, stamps, call.now) && Trim(stamps, call.now - c.window) != [] {
      HistoryGoesOn(c, [], more, AppendAfterSleep(call.woken));
      WaitedLongEnough(c, h, call.now, call.woken);
      LoneWaitsStay(c, more, AppendAfterSleep(call.woken));
      more := Then(c, more, AppendAfterSleep(call.woken));
    }
    assert GoesOnWith(c, h, call, more);
  }

  lemma SerialFront(c: Limits, calls: seq<WaitCall>)
    requires AreSerial(c, calls) && calls != []
    ensures
      var front, call := calls[..|calls| - 1], calls[|calls| - 1];
      && AreSerial(c, front) && SleepsEnough(c, AfterCalls(c, front), call) && call.now <= call.woken
      && (front != [] ==> front[|front| - 1].woken <= call.now)
  {
    hide SleepsEnough, AfterCalls;
    var n := |calls| - 1;
    forall i | 0 <= i < n ensures SleepsEnough(c, AfterCalls(c, calls[..n][..i]), calls[..n][i]) {
      assert calls[..n][..i] == calls[..i];
    }
  }

  // A history of waits that do not overlap, and that leaves and grants what the calls do.
  ghost predicate IsHistoryOf(c: Limits, calls: seq<WaitCall>, h: History) {
    && IsHistory(c, h) && WaitsDoNotOverlap(c, h) && ClockForward(h.events)
    && LastStamps(h) == AfterCalls(c, calls) && AllGrants(h) == Granted(c, calls)
    && if calls == [] then h.events == [] else NoEventAfter(h.events, calls[|calls| - 1].woken)
  }

  lemma OneMoreCall(c: Limits, calls: seq<WaitCall>, before: History)
    requires AreSerial(c, calls) && calls != [] && IsHistoryOf(c, calls[..|calls| - 1], before)
    ensures exists h :: IsHistoryOf(c, calls, h)
  {
    hide IsHistory, WaitsDoNotOverlap, ClockForward, AfterCall, GrantOf, SleepsEnough, AreSerial, LastStamps, AllGrants;
    SerialFront(c, calls);
    CallMakesHistory(c, before, calls[|calls| - 1]);
    var h :| GoesOnWith(c, before, calls[|calls| - 1], h);
    assert IsHistoryOf(c, calls, h);
  }

  lemma {:induction false} SerialCallsMakeHistory(c: Limits, calls: seq<WaitCall>)
    requires AreSerial(c, calls)
    ensures exists h :: IsHistoryOf(c, calls, h)
  {
    if calls == [] {
      assert IsHistoryOf(c, [], Begin([]));
    } else {
      hide IsHistoryOf, AreSerial;
      SerialFront(c, calls);
      SerialCallsMakeHistory(c, calls[..|calls| - 1]);
      var before :| IsHistoryOf(c, calls[..|calls| - 1], before);
      OneMoreCall(c, calls, before);
    }
  }

  // So calls of `wait_and_acquire` one after the other keep the limit, whatever the clock says
  // between them: no window holds more than `max` of the moments at which they were granted, and
  // what the list holds of the last window is exactly those.
  lemma SerialCallsKeepLimit(c: Limits, calls: seq<WaitCall>, at: real)
    requires c.window > 0.0 && c.max >= 0 && AreSerial(c, calls)
    requires calls != [] ==> calls[|calls| - 1].woken <= at
    ensures WithinLimit(c, Granted(c, calls))
    ensures Trim(AfterCalls(c, calls), at - c.window) == Trim(Granted(c, calls), at - c.window)
  {
    hide WithinLimit, IsHistory, WaitsDoNotOverlap, Trim, AfterCalls, Granted;
    SerialCallsMakeHistory(c, calls);
    var h :| IsHistoryOf(c, calls, h);
    LoneWaitsKeepLimit(c, h);
    NewestIsLast(c, h, at);
  }

  lemma NewestIsLast(c: Limits, h: History, at: real)
    requires c.window > 0.0 && IsHistory(c, h) && ClockForward(h.events) && NoEventAfter(h.events, at)
    ensures Trim(LastStamps(h), at - c.window) == Trim(AllGrants(h), at - c.window)
  {
    hide Trim, IsStep;
    StampsAreRecentGrants(c, [], h, |h.events|, at);
  }

  class SlidingWindowRateLimiter {
    var limits: Limits
    var timestamps: seq<real>

    constructor (maxRequests: int, windowSeconds: real)
      ensures limits == Limits(maxRequests, windowSeconds) && timestamps == []
    {
      limits, timestamps := Limits(maxRequests, windowSeconds), [];
    }

    // A limit that leaves no room for anything makes the source index an empty list: IndexError.
    method Acquire(now: real) returns (raised: bool, wait: real)
      modifies this`timestamps
      ensures timestamps == After(limits, old(timestamps), Event.Acquire(now))
      ensures raised <==> limits.max <= 0 && timestamps == []
      ensures !raised ==> (wait == 0.0 <==> IsGrant(limits, old(timestamps), Event.Acquire(now)))
      ensures !raised && wait != 0.0 ==>
        timestamps != [] && wait == WaitTime(limits, old(timestamps), now)
      // A refused caller waits until the oldest stamp that counts has left the window.
      ensures !raised && wait != 0.0 ==> timestamps != [] && wait == timestamps[0] + limits.window - now > 0.0
    {
      var cutoff := now - limits.window;
      timestamps := Trim(timestamps, cutoff);
      if |timestamps| < limits.max {
        timestamps := timestamps + [now];
        return false, 0.0;
      }
      if timestamps == [] {
        return true, 0.0;
      }
      RefusedMustWait(limits, old(timestamps), now);
      wait := timestamps[0] + limits.window - now;
      return false, if wait > 0.0 then wait else 0.0;
    }

    // The whole call when nobody else uses the limiter in between; `woken` is the clock after the sleep.
    method WaitAndAcquire(now: real, woken: real) returns (raised: bool)
      modifies this`timestamps
      ensures raised <==> !WaitGrants(limits, old(timestamps), now)
      ensures raised <==> limits.max <= 0 && Trim(old(timestamps), now - limits.window) == []
      ensures timestamps == AfterCall(limits, old(timestamps), WaitCall(now, woken))
      ensures raised ==> timestamps == []
      ensures !raised ==> timestamps != []
      ensures !raised ==>
        timestamps[|timestamps| - 1] ==
          if |Trim(old(timestamps), now - limits.window)| < limits.max then now else woken
    {
      hide Trim;
      var wait;
      raised, wait := Acquire(now);
      if !raised && wait > 0.0 {
        var cutoff := woken - limits.window;
        timestamps := Trim(timestamps, cutoff);
        timestamps := timestamps + [woken];
      }
    }
  }

  // ----- AdaptiveRateLimiter -----

  // Python's int(x).
  function Truncated(x: real): int {
    if x >= 0.0 then x.Floor else -(-x).Floor
  }

  // The limit that a rate per minute gives.
  function FullLimit(rpm: int, safety: real): int {
    Truncated(rpm as real * safety)
  }

  // The whole number next to rate times factor, on the side of nought.
  lemma FullLimitIs(rpm: int, safety: real)
    ensures
      var product, n := rpm as real * safety, FullLimit(rpm, safety) as real;
      if product >= 0.0 then n <= product < n + 1.0 else n - 1.0 < product <= n
  {
    var product := rpm as real * safety;
    assert (-product).Floor as real <= -product < (-product).Floor as real + 1.0;
  }

  // The limit a 429 leaves: half the rate, at least one request per minute, times the safety factor.
  function BackedOff(currentRpm: int, safety: real): int {
    FullLimit(Halved(currentRpm), safety)
  }

  function Halved(currentRpm: int): int {
    if currentRpm >= 2 then currentRpm / 2 else 1
  }

  // max(1, int(rpm * 0.5)), as the source computes it.
  lemma HalvedByFloat(rpm: int)
    ensures
      var half := Truncated(rpm as real * 0.5);
      Halved(rpm) == if half > 1 then half else 1
  {
    if rpm >= 0 {
      assert (rpm as real * 0.5).Floor == rpm / 2 by {
        assert (rpm / 2) as real <= rpm as real * 0.5 < (rpm / 2 + 1) as real;
      }
    } else {
      assert rpm as real * 0.5 < 0.0;
    }
  }

  // A moment at which nothing in the list counts any more.
  function AllExpired(stamps: seq<real>, window: real): real {
    if stamps == [] then 0.0
    else
      var earlier, last := AllExpired(stamps[..|stamps| - 1], window), stamps[|stamps| - 1] + window;
      if last > earlier then last else earlier
  }

  lemma {:induction false} NothingCounts(stamps: seq<real>, window: real, at: real)
    requires at >= AllExpired(stamps, window)
    ensures Trim(stamps, at - window) == []
  {
    if stamps != [] {
      NothingCounts(stamps[..|stamps| - 1], window, at);
    }
  }

  // At some moment from now on `acquire` grants, or `wait_and_acquire` does, if nothing else is called.
  ghost predicate AcquireMayGrant(c: Limits, stamps: seq<real>, now: real) {
    exists at :: at >= now && HasRoom(c, stamps, at)
  }

  ghost predicate WaitMayGrant(c: Limits, stamps: seq<real>, now: real) {
    exists at :: at >= now && WaitGrants(c, stamps, at)
  }

  // `acquire` needs a positive limit; `wait_and_acquire` needs that or a stamp that still counts.
  lemma MayGrantIff(c: Limits, stamps: seq<real>, now: real)
    ensures AcquireMayGrant(c, stamps, now) <==> c.max >= 1
    ensures WaitMayGrant(c, stamps, now) <==> c.max >= 1 || Trim(stamps, now - c.window) != []
  {
    var late := if AllExpired(stamps, c.window) > now then AllExpired(stamps, c.window) else now;
    NothingCounts(stamps, c.window, late);
    if c.max >= 1 {
      assert HasRoom(c, stamps, late) && WaitGrants(c, stamps, late);
    } else {
      assert WaitGrants(c, stamps, now) <==> Trim(stamps, now - c.window) != [];
      forall at | at >= now && Trim(stamps, now - c.window) == [] ensures !WaitGrants(c, stamps, at) {
        TrimTwice(stamps, now - c.window, at - c.window);
      }
    }
  }

  // After a 429, whatever the window limiter holds, `acquire` will grant something again exactly when
  // the backed-off rate survives the safety factor; `wait_and_acquire` will also when some stamp
  // still counts.
  lemma BackedOffLimiterWorksIff(currentRpm: int, safety: real, window: real, stamps: seq<real>, now: real)
    ensures
      var c, survives := Limits(BackedOff(currentRpm, safety), window), Halved(currentRpm) as real * safety >= 1.0;
      && (AcquireMayGrant(c, stamps, now) <==> survives)
      && (WaitMayGrant(c, stamps, now) <==> survives || Trim(stamps, now - window) != [])
  {
    MayGrantIff(Limits(BackedOff(currentRpm, safety), window), stamps, now);
  }

  // With the default safety factor of 0.8 the new limit is positive from a rate of four per minute on.
  lemma DefaultBackOff(currentRpm: int)
    ensures BackedOff(currentRpm, 0.8) >= 0 && (BackedOff(currentRpm, 0.8) >= 1 <==> currentRpm >= 4)
  {
    if currentRpm >= 4 {
      assert Halved(currentRpm) as real * 0.8 >= 1.6;
    } else {
      assert Halved(currentRpm) == 1;
    }
  }

  // Below that the limit is zero. With an empty list every call raises, for good. With one stamp that
  // counts, any number of waiters one after the other are still served.
  lemma ZeroLimitServesWaitersOnly(currentRpm: int, window: real, t: real, n: nat)
    requires currentRpm < 4 && window > 0.0
    ensures
      var c := Limits(BackedOff(currentRpm, 0.8), window);
      && c.max == 0
      && (forall now :: !AcquireMayGrant(c, [], now) && !WaitMayGrant(c, [], now))
      && exists h :: ServedInTurn(c, [t], h, n) && |AllGrants(h)| == 1 + n
  {
    var c := Limits(BackedOff(currentRpm, 0.8), window);
    DefaultBackOff(currentRpm);
    forall now ensures !AcquireMayGrant(c, [], now) && !WaitMayGrant(c, [], now) {
      MayGrantIff(c, [], now);
    }
    LoweredLimitIsNotReached(c, [t], n);
  }

  // The learned rate, and the limit it gives the window limiter.
  datatype Rate = Rate(rpm: int, max: int)

  datatype Update = TooManyRequests | LimitHeader(limit: int)

  // A header changes the rate only if it changes the limit; a 429 changes the limit only.
  function Updated(safety: real, r: Rate, u: Update): Rate {
    match u
    case TooManyRequests => r.(max := BackedOff(r.rpm, safety))
    case LimitHeader(limit) =>
      var newMax := FullLimit(limit, safety);
      if newMax != r.max then Rate(limit, newMax) else r
  }

  function UpdatedBy(safety: real, initialRpm: int, updates: seq<Update>): Rate {
    if updates == [] then Rate(initialRpm, FullLimit(initialRpm, safety))
    else Updated(safety, UpdatedBy(safety, initialRpm, updates[..|updates| - 1]), updates[|updates| - 1])
  }

  // Over any run the limit is that of the learned rate or of half of it.
  lemma {:induction false} LimitIsFullOrHalved(safety: real, initialRpm: int, updates: seq<Update>)
    ensures
      var r := UpdatedBy(safety, initialRpm, updates);
      r.max == FullLimit(r.rpm, safety) || r.max == BackedOff(r.rpm, safety)
  {
    hide BackedOff, FullLimit;
    if updates != [] {
      LimitIsFullOrHalved(safety, initialRpm, updates[..|updates| - 1]);
    }
  }

  // So at any point of a run a further 429 lowers the limit exactly when none has since the limit was
  // last set to the full one, and half the rate gives less: repeated 429s back off once.
  lemma BacksOffOnceIff(safety: real, initialRpm: int, updates: seq<Update>)
    ensures
      var r := UpdatedBy(safety, initialRpm, updates);
      UpdatedBy(safety, initialRpm, updates + [TooManyRequests]).max < r.max <==>
        r.max == FullLimit(r.rpm, safety) && BackedOff(r.rpm, safety) < FullLimit(r.rpm, safety)
    ensures updates != [] && updates[|updates| - 1].TooManyRequests? ==>
      UpdatedBy(safety, initialRpm, updates + [TooManyRequests]) == UpdatedBy(safety, initialRpm, updates)
  {
    hide BackedOff, FullLimit;
    assert (updates + [TooManyRequests])[..|updates|] == updates;
    LimitIsFullOrHalved(safety, initialRpm, updates);
  }

  class AdaptiveRateLimiter {
    const safety: real
    var currentRpm: int
    const windowLimiter: SlidingWindowRateLimiter

    constructor (initialRpm: int, safety: real)
      ensures this.safety == safety && currentRpm == initialRpm && fresh(windowLimiter)
      ensures windowLimiter.limits == Limits(FullLimit(initialRpm, safety), 60.0) && windowLimiter.timestamps == []
    {
      this.safety, currentRpm := safety, initialRpm;
      windowLimiter := new SlidingWindowRateLimiter(FullLimit(initialRpm, safety), 60.0);
    }

    function Learned(): Rate
      reads this, windowLimiter
    {
      Rate(currentRpm, windowLimiter.limits.max)
    }

    // The list and the window stay as they were.
    method UpdateFrom429()
      modifies windowLimiter`limits
      ensures Learned() == Updated(safety, old(Learned()), TooManyRequests)
      ensures currentRpm == old(currentRpm)
      ensures windowLimiter.limits.max == FullLimit(if currentRpm >= 2 then currentRpm / 2 else 1, safety)
      ensures windowLimiter.limits.window == old(windowLimiter.limits.window)
    {
      hide Truncated, FullLimit;
      HalvedByFloat(currentRpm);
      var halved := Truncated(currentRpm as real * 0.5);
      var newRpm := if halved > 1 then halved else 1;
      windowLimiter.limits := windowLimiter.limits.(max := FullLimit(newRpm, safety));
    }

    method UpdateLimit(limit: int)
      modifies this`currentRpm, windowLimiter`limits
      ensures Learned() == Updated(safety, old(Learned()), LimitHeader(limit))
      // A header that leads to the limit in force changes nothing, not even the learned rate.
      ensures windowLimiter.limits.max == FullLimit(limit, safety)
      ensures currentRpm == if windowLimiter.limits.max == old(windowLimiter.limits.max) then old(currentRpm) else limit
      ensures windowLimiter.limits.window == old(windowLimiter.limits.window)
    {
      hide FullLimit;
      var newRpm := FullLimit(limit, safety);
      if newRpm != windowLimiter.limits.max {
        windowLimiter.limits := windowLimiter.limits.(max := newRpm);
        currentRpm := limit;
      }
    }
  }
}
