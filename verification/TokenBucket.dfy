/** TokenBucketRateLimiter: a bucket refilled lazily from a monotonic clock. Rates and times are reals. */
module TokenBucket {

  // `max` and `rate` never change; `tokens` and `last` are the two fields the calls update.
  datatype Limits = Limits(max: int, rate: real)
  datatype Level = Level(tokens: real, last: real)

  // What flows in between two moments.
  function Inflow(c: Limits, from: real, to: real): real {
    (to - from) * c.rate
  }

  function Refilled(c: Limits, b: Level, now: real): Level {
    var filled := b.tokens + Inflow(c, b.last, now);
    Level(if filled < c.max as real then filled else c.max as real, now)
  }

  // One critical section: `acquire`, which empties the bucket when it must refuse, or one attempt
  // of `wait_and_acquire`, which leaves the tokens to accumulate.
  datatype Event = Acquire(at: real, n: int) | Attempt(at: real, n: int)

  predicate IsGranted(c: Limits, b: Level, e: Event) {
    Refilled(c, b, e.at).tokens >= e.n as real
  }

  function Grant(c: Limits, b: Level, e: Event): int {
    if IsGranted(c, b, e) then e.n else 0
  }

  // The seconds a refused caller is told to wait.
  function Shortfall(c: Limits, b: Level, e: Event): real
    requires c.rate != 0.0
  {
    (e.n as real - Refilled(c, b, e.at).tokens) / c.rate
  }

  // A refusal with a zero rate raises ZeroDivisionError, after the refill and before anything else.
  predicate Raises(c: Limits, b: Level, e: Event) {
    !IsGranted(c, b, e) && c.rate == 0.0
  }

  function After(c: Limits, b: Level, e: Event): Level {
    var r := Refilled(c, b, e.at);
    if IsGranted(c, b, e) then r.(tokens := r.tokens - e.n as real)
    else if e.Acquire? && !Raises(c, b, e) then r.(tokens := 0.0)
    else r
  }

  function Run(c: Limits, b: Level, es: seq<Event>): Level
    decreases |es|
  {
    if es == [] then b else Run(c, After(c, b, es[0]), es[1..])
  }

  // The tokens handed out at times in [lo, hi]; a request for a negative number hands some back.
  function GrantedBetween(c: Limits, b: Level, es: seq<Event>, lo: real, hi: real): int
    decreases |es|
  {
    if es == [] then 0
    else
      (if lo <= es[0].at <= hi then Grant(c, b, es[0]) else 0)
      + GrantedBetween(c, After(c, b, es[0]), es[1..], lo, hi)
  }

  predicate ClockForward(from: real, es: seq<Event>)
    decreases |es|
  {
    es == [] || (from <= es[0].at && ClockForward(es[0].at, es[1..]))
  }

  predicate Holds(c: Limits, b: Level) {
    0.0 <= b.tokens <= c.max as real
  }

  lemma ProductSign(x: real, y: real)
    requires x >= 0.0 && y >= 0.0
    ensures x * y >= 0.0 && (x > 0.0 && y > 0.0 ==> x * y > 0.0)
  {
  }

  lemma ProductSum(x: real, y: real, z: real)
    ensures x * z + y * z == (x + y) * z
  {
  }

  lemma InflowSign(c: Limits, from: real, to: real)
    requires c.rate >= 0.0 && from <= to
    ensures Inflow(c, from, to) >= 0.0
  {
    ProductSign(to - from, c.rate);
  }

  lemma InflowAdds(c: Limits, a: real, b: real, d: real)
    requires c.rate >= 0.0 && a <= b <= d
    ensures Inflow(c, a, b) >= 0.0 && Inflow(c, b, d) >= 0.0
    ensures Inflow(c, a, b) + Inflow(c, b, d) == Inflow(c, a, d)
  {
    InflowSign(c, a, b);
    InflowSign(c, b, d);
    InflowSplits(c, a, b, d);
  }

  lemma StepNotNegative(c: Limits, b: Level, e: Event)
    requires 0.0 <= b.tokens && 0 <= c.max && c.rate >= 0.0 && b.last <= e.at
    ensures 0.0 <= Refilled(c, b, e.at).tokens && 0.0 <= After(c, b, e).tokens && After(c, b, e).last == e.at
  {
    InflowAdds(c, b.last, e.at, e.at);
  }

  // A step can only overfill the bucket by handing back more than there is room for.
  lemma StepHoldsIff(c: Limits, b: Level, e: Event)
    requires Holds(c, b) && c.rate >= 0.0 && b.last <= e.at
    ensures Holds(c, After(c, b, e)) <==> e.n >= 0 || Refilled(c, b, e.at).tokens - e.n as real <= c.max as real
    ensures After(c, b, e).last == e.at
  {
    StepNotNegative(c, b, e);
  }

  predicate NothingHandedBack(es: seq<Event>) {
    forall i :: 0 <= i < |es| ==> es[i].n >= 0
  }

  // The bucket never goes below zero and, unless somebody asks for a negative number of tokens,
  // never above its maximum.
  lemma {:induction false} LevelStaysInBounds(c: Limits, b: Level, es: seq<Event>)
    requires Holds(c, b) && c.rate >= 0.0 && ClockForward(b.last, es)
    ensures 0.0 <= Run(c, b, es).tokens
    ensures NothingHandedBack(es) ==> Holds(c, Run(c, b, es))
  {
    RunNotNegative(c, b, es);
    if NothingHandedBack(es) {
      FullAtMost(c, b, es);
    }
  }

  // After every event of the run the level is within its bounds.
  predicate HoldsThroughout(c: Limits, b: Level, es: seq<Event>)
    decreases |es|
  {
    Holds(c, b) && (es == [] || HoldsThroughout(c, After(c, b, es[0]), es[1..]))
  }

  // No event hands back more tokens than the refilled bucket has room for.
  predicate HandedBackFits(c: Limits, b: Level, es: seq<Event>)
    decreases |es|
  {
    es == [] ||
    ((es[0].n >= 0 || Refilled(c, b, es[0].at).tokens - es[0].n as real <= c.max as real)
    && HandedBackFits(c, After(c, b, es[0]), es[1..]))
  }

  // Over a whole run the level stays within its bounds exactly when nobody hands back too much.
  lemma {:induction false} RunHoldsIff(c: Limits, b: Level, es: seq<Event>)
    requires Holds(c, b) && c.rate >= 0.0 && ClockForward(b.last, es)
    ensures HoldsThroughout(c, b, es) <==> HandedBackFits(c, b, es)
    decreases |es|
  {
    hide After, Refilled;
    if es != [] {
      StepHoldsIff(c, b, es[0]);
      if Holds(c, After(c, b, es[0])) {
        RunHoldsIff(c, After(c, b, es[0]), es[1..]);
      } else {
        assert !HoldsThroughout(c, After(c, b, es[0]), es[1..]);
      }
    }
  }

  lemma {:induction false} RunNotNegative(c: Limits, b: Level, es: seq<Event>)
    requires 0.0 <= b.tokens && 0 <= c.max && c.rate >= 0.0 && ClockForward(b.last, es)
    ensures 0.0 <= Run(c, b, es).tokens
    decreases |es|
  {
    if es != [] {
      StepNotNegative(c, b, es[0]);
      RunNotNegative(c, After(c, b, es[0]), es[1..]);
    }
  }

  lemma {:induction false} FullAtMost(c: Limits, b: Level, es: seq<Event>)
    requires Holds(c, b) && c.rate >= 0.0 && ClockForward(b.last, es) && NothingHandedBack(es)
    ensures Holds(c, Run(c, b, es))
    decreases |es|
  {
    if es != [] {
      StepHoldsIff(c, b, es[0]);
      FullAtMost(c, After(c, b, es[0]), es[1..]);
    }
  }

  lemma {:induction false} NothingAfterInterval(c: Limits, b: Level, es: seq<Event>, from: real, lo: real, hi: real)
    requires ClockForward(from, es) && from > hi
    ensures GrantedBetween(c, b, es, lo, hi) == 0
    decreases |es|
  {
    if es != [] {
      NothingAfterInterval(c, After(c, b, es[0]), es[1..], es[0].at, lo, hi);
    }
  }

  // One step hands out no more than was there and flowed in, and no more than a full bucket.
  lemma StepBalance(c: Limits, b: Level, e: Event)
    requires 0.0 <= b.tokens && 0 <= c.max && c.rate >= 0.0 && b.last <= e.at
    ensures Grant(c, b, e) as real + After(c, b, e).tokens <= b.tokens + Inflow(c, b.last, e.at)
    ensures Grant(c, b, e) as real + After(c, b, e).tokens <= c.max as real
  {
    StepNotNegative(c, b, e);
    InflowAdds(c, b.last, e.at, e.at);
  }

  // From a moment inside the interval on, only the present tokens and what flows in can be granted.
  lemma {:induction false} GrantsFromHere(c: Limits, b: Level, es: seq<Event>, lo: real, hi: real)
    requires 0.0 <= b.tokens && 0 <= c.max && c.rate >= 0.0 && ClockForward(b.last, es) && lo <= b.last <= hi
    ensures GrantedBetween(c, b, es, lo, hi) as real <= b.tokens + Inflow(c, b.last, hi)
    decreases |es|
  {
    InflowAdds(c, b.last, hi, hi);
    if es != [] {
      var e, b' := es[0], After(c, b, es[0]);
      if e.at > hi {
        NothingAfterInterval(c, b', es[1..], e.at, lo, hi);
      } else {
        StepNotNegative(c, b, e);
        StepBalance(c, b, e);
        InflowAdds(c, b.last, e.at, hi);
        GrantsFromHere(c, b', es[1..], lo, hi);
      }
    }
  }

  // The limiter's guarantee, for any mixture of calls and any closed interval of time.
  lemma {:induction false} GrantsInInterval(c: Limits, b: Level, es: seq<Event>, lo: real, hi: real)
    requires 0.0 <= b.tokens && 0 <= c.max && c.rate >= 0.0 && ClockForward(b.last, es) && lo <= hi
    ensures GrantedBetween(c, b, es, lo, hi) as real <= c.max as real + Inflow(c, lo, hi)
    decreases |es|
  {
    InflowAdds(c, lo, hi, hi);
    if es != [] {
      var e, b' := es[0], After(c, b, es[0]);
      StepNotNegative(c, b, e);
      if e.at < lo {
        GrantsInInterval(c, b', es[1..], lo, hi);
      } else if e.at > hi {
        NothingAfterInterval(c, b', es[1..], e.at, lo, hi);
      } else {
        StepBalance(c, b, e);
        InflowAdds(c, lo, e.at, hi);
        GrantsFromHere(c, b', es[1..], lo, hi);
      }
    }
  }

  // From an empty bucket: a token at each moment one has flowed in.
  function Drip(c: Limits, from: real, k: nat): seq<Event>
    requires c.rate != 0.0
    decreases k
  {
    if k == 0 then [] else [Attempt(from + 1.0 / c.rate, 1)] + Drip(c, from + 1.0 / c.rate, k - 1)
  }

  lemma OneTokenLater(c: Limits, from: real, hi: real)
    requires c.rate > 0.0 && Inflow(c, from, hi) >= 1.0
    ensures var next := from + 1.0 / c.rate;
      from <= next <= hi && Inflow(c, from, next) == 1.0 && Inflow(c, next, hi) == Inflow(c, from, hi) - 1.0
  {
    hide Inflow;
    var step := 1.0 / c.rate;
    QuotientTimes(1.0, c.rate);
    QuotientSign(1.0, c.rate);
    InflowOf(c, from, step);
    InflowSplits(c, from, from + step, hi);
    if from + step > hi {
      NoTimeNoTokens(c, hi, from + step);
    }
  }

  lemma InflowOf(c: Limits, from: real, time: real)
    ensures Inflow(c, from, from + time) == time * c.rate
  {
    assert from + time - from == time;
  }

  lemma InflowSplits(c: Limits, a: real, b: real, d: real)
    ensures Inflow(c, a, b) + Inflow(c, b, d) == Inflow(c, a, d)
  {
    ProductSum(b - a, d - b, c.rate);
    assert b - a + (d - b) == d - a;
  }

  lemma NoTimeNoTokens(c: Limits, a: real, b: real)
    requires c.rate > 0.0 && a < b
    ensures Inflow(c, a, b) > 0.0 && Inflow(c, b, a) < 0.0
  {
    ProductSign(b - a, c.rate);
    InflowSplits(c, a, b, a);
    assert Inflow(c, a, a) == 0.0;
  }

  lemma {:induction false} DripIsGranted(c: Limits, from: real, k: nat, lo: real, hi: real)
    requires c.max >= 1 && c.rate > 0.0 && lo <= from && k as real <= Inflow(c, from, hi)
    ensures ClockForward(from, Drip(c, from, k))
    ensures GrantedBetween(c, Level(0.0, from), Drip(c, from, k), lo, hi) == k
    decreases k
  {
    if k > 0 {
      var next := from + 1.0 / c.rate;
      OneTokenLater(c, from, hi);
      assert After(c, Level(0.0, from), Attempt(next, 1)) == Level(0.0, next);
      DripIsGranted(c, next, k - 1, lo, hi);
    }
  }

  // The bound is reached, up to the fraction of a token, in every interval and by any bucket that
  // can hold a token: emptied at once when full, and then drained token by token.
  lemma IntervalBoundIsReached(c: Limits, lo: real, hi: real) returns (es: seq<Event>)
    requires c.max >= 1 && c.rate >= 0.0 && lo <= hi
    ensures ClockForward(lo, es)
    ensures GrantedBetween(c, Level(c.max as real, lo), es, lo, hi) == (c.max as real + Inflow(c, lo, hi)).Floor
  {
    InflowSign(c, lo, hi);
    var full, first := Level(c.max as real, lo), Attempt(lo, c.max);
    assert After(c, full, first) == Level(0.0, lo);
    var k := Inflow(c, lo, hi).Floor;
    var rest := if c.rate > 0.0 then Drip(c, lo, k) else [];
    es := [first] + rest;
    assert es[1..] == rest;
    if c.rate > 0.0 {
      DripIsGranted(c, lo, k, lo, hi);
    } else {
      assert Inflow(c, lo, hi) == 0.0;
    }
    assert GrantedBetween(c, Level(0.0, lo), rest, lo, hi) == k;
  }

  // ----- waiting -----

  // The attempts of a single waiter, one for each reading of the clock, until one is granted.
  function Attempts(c: Limits, b: Level, n: int, clock: seq<real>): seq<Event>
    decreases |clock|
  {
    if clock == [] then []
    else
      var e := Attempt(clock[0], n);
      [e] + if IsGranted(c, b, e) then [] else Attempts(c, After(c, b, e), n, clock[1..])
  }

  predicate Served(c: Limits, b: Level, n: int, clock: seq<real>)
    decreases |clock|
  {
    clock != [] && (IsGranted(c, b, Attempt(clock[0], n)) ||
                    Served(c, After(c, b, Attempt(clock[0], n)), n, clock[1..]))
  }

  lemma QuotientTimes(a: real, b: real)
    requires b != 0.0
    ensures a / b * b == a
  {
  }

  lemma QuotientSign(a: real, b: real)
    requires a >= 0.0 && b > 0.0
    ensures a / b >= 0.0
  {
  }

  // Waiting for what is missing to flow in suffices, and does not go back in time.
  lemma WaitCovers(c: Limits, missing: real, now: real, woken: real)
    requires c.rate > 0.0 && missing >= 0.0 && woken >= now + missing / c.rate
    ensures woken >= now && Inflow(c, now, woken) >= missing
  {
    var wait := missing / c.rate;
    QuotientTimes(missing, c.rate);
    QuotientSign(missing, c.rate);
    InflowAdds(c, now, now + wait, woken);
    assert Inflow(c, now, now + wait) == wait * c.rate;
  }

  // A lone waiter that sleeps at least as long as it computed is served at its second attempt,
  // provided it asks for no more than the bucket can hold.
  lemma OneSleepIsEnough(c: Limits, b: Level, n: int, now: real, woken: real)
    requires Holds(c, b) && c.rate > 0.0 && b.last <= now && n <= c.max
    requires !IsGranted(c, b, Attempt(now, n)) && woken >= now + Shortfall(c, b, Attempt(now, n))
    ensures Served(c, b, n, [now, woken])
  {
    var have := Refilled(c, b, now).tokens;
    WaitCovers(c, n as real - have, now, woken);
    assert After(c, b, Attempt(now, n)) == Level(have, now);
    assert [now, woken][1..] == [woken];
    assert Served(c, Level(have, now), n, [woken]);
  }

  // Asking for more than the bucket can hold is never served, however long one waits.
  lemma {:induction false} OversizedIsNeverServed(c: Limits, b: Level, n: int, clock: seq<real>)
    requires n > c.max
    ensures !Served(c, b, n, clock)
    decreases |clock|
  {
    if clock != [] {
      OversizedIsNeverServed(c, After(c, b, Attempt(clock[0], n)), n, clock[1..]);
    }
  }

  // `acquire` tells a refused caller how long to wait, yet it has just emptied the bucket: coming
  // back after exactly that long succeeds only if the bucket had been empty before the call.
  lemma RetryAfterAdvice(c: Limits, b: Level, n: int, now: real)
    requires Holds(c, b) && c.rate > 0.0 && b.last <= now
    requires !IsGranted(c, b, Acquire(now, n))
    ensures
      var e := Acquire(now, n);
      var retry := Acquire(now + Shortfall(c, b, e), n);
      IsGranted(c, After(c, b, e), retry) <==> Refilled(c, b, now).tokens == 0.0 && n <= c.max
  {
    var e := Acquire(now, n);
    var r := Refilled(c, b, now);
    StepNotNegative(c, b, Attempt(now, 0));
    InflowAdds(c, b.last, now, now);
    QuotientTimes(n as real - r.tokens, c.rate);
    assert Shortfall(c, b, e) * c.rate == n as real - r.tokens;
  }

  // A bucket of ten at one token a second holds three when five are asked for: the advice is to
  // wait two seconds, and after two seconds there are two.
  lemma AdviceFallsShort()
    ensures
      var c, b, e := Limits(10, 1.0), Level(3.0, 0.0), Acquire(0.0, 5);
      && !IsGranted(c, b, e) && Shortfall(c, b, e) == 2.0
      && Refilled(c, After(c, b, e), 2.0).tokens == 2.0 && !IsGranted(c, After(c, b, e), Acquire(2.0, 5))
  {
  }

  // Asking a full bucket for minus one token overfills it.
  lemma NegativeRequestOverfills(c: Limits, now: real)
    requires c.max >= 1
    ensures After(c, Level(c.max as real, now), Acquire(now, -1)).tokens == c.max as real + 1.0
  {
  }

  // What a waiter finds in the bucket at each reading of the clock: what it left there, and what has
  // flowed in since, as far as the bucket holds it.
  ghost predicate AreFindings(c: Limits, start: Level, clock: seq<real>, found: seq<real>) {
    && |found| <= |clock|
    && forall i :: 0 <= i < |found| ==>
         var left, since := if i == 0 then start.tokens else found[i - 1], if i == 0 then start.last else clock[i - 1];
         var full := left + (clock[i] - since) * c.rate;
         found[i] == if full < c.max as real then full else c.max as real
  }

  // Every sleep follows on finding too little, and lasts until the rest has flowed in.
  ghost predicate CoverShortfall(c: Limits, n: int, found: seq<real>, sleeps: seq<real>) {
    && |sleeps| <= |found|
    && forall i :: 0 <= i < |sleeps| ==> found[i] < n as real && sleeps[i] * c.rate == n as real - found[i]
  }

  lemma OneMoreFound(c: Limits, n: int, found: seq<real>, sleeps: seq<real>, tokens: real)
    requires CoverShortfall(c, n, found, sleeps)
    ensures CoverShortfall(c, n, found + [tokens], sleeps)
  {
  }

  lemma OneMoreSleep(c: Limits, n: int, found: seq<real>, sleeps: seq<real>)
    requires c.rate != 0.0 && |found| == |sleeps| + 1 && CoverShortfall(c, n, found[..|sleeps|], sleeps)
    requires found[|sleeps|] < n as real
    ensures CoverShortfall(c, n, found, sleeps + [(n as real - found[|sleeps|]) / c.rate])
  {
    var more := sleeps + [(n as real - found[|sleeps|]) / c.rate];
    QuotientTimes(n as real - found[|sleeps|], c.rate);
    forall i | 0 <= i < |more| ensures found[i] < n as real && more[i] * c.rate == n as real - found[i] {
      assert i < |sleeps| ==> found[..|sleeps|][i] == found[i] && more[i] == sleeps[i];
    }
  }

  lemma NothingSlept(c: Limits, n: int)
    ensures CoverShortfall(c, n, [], [])
  {
  }

  lemma OneMoreFinding(c: Limits, start: Level, clock: seq<real>, found: seq<real>, now: Level)
    requires AreFindings(c, start, clock, found) && |found| < |clock|
    requires now == if found == [] then start else Level(found[|found| - 1], clock[|found| - 1])
    ensures AreFindings(c, start, clock, found + [Refilled(c, now, clock[|found|]).tokens])
  {
    var more := found + [Refilled(c, now, clock[|found|]).tokens];
    assert forall i :: 0 <= i < |found| ==> more[i] == found[i];
  }

  class TokenBucketRateLimiter {
    const limits: Limits
    var tokens: real
    var lastRefill: real

    constructor (maxTokens: int, refillRate: real, now: real)
      ensures limits == Limits(maxTokens, refillRate) && Current() == Level(maxTokens as real, now)
    {
      limits := Limits(maxTokens, refillRate);
      tokens, lastRefill := maxTokens as real, now;
    }

    function Current(): Level
      reads this
    {
      Level(tokens, lastRefill)
    }

    method Refill(now: real)
      modifies this
      ensures Current() == Refilled(limits, old(Current()), now)
    {
      var elapsed := now - lastRefill;
      var filled := tokens + elapsed * limits.rate;
      tokens := if filled < limits.max as real then filled else limits.max as real;
      lastRefill := now;
    }

    // `raised` stands for the ZeroDivisionError of a refusal under a zero rate.
    method Acquire(n: int, now: real) returns (raised: bool, wait: real)
      modifies this
      ensures Current() == After(limits, old(Current()), Event.Acquire(now, n))
      ensures raised == Raises(limits, old(Current()), Event.Acquire(now, n))
      ensures !raised ==>
        wait == if IsGranted(limits, old(Current()), Event.Acquire(now, n)) then 0.0
                else Shortfall(limits, old(Current()), Event.Acquire(now, n))
      // The bucket is first filled up, at most to its maximum. A request it covers is taken out; any
      // other empties it and is told how long the missing tokens take to flow in.
      ensures
        var filled := old(tokens) + (now - old(lastRefill)) * limits.rate;
        var full := if filled < limits.max as real then filled else limits.max as real;
        && lastRefill == now
        && if full >= n as real then !raised && wait == 0.0 && tokens == full - n as real
           else if limits.rate == 0.0 then raised && tokens == full
           else !raised && tokens == 0.0 && wait * limits.rate == n as real - full
    {
      Refill(now);
      if tokens >= n as real {
        tokens := tokens - n as real;
        return false, 0.0;
      }
      var needed := n as real - tokens;
      if limits.rate == 0.0 {
        return true, 0.0;
      }
      wait := needed / limits.rate;
      tokens := 0.0;
      raised := false;
    }

    // Runs the waiting loop for as long as the given clock readings last.
    method WaitAndAcquire(n: int, clock: seq<real>)
        returns (served: bool, raised: bool, sleeps: seq<real>, ghost found: seq<real>)
      modifies this
      ensures raised <==> clock != [] && Raises(limits, old(Current()), Attempt(clock[0], n))
      ensures raised ==> Current() == After(limits, old(Current()), Attempt(clock[0], n))
      ensures !raised ==> Current() == Run(limits, old(Current()), Attempts(limits, old(Current()), n, clock))
      ensures !raised ==> served == Served(limits, old(Current()), n, clock)
      ensures !raised ==> |sleeps| == |Attempts(limits, old(Current()), n, clock)| - if served then 1 else 0
      // Each sleep is as long as the missing tokens take to flow in; the waiter is served when there
      // are enough, and takes them.
      ensures AreFindings(limits, old(Current()), clock, found)
      ensures |found| == |sleeps| + if served || raised then 1 else 0
      ensures CoverShortfall(limits, n, found, sleeps)
      ensures served ==>
        found[|sleeps|] >= n as real && Current() == Level(found[|sleeps|] - n as real, clock[|sleeps|])
      ensures !served && !raised ==> |sleeps| == |clock|
    {
      hide Attempts, Served, Run, AreFindings, CoverShortfall, Inflow;
      served, raised, sleeps, found := false, false, [], [];
      NothingTriedYet(limits, Current(), n, clock);
      NothingSlept(limits, n);
      ghost var start := Current();
      ghost var past: seq<Event> := [];
      for i := 0 to |clock|
        invariant !served && !raised && |sleeps| == i == |past|
        invariant i > 0 ==> limits.rate != 0.0
        invariant i == 0 ==> Current() == start
        invariant StillWaiting(limits, start, n, clock, past, Current())
        invariant AreFindings(limits, start, clock, found) && |found| == i
        invariant Current() == if i == 0 then start else Level(found[i - 1], clock[i - 1])
        invariant CoverShortfall(limits, n, found, sleeps)
      {
        ghost var before := Current();
        OneMoreFinding(limits, start, clock, found, before);
        Refill(clock[i]);
        found := found + [tokens];
        if tokens >= n as real {
          WaitIsOver(limits, start, n, clock, past, before);
          OneMoreFound(limits, n, found[..i], sleeps, tokens);
          tokens := tokens - n as real;
          return true, false, sleeps, found;
        }
        if limits.rate == 0.0 {
          OneMoreFound(limits, n, found[..i], sleeps, tokens);
          return false, true, sleeps, found;
        }
        WaitGoesOn(limits, start, n, clock, past, before);
        OneMoreSleep(limits, n, found, sleeps);
        sleeps := sleeps + [(n as real - tokens) / limits.rate];
        past := past + [Attempt(clock[i], n)];
      }
      NothingTriedYet(limits, Current(), n, []);
      assert clock[|past|..] == [] && past + [] == past;
    }
  }

  // After these attempts, all refused, the bucket is at `now` and the rest of the clock decides.
  ghost predicate StillWaiting(c: Limits, start: Level, n: int, clock: seq<real>, past: seq<Event>, now: Level) {
    && |past| <= |clock|
    && Run(c, start, past) == now
    && Served(c, start, n, clock) == Served(c, now, n, clock[|past|..])
    && Attempts(c, start, n, clock) == past + Attempts(c, now, n, clock[|past|..])
  }

  lemma NothingTriedYet(c: Limits, b: Level, n: int, clock: seq<real>)
    ensures StillWaiting(c, b, n, clock, [], b) && AreFindings(c, b, clock, [])
    ensures Attempts(c, b, n, []) == [] && !Served(c, b, n, [])
  {
    assert [] + Attempts(c, b, n, clock) == Attempts(c, b, n, clock);
  }

  lemma RefusedTriesAgain(c: Limits, b: Level, n: int, clock: seq<real>)
    requires clock != [] && !IsGranted(c, b, Attempt(clock[0], n))
    ensures var b' := After(c, b, Attempt(clock[0], n));
      && Served(c, b, n, clock) == Served(c, b', n, clock[1..])
      && Attempts(c, b, n, clock) == [Attempt(clock[0], n)] + Attempts(c, b', n, clock[1..])
  {
  }

  lemma WaitGoesOn(c: Limits, start: Level, n: int, clock: seq<real>, past: seq<Event>, now: Level)
    requires StillWaiting(c, start, n, clock, past, now) && |past| < |clock|
    requires !IsGranted(c, now, Attempt(clock[|past|], n))
    ensures var e := Attempt(clock[|past|], n);
      StillWaiting(c, start, n, clock, past + [e], After(c, now, e))
  {
    var e, rest := Attempt(clock[|past|], n), clock[|past|..];
    RunAppend(c, start, past, e);
    RefusedTriesAgain(c, now, n, rest);
    assert rest[1..] == clock[|past + [e]|..];
    Regroup(past, e, Attempts(c, After(c, now, e), n, rest[1..]));
  }

  lemma Regroup<T>(a: seq<T>, x: T, b: seq<T>)
    ensures a + ([x] + b) == a + [x] + b
  {
  }

  lemma WaitIsOver(c: Limits, start: Level, n: int, clock: seq<real>, past: seq<Event>, now: Level)
    requires StillWaiting(c, start, n, clock, past, now) && |past| < |clock|
    requires IsGranted(c, now, Attempt(clock[|past|], n))
    ensures Served(c, start, n, clock)
    ensures var e := Attempt(clock[|past|], n);
      Attempts(c, start, n, clock) == past + [e] && Run(c, start, past + [e]) == After(c, now, e)
  {
    RunAppend(c, start, past, Attempt(clock[|past|], n));
  }

  lemma {:induction false} RunAppend(c: Limits, b: Level, es: seq<Event>, e: Event)
    ensures Run(c, b, es + [e]) == After(c, Run(c, b, es), e)
    decreases |es|
  {
    if es == [] {
      assert ([e])[1..] == [];
    } else {
      RunAppend(c, After(c, b, es[0]), es[1..], e);
      assert (es + [e])[1..] == es[1..] + [e];
    }
  }
}
