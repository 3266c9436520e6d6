/** PartitionUsage and LongContextRetentionTracker: rounded running averages per zone, and the
    latch that asks for a downgrade. */
module RetentionTracker {

  // ----- the rounded running average -----

  // round(a / n) on the exact quotient, ties to the even neighbour.
  function Round(a: int, n: int): int
    requires n > 0
  {
    var q, rem := a / n, a % n;
    if 2 * rem < n then q
    else if 2 * rem > n then q + 1
    else if q % 2 == 0 then q
    else q + 1
  }

  // The stored average after one more sample, the count-th.
  function NextAverage(stored: int, sample: int, count: int): int
    requires count > 0
  {
    Round(stored * (count - 1) + sample, count)
  }

  function Average(samples: seq<int>): int {
    if samples == [] then 0
    else NextAverage(Average(samples[..|samples| - 1]), samples[|samples| - 1], |samples|)
  }

  function Sum(samples: seq<int>): int {
    if samples == [] then 0 else Sum(samples[..|samples| - 1]) + samples[|samples| - 1]
  }

  // r is the nearest integer to a / n, the even one of two equally near.
  predicate IsNearest(a: int, n: int, r: int) {
    var twice := 2 * (n * r - a);
    -n <= twice <= n && (twice == n || twice == -n ==> r % 2 == 0)
  }

  lemma RoundIsNearest(a: int, n: int)
    requires n > 0
    ensures IsNearest(a, n, Round(a, n))
  {
    var q := a / n;
    assert a == n * q + a % n;
    assert n * (q + 1) == n * q + n;
  }

  lemma Gap(n: int, r: int, s: int)
    requires n > 0 && r > s
    ensures n * r >= n * s + n && (r >= s + 2 ==> n * r >= n * s + 2 * n)
  {
    var d := r - s;
    assert n * r == n * s + d * n;
    ScaledOrder(1, d, n);
    if d >= 2 {
      ScaledOrder(2, d, n);
    }
  }

  lemma NearestIsMonotone(a: int, r: int, b: int, s: int, n: int)
    requires n > 0 && a <= b && IsNearest(a, n, r) && IsNearest(b, n, s)
    ensures r <= s
  {
    if r > s {
      Gap(n, r, s);
    }
  }

  lemma NearestIsRound(a: int, n: int, r: int)
    requires n > 0
    ensures IsNearest(a, n, r) <==> r == Round(a, n)
  {
    RoundIsNearest(a, n);
    if IsNearest(a, n, r) {
      NearestIsMonotone(a, r, a, Round(a, n), n);
      NearestIsMonotone(a, Round(a, n), a, r, n);
    }
  }

  lemma RoundIsMonotone(a: int, b: int, n: int)
    requires n > 0 && a <= b
    ensures Round(a, n) <= Round(b, n)
  {
    RoundIsNearest(a, n);
    RoundIsNearest(b, n);
    NearestIsMonotone(a, Round(a, n), b, Round(b, n), n);
  }

  lemma RoundOfMultiple(k: int, n: int)
    requires n > 0
    ensures Round(k * n, n) == k
  {
    assert 2 * (n * k - k * n) == 0;
    NearestIsRound(k * n, n, k);
  }

  // n times the stored value misses the sum by at most (n - 1)(n + 2) / 4: the average itself is
  // off by at most (n - 1)(n + 2) / (4n).
  lemma {:induction false} AverageError(samples: seq<int>)
    requires samples != []
    ensures
      var n := |samples|;
      var miss := n * Average(samples) - Sum(samples);
      -(n - 1) * (n + 2) <= 4 * miss <= (n - 1) * (n + 2)
  {
    var n, front, last := |samples|, samples[..|samples| - 1], samples[|samples| - 1];
    if n == 1 {
      assert front == [];
      RoundOfMultiple(last, 1);
    } else {
      AverageError(front);
      var exact := Average(front) * (n - 1) + last;
      RoundIsNearest(exact, n);
      MissesAdd(n, Average(front), Sum(front), last, Average(samples));
    }
  }

  lemma MissesAdd(n: int, before: int, sum: int, last: int, after: int)
    requires -n <= 2 * (n * after - (before * (n - 1) + last)) <= n
    requires -(n - 2) * (n + 1) <= 4 * ((n - 1) * before - sum) <= (n - 2) * (n + 1)
    ensures -(n - 1) * (n + 2) <= 4 * (n * after - (sum + last)) <= (n - 1) * (n + 2)
  {
    var rounding, carried := n * after - (before * (n - 1) + last), (n - 1) * before - sum;
    assert n * after - (sum + last) == rounding + carried;
    assert (n - 2) * (n + 1) + 2 * n == (n - 1) * (n + 2);
  }

  lemma {:induction false} AverageStaysBetween(samples: seq<int>, lo: int, hi: int)
    requires samples != [] && forall i :: 0 <= i < |samples| ==> lo <= samples[i] <= hi
    ensures lo <= Average(samples) <= hi
  {
    var n, front, last := |samples|, samples[..|samples| - 1], samples[|samples| - 1];
    if n == 1 {
      assert front == [];
      RoundOfMultiple(last, 1);
    } else {
      AverageStaysBetween(front, lo, hi);
      StepStaysBetween(Average(front), last, n, lo, hi);
    }
  }

  lemma StepStaysBetween(stored: int, sample: int, count: int, lo: int, hi: int)
    requires count > 0 && lo <= sample <= hi && (count > 1 ==> lo <= stored <= hi)
    ensures lo <= NextAverage(stored, sample, count) <= hi
  {
    if count > 1 {
      ScaledOrder(lo, stored, count - 1);
      ScaledOrder(stored, hi, count - 1);
    }
    var exact := stored * (count - 1) + sample;
    assert lo * count == lo * (count - 1) + lo && hi * count == hi * (count - 1) + hi;
    RoundOfMultiple(lo, count);
    RoundOfMultiple(hi, count);
    if count == 1 {
      assert stored * (count - 1) == 0;
    }
    RoundIsMonotone(lo * count, exact, count);
    RoundIsMonotone(exact, hi * count, count);
  }

  lemma ScaledOrder(a: int, b: int, k: int)
    requires a <= b && k >= 0
    ensures a * k <= b * k
  {
  }

  lemma StepKeepsOrder(a: int, b: int, x: int, y: int, count: int)
    requires count > 0 && x <= y && a <= b
    ensures NextAverage(a, x, count) <= NextAverage(b, y, count)
  {
    ScaledOrder(a, b, count - 1);
    RoundIsMonotone(a * (count - 1) + x, b * (count - 1) + y, count);
  }

  // Averages of ordered samples are ordered, rounding or not.
  lemma {:induction false} AverageKeepsOrder(a: seq<int>, b: seq<int>)
    requires |a| == |b| && forall i :: 0 <= i < |a| ==> a[i] <= b[i]
    ensures Average(a) <= Average(b)
  {
    if a != [] {
      AverageKeepsOrder(a[..|a| - 1], b[..|b| - 1]);
      StepKeepsOrder(Average(a[..|a| - 1]), Average(b[..|b| - 1]), a[|a| - 1], b[|b| - 1], |a|);
    }
  }

  // Exactly when a sample leaves the stored average where it is.
  lemma UnmovedIff(stored: int, sample: int, count: int)
    requires count > 0
    ensures NextAverage(stored, sample, count) == stored <==>
      var d := if sample >= stored then sample - stored else stored - sample;
      2 * d < count || (2 * d == count && stored % 2 == 0)
  {
    hide Round;
    var exact := stored * (count - 1) + sample;
    assert count * stored - exact == stored - sample;
    NearestIsRound(exact, count, stored);
  }

  function Repeat(x: int, k: nat): seq<int> {
    if k == 0 then [] else Repeat(x, k - 1) + [x]
  }

  // The next sample of x would leave the average of the samples where it is.
  predicate TooClose(samples: seq<int>, x: int) {
    var stored, n := Average(samples), |samples| + 1;
    var d := if x >= stored then x - stored else stored - x;
    2 * d < n || (2 * d == n && stored % 2 == 0)
  }

  lemma {:induction false} TooCloseStays(samples: seq<int>, x: int, k: nat)
    requires TooClose(samples, x)
    ensures Average(samples + Repeat(x, k)) == Average(samples)
  {
    if k == 0 {
      assert samples + [] == samples;
    } else {
      TooCloseStays(samples, x, k - 1);
      var all := samples + Repeat(x, k);
      assert all[..|all| - 1] == samples + Repeat(x, k - 1) && all[|all| - 1] == x;
      UnmovedIff(Average(samples), x, |all|);
    }
  }

  lemma OneSampleMoves(samples: seq<int>, x: int)
    ensures Average(samples + Repeat(x, 1)) == Average(samples) <==> TooClose(samples, x)
  {
    var once := samples + Repeat(x, 1);
    assert Repeat(x, 1) == Repeat(x, 0) + [x];
    assert once[..|once| - 1] == samples && once[|once| - 1] == x;
    UnmovedIff(Average(samples), x, |samples| + 1);
  }

  // The price of rounding at every step: a new level is never taken over, however often it is
  // sampled, exactly when its first sample is too close to the stored average to move it.
  lemma LateLevelIsIgnoredIff(samples: seq<int>, x: int)
    ensures (forall k: nat :: Average(samples + Repeat(x, k)) == Average(samples)) <==> TooClose(samples, x)
  {
    OneSampleMoves(samples, x);
    if TooClose(samples, x) {
      forall k: nat ensures Average(samples + Repeat(x, k)) == Average(samples) {
        TooCloseStays(samples, x, k);
      }
    }
  }

  lemma {:induction false} RepeatIs(x: int, k: nat)
    ensures |Repeat(x, k)| == k && forall i :: 0 <= i < k ==> Repeat(x, k)[i] == x
  {
    if k > 0 {
      RepeatIs(x, k - 1);
    }
  }

  lemma AverageOfZeros(n: nat)
    ensures Average(Repeat(0, n)) == 0
  {
    RepeatIs(0, n);
    if n > 0 {
      AverageStaysBetween(Repeat(0, n), 0, 0);
    }
  }

  // After n samples of zero a level x, sampled for ever, leaves the average at zero exactly when it
  // is at most half of n + 1: fifty after ninety-nine zeros, or one after a single zero.
  lemma LevelAfterZerosIsIgnoredIff(n: nat, x: nat)
    ensures (forall k: nat :: Average(Repeat(0, n) + Repeat(x, k)) == 0) <==> 2 * x <= n + 1
  {
    hide Average, Repeat, Round;
    RepeatIs(0, n);
    AverageOfZeros(n);
    LateLevelIsIgnoredIff(Repeat(0, n), x);
  }

  // ----- usage of one zone -----

  datatype Usage = Usage(provided: int, referenced: int, count: nat)

  const NO_USAGE := Usage(0, 0, 0)

  function Recorded(u: Usage, provided: int, referenced: int): Usage {
    var n := u.count + 1;
    Usage(NextAverage(u.provided, provided, n), NextAverage(u.referenced, referenced, n), n)
  }

  function RetentionRate(u: Usage): real {
    if u.provided == 0 then 1.0 else u.referenced as real / u.provided as real
  }

  class PartitionUsage {
    const zone: string
    var tokensProvided: int
    var tokensReferenced: int
    var sampleCount: nat

    constructor (zone: string)
      ensures this.zone == zone && View() == NO_USAGE
    {
      this.zone := zone;
      tokensProvided, tokensReferenced, sampleCount := 0, 0, 0;
    }

    function View(): Usage
      reads this
    {
      Usage(tokensProvided, tokensReferenced, sampleCount)
    }

    method Record(provided: int, referenced: int)
      modifies this
      ensures View() == Recorded(old(View()), provided, referenced)
    {
      sampleCount := sampleCount + 1;
      tokensProvided := NextAverage(tokensProvided, provided, sampleCount);
      tokensReferenced := NextAverage(tokensReferenced, referenced, sampleCount);
    }
  }

  // ----- the tracker -----

  const ZONES: seq<string> := ["system", "plan", "execution_high", "execution_mid", "recent", "tail"]
  const OVERALL_THRESHOLD := 0.70
  const TAIL_THRESHOLD := 0.50
  const LOW_LIMIT := 3
  const MAX_HISTORY := 100

  datatype Reason = NoReason | OverallLow(times: nat) | TailLow | RecentLow

  datatype RetentionRecord = RetentionRecord(overall: real, zoneRates: map<string, real>, shouldDowngrade: bool)

  datatype Latch = Latch(low: nat, downgraded: bool, reason: Reason)

  datatype Tracker = Tracker(usages: map<string, Usage>, latch: Latch, history: seq<RetentionRecord>)

  const RELEASED := Latch(0, false, NoReason)

  function TotalProvided(usages: map<string, Usage>, zones: seq<string>): int {
    if zones == [] then 0
    else
      var z := zones[|zones| - 1];
      TotalProvided(usages, zones[..|zones| - 1]) + if z in usages && usages[z].count > 0 then usages[z].provided else 0
  }

  function TotalReferenced(usages: map<string, Usage>, zones: seq<string>): int {
    if zones == [] then 0
    else
      var z := zones[|zones| - 1];
      TotalReferenced(usages, zones[..|zones| - 1]) +
      if z in usages && usages[z].count > 0 then usages[z].referenced else 0
  }

  function OverallRate(usages: map<string, Usage>): real {
    var provided := TotalProvided(usages, ZONES);
    if provided == 0 then 1.0 else TotalReferenced(usages, ZONES) as real / provided as real
  }

  function ZoneRates(usages: map<string, Usage>): map<string, real> {
    map z | z in usages && usages[z].count > 0 :: RetentionRate(usages[z])
  }

  // Zones without a sample have no rate; what nothing was provided for counts as fully retained.
  lemma ZoneRatesAre(usages: map<string, Usage>)
    ensures forall z :: z in ZoneRates(usages) <==> z in usages && usages[z].count > 0
    ensures forall z :: z in ZoneRates(usages) ==>
      if usages[z].provided == 0 then ZoneRates(usages)[z] == 1.0
      else ZoneRates(usages)[z] * usages[z].provided as real == usages[z].referenced as real
  {
    forall z | z in ZoneRates(usages) && usages[z].provided != 0
      ensures ZoneRates(usages)[z] * usages[z].provided as real == usages[z].referenced as real
    {
      QuotientTimes(usages[z].referenced as real, usages[z].provided as real);
    }
  }

  lemma NothingTotalled(usages: map<string, Usage>)
    ensures TotalProvided(usages, ZONES[..0]) == 0 == TotalReferenced(usages, ZONES[..0])
  {
  }

  lemma OneMoreZone(usages: map<string, Usage>, i: nat)
    requires i < |ZONES|
    ensures
      var counts := ZONES[i] in usages && usages[ZONES[i]].count > 0;
      && TotalProvided(usages, ZONES[..i + 1]) ==
           TotalProvided(usages, ZONES[..i]) + (if counts then usages[ZONES[i]].provided else 0)
      && TotalReferenced(usages, ZONES[..i + 1]) ==
           TotalReferenced(usages, ZONES[..i]) + if counts then usages[ZONES[i]].referenced else 0
  {
    assert ZONES[..i + 1][..i] == ZONES[..i];
  }

  // The overall rate relates the sums over the zones.
  lemma OverallRateTimes(usages: map<string, Usage>, provided: int, referenced: int)
    requires provided == TotalProvided(usages, ZONES) && referenced == TotalReferenced(usages, ZONES)
    ensures
      if provided == 0 then OverallRate(usages) == 1.0
      else OverallRate(usages) * provided as real == referenced as real
  {
    hide TotalProvided, TotalReferenced;
    if provided != 0 {
      QuotientTimes(referenced as real, provided as real);
    }
  }

  lemma QuotientTimes(a: real, b: real)
    requires b != 0.0
    ensures a / b * b == a
  {
  }

  // There are six zones, of which those without a sample count for nothing.
  lemma TotalsOfSix(usages: map<string, Usage>)
    ensures
      var p := (z: string) => if z in usages && usages[z].count > 0 then usages[z].provided else 0;
      TotalProvided(usages, ZONES) ==
        p("system") + p("plan") + p("execution_high") + p("execution_mid") + p("recent") + p("tail")
    ensures
      var r := (z: string) => if z in usages && usages[z].count > 0 then usages[z].referenced else 0;
      TotalReferenced(usages, ZONES) ==
        r("system") + r("plan") + r("execution_high") + r("execution_mid") + r("recent") + r("tail")
  {
    hide TotalProvided, TotalReferenced;
    NothingTotalled(usages);
    OneMoreZone(usages, 0);
    OneMoreZone(usages, 1);
    OneMoreZone(usages, 2);
    OneMoreZone(usages, 3);
    OneMoreZone(usages, 4);
    OneMoreZone(usages, 5);
    assert ZONES[..6] == ZONES;
  }

  // What the counter, the latch and the verdict become when a record is checked.
  function CheckDowngrade(latch: Latch, overall: real, rates: map<string, real>): (Latch, bool) {
    var low := if overall < OVERALL_THRESHOLD then latch.low + 1 else 0;
    var counted := latch.(low := low);
    if low >= LOW_LIMIT then (Engage(counted, OverallLow(low)), true)
    else if "tail" in rates && rates["tail"] < TAIL_THRESHOLD then (Engage(counted, TailLow), true)
    else if "recent" in rates && rates["recent"] < TAIL_THRESHOLD then (Engage(counted, RecentLow), true)
    else (counted, false)
  }

  function Engage(latch: Latch, reason: Reason): Latch {
    if latch.downgraded then latch else latch.(downgraded := true, reason := reason)
  }

  // The check in terms of the numbers: three records below 0.70 in a row, or a tail or recent zone
  // below 0.50, call for a downgrade; the first reason is kept.
  lemma CheckDowngradeIs(latch: Latch, overall: real, rates: map<string, real>)
    ensures
      var (after, flagged) := CheckDowngrade(latch, overall, rates);
      var tailLow := "tail" in rates && rates["tail"] < 0.50;
      && after.low == (if overall < 0.70 then latch.low + 1 else 0)
      && (flagged <==> after.low >= 3 || tailLow || ("recent" in rates && rates["recent"] < 0.50))
      && (after.downgraded <==> latch.downgraded || flagged)
      && after.reason ==
           if latch.downgraded || !flagged then latch.reason
           else if after.low >= 3 then OverallLow(after.low) else if tailLow then TailLow else RecentLow
  {
  }

  function LastOf<T>(s: seq<T>, n: nat): seq<T> {
    if |s| > n then s[|s| - n..] else s
  }

  function Fresh(): Tracker {
    Tracker(map z | z in ZONES :: NO_USAGE, RELEASED, [])
  }

  function UsagesAfter(t: Tracker, zone: string, provided: int, referenced: int): map<string, Usage>
    requires zone in t.usages
  {
    t.usages[zone := Recorded(t.usages[zone], provided, referenced)]
  }

  function RecordFor(t: Tracker, usages: map<string, Usage>): RetentionRecord {
    var overall, rates := OverallRate(usages), ZoneRates(usages);
    RetentionRecord(overall, rates, CheckDowngrade(t.latch, overall, rates).1)
  }

  function AfterRecord(t: Tracker, zone: string, provided: int, referenced: int): Tracker {
    if zone !in t.usages then t
    else
      var usages := UsagesAfter(t, zone, provided, referenced);
      var record := RecordFor(t, usages);
      Tracker(usages, CheckDowngrade(t.latch, record.overall, record.zoneRates).0,
              LastOf(t.history + [record], MAX_HISTORY))
  }

  lemma AfterRecordIs(t: Tracker, zone: string, provided: int, referenced: int)
    requires zone in t.usages
    ensures
      var usages := UsagesAfter(t, zone, provided, referenced);
      var overall, rates := OverallRate(usages), ZoneRates(usages);
      AfterRecord(t, zone, provided, referenced) == Tracker(
        usages,
        CheckDowngrade(t.latch, overall, rates).0,
        LastOf(t.history + [RetentionRecord(overall, rates, CheckDowngrade(t.latch, overall, rates).1)], MAX_HISTORY))
  {
  }

  function AfterDowngradeReset(t: Tracker): Tracker {
    t.(latch := RELEASED)
  }

  class LongContextRetentionTracker {
    var usage: map<string, PartitionUsage>
    var consecutiveLow: nat
    var downgraded: bool
    var reason: Reason
    var history: seq<RetentionRecord>

    ghost predicate Valid()
      reads this`usage
    {
      && usage.Keys == (set z | z in ZONES)
      && forall y, z :: y in usage && z in usage && y != z ==> usage[y] != usage[z]
    }

    function Usages(): map<string, Usage>
      reads this`usage, usage.Values
    {
      map z | z in usage :: usage[z].View()
    }

    function View(): Tracker
      reads this, usage.Values
    {
      Tracker(Usages(), LatchView(), history)
    }

    function LatchView(): Latch
      reads this`consecutiveLow, this`downgraded, this`reason
    {
      Latch(consecutiveLow, downgraded, reason)
    }

    static method NewUsages() returns (usage: map<string, PartitionUsage>)
      ensures usage.Keys == (set z | z in ZONES) && forall z :: z in usage ==> fresh(usage[z])
      ensures forall y, z :: y in usage && z in usage && y != z ==> usage[y] != usage[z]
      ensures forall z :: z in usage ==> usage[z].View() == NO_USAGE
    {
      usage := map[];
      for i := 0 to |ZONES|
        invariant usage.Keys == (set z | z in ZONES[..i]) && forall z :: z in usage ==> fresh(usage[z])
        invariant forall y, z :: y in usage && z in usage && y != z ==> usage[y] != usage[z]
        invariant forall z :: z in usage ==> usage[z].View() == NO_USAGE
      {
        var u := new PartitionUsage(ZONES[i]);
        usage := usage[ZONES[i] := u];
        assert ZONES[..i + 1] == ZONES[..i] + [ZONES[i]];
      }
      assert ZONES[..|ZONES|] == ZONES;
    }

    constructor ()
      ensures Valid() && View() == Fresh() && fresh(usage.Values)
    {
      var u := NewUsages();
      usage := u;
      consecutiveLow, downgraded, reason, history := 0, false, NoReason, [];
      new;
      assert Usages() == Fresh().usages;
    }

    method GetOverallRetentionRate() returns (rate: real)
      requires Valid()
      ensures rate == OverallRate(Usages())
    {
      hide TotalProvided, TotalReferenced;
      var provided, referenced := 0, 0;
      NothingTotalled(Usages());
      for i := 0 to |ZONES|
        invariant provided == TotalProvided(Usages(), ZONES[..i])
        invariant referenced == TotalReferenced(Usages(), ZONES[..i])
      {
        OneMoreZone(Usages(), i);
        assert ZONES[i] in usage;
        var u := usage[ZONES[i]];
        if u.sampleCount > 0 {
          provided := provided + u.tokensProvided;
          referenced := referenced + u.tokensReferenced;
        }
      }
      assert ZONES[..|ZONES|] == ZONES;
      rate := if provided == 0 then 1.0 else referenced as real / provided as real;
    }

    method CollectRates() returns (rates: map<string, real>)
      requires Valid()
      ensures rates == ZoneRates(Usages())
    {
      rates := map z | z in usage && usage[z].sampleCount > 0 :: RetentionRate(usage[z].View());
    }

    method CheckAndLatch(overall: real, rates: map<string, real>) returns (flagged: bool)
      modifies this`consecutiveLow, this`downgraded, this`reason
      ensures (LatchView(), flagged) == CheckDowngrade(old(LatchView()), overall, rates)
      ensures consecutiveLow == if overall < 0.70 then old(consecutiveLow) + 1 else 0
      ensures flagged <==>
        || (overall < 0.70 && consecutiveLow >= 3)
        || ("tail" in rates && rates["tail"] < 0.50)
        || ("recent" in rates && rates["recent"] < 0.50)
      ensures downgraded <==> old(downgraded) || flagged
      ensures reason ==
        if old(downgraded) || !flagged then old(reason)
        else if consecutiveLow >= 3 then OverallLow(consecutiveLow)
        else if "tail" in rates && rates["tail"] < 0.50 then TailLow
        else RecentLow
    {
      if overall < OVERALL_THRESHOLD {
        consecutiveLow := consecutiveLow + 1;
        if consecutiveLow >= LOW_LIMIT {
          if !downgraded {
            downgraded, reason := true, OverallLow(consecutiveLow);
          }
          return true;
        }
      } else {
        consecutiveLow := 0;
      }
      var tail := if "tail" in rates then rates["tail"] else 1.0;
      var recent := if "recent" in rates then rates["recent"] else 1.0;
      if tail < TAIL_THRESHOLD {
        if !downgraded {
          downgraded, reason := true, TailLow;
        }
        return true;
      }
      if recent < TAIL_THRESHOLD {
        if !downgraded {
          downgraded, reason := true, RecentLow;
        }
        return true;
      }
      flagged := false;
    }

    method RecordUsage(zone: string, provided: int, referenced: int)
      requires Valid() && zone in usage
      modifies usage[zone]
      ensures Usages() == UsagesAfter(old(View()), zone, provided, referenced)
    {
      usage[zone].Record(provided, referenced);
    }

    method RecordAndRate(zone: string, provided: int, referenced: int) returns (overall: real, rates: map<string, real>)
      requires Valid() && zone in usage
      modifies usage[zone]
      ensures Usages() == UsagesAfter(old(View()), zone, provided, referenced)
      ensures overall == OverallRate(Usages()) && rates == ZoneRates(Usages())
    {
      hide OverallRate, ZoneRates, Recorded, RetentionRate;
      RecordUsage(zone, provided, referenced);
      overall := GetOverallRetentionRate();
      rates := CollectRates();
    }

    method RecordKnown(zone: string, provided: int, referenced: int)
      requires Valid() && zone in usage
      modifies this`consecutiveLow, this`downgraded, this`reason, this`history, usage[zone]
      ensures Usages() == UsagesAfter(old(View()), zone, provided, referenced)
      ensures View() == AfterRecord(old(View()), zone, provided, referenced)
    {
      hide CheckDowngrade, OverallRate, ZoneRates, Recorded, LastOf, AfterRecord, RetentionRate;
      ghost var before := View();
      var overall, rates := RecordAndRate(zone, provided, referenced);
      AppendRecord(overall, rates);
      AfterRecordIs(before, zone, provided, referenced);
    }

    method AppendRecord(overall: real, rates: map<string, real>)
      modifies this`consecutiveLow, this`downgraded, this`reason, this`history
      ensures LatchView() == CheckDowngrade(old(LatchView()), overall, rates).0
      ensures history == LastOf(
        old(history) + [RetentionRecord(overall, rates, CheckDowngrade(old(LatchView()), overall, rates).1)],
        MAX_HISTORY)
    {
      var flagged := CheckAndLatch(overall, rates);
      history := history + [RetentionRecord(overall, rates, flagged)];
      if |history| > MAX_HISTORY {
        history := history[|history| - MAX_HISTORY..];
      }
    }

    method RecordPartition(zone: string, provided: int, referenced: int)
      requires Valid()
      modifies this`consecutiveLow, this`downgraded, this`reason, this`history, usage.Values
      ensures Valid() && View() == AfterRecord(old(View()), zone, provided, referenced)
    {
      if zone in usage {
        RecordKnown(zone, provided, referenced);
      }
    }

    method ResetDowngrade()
      requires Valid()
      modifies this`consecutiveLow, this`downgraded, this`reason
      ensures Valid() && View() == AfterDowngradeReset(old(View()))
    {
      downgraded, reason, consecutiveLow := false, NoReason, 0;
    }

    method Reset()
      modifies this
      ensures Valid() && View() == Fresh() && fresh(usage.Values)
    {
      usage := NewUsages();
      consecutiveLow, downgraded, reason, history := 0, false, NoReason, [];
      assert Usages() == Fresh().usages;
    }
  }

  // ----- whole runs -----

  datatype Event = Sample(zone: string, provided: int, referenced: int) | DowngradeReset | FullReset

  function Step(t: Tracker, e: Event): Tracker {
    match e
    case Sample(zone, provided, referenced) => AfterRecord(t, zone, provided, referenced)
    case DowngradeReset => AfterDowngradeReset(t)
    case FullReset => Fresh()
  }

  function Run(es: seq<Event>): Tracker {
    if es == [] then Fresh() else Step(Run(es[..|es| - 1]), es[|es| - 1])
  }

  // The records an event adds: one, or none for an unknown zone or a reset.
  function NewRecords(t: Tracker, e: Event): seq<RetentionRecord> {
    if e.Sample? && e.zone in t.usages then [RecordFor(t, UsagesAfter(t, e.zone, e.provided, e.referenced))] else []
  }

  // All records since the last full reset, and since the last reset of either kind.
  function Log(es: seq<Event>): seq<RetentionRecord> {
    if es == [] then []
    else
      var front, e := es[..|es| - 1], es[|es| - 1];
      if e.FullReset? then [] else Log(front) + NewRecords(Run(front), e)
  }

  function SinceReset(es: seq<Event>): seq<RetentionRecord> {
    if es == [] then []
    else
      var front, e := es[..|es| - 1], es[|es| - 1];
      if e.Sample? then SinceReset(front) + NewRecords(Run(front), e) else []
  }

  predicate IsLow(r: RetentionRecord) {
    r.overall < OVERALL_THRESHOLD
  }

  predicate ZoneIsLow(r: RetentionRecord, zone: string) {
    zone in r.zoneRates && r.zoneRates[zone] < TAIL_THRESHOLD
  }

  // The length of the run of low records at the end.
  function TrailingLow(rs: seq<RetentionRecord>): nat {
    if rs == [] || !IsLow(rs[|rs| - 1]) then 0 else 1 + TrailingLow(rs[..|rs| - 1])
  }

  ghost predicate IsTrailingLow(rs: seq<RetentionRecord>, n: nat) {
    && n <= |rs|
    && (forall i :: |rs| - n <= i < |rs| ==> IsLow(rs[i]))
    && (n < |rs| ==> !IsLow(rs[|rs| - n - 1]))
  }

  lemma {:induction false} TrailingLowIs(rs: seq<RetentionRecord>)
    ensures IsTrailingLow(rs, TrailingLow(rs))
  {
    if rs != [] && IsLow(rs[|rs| - 1]) {
      TrailingLowIs(rs[..|rs| - 1]);
    }
  }

  // What makes a record call for a downgrade, in terms of the records alone.
  predicate CallsForDowngrade(rs: seq<RetentionRecord>, i: nat)
    requires i < |rs|
  {
    TrailingLow(rs[..i + 1]) >= LOW_LIMIT || ZoneIsLow(rs[i], "tail") || ZoneIsLow(rs[i], "recent")
  }

  ghost predicate LatchFollows(latch: Latch, rs: seq<RetentionRecord>) {
    && latch.low == TrailingLow(rs)
    && (forall i :: 0 <= i < |rs| ==> (rs[i].shouldDowngrade <==> CallsForDowngrade(rs, i)))
    && (latch.downgraded <==> exists i :: 0 <= i < |rs| && rs[i].shouldDowngrade)
    && (latch.downgraded <==> latch.reason != NoReason)
  }

  lemma CheckKeepsLatch(latch: Latch, rs: seq<RetentionRecord>, record: RetentionRecord)
    requires LatchFollows(latch, rs)
    requires record.shouldDowngrade == CheckDowngrade(latch, record.overall, record.zoneRates).1
    ensures LatchFollows(CheckDowngrade(latch, record.overall, record.zoneRates).0, rs + [record])
  {
    hide CheckDowngrade;
    CheckDowngradeIs(latch, record.overall, record.zoneRates);
    var more := rs + [record];
    var latch', flagged := CheckDowngrade(latch, record.overall, record.zoneRates).0, record.shouldDowngrade;
    assert more[..|rs|] == rs && more[..|rs| + 1] == more;
    forall i | 0 <= i < |more| ensures more[i].shouldDowngrade <==> CallsForDowngrade(more, i) {
      if i < |rs| {
        assert more[..i + 1] == rs[..i + 1];
        assert CallsForDowngrade(rs, i) <==> CallsForDowngrade(more, i);
      }
    }
    assert latch'.downgraded == (latch.downgraded || flagged);
    if latch.downgraded {
      var i :| 0 <= i < |rs| && rs[i].shouldDowngrade;
      assert more[i].shouldDowngrade;
    }
    if flagged {
      assert more[|rs|].shouldDowngrade;
    }
  }

  // Over any run of records and resets, the counter is the length of the trailing run of low
  // records, and the latch is set exactly when some record since the last reset called for it:
  // the third low one in a row, or one with a starved tail or recent zone.
  lemma {:induction false} LatchTracksRecords(es: seq<Event>)
    ensures LatchFollows(Run(es).latch, SinceReset(es))
  {
    if es != [] {
      var front, e := es[..|es| - 1], es[|es| - 1];
      LatchTracksRecords(front);
      if e.Sample? {
        if e.zone in Run(front).usages {
          var usages := UsagesAfter(Run(front), e.zone, e.provided, e.referenced);
          CheckKeepsLatch(Run(front).latch, SinceReset(front), RecordFor(Run(front), usages));
        } else {
          assert SinceReset(front) + [] == SinceReset(front);
        }
      }
    }
  }

  lemma {:induction false} HistoryIsRecentLog(es: seq<Event>)
    ensures Run(es).history == LastOf(Log(es), MAX_HISTORY)
  {
    if es != [] {
      var front, e := es[..|es| - 1], es[|es| - 1];
      HistoryIsRecentLog(front);
      if e.Sample? && e.zone in Run(front).usages {
        LastOfAppend(Log(front), NewRecords(Run(front), e)[0], MAX_HISTORY);
      } else {
        assert Log(front) + [] == Log(front);
      }
    }
  }

  // That is the end of the log, and at most a hundred records of it.
  lemma HistoryEndsLog(es: seq<Event>)
    ensures |Run(es).history| == if |Log(es)| < 100 then |Log(es)| else 100
    ensures Run(es).history == Log(es)[|Log(es)| - |Run(es).history|..]
  {
    hide Run, Log;
    HistoryIsRecentLog(es);
  }

  lemma LastOfAppend<T>(s: seq<T>, x: T, n: nat)
    requires n > 0
    ensures LastOf(LastOf(s, n) + [x], n) == LastOf(s + [x], n)
  {
  }

  // The samples a zone has received since the last full reset.
  function SamplesOf(es: seq<Event>, zone: string): seq<(int, int)> {
    if es == [] then []
    else
      var front, e := es[..|es| - 1], es[|es| - 1];
      match e
      case FullReset => []
      case DowngradeReset => SamplesOf(front, zone)
      case Sample(z, p, r) => SamplesOf(front, zone) + if z == zone then [(p, r)] else []
  }

  function Firsts(s: seq<(int, int)>): seq<int> {
    seq(|s|, i requires 0 <= i < |s| => s[i].0)
  }

  function Seconds(s: seq<(int, int)>): seq<int> {
    seq(|s|, i requires 0 <= i < |s| => s[i].1)
  }

  function UsageOf(samples: seq<(int, int)>): Usage {
    Usage(Average(Firsts(samples)), Average(Seconds(samples)), |samples|)
  }

  lemma UsageOfOneMore(samples: seq<(int, int)>, p: int, r: int)
    ensures UsageOf(samples + [(p, r)]) == Recorded(UsageOf(samples), p, r)
  {
    var more := samples + [(p, r)];
    assert Firsts(more)[..|samples|] == Firsts(samples);
    assert Seconds(more)[..|samples|] == Seconds(samples);
  }

  // Each zone's usage is the rounded average of its own samples, whatever happened in between.
  lemma {:induction false} UsageIsAverageOfSamples(es: seq<Event>, zone: string)
    requires zone in ZONES
    ensures zone in Run(es).usages && Run(es).usages[zone] == UsageOf(SamplesOf(es, zone))
  {
    if es != [] {
      var front, e := es[..|es| - 1], es[|es| - 1];
      UsageIsAverageOfSamples(front, zone);
      if e.Sample? && e.zone == zone {
        UsageOfOneMore(SamplesOf(front, zone), e.provided, e.referenced);
      } else if e.Sample? {
        assert SamplesOf(front, zone) + [] == SamplesOf(front, zone);
      }
    }
  }

  predicate SamplesSensible(es: seq<Event>) {
    forall i :: 0 <= i < |es| && es[i].Sample? ==> 0 <= es[i].referenced <= es[i].provided
  }

  predicate UsagesSensible(usages: map<string, Usage>) {
    forall z :: z in usages ==> 0 <= usages[z].referenced <= usages[z].provided
  }

  lemma RecordedIsSensible(u: Usage, provided: int, referenced: int)
    requires 0 <= u.referenced <= u.provided && 0 <= referenced <= provided
    ensures 0 <= Recorded(u, provided, referenced).referenced <= Recorded(u, provided, referenced).provided
  {
    hide Round;
    StepKeepsOrder(u.referenced, u.provided, referenced, provided, u.count + 1);
    ScaledOrder(0, u.referenced, u.count);
    RoundOfMultiple(0, u.count + 1);
    RoundIsMonotone(0, u.referenced * u.count + referenced, u.count + 1);
  }

  lemma {:induction false} SensibleSamplesStaySensible(es: seq<Event>)
    requires SamplesSensible(es)
    ensures UsagesSensible(Run(es).usages)
  {
    hide Recorded;
    if es != [] {
      var front, e := es[..|es| - 1], es[|es| - 1];
      SensibleSamplesStaySensible(front);
      if e.Sample? && e.zone in Run(front).usages {
        RecordedIsSensible(Run(front).usages[e.zone], e.provided, e.referenced);
      }
    }
  }

  lemma {:induction false} TotalsInOrder(usages: map<string, Usage>, zones: seq<string>)
    requires UsagesSensible(usages)
    ensures 0 <= TotalReferenced(usages, zones) <= TotalProvided(usages, zones)
  {
    if zones != [] {
      TotalsInOrder(usages, zones[..|zones| - 1]);
    }
  }

  lemma QuotientInUnit(a: int, b: int)
    requires 0 <= a <= b && b > 0
    ensures 0.0 <= a as real / b as real <= 1.0
  {
  }

  // If no sample refers to more tokens than it provides, no rate ever leaves [0, 1].
  lemma RatesStayInUnit(es: seq<Event>)
    requires SamplesSensible(es)
    ensures 0.0 <= OverallRate(Run(es).usages) <= 1.0
    ensures forall z :: z in Run(es).usages ==> 0.0 <= RetentionRate(Run(es).usages[z]) <= 1.0
  {
    var usages := Run(es).usages;
    SensibleSamplesStaySensible(es);
    TotalsInOrder(usages, ZONES);
    if TotalProvided(usages, ZONES) > 0 {
      QuotientInUnit(TotalReferenced(usages, ZONES), TotalProvided(usages, ZONES));
    }
    forall z | z in usages ensures 0.0 <= RetentionRate(usages[z]) <= 1.0 {
      if usages[z].provided > 0 {
        QuotientInUnit(usages[z].referenced, usages[z].provided);
      }
    }
  }
}
