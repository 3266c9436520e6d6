/** StrategySwitcher.detect_stagnation: is the task going round in circles? */
module StrategySwitch {
  import opened Sequences

  // ----- similarity of two texts -----

  function Jaccard(a: set<string>, b: set<string>): real {
    if a == {} && b == {} then 1.0
    else if a == {} || b == {} then 0.0
    else |a * b| as real / |a + b| as real
  }

  // The tokenizer is any function from texts to sets of tokens.
  function Similarity(tokens: string -> set<string>, x: string, y: string): real {
    if x == "" && y == "" then 1.0
    else if x == "" || y == "" then 0.0
    else Jaccard(tokens(x), tokens(y))
  }

  function Distance(tokens: string -> set<string>, x: string, y: string): real {
    1.0 - Similarity(tokens, x, y)
  }

  lemma SimilarityIsSymmetric(tokens: string -> set<string>, x: string, y: string)
    ensures Similarity(tokens, x, y) == Similarity(tokens, y, x)
  {
    assert tokens(x) * tokens(y) == tokens(y) * tokens(x);
    assert tokens(x) + tokens(y) == tokens(y) + tokens(x);
  }

  // Shared tokens over all tokens; an empty text is like itself alone, and so is one without tokens.
  lemma SimilarityIs(tokens: string -> set<string>, x: string, y: string)
    ensures
      var shared, all := tokens(x) * tokens(y), tokens(x) + tokens(y);
      var similarity := Similarity(tokens, x, y);
      && (x == "" == y ==> similarity == 1.0)
      && ((x == "") != (y == "") ==> similarity == 0.0)
      && (x != "" && y != "" && all == {} ==> similarity == 1.0)
      && (x != "" && y != "" && all != {} ==> similarity * |all| as real == |shared| as real)
  {
    var a, b := tokens(x), tokens(y);
    if a != {} && b != {} {
      assert a + b != {};
      QuotientTimes(|a * b| as real, |a + b| as real);
    } else {
      assert |a * b| == 0 && (a + b == {} ==> a == {} == b);
    }
  }

  lemma QuotientTimes(n: real, d: real)
    requires d != 0.0
    ensures n / d * d == n
  {
  }

  // The number of elements in which two sets differ.
  function Difference(a: set<string>, b: set<string>): nat {
    |a - b| + |b - a|
  }

  lemma UnionSize(a: set<string>, b: set<string>)
    ensures |a + b| == |a * b| + Difference(a, b)
    ensures 2 * |a + b| == |a| + |b| + Difference(a, b)
  {
    assert a == (a - b) + a * b && b == (b - a) + a * b;
    assert a + b == (a - b) + (b - a) + a * b;
  }

  lemma DifferenceTriangle(a: set<string>, b: set<string>, c: set<string>)
    ensures Difference(a, c) <= Difference(a, b) + Difference(b, c)
    ensures |b| <= |c| + Difference(b, c) && |b| <= |a| + Difference(a, b)
  {
    CoveredByTwo(a - c, a - b, b - c);
    CoveredByTwo(c - a, c - b, b - a);
    CoveredByTwo(b, c, b - c);
    CoveredByTwo(b, a, b - a);
  }

  lemma CoveredByTwo(s: set<string>, t: set<string>, u: set<string>)
    requires s <= t + u
    ensures |s| <= |t| + |u|
  {
    SubsetIsSmaller(s, t + u);
    assert |t + u| == |t| + |u| - |t * u|;
  }

  // Jaccard distance in terms of the sizes alone.
  lemma DistanceBySizes(a: set<string>, b: set<string>)
    requires a != {} && b != {}
    ensures |a| + |b| + Difference(a, b) > 0
    ensures 1.0 - Jaccard(a, b) == Ratio(Difference(a, b), |a| + |b|)
  {
    UnionSize(a, b);
    var u, i, d := |a + b| as real, |a * b| as real, Difference(a, b) as real;
    assert u == i + d && u > 0.0;
    PartsOfOne(i, d, u);
    TwiceBoth(d, u);
    assert (|a| + |b| + Difference(a, b)) as real == 2.0 * u;
  }

  // 2d / (s + d)
  function Ratio(d: nat, s: nat): real
    requires s + d > 0
  {
    2.0 * d as real / (s + d) as real
  }

  lemma PartsOfOne(i: real, d: real, u: real)
    requires u > 0.0 && u == i + d
    ensures 1.0 - i / u == d / u
  {
    assert i / u + d / u == (i + d) / u == 1.0;
  }

  lemma TwiceBoth(d: real, u: real)
    requires u > 0.0
    ensures d / u == 2.0 * d / (2.0 * u)
  {
    var q := d / u;
    assert q * u == d;
    assert q * (2.0 * u) == 2.0 * d;
    QuotientIs(2.0 * d, 2.0 * u, q);
  }

  lemma QuotientIs(n: real, d: real, q: real)
    requires d != 0.0 && q * d == n
    ensures n / d == q
  {
  }

  lemma QuotientAtMost(n: real, d: real, k: real)
    requires d > 0.0 && n <= k * d
    ensures n / d <= k
  {
  }

  lemma LargerDenominator(n: real, d: real, e: real)
    requires n >= 0.0 && 0.0 < d <= e
    ensures n / e <= n / d
  {
    var q := n / d;
    assert q * d == n && q >= 0.0;
    assert q * e >= n;
    assert n / e <= q;
  }

  lemma RatioGrows(c: nat, d: nat, s: nat)
    requires c <= d && s > 0
    ensures Ratio(c, s) <= Ratio(d, s)
  {
    var q := Ratio(d, s);
    var S, C, D := s as real, c as real, d as real;
    assert q * (S + D) == 2.0 * D;
    QuotientAtMost(2.0 * D, S + D, 2.0);
    assert q * (S + C) >= 2.0 * C by {
      assert q * (S + C) == 2.0 * D - q * (D - C);
      assert q * (D - C) <= 2.0 * (D - C);
    }
    assert 2.0 * C / (S + C) <= q;
  }

  // The Jaccard distance is a metric; this is its triangle inequality on non-empty sets.
  lemma RatiosAdd(p: nat, q: nat, r: nat, ab: nat, bc: nat, ac: nat)
    requires p > 0 && q > 0 && r > 0
    requires ac <= ab + bc && q <= r + bc && q <= p + ab
    ensures Ratio(ac, p + r) <= Ratio(ab, p + q) + Ratio(bc, q + r)
  {
    RatioGrows(ac, ab + bc, p + r);
    var whole := (p + r + ab + bc) as real;
    var x, y := 2.0 * ab as real, 2.0 * bc as real;
    assert Ratio(ab + bc, p + r) == (x + y) / whole == x / whole + y / whole;
    LargerDenominator(x, (p + q + ab) as real, whole);
    LargerDenominator(y, (q + r + bc) as real, whole);
  }

  lemma JaccardTriangle(a: set<string>, b: set<string>, c: set<string>)
    ensures 1.0 - Jaccard(a, c) <= (1.0 - Jaccard(a, b)) + (1.0 - Jaccard(b, c))
  {
    JaccardInUnit(a, b);
    JaccardInUnit(b, c);
    JaccardInUnit(a, c);
    if a != {} && b != {} && c != {} {
      DistanceBySizes(a, b);
      DistanceBySizes(b, c);
      DistanceBySizes(a, c);
      DifferenceTriangle(a, b, c);
      RatiosAdd(|a|, |b|, |c|, Difference(a, b), Difference(b, c), Difference(a, c));
    }
  }

  lemma JaccardInUnit(a: set<string>, b: set<string>)
    ensures 0.0 <= Jaccard(a, b) <= 1.0
    ensures Jaccard(a, b) == 1.0 <==> a == b
  {
    if a != {} && b != {} {
      UnionSize(a, b);
      var i, u := |a * b| as real, |a + b| as real;
      FractionInUnit(i, u);
      if Difference(a, b) == 0 {
        assert a - b == {} && b - a == {};
        assert a == b;
      }
    }
  }

  lemma FractionInUnit(i: real, u: real)
    requires 0.0 <= i <= u && u > 0.0
    ensures 0.0 <= i / u <= 1.0
    ensures i / u == 1.0 <==> i == u
  {
  }

  // On all texts, the empty one included.
  lemma DistanceTriangle(tokens: string -> set<string>, x: string, y: string, z: string)
    ensures Distance(tokens, x, z) <= Distance(tokens, x, y) + Distance(tokens, y, z)
    ensures 0.0 <= Distance(tokens, x, z) <= 1.0
  {
    JaccardTriangle(tokens(x), tokens(y), tokens(z));
    JaccardInUnit(tokens(x), tokens(y));
    JaccardInUnit(tokens(y), tokens(z));
    JaccardInUnit(tokens(x), tokens(z));
  }

  predicate NeighboursSimilar(tokens: string -> set<string>, texts: seq<string>, threshold: real) {
    forall i :: 0 <= i < |texts| - 1 ==> Similarity(tokens, texts[i], texts[i + 1]) >= threshold
  }

  // How far apart texts may be that lie `steps` neighbours apart.
  function Allowance(steps: nat, threshold: real): real {
    steps as real * (1.0 - threshold)
  }

  lemma OneStepMore(steps: nat, threshold: real)
    ensures Allowance(steps + 1, threshold) == Allowance(steps, threshold) + (1.0 - threshold)
    ensures Allowance(0, threshold) == 0.0
  {
  }

  // Similar neighbours keep any two texts of the row within the sum of the steps between them.
  lemma {:induction false} NeighboursBoundAll(tokens: string -> set<string>, texts: seq<string>, threshold: real,
                                              i: nat, j: nat)
    requires NeighboursSimilar(tokens, texts, threshold) && i <= j < |texts|
    ensures Distance(tokens, texts[i], texts[j]) <= Allowance(j - i, threshold)
    decreases j - i
  {
    OneStepMore(if i < j then j - i - 1 else 0, threshold);
    if i == j {
      JaccardInUnit(tokens(texts[i]), tokens(texts[i]));
    } else {
      NeighboursBoundAll(tokens, texts, threshold, i, j - 1);
      DistanceTriangle(tokens, texts[i], texts[j - 1], texts[j]);
      assert Similarity(tokens, texts[j - 1], texts[j - 1 + 1]) >= threshold;
    }
  }

  // ----- detection -----

  // What the detection reads of a phase result.
  datatype RecentResult = RecentResult(text: string, touchesFiles: bool, success: bool)

  datatype Settings = Settings(stagnationThreshold: int, noProgressThreshold: int, similarityThreshold: real)

  datatype Verdict = SimilarResults | NoFiles(steps: nat) | Failures(times: nat) | SimilarSteps | NotStagnant

  // The slice s[-n:] of the source, for any integer n.
  function Tail<T>(s: seq<T>, n: int): seq<T> {
    if n > 0 then (if n <= |s| then s[|s| - n..] else s)
    else (if -n <= |s| then s[-n..] else [])
  }

  function NonEmptyTexts(results: seq<RecentResult>): seq<string> {
    if results == [] then []
    else
      var last := results[|results| - 1];
      NonEmptyTexts(results[..|results| - 1]) + if last.text != "" then [last.text] else []
  }

  // The length of the longest suffix whose members all have the property.
  function Trailing(results: seq<RecentResult>, p: RecentResult -> bool): nat {
    if results == [] || !p(results[|results| - 1]) then 0 else 1 + Trailing(results[..|results| - 1], p)
  }

  lemma {:induction false} TrailingIsLongestSuffix(results: seq<RecentResult>, p: RecentResult -> bool)
    ensures
      var n := Trailing(results, p);
      && n <= |results|
      && (forall i :: |results| - n <= i < |results| ==> p(results[i]))
      && (n < |results| ==> !p(results[|results| - n - 1]))
  {
    if results != [] && p(results[|results| - 1]) {
      TrailingIsLongestSuffix(results[..|results| - 1], p);
    }
  }

  function WithoutFiles(): RecentResult -> bool {
    (r: RecentResult) => !r.touchesFiles
  }

  function Failed(): RecentResult -> bool {
    (r: RecentResult) => !r.success
  }

  function Detect(tokens: string -> set<string>, s: Settings, results: seq<RecentResult>, steps: seq<string>): Verdict {
    var n := s.stagnationThreshold;
    var texts, recent := NonEmptyTexts(Tail(results, n)), Tail(steps, n);
    var idle, failures := Trailing(results, WithoutFiles()), Trailing(results, Failed());
    if |results| >= n && |texts| >= n && NeighboursSimilar(tokens, texts, s.similarityThreshold) then SimilarResults
    else if idle >= s.noProgressThreshold then NoFiles(idle)
    else if failures >= n then Failures(failures)
    else if |steps| >= n && |recent| >= n && NeighboursSimilar(tokens, recent, s.similarityThreshold) then SimilarSteps
    else NotStagnant
  }

  method CollectTexts(results: seq<RecentResult>) returns (texts: seq<string>)
    ensures texts == NonEmptyTexts(results)
  {
    texts := [];
    for i := 0 to |results|
      invariant texts == NonEmptyTexts(results[..i])
    {
      assert results[..i + 1][..i] == results[..i];
      if results[i].text != "" {
        texts := texts + [results[i].text];
      }
    }
    assert results[..|results|] == results;
  }

  method AllSimilar(tokens: string -> set<string>, texts: seq<string>, threshold: real) returns (similar: bool)
    ensures similar == NeighboursSimilar(tokens, texts, threshold)
  {
    for i := 0 to |texts| - (if texts == [] then 0 else 1)
      invariant forall k :: 0 <= k < i ==> Similarity(tokens, texts[k], texts[k + 1]) >= threshold
    {
      if Similarity(tokens, texts[i], texts[i + 1]) < threshold {
        return false;
      }
    }
    similar := true;
  }

  method CountTrailing(results: seq<RecentResult>, p: RecentResult -> bool) returns (count: nat)
    ensures count == Trailing(results, p)
  {
    count := 0;
    assert results[..|results|] == results;
    while count < |results| && p(results[|results| - 1 - count])
      invariant 0 <= count <= |results|
      invariant Trailing(results, p) == count + Trailing(results[..|results| - count], p)
    {
      ghost var rest := results[..|results| - count];
      assert rest[..|rest| - 1] == results[..|results| - (count + 1)];
      count := count + 1;
    }
  }

  method DetectStagnation(tokens: string -> set<string>, s: Settings, results: seq<RecentResult>, steps: seq<string>)
      returns (verdict: Verdict)
    ensures verdict == Detect(tokens, s, results, steps)
  {
    var n := s.stagnationThreshold;
    if |results| >= n {
      var texts := CollectTexts(Tail(results, n));
      if |texts| >= n {
        var similar := AllSimilar(tokens, texts, s.similarityThreshold);
        if similar {
          return SimilarResults;
        }
      }
    }
    var idle := CountTrailing(results, WithoutFiles());
    if idle >= s.noProgressThreshold {
      return NoFiles(idle);
    }
    var failures := CountTrailing(results, Failed());
    if failures >= n {
      return Failures(failures);
    }
    if |steps| >= n {
      var recent := Tail(steps, n);
      if |recent| >= n {
        var similar := AllSimilar(tokens, recent, s.similarityThreshold);
        if similar {
          return SimilarSteps;
        }
      }
    }
    verdict := NotStagnant;
  }

  // ----- what a verdict means -----

  lemma {:induction false} NonEmptyTextsOf(results: seq<RecentResult>)
    ensures |NonEmptyTexts(results)| <= |results|
    ensures |NonEmptyTexts(results)| == |results| <==> forall i :: 0 <= i < |results| ==> results[i].text != ""
    ensures |NonEmptyTexts(results)| == |results| ==>
      forall i :: 0 <= i < |results| ==> NonEmptyTexts(results)[i] == results[i].text
  {
    if results != [] {
      NonEmptyTextsOf(results[..|results| - 1]);
    }
  }

  lemma FewerStepsAllowLess(fewer: nat, more: nat, threshold: real)
    requires fewer <= more && threshold <= 1.0
    ensures Allowance(fewer, threshold) <= Allowance(more, threshold)
  {
  }

  // When the first check fires, all of the last N results have a text, and neighbours are similar.
  lemma FiringMeans(tokens: string -> set<string>, s: Settings, results: seq<RecentResult>, steps: seq<string>)
      returns (texts: seq<string>)
    requires s.stagnationThreshold >= 2 && Detect(tokens, s, results, steps) == SimilarResults
    ensures |texts| == s.stagnationThreshold <= |results| && NeighboursSimilar(tokens, texts, s.similarityThreshold)
    ensures forall k :: 0 <= k < |texts| ==> texts[k] == results[|results| - s.stagnationThreshold + k].text != ""
  {
    var recent := Tail(results, s.stagnationThreshold);
    NonEmptyTextsOf(recent);
    texts := NonEmptyTexts(recent);
  }

  // The first check speaks up exactly when all of the last N results have a text and each is at
  // least as similar to the next as the threshold asks.
  lemma SimilarResultsIff(tokens: string -> set<string>, s: Settings, results: seq<RecentResult>, steps: seq<string>)
    requires s.stagnationThreshold >= 1
    ensures
      var first := |results| - s.stagnationThreshold;
      Detect(tokens, s, results, steps) == SimilarResults <==>
        && first >= 0 && (forall i :: first <= i < |results| ==> results[i].text != "")
        && forall i, j :: first <= i < |results| - 1 && j == i + 1 ==>
             Similarity(tokens, results[i].text, results[j].text) >= s.similarityThreshold
  {
    hide Similarity;
    var first := |results| - s.stagnationThreshold;
    if first >= 0 {
      var recent := Tail(results, s.stagnationThreshold);
      assert recent == results[first..];
      NonEmptyTextsOf(recent);
      forall i | first <= i < |results| ensures recent[i - first] == results[i] {
      }
      if forall i :: first <= i < |results| ==> results[i].text != "" {
        RecentNeighbours(tokens, results, first, s.similarityThreshold);
      } else {
        assert |NonEmptyTexts(recent)| < |recent|;
      }
    }
  }

  lemma RecentNeighbours(tokens: string -> set<string>, results: seq<RecentResult>, first: nat, threshold: real)
    requires first <= |results| && forall i :: first <= i < |results| ==> results[i].text != ""
    ensures NeighboursSimilar(tokens, NonEmptyTexts(results[first..]), threshold) <==>
      forall i, j :: first <= i < |results| - 1 && j == i + 1 ==>
        Similarity(tokens, results[i].text, results[j].text) >= threshold
  {
    hide Similarity;
    NonEmptyTextsOf(results[first..]);
    var texts := NonEmptyTexts(results[first..]);
    assert |texts| == |results| - first;
    forall i | first <= i < |results| ensures texts[i - first] == results[i].text {
      assert results[first..][i - first] == results[i];
    }
    if NeighboursSimilar(tokens, texts, threshold) {
      forall i, j | first <= i < |results| - 1 && j == i + 1
        ensures Similarity(tokens, results[i].text, results[j].text) >= threshold
      {
        assert Similarity(tokens, texts[i - first], texts[i - first + 1]) >= threshold;
      }
    }
    if forall i, j :: first <= i < |results| - 1 && j == i + 1 ==>
        Similarity(tokens, results[i].text, results[j].text) >= threshold {
      forall k | 0 <= k < |texts| - 1 ensures Similarity(tokens, texts[k], texts[k + 1]) >= threshold {
        assert Similarity(tokens, results[first + k].text, results[first + k + 1].text) >= threshold;
      }
    }
  }

  // The last check does the same with the descriptions of the last N steps.
  lemma SimilarStepsIff(tokens: string -> set<string>, s: Settings, results: seq<RecentResult>, steps: seq<string>)
    requires s.stagnationThreshold >= 1
    ensures
      var verdict, first := Detect(tokens, s, results, steps), |steps| - s.stagnationThreshold;
      verdict == SimilarSteps || verdict == NotStagnant ==>
        (verdict == SimilarSteps <==>
           && first >= 0
           && forall i, j :: first <= i < |steps| - 1 && j == i + 1 ==>
                Similarity(tokens, steps[i], steps[j]) >= s.similarityThreshold)
  {
    hide Similarity, NonEmptyTexts;
    var first := |steps| - s.stagnationThreshold;
    if first >= 0 {
      var recent := Tail(steps, s.stagnationThreshold);
      assert recent == steps[first..];
      if NeighboursSimilar(tokens, recent, s.similarityThreshold) {
        forall i, j | first <= i < |steps| - 1 && j == i + 1
          ensures Similarity(tokens, steps[i], steps[j]) >= s.similarityThreshold
        {
          assert Similarity(tokens, recent[i - first], recent[i - first + 1]) >= s.similarityThreshold;
        }
      }
      if forall i, j :: first <= i < |steps| - 1 && j == i + 1 ==>
          Similarity(tokens, steps[i], steps[j]) >= s.similarityThreshold {
        forall k | 0 <= k < |recent| - 1
          ensures Similarity(tokens, recent[k], recent[k + 1]) >= s.similarityThreshold
        {
          assert Similarity(tokens, steps[first + k], steps[first + k + 1]) >= s.similarityThreshold;
        }
      }
    }
  }

  // The longest row of results at the end that touch no file has the reported length; and the
  // verdict is given exactly when that row is long enough, unless the results are too similar.
  lemma NoFilesMeans(tokens: string -> set<string>, s: Settings, results: seq<RecentResult>, steps: seq<string>)
    ensures
      var verdict := Detect(tokens, s, results, steps);
      && (verdict.NoFiles? ==>
            && verdict.steps <= |results|
            && (forall i :: |results| - verdict.steps <= i < |results| ==> !results[i].touchesFiles)
            && (verdict.steps < |results| ==> results[|results| - verdict.steps - 1].touchesFiles))
      && (verdict != SimilarResults ==>
            (verdict.NoFiles? <==>
               && s.noProgressThreshold <= |results|
               && forall i :: |results| - s.noProgressThreshold <= i < |results| ==> !results[i].touchesFiles))
  {
    hide NeighboursSimilar, Tail;
    TrailingIsLongestSuffix(results, WithoutFiles());
  }

  // Likewise for failures, which are looked at when some file was touched lately.
  lemma FailuresMean(tokens: string -> set<string>, s: Settings, results: seq<RecentResult>, steps: seq<string>)
    ensures
      var verdict := Detect(tokens, s, results, steps);
      && (verdict.Failures? ==>
            && verdict.times <= |results|
            && (forall i :: |results| - verdict.times <= i < |results| ==> !results[i].success)
            && (verdict.times < |results| ==> results[|results| - verdict.times - 1].success))
      && (verdict != SimilarResults && !verdict.NoFiles? ==>
            (verdict.Failures? <==>
               && s.stagnationThreshold <= |results|
               && forall i :: |results| - s.stagnationThreshold <= i < |results| ==> !results[i].success))
  {
    hide NeighboursSimilar, Tail;
    TrailingIsLongestSuffix(results, Failed());
  }

  // Firing on the last N results, N >= 2: all N have a text, and although only neighbours were
  // compared, any two of them are within (N - 1)(1 - threshold) of each other.
  lemma FiringBoundsEveryPair(tokens: string -> set<string>, s: Settings, results: seq<RecentResult>,
                              steps: seq<string>, i: nat, j: nat)
    requires s.stagnationThreshold >= 2 && s.similarityThreshold <= 1.0
    requires Detect(tokens, s, results, steps) == SimilarResults
    requires |results| - s.stagnationThreshold <= i < j < |results|
    ensures results[i].text != "" && results[j].text != ""
    ensures Distance(tokens, results[i].text, results[j].text) <=
      Allowance(s.stagnationThreshold - 1, s.similarityThreshold)
  {
    var texts := FiringMeans(tokens, s, results, steps);
    var first := |results| - s.stagnationThreshold;
    assert texts[i - first] == results[i].text && texts[j - first] == results[j].text;
    NeighboursBoundAll(tokens, texts, s.similarityThreshold, i - first, j - first);
    FewerStepsAllowLess(j - i, s.stagnationThreshold - 1, s.similarityThreshold);
  }

  // The fourth check does the same with the step descriptions.
  lemma SimilarStepsBoundEveryPair(tokens: string -> set<string>, s: Settings, results: seq<RecentResult>,
                                   steps: seq<string>, i: nat, j: nat)
    requires s.stagnationThreshold >= 2 && s.similarityThreshold <= 1.0
    requires Detect(tokens, s, results, steps) == SimilarSteps
    requires |steps| - s.stagnationThreshold <= i < j < |steps|
    ensures Distance(tokens, steps[i], steps[j]) <= Allowance(s.stagnationThreshold - 1, s.similarityThreshold)
  {
    var recent, first := Tail(steps, s.stagnationThreshold), |steps| - s.stagnationThreshold;
    assert recent[i - first] == steps[i] && recent[j - first] == steps[j];
    NeighboursBoundAll(tokens, recent, s.similarityThreshold, i - first, j - first);
    FewerStepsAllowLess(j - i, s.stagnationThreshold - 1, s.similarityThreshold);
  }

  lemma HalfAlike(few: set<string>, more: set<string>)
    requires |few| == 2 && |more| == 4 && few <= more
    ensures Jaccard(few, more) == 0.5 && Jaccard(more, few) == 0.5
  {
    assert few * more == few && few + more == more && more * few == few && more + few == more;
  }

  // The bound is sharp: of three texts, say "a b", "a b c d" and "c d", the neighbours are half
  // alike and the ends share nothing.
  lemma NeighboursDoNotMakeAllAlike(tokens: string -> set<string>, first: RecentResult, second: RecentResult,
                                    third: RecentResult)
    requires first.text != "" && second.text != "" && third.text != ""
    requires |tokens(first.text)| == 2 == |tokens(third.text)| && tokens(first.text) * tokens(third.text) == {}
    requires tokens(second.text) == tokens(first.text) + tokens(third.text)
    ensures Detect(tokens, Settings(3, 5, 0.5), [first, second, third], []) == SimilarResults
    ensures Distance(tokens, first.text, third.text) == 1.0 == Allowance(2, 0.5)
  {
    var results := [first, second, third];
    var a, c := tokens(first.text), tokens(third.text);
    assert |a + c| == 4;
    HalfAlike(a, a + c);
    HalfAlike(c, a + c);
    assert Tail(results, 3) == results;
    NonEmptyTextsOf(results);
    assert NonEmptyTexts(results) == [first.text, second.text, third.text];
  }

  // A threshold of one compares nothing: any last result with a text counts as stagnation.
  lemma ThresholdOneFiresOnAnyText(tokens: string -> set<string>, s: Settings, results: seq<RecentResult>,
                                   steps: seq<string>)
    requires s.stagnationThreshold == 1
    ensures Detect(tokens, s, results, steps) == SimilarResults <==> results != [] && results[|results| - 1].text != ""
  {
    if results != [] {
      var recent := Tail(results, 1);
      assert recent == [results[|results| - 1]] && recent[..0] == [];
      NonEmptyTextsOf(recent);
    }
  }

  // A threshold below one, of either kind, can never be silent: whatever the results and steps,
  // stagnation is reported, on the very first call already.
  lemma ThresholdBelowOneAlwaysFires(tokens: string -> set<string>, s: Settings, results: seq<RecentResult>,
                                     steps: seq<string>)
    requires s.stagnationThreshold <= 0 || s.noProgressThreshold <= 0
    ensures Detect(tokens, s, results, steps) != NotStagnant
  {
  }

  lemma NothingDoneIsNotStagnant(tokens: string -> set<string>, s: Settings)
    requires s.stagnationThreshold >= 1 && s.noProgressThreshold >= 1
    ensures Detect(tokens, s, [], []) == NotStagnant
  {
  }

  // The detector can tell progress from stagnation exactly when both thresholds are at least one.
  lemma SilenceIsPossibleIff(tokens: string -> set<string>, s: Settings)
    ensures (exists results, steps :: Detect(tokens, s, results, steps) == NotStagnant) <==>
      s.stagnationThreshold >= 1 && s.noProgressThreshold >= 1
  {
    hide Detect;
    if s.stagnationThreshold >= 1 && s.noProgressThreshold >= 1 {
      NothingDoneIsNotStagnant(tokens, s);
    } else {
      forall results, steps ensures Detect(tokens, s, results, steps) != NotStagnant {
        ThresholdBelowOneAlwaysFires(tokens, s, results, steps);
      }
    }
  }
}
