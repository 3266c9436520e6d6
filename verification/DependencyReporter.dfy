/** DependencyReporter.generate_report: all callers of what a task rewrites, or a refusal. */
module DependencyReporter {
  import opened Sequences

  const MAX_REPORT_BUDGET := 15000

  // A line of the report; only snippet lines are charged to the budget.
  datatype Line =
    | Heading(symbol: string, file: string)
    | Count(callers: nat)
    | Snippet(caller: string, file: string, code: string)

  datatype Report = Explosion | NoneFound | Lines(lines: seq<Line>)

  // What the reporter asks of the file system, the index, the graph and the token counter.
  datatype World = World(
    isFile: string -> bool,
    symbolsIn: string -> seq<string>,
    callersOf: string -> seq<string>,
    fileOf: map<string, string>,
    context: (string, string) -> string,
    cost: Line -> nat)

  // ----- what belongs in the report, in no particular order -----

  predicate IsExternal(w: World, file: string, caller: string) {
    caller in w.fileOf && w.fileOf[caller] != file
  }

  function ExternalCallers(w: World, file: string, callers: seq<string>): seq<string> {
    if callers == [] then []
    else
      var last := callers[|callers| - 1];
      ExternalCallers(w, file, callers[..|callers| - 1]) + if IsExternal(w, file, last) then [last] else []
  }

  // The snippet line of a caller, if the graph knows it and its context is not empty.
  function SnippetOf(w: World, caller: string): seq<Line> {
    if caller !in w.fileOf || w.context(w.fileOf[caller], caller) == "" then []
    else [Snippet(caller, w.fileOf[caller], w.context(w.fileOf[caller], caller))]
  }

  function SnippetsOf(w: World, callers: seq<string>): seq<Line> {
    if callers == [] then []
    else SnippetsOf(w, callers[..|callers| - 1]) + SnippetOf(w, callers[|callers| - 1])
  }

  lemma {:induction false} ExternalCallersAre(w: World, file: string, callers: seq<string>)
    ensures forall c ::
      multiset(ExternalCallers(w, file, callers))[c] ==
        (if c in w.fileOf && w.fileOf[c] != file then multiset(callers)[c] else 0)
  {
    if callers != [] {
      ExternalCallersAre(w, file, callers[..|callers| - 1]);
      assert callers == callers[..|callers| - 1] + [callers[|callers| - 1]];
    }
  }

  lemma {:induction false} SnippetsOfAre(w: World, callers: seq<string>, c: string, file: string, code: string)
    ensures Snippet(c, file, code) in SnippetsOf(w, callers) <==>
      c in callers && c in w.fileOf && w.fileOf[c] == file && w.context(file, c) == code != ""
  {
    if callers != [] {
      var front, last := callers[..|callers| - 1], callers[|callers| - 1];
      SnippetsOfAre(w, front, c, file, code);
      assert callers == front + [last];
    }
  }

  function SymbolSnippets(w: World, file: string, symbol: string): seq<Line> {
    SnippetsOf(w, ExternalCallers(w, file, w.callersOf(symbol)))
  }

  function FileSnippets(w: World, file: string, symbols: seq<string>): seq<Line> {
    if symbols == [] then []
    else FileSnippets(w, file, symbols[..|symbols| - 1]) + SymbolSnippets(w, file, symbols[|symbols| - 1])
  }

  function AllSnippets(w: World, files: seq<string>): seq<Line> {
    if files == [] then []
    else
      var file := files[|files| - 1];
      AllSnippets(w, files[..|files| - 1]) + if w.isFile(file) then FileSnippets(w, file, w.symbolsIn(file)) else []
  }

  lemma SymbolSnippetsAre(w: World, file: string, symbol: string, c: string, its: string, code: string)
    ensures Snippet(c, its, code) in SymbolSnippets(w, file, symbol) <==>
      && c in w.fileOf && w.fileOf[c] == its != file && w.context(its, c) == code != ""
      && c in w.callersOf(symbol)
  {
    var callers := w.callersOf(symbol);
    ExternalCallersAre(w, file, callers);
    SnippetsOfAre(w, ExternalCallers(w, file, callers), c, its, code);
    assert c in ExternalCallers(w, file, callers) <==> multiset(ExternalCallers(w, file, callers))[c] > 0;
    assert c in callers <==> multiset(callers)[c] > 0;
  }

  lemma {:induction false} FileSnippetsAre(w: World, file: string, symbols: seq<string>, c: string, its: string,
                                           code: string)
    ensures Snippet(c, its, code) in FileSnippets(w, file, symbols) <==>
      && c in w.fileOf && w.fileOf[c] == its != file && w.context(its, c) == code != ""
      && exists symbol :: symbol in symbols && c in w.callersOf(symbol)
  {
    hide SymbolSnippets;
    if symbols != [] {
      var front, last := symbols[..|symbols| - 1], symbols[|symbols| - 1];
      FileSnippetsAre(w, file, front, c, its, code);
      SymbolSnippetsAre(w, file, last, c, its, code);
      assert symbols == front + [last];
    }
  }

  // The caller mentions a symbol of the file.
  ghost predicate CallsInto(w: World, c: string, file: string) {
    exists symbol :: symbol in w.symbolsIn(file) && c in w.callersOf(symbol)
  }

  lemma {:induction false} AllSnippetsAre(w: World, files: seq<string>, c: string, its: string, code: string)
    ensures Snippet(c, its, code) in AllSnippets(w, files) <==>
      && c in w.fileOf && w.fileOf[c] == its && w.context(its, c) == code != ""
      && exists file :: file in files && file != its && w.isFile(file) && CallsInto(w, c, file)
  {
    hide FileSnippets, CallsInto;
    if files != [] {
      var front, last := files[..|files| - 1], files[|files| - 1];
      AllSnippetsAre(w, front, c, its, code);
      FileSnippetsAreCalls(w, last, c, its, code);
      assert files == front + [last];
    }
  }

  lemma FileSnippetsAreCalls(w: World, file: string, c: string, its: string, code: string)
    ensures Snippet(c, its, code) in FileSnippets(w, file, w.symbolsIn(file)) <==>
      && c in w.fileOf && w.fileOf[c] == its != file && w.context(its, c) == code != ""
      && CallsInto(w, c, file)
  {
    FileSnippetsAre(w, file, w.symbolsIn(file), c, its, code);
  }

  predicate FileIsCalled(w: World, file: string, symbols: seq<string>) {
    exists k :: 0 <= k < |symbols| && ExternalCallers(w, file, w.callersOf(symbols[k])) != []
  }

  // Something outside calls into one of the files.
  predicate IsCalled(w: World, files: seq<string>) {
    exists k :: 0 <= k < |files| && w.isFile(files[k]) && FileIsCalled(w, files[k], w.symbolsIn(files[k]))
  }

  function Cost(w: World, lines: seq<Line>): nat {
    if lines == [] then 0 else Cost(w, lines[..|lines| - 1]) + w.cost(lines[|lines| - 1])
  }

  lemma {:induction false} CostAdds(w: World, a: seq<Line>, b: seq<Line>)
    ensures Cost(w, a + b) == Cost(w, a) + Cost(w, b)
  {
    if b == [] {
      assert a + b == a;
    } else {
      assert (a + b)[..|a + b| - 1] == a + b[..|b| - 1];
      CostAdds(w, a, b[..|b| - 1]);
    }
  }

  // The charge does not depend on the order of the lines.
  lemma {:induction false} CostPermutes(w: World, a: seq<Line>, b: seq<Line>)
    requires multiset(a) == multiset(b)
    ensures Cost(w, a) == Cost(w, b)
    decreases |a|
  {
    if a != [] {
      var left, right := SplitPermutation(a, b);
      var last := a[|a| - 1];
      CostPermutes(w, a[..|a| - 1], left + right);
      CostAdds(w, left, right);
      CostAdds(w, left + [last], right);
      CostAdds(w, left, [last]);
      assert [last][..0] == [];
    } else {
      PermutationSameElements(a, b);
    }
  }

  // ----- sorting by importance -----

  function Importance(w: World, caller: string): nat {
    |w.callersOf(caller)|
  }

  function InsertByImportance(w: World, sorted: seq<string>, caller: string): seq<string> {
    if sorted == [] || Importance(w, sorted[|sorted| - 1]) >= Importance(w, caller) then sorted + [caller]
    else InsertByImportance(w, sorted[..|sorted| - 1], caller) + [sorted[|sorted| - 1]]
  }

  // list.sort(key=importance, reverse=True): descending, equal ones in their old order.
  function SortByImportance(w: World, callers: seq<string>): seq<string> {
    if callers == [] then []
    else InsertByImportance(w, SortByImportance(w, callers[..|callers| - 1]), callers[|callers| - 1])
  }

  lemma {:induction false} InsertPermutes(w: World, sorted: seq<string>, caller: string)
    ensures multiset(InsertByImportance(w, sorted, caller)) == multiset(sorted + [caller])
  {
    if sorted != [] {
      assert sorted == sorted[..|sorted| - 1] + [sorted[|sorted| - 1]];
      InsertPermutes(w, sorted[..|sorted| - 1], caller);
    }
  }

  lemma {:induction false} SortPermutes(w: World, callers: seq<string>)
    ensures multiset(SortByImportance(w, callers)) == multiset(callers)
  {
    if callers != [] {
      assert callers == callers[..|callers| - 1] + [callers[|callers| - 1]];
      SortPermutes(w, callers[..|callers| - 1]);
      InsertPermutes(w, SortByImportance(w, callers[..|callers| - 1]), callers[|callers| - 1]);
    }
  }

  ghost predicate IsDescending(w: World, callers: seq<string>) {
    forall i, j :: 0 <= i < j < |callers| ==> Importance(w, callers[i]) >= Importance(w, callers[j])
  }

  lemma {:induction false} InsertKeepsDescending(w: World, sorted: seq<string>, caller: string)
    requires IsDescending(w, sorted)
    ensures IsDescending(w, InsertByImportance(w, sorted, caller))
  {
    if sorted != [] && Importance(w, sorted[|sorted| - 1]) < Importance(w, caller) {
      var front, last := sorted[..|sorted| - 1], sorted[|sorted| - 1];
      InsertKeepsDescending(w, front, caller);
      InsertPermutes(w, front, caller);
      var r := InsertByImportance(w, front, caller);
      PermutationSameElements(r, front + [caller]);
      forall i | 0 <= i < |r| ensures Importance(w, r[i]) >= Importance(w, last) {
        assert r[i] in front + [caller];
      }
    }
  }

  // The most called callers come first.
  lemma {:induction false} SortIsDescending(w: World, callers: seq<string>)
    ensures IsDescending(w, SortByImportance(w, callers))
  {
    if callers != [] {
      SortIsDescending(w, callers[..|callers| - 1]);
      InsertKeepsDescending(w, SortByImportance(w, callers[..|callers| - 1]), callers[|callers| - 1]);
    }
  }

  lemma {:induction false} SnippetsAdd(w: World, a: seq<string>, b: seq<string>)
    ensures SnippetsOf(w, a + b) == SnippetsOf(w, a) + SnippetsOf(w, b)
  {
    if b == [] {
      assert a + b == a;
    } else {
      assert (a + b)[..|a + b| - 1] == a + b[..|b| - 1];
      SnippetsAdd(w, a, b[..|b| - 1]);
    }
  }

  lemma {:induction false} SnippetsPermute(w: World, a: seq<string>, b: seq<string>)
    requires multiset(a) == multiset(b)
    ensures multiset(SnippetsOf(w, a)) == multiset(SnippetsOf(w, b))
    decreases |a|
  {
    PermutationSameElements(a, b);
    if a != [] {
      var left, right := SplitPermutation(a, b);
      var last := a[|a| - 1];
      SnippetsPermute(w, a[..|a| - 1], left + right);
      SnippetsAdd(w, left, right);
      SnippetsAdd(w, left + [last], right);
      var before := SnippetsOf(w, left);
      assert SnippetsOf(w, left + [last]) == before + SnippetOf(w, last) by {
        assert (left + [last])[..|left|] == left;
      }
      SwapParts(before, SnippetOf(w, last), SnippetsOf(w, right));
    }
  }

  lemma SwapParts<T>(a: seq<T>, b: seq<T>, c: seq<T>)
    ensures multiset(a + b + c) == multiset(a + c) + multiset(b)
  {
  }

  // ----- the report -----

  function OnlySnippets(lines: seq<Line>): seq<Line> {
    if lines == [] then []
    else
      var last := lines[|lines| - 1];
      OnlySnippets(lines[..|lines| - 1]) + if last.Snippet? then [last] else []
  }

  lemma {:induction false} OnlySnippetsAdd(a: seq<Line>, b: seq<Line>)
    ensures OnlySnippets(a + b) == OnlySnippets(a) + OnlySnippets(b)
  {
    if b == [] {
      assert a + b == a;
    } else {
      assert (a + b)[..|a + b| - 1] == a + b[..|b| - 1];
      OnlySnippetsAdd(a, b[..|b| - 1]);
    }
  }

  lemma {:induction false} SnippetsAreSnippets(w: World, callers: seq<string>)
    ensures OnlySnippets(SnippetsOf(w, callers)) == SnippetsOf(w, callers)
  {
    if callers != [] {
      var front, last := callers[..|callers| - 1], callers[|callers| - 1];
      SnippetsAreSnippets(w, front);
      OnlySnippetsAdd(SnippetsOf(w, front), SnippetOf(w, last));
      if SnippetOf(w, last) != [] {
        assert SnippetOf(w, last)[..0] == [];
      }
    }
  }

  lemma OneMoreSnippet(w: World, callers: seq<string>, n: nat)
    requires n < |callers|
    ensures SnippetsOf(w, callers[..n + 1]) == SnippetsOf(w, callers[..n]) + SnippetOf(w, callers[n])
    ensures Cost(w, SnippetsOf(w, callers[..n + 1])) ==
      Cost(w, SnippetsOf(w, callers[..n])) + Cost(w, SnippetOf(w, callers[n]))
    ensures Cost(w, SnippetsOf(w, callers[..n + 1])) <= Cost(w, SnippetsOf(w, callers))
  {
    hide Cost;
    assert callers[n] in callers && callers[..n + 1][..n] == callers[..n];
    CostAdds(w, SnippetsOf(w, callers[..n]), SnippetOf(w, callers[n]));
    assert callers == callers[..n + 1] + callers[n + 1..];
    SnippetsAdd(w, callers[..n + 1], callers[n + 1..]);
    CostAdds(w, SnippetsOf(w, callers[..n + 1]), SnippetsOf(w, callers[n + 1..]));
  }

  lemma SnippetCost(w: World, caller: string)
    ensures var snippet := SnippetOf(w, caller); Cost(w, snippet) == if snippet == [] then 0 else w.cost(snippet[0])
  {
    var snippet := SnippetOf(w, caller);
    if snippet != [] {
      assert snippet[..0] == [];
    }
  }

  // The sections of a complete report.
  function SymbolSection(w: World, file: string, symbol: string): seq<Line> {
    var callers := ExternalCallers(w, file, w.callersOf(symbol));
    if callers == [] then []
    else
      var sorted := SortByImportance(w, callers);
      [Heading(symbol, file), Count(|callers|)] + SnippetsOf(w, sorted)
  }

  function FileSections(w: World, file: string, symbols: seq<string>): seq<Line> {
    if symbols == [] then []
    else FileSections(w, file, symbols[..|symbols| - 1]) + SymbolSection(w, file, symbols[|symbols| - 1])
  }

  function FullReport(w: World, files: seq<string>): seq<Line> {
    if files == [] then []
    else
      var file := files[|files| - 1];
      FullReport(w, files[..|files| - 1]) + if w.isFile(file) then FileSections(w, file, w.symbolsIn(file)) else []
  }

  // The first i callers have been added and paid for.
  ghost predicate Reported(w: World, callers: seq<string>, i: nat, lines: seq<Line>, tokens: nat, lines': seq<Line>,
                           tokens': nat)
    requires i <= |callers|
  {
    && tokens' == tokens + Cost(w, SnippetsOf(w, callers[..i])) <= MAX_REPORT_BUDGET
    && lines' == lines + SnippetsOf(w, callers[..i])
  }

  lemma OneMoreCaller(w: World, callers: seq<string>, i: nat, lines: seq<Line>, tokens: nat, lines': seq<Line>,
                      tokens': nat)
    requires i < |callers| && Reported(w, callers, i, lines, tokens, lines', tokens')
    ensures
      var snippet := SnippetOf(w, callers[i]);
      if snippet == [] then Reported(w, callers, i + 1, lines, tokens, lines', tokens')
      else if tokens' + w.cost(snippet[0]) > MAX_REPORT_BUDGET then
        tokens + Cost(w, SnippetsOf(w, callers)) > MAX_REPORT_BUDGET
      else Reported(w, callers, i + 1, lines, tokens, lines' + snippet, tokens' + w.cost(snippet[0]))
  {
    hide SnippetsOf, SnippetOf, Cost;
    OneMoreSnippet(w, callers, i);
    SnippetCost(w, callers[i]);
    assert SnippetOf(w, callers[i]) == [] ==>
      SnippetsOf(w, callers[..i + 1]) == SnippetsOf(w, callers[..i]);
  }

  // The innermost loop: appends snippets until one would break the budget.
  method ReportCallers(w: World, callers: seq<string>, lines: seq<Line>, tokens: nat)
      returns (lines': seq<Line>, tokens': nat, exploded: bool)
    requires tokens <= MAX_REPORT_BUDGET
    ensures exploded <==> tokens + Cost(w, SnippetsOf(w, callers)) > MAX_REPORT_BUDGET
    ensures tokens' <= MAX_REPORT_BUDGET
    ensures !exploded ==> Reported(w, callers, |callers|, lines, tokens, lines', tokens')
  {
    lines', tokens' := lines, tokens;
    for i := 0 to |callers|
      invariant Reported(w, callers, i, lines, tokens, lines', tokens')
    {
      OneMoreCaller(w, callers, i, lines, tokens, lines', tokens');
      var snippet := SnippetOf(w, callers[i]);
      if snippet != [] {
        if tokens' + w.cost(snippet[0]) > MAX_REPORT_BUDGET {
          return lines', tokens', true;
        }
        lines', tokens' := lines' + snippet, tokens' + w.cost(snippet[0]);
      }
    }
    assert callers[..|callers|] == callers;
    exploded := false;
  }

  // What a part of the run has added to the report: exactly its section, unless its snippets
  // break the budget.
  ghost predicate Added(w: World, lines: seq<Line>, tokens: nat, lines': seq<Line>, tokens': nat, exploded: bool,
                        section: seq<Line>, snippets: seq<Line>)
  {
    && tokens' <= MAX_REPORT_BUDGET
    && (exploded <==> tokens + Cost(w, snippets) > MAX_REPORT_BUDGET)
    && (!exploded ==> tokens' == tokens + Cost(w, snippets) && lines' == lines + section)
  }

  // Sorting changes neither the snippets nor what they cost.
  lemma SortedSnippets(w: World, callers: seq<string>)
    ensures multiset(SnippetsOf(w, SortByImportance(w, callers))) == multiset(SnippetsOf(w, callers))
    ensures Cost(w, SnippetsOf(w, SortByImportance(w, callers))) == Cost(w, SnippetsOf(w, callers))
  {
    SortPermutes(w, callers);
    SnippetsPermute(w, callers, SortByImportance(w, callers));
    CostPermutes(w, SnippetsOf(w, callers), SnippetsOf(w, SortByImportance(w, callers)));
  }

  lemma SectionSnippets(w: World, file: string, symbol: string)
    ensures multiset(OnlySnippets(SymbolSection(w, file, symbol))) == multiset(SymbolSnippets(w, file, symbol))
  {
    var callers := ExternalCallers(w, file, w.callersOf(symbol));
    if callers != [] {
      var headings := [Heading(symbol, file), Count(|callers|)];
      SortedSnippets(w, callers);
      HeadingsAreFree(symbol, file, |callers|);
      OnlySnippetsAdd(headings, SnippetsOf(w, SortByImportance(w, callers)));
      SnippetsAreSnippets(w, SortByImportance(w, callers));
      assert SymbolSection(w, file, symbol) == headings + SnippetsOf(w, SortByImportance(w, callers));
    }
  }

  // The places in a list of callers at which one stands that the graph knows in another file.
  function Elsewhere(w: World, file: string, callers: seq<string>): set<nat> {
    set k: nat | k < |callers| && callers[k] in w.fileOf && w.fileOf[callers[k]] != file
  }

  lemma OneMoreElsewhere(w: World, file: string, front: seq<string>, last: string)
    ensures |Elsewhere(w, file, front + [last])| ==
      |Elsewhere(w, file, front)| + if IsExternal(w, file, last) then 1 else 0
  {
    if IsExternal(w, file, last) {
      assert Elsewhere(w, file, front + [last]) == Elsewhere(w, file, front) + {|front|};
    } else {
      assert Elsewhere(w, file, front + [last]) == Elsewhere(w, file, front);
    }
  }

  lemma {:induction false} ExternalCallersCount(w: World, file: string, callers: seq<string>)
    ensures |ExternalCallers(w, file, callers)| == |Elsewhere(w, file, callers)|
  {
    if callers != [] {
      hide Elsewhere, IsExternal;
      var front, last := callers[..|callers| - 1], callers[|callers| - 1];
      ExternalCallersCount(w, file, front);
      OneMoreElsewhere(w, file, front, last);
      assert callers == front + [last];
    } else {
      assert Elsewhere(w, file, callers) == {};
    }
  }

  // A symbol with outside callers has a section: its name and file, how many such callers there
  // are, and their snippets, the most called caller first. A symbol without any has none.
  lemma SectionIs(w: World, file: string, symbol: string)
    ensures
      var section, n := SymbolSection(w, file, symbol), |Elsewhere(w, file, w.callersOf(symbol))|;
      if n == 0 then section == []
      else
        && |section| >= 2 && section[0] == Heading(symbol, file) && section[1] == Count(n)
        && (forall i :: 2 <= i < |section| ==> section[i].Snippet?)
        && forall i, j :: 2 <= i < j < |section| ==>
             |w.callersOf(section[i].caller)| >= |w.callersOf(section[j].caller)|
  {
    var callers := ExternalCallers(w, file, w.callersOf(symbol));
    ExternalCallersCount(w, file, w.callersOf(symbol));
    if callers != [] {
      var sorted := SortByImportance(w, callers);
      SortIsDescending(w, callers);
      SnippetsKeepOrder(w, sorted);
      var section, snippets := SymbolSection(w, file, symbol), SnippetsOf(w, sorted);
      assert forall i :: 2 <= i < |section| ==> section[i] == snippets[i - 2];
    }
  }

  lemma {:induction false} SnippetsKeepOrder(w: World, callers: seq<string>)
    requires IsDescending(w, callers)
    ensures forall i :: 0 <= i < |SnippetsOf(w, callers)| ==>
      SnippetsOf(w, callers)[i].Snippet? && SnippetsOf(w, callers)[i].caller in callers
    ensures forall i, j :: 0 <= i < j < |SnippetsOf(w, callers)| ==>
      Importance(w, SnippetsOf(w, callers)[i].caller) >= Importance(w, SnippetsOf(w, callers)[j].caller)
  {
    if callers != [] {
      SnippetsKeepOrder(w, callers[..|callers| - 1]);
    }
  }

  lemma HeadingsAreFree(symbol: string, file: string, n: nat)
    ensures OnlySnippets([Heading(symbol, file), Count(n)]) == []
  {
    var one := [Heading(symbol, file)];
    var two := [Heading(symbol, file), Count(n)];
    assert two[..1] == one && one[..0] == [];
    assert OnlySnippets(one) == [];
  }

  method CollectExternalCallers(w: World, file: string, callers: seq<string>) returns (external: seq<string>)
    ensures external == ExternalCallers(w, file, callers)
  {
    external := [];
    for i := 0 to |callers|
      invariant external == ExternalCallers(w, file, callers[..i])
    {
      assert callers[..i + 1][..i] == callers[..i];
      if callers[i] !in w.fileOf {
        continue;
      }
      if w.fileOf[callers[i]] != file {
        external := external + [callers[i]];
      }
    }
    assert callers[..|callers|] == callers;
  }

  lemma NoSnippets(w: World)
    ensures SnippetsOf(w, []) == [] && Cost(w, []) == 0
  {
  }

  method ReportSymbol(w: World, file: string, symbol: string, lines: seq<Line>, tokens: nat)
      returns (lines': seq<Line>, tokens': nat, exploded: bool)
    requires tokens <= MAX_REPORT_BUDGET
    ensures Added(w, lines, tokens, lines', tokens', exploded, SymbolSection(w, file, symbol),
                  SymbolSnippets(w, file, symbol))
  {
    hide ExternalCallers, SortByImportance, SnippetsOf, Cost;
    var callers := CollectExternalCallers(w, file, w.callersOf(symbol));
    if callers == [] {
      NoSnippets(w);
      return lines, tokens, false;
    }
    SortedSnippets(w, callers);
    var sorted := SortByImportance(w, callers);
    var headings := [Heading(symbol, file), Count(|callers|)];
    assert SymbolSection(w, file, symbol) == headings + SnippetsOf(w, sorted);
    assert SymbolSnippets(w, file, symbol) == SnippetsOf(w, callers);
    lines', tokens', exploded := ReportCallers(w, sorted, lines + headings, tokens);
    assert sorted[..|sorted|] == sorted;
    assert lines + headings + SnippetsOf(w, sorted) == lines + (headings + SnippetsOf(w, sorted));
  }

  lemma AddedTwice(w: World, lines: seq<Line>, tokens: nat, lines1: seq<Line>, tokens1: nat, section1: seq<Line>,
                   snippets1: seq<Line>, lines2: seq<Line>, tokens2: nat, exploded: bool,
                   section2: seq<Line>, snippets2: seq<Line>)
    requires Added(w, lines, tokens, lines1, tokens1, false, section1, snippets1)
    requires Added(w, lines1, tokens1, lines2, tokens2, exploded, section2, snippets2)
    ensures Added(w, lines, tokens, lines2, tokens2, exploded, section1 + section2, snippets1 + snippets2)
  {
    CostAdds(w, snippets1, snippets2);
    assert lines + section1 + section2 == lines + (section1 + section2);
  }

  lemma {:induction false} FileSnippetsCost(w: World, file: string, symbols: seq<string>, n: nat)
    requires n <= |symbols|
    ensures Cost(w, FileSnippets(w, file, symbols[..n])) <= Cost(w, FileSnippets(w, file, symbols))
  {
    if n == |symbols| {
      assert symbols[..n] == symbols;
    } else {
      var front := symbols[..|symbols| - 1];
      assert front[..n] == symbols[..n];
      FileSnippetsCost(w, file, front, n);
      CostAdds(w, FileSnippets(w, file, front), SymbolSnippets(w, file, symbols[|symbols| - 1]));
    }
  }

  // The loop over one file's symbols, left as soon as the budget is broken.
  method ReportFile(w: World, file: string, lines: seq<Line>, tokens: nat)
      returns (lines': seq<Line>, tokens': nat, exploded: bool)
    requires tokens <= MAX_REPORT_BUDGET
    ensures Added(w, lines, tokens, lines', tokens', exploded,
                  FileSections(w, file, w.symbolsIn(file)), FileSnippets(w, file, w.symbolsIn(file)))
  {
    hide SymbolSection, SymbolSnippets;
    var symbols := w.symbolsIn(file);
    lines', tokens', exploded := lines, tokens, false;
    for k := 0 to |symbols|
      invariant Added(w, lines, tokens, lines', tokens', false,
                      FileSections(w, file, symbols[..k]), FileSnippets(w, file, symbols[..k]))
    {
      assert symbols[..k + 1][..k] == symbols[..k];
      ghost var lines1, tokens1 := lines', tokens';
      lines', tokens', exploded := ReportSymbol(w, file, symbols[k], lines', tokens');
      AddedTwice(w, lines, tokens, lines1, tokens1, FileSections(w, file, symbols[..k]),
                 FileSnippets(w, file, symbols[..k]),
                 lines', tokens', exploded, SymbolSection(w, file, symbols[k]), SymbolSnippets(w, file, symbols[k]));
      if exploded {
        FileSnippetsCost(w, file, symbols, k + 1);
        return;
      }
    }
    assert symbols[..|symbols|] == symbols;
  }

  lemma {:induction false} AllSnippetsCost(w: World, files: seq<string>, n: nat)
    requires n <= |files|
    ensures Cost(w, AllSnippets(w, files[..n])) <= Cost(w, AllSnippets(w, files))
  {
    if n == |files| {
      assert files[..n] == files;
    } else {
      var front, file := files[..|files| - 1], files[|files| - 1];
      assert front[..n] == files[..n];
      AllSnippetsCost(w, front, n);
      CostAdds(w, AllSnippets(w, front), if w.isFile(file) then FileSnippets(w, file, w.symbolsIn(file)) else []);
    }
  }

  // All or nothing: the error exactly when everything together breaks the budget, otherwise the
  // complete report.
  method GenerateReport(w: World, files: seq<string>) returns (report: Report)
    ensures report.Explosion? <==> Cost(w, AllSnippets(w, files)) > 15000
    ensures report.NoneFound? ==> FullReport(w, files) == []
    ensures report.Lines? ==> report.lines == FullReport(w, files) != []
  {
    var lines: seq<Line>, tokens: nat, exploded := [], 0, false;
    for k := 0 to |files|
      invariant tokens <= MAX_REPORT_BUDGET
      invariant exploded ==> Cost(w, AllSnippets(w, files[..k])) > MAX_REPORT_BUDGET
      invariant !exploded ==>
        Added(w, [], 0, lines, tokens, false, FullReport(w, files[..k]), AllSnippets(w, files[..k]))
    {
      assert files[..k + 1][..k] == files[..k];
      AllSnippetsCost(w, files[..k + 1], k);
      if w.isFile(files[k]) {
        // After an explosion the outer loop goes on to the next file; the verdict stands.
        var lines', tokens', exploded' := ReportFile(w, files[k], lines, tokens);
        if !exploded {
          AddedTwice(w, [], 0, lines, tokens, FullReport(w, files[..k]), AllSnippets(w, files[..k]),
                     lines', tokens', exploded', FileSections(w, files[k], w.symbolsIn(files[k])),
                     FileSnippets(w, files[k], w.symbolsIn(files[k])));
        }
        lines, tokens, exploded := lines', tokens', exploded || exploded';
      } else {
        assert AllSnippets(w, files[..k]) + [] == AllSnippets(w, files[..k]);
        assert FullReport(w, files[..k]) + [] == FullReport(w, files[..k]);
      }
    }
    assert files[..|files|] == files;
    return if exploded then Explosion else if lines == [] then NoneFound else Lines(lines);
  }

  lemma {:induction false} FileSectionsSnippets(w: World, file: string, symbols: seq<string>)
    ensures multiset(OnlySnippets(FileSections(w, file, symbols))) == multiset(FileSnippets(w, file, symbols))
  {
    if symbols != [] {
      var front, last := symbols[..|symbols| - 1], symbols[|symbols| - 1];
      FileSectionsSnippets(w, file, front);
      SectionSnippets(w, file, last);
      OnlySnippetsAdd(FileSections(w, file, front), SymbolSection(w, file, last));
    }
  }

  // A complete report holds the snippet of every outside caller, as often as it calls, and no other.
  lemma {:induction false} FullReportIsComplete(w: World, files: seq<string>)
    ensures multiset(OnlySnippets(FullReport(w, files))) == multiset(AllSnippets(w, files))
  {
    if files != [] {
      var front, file := files[..|files| - 1], files[|files| - 1];
      FullReportIsComplete(w, front);
      FileSectionsSnippets(w, file, w.symbolsIn(file));
      OnlySnippetsAdd(FullReport(w, front), if w.isFile(file) then FileSections(w, file, w.symbolsIn(file)) else []);
    }
  }

  lemma {:induction false} OnlySnippetsAre(lines: seq<Line>, line: Line)
    ensures line in OnlySnippets(lines) <==> line in lines && line.Snippet?
  {
    if lines != [] {
      OnlySnippetsAre(lines[..|lines| - 1], line);
      assert lines == lines[..|lines| - 1] + [lines[|lines| - 1]];
    }
  }

  // A complete report shows a caller exactly when the graph knows its file, that file is another
  // one than a reported file it calls into, and there is code to show: under its own file, its code.
  lemma SnippetIsReportedIff(w: World, files: seq<string>, c: string, its: string, code: string)
    ensures Snippet(c, its, code) in FullReport(w, files) <==>
      && c in w.fileOf && w.fileOf[c] == its && w.context(its, c) == code != ""
      && exists file :: file in files && file != its && w.isFile(file) && CallsInto(w, c, file)
  {
    hide FullReport, AllSnippets, CallsInto;
    FullReportIsComplete(w, files);
    PermutationSameElements(OnlySnippets(FullReport(w, files)), AllSnippets(w, files));
    OnlySnippetsAre(FullReport(w, files), Snippet(c, its, code));
    AllSnippetsAre(w, files, c, its, code);
  }

  lemma OneMoreSymbolCalled(w: World, file: string, symbols: seq<string>)
    requires symbols != []
    ensures FileIsCalled(w, file, symbols) <==>
      || FileIsCalled(w, file, symbols[..|symbols| - 1])
      || ExternalCallers(w, file, w.callersOf(symbols[|symbols| - 1])) != []
  {
    forall k | 0 <= k < |symbols| - 1 ensures symbols[..|symbols| - 1][k] == symbols[k] {
    }
  }

  lemma {:induction false} NothingToFile(w: World, file: string, symbols: seq<string>)
    ensures FileSections(w, file, symbols) == [] <==> !FileIsCalled(w, file, symbols)
  {
    if symbols != [] {
      var front, last := symbols[..|symbols| - 1], symbols[|symbols| - 1];
      NothingToFile(w, file, front);
      OneMoreSymbolCalled(w, file, symbols);
      assert FileSections(w, file, symbols) == FileSections(w, file, front) + SymbolSection(w, file, last);
    }
  }

  lemma IsCalledIff(w: World, files: seq<string>)
    ensures IsCalled(w, files) <==>
      exists file, c ::
        file in files && w.isFile(file) && c in w.fileOf && w.fileOf[c] != file && CallsInto(w, c, file)
  {
    hide ExternalCallers;
    if k :| 0 <= k < |files| && w.isFile(files[k]) && FileIsCalled(w, files[k], w.symbolsIn(files[k])) {
      var file, symbols := files[k], w.symbolsIn(files[k]);
      var i :| 0 <= i < |symbols| && ExternalCallers(w, file, w.callersOf(symbols[i])) != [];
      ExternalCallersAre(w, file, w.callersOf(symbols[i]));
      var c := ExternalCallers(w, file, w.callersOf(symbols[i]))[0];
      assert multiset(ExternalCallers(w, file, w.callersOf(symbols[i])))[c] > 0;
      assert file in files && symbols[i] in symbols && CallsInto(w, c, file);
    }
    if file, c :|
        file in files && w.isFile(file) && c in w.fileOf && w.fileOf[c] != file && CallsInto(w, c, file) {
      var symbol :| symbol in w.symbolsIn(file) && c in w.callersOf(symbol);
      var i :| 0 <= i < |w.symbolsIn(file)| && w.symbolsIn(file)[i] == symbol;
      var k :| 0 <= k < |files| && files[k] == file;
      ExternalCallersAre(w, file, w.callersOf(symbol));
      assert multiset(ExternalCallers(w, file, w.callersOf(symbol)))[c] == multiset(w.callersOf(symbol))[c] > 0;
      assert FileIsCalled(w, files[k], w.symbolsIn(files[k]));
    }
  }

  lemma CalledOneMore(w: World, files: seq<string>)
    requires files != []
    ensures
      var front, file := files[..|files| - 1], files[|files| - 1];
      IsCalled(w, files) <==> IsCalled(w, front) || (w.isFile(file) && FileIsCalled(w, file, w.symbolsIn(file)))
  {
    var front := files[..|files| - 1];
    forall k | 0 <= k < |front| ensures files[k] == front[k] {
    }
  }

  // "You are safe to modify" is said exactly when nothing outside calls into the files.
  lemma {:induction false} EmptyReportIff(w: World, files: seq<string>)
    ensures FullReport(w, files) == [] <==> !IsCalled(w, files)
    ensures FullReport(w, files) == [] <==>
      !exists file, c ::
         file in files && w.isFile(file) && c in w.fileOf && w.fileOf[c] != file && CallsInto(w, c, file)
  {
    IsCalledIff(w, files);
    if files != [] {
      var front, file := files[..|files| - 1], files[|files| - 1];
      EmptyReportIff(w, front);
      NothingToFile(w, file, w.symbolsIn(file));
      CalledOneMore(w, files);
    }
  }
}
