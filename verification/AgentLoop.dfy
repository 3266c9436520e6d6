/** AgentLoop._tool_loop: call the model, run the tools it asks for, and stop for one of five reasons. */
module AgentLoop {
  import opened Options

  // The limits of the recovery manager, if there is one.
  datatype Recovery = Recovery(maxTruncations: int, maxStreamRetries: int)

  datatype Config = Config(
    maxToolSteps: int, maxToolFailures: int, maxStreamingRetries: int, recovery: Option<Recovery>)

  // A reply of the model: its text, the tools it asks for by call id, and why it stopped.
  datatype Reply = Reply(content: string, toolCalls: seq<string>, finishReason: string)

  // What a tool call came to.
  datatype Outcome = Outcome(call: string, success: bool)

  // One outcome for each call, in the order of the calls.
  function Outcomes(calls: seq<string>, works: nat -> bool): seq<Outcome> {
    seq(|calls|, (k: nat) requires k < |calls| => Outcome(calls[k], works(k)))
  }

  // A stream that was read to its end, its tools being run on the way.
  datatype Streamed = Streamed(reply: Reply, works: nat -> bool)

  datatype Exit = BudgetExhausted | TooManyFailures | MaxSteps | TruncationGivenUp | AnswerGiven

  // A message of the conversation; `Given` are the messages and summaries the loop does not write.
  datatype Entry =
    | Given(text: string)
    | AssistantText(content: string)
    | AssistantToolCalls(content: string, calls: seq<string>)
    | ToolResult(outcome: Outcome)
    | PleaseContinue
    | Warning(exit: Exit)

  // Everything one run meets, by turn: whether the step budget gives, whether streaming is used, what
  // a given streaming attempt brings, if it succeeds, what a batch call replies, whether a given tool
  // call works when the orchestrator runs it, and what compaction makes of the messages.
  datatype Environment = Environment(
    budget: nat -> bool,
    streams: nat -> bool,
    streamed: (nat, nat) -> Option<Streamed>,
    batch: nat -> Reply,
    works: (nat, nat) -> bool,
    compact: (nat, seq<Entry>) -> seq<Entry>)

  // A completed model call and what the loop did with it.
  datatype Turn = Truncated | Answered | ToolBatch(outcomes: seq<Outcome>)

  // ----- one streaming call -----

  predicate RetriesAfter(c: Config, attempt: nat) {
    c.recovery.Some? && attempt < c.recovery.value.maxStreamRetries
  }

  // The streaming attempts of a call from the given one on; at the end the batch call takes over.
  function AttemptsFrom(c: Config, succeeds: nat -> bool, attempt: nat): nat
    decreases c.maxStreamingRetries + 1 - attempt
  {
    if attempt >= c.maxStreamingRetries + 1 then 0
    else if succeeds(attempt) || !RetriesAfter(c, attempt) then 1
    else 1 + AttemptsFrom(c, succeeds, attempt + 1)
  }

  function Positive(n: int): nat {
    if n > 0 then n else 0
  }

  lemma {:induction false} AttemptsAreBounded(c: Config, succeeds: nat -> bool, attempt: nat)
    ensures AttemptsFrom(c, succeeds, attempt) <= Positive(c.maxStreamingRetries + 1 - attempt)
    ensures c.recovery.None? ==> AttemptsFrom(c, succeeds, attempt) <= 1
    ensures c.recovery.Some? ==>
      AttemptsFrom(c, succeeds, attempt) <= Positive(c.recovery.value.maxStreamRetries - attempt) + 1
    decreases c.maxStreamingRetries + 1 - attempt
  {
    if attempt < c.maxStreamingRetries + 1 && !succeeds(attempt) && RetriesAfter(c, attempt) {
      AttemptsAreBounded(c, succeeds, attempt + 1);
    }
  }

  function CallOf(env: Environment, i: nat): nat -> bool {
    (k: nat) => env.streamed(i, k).Some?
  }

  // What the attempts of a call from the given one on bring; None when the batch call takes over.
  function Stream(c: Config, env: Environment, i: nat, attempt: nat): Option<Streamed>
    decreases c.maxStreamingRetries + 1 - attempt
  {
    if attempt >= c.maxStreamingRetries + 1 then None
    else if env.streamed(i, attempt).Some? || !RetriesAfter(c, attempt) then env.streamed(i, attempt)
    else Stream(c, env, i, attempt + 1)
  }

  // A call streams until its first success: all attempts but the last failed, and what the last one
  // brings is what the call brings.
  lemma {:induction false} LastAttemptCounts(c: Config, env: Environment, i: nat, attempt: nat)
    ensures
      var n := AttemptsFrom(c, CallOf(env, i), attempt);
      && (forall k :: attempt <= k < attempt + n - 1 ==> env.streamed(i, k).None?)
      && Stream(c, env, i, attempt) == if n == 0 then None else env.streamed(i, attempt + n - 1)
    decreases c.maxStreamingRetries + 1 - attempt
  {
    if attempt < c.maxStreamingRetries + 1 && env.streamed(i, attempt).None? && RetriesAfter(c, attempt) {
      LastAttemptCounts(c, env, i, attempt + 1);
    }
  }

  // The attempt numbered so is the last that is made if none succeeds.
  function LastAttempt(c: Config): int {
    var retries := if c.recovery.Some? then Positive(c.recovery.value.maxStreamRetries) else 0;
    if c.maxStreamingRetries < retries then c.maxStreamingRetries else retries
  }

  // A call falls back to the batch path only when both retry limits allow no further attempt.
  lemma {:induction false} FallsBackAfterAllAttempts(c: Config, env: Environment, i: nat, attempt: nat)
    requires attempt == 0 || attempt <= LastAttempt(c)
    ensures Stream(c, env, i, attempt).None? ==>
      AttemptsFrom(c, CallOf(env, i), attempt) == LastAttempt(c) + 1 - attempt || c.maxStreamingRetries < 0
    decreases c.maxStreamingRetries + 1 - attempt
  {
    if attempt < LastAttempt(c) && env.streamed(i, attempt).None? {
      FallsBackAfterAllAttempts(c, env, i, attempt + 1);
    }
  }

  function StreamingReply(c: Config, env: Environment, i: nat): Reply {
    match Stream(c, env, i, 0)
    case Some(s) => s.reply
    case None => env.batch(i)
  }

  function StreamingOutcomes(c: Config, env: Environment, i: nat): seq<Outcome> {
    match Stream(c, env, i, 0)
    case Some(s) => Outcomes(s.reply.toolCalls, s.works)
    case None => Outcomes(env.batch(i).toolCalls, ToolsOf(env, i))
  }

  function ToolsOf(env: Environment, i: nat): nat -> bool {
    (k: nat) => env.works(i, k)
  }

  // ----- the loop -----

  // The reply of a turn, and what the tools it asks for come to.
  function ReplyAt(c: Config, env: Environment, i: nat): Reply {
    if env.streams(i) then StreamingReply(c, env, i) else env.batch(i)
  }

  function OutcomesAt(c: Config, env: Environment, i: nat): seq<Outcome> {
    if env.streams(i) then StreamingOutcomes(c, env, i) else Outcomes(env.batch(i).toolCalls, ToolsOf(env, i))
  }

  function AttemptsAt(c: Config, env: Environment, i: nat): nat {
    if env.streams(i) then AttemptsFrom(c, CallOf(env, i), 0) else 0
  }

  // The streaming attempts of the first n calls of a run.
  function Attempts(c: Config, env: Environment, n: nat): nat {
    if n == 0 then 0 else Attempts(c, env, n - 1) + AttemptsAt(c, env, n - 1)
  }

  lemma {:induction false} AttemptsPerCall(c: Config, env: Environment, n: nat)
    ensures Attempts(c, env, n) <= n * Positive(c.maxStreamingRetries + 1)
  {
    if n > 0 {
      AttemptsPerCall(c, env, n - 1);
      AttemptsAreBounded(c, CallOf(env, n - 1), 0);
      assert n * Positive(c.maxStreamingRetries + 1)
          == (n - 1) * Positive(c.maxStreamingRetries + 1) + Positive(c.maxStreamingRetries + 1);
    }
  }

  // Every tool call of the reply has its own outcome, in the order of the calls; it tells whether the
  // call worked, in the stream if there was one and in the orchestrator otherwise.
  lemma OutcomesAre(c: Config, env: Environment, i: nat)
    ensures
      var calls, outcomes, stream := ReplyAt(c, env, i).toolCalls, OutcomesAt(c, env, i), Stream(c, env, i, 0);
      && |outcomes| == |calls|
      && forall k :: 0 <= k < |calls| ==>
           && outcomes[k].call == calls[k]
           && (outcomes[k].success <==>
                if env.streams(i) && stream.Some? then stream.value.works(k) else env.works(i, k))
  {
  }

  // ----- what a whole run keeps -----

  predicate Fails(outcomes: seq<Outcome>) {
    exists k :: 0 <= k < |outcomes| && !outcomes[k].success
  }

  // Failed batches in a row at the end; truncated replies and text do not interrupt the row.
  function FailureStreak(turns: seq<Turn>): nat {
    if turns == [] then 0
    else
      var last := turns[|turns| - 1];
      var before := FailureStreak(turns[..|turns| - 1]);
      if !last.ToolBatch? then before else if Fails(last.outcomes) then before + 1 else 0
  }

  // Truncated replies since the last tool batch.
  function TruncationStreak(turns: seq<Turn>): nat {
    if turns == [] || turns[|turns| - 1].ToolBatch? then 0
    else TruncationStreak(turns[..|turns| - 1]) + if turns[|turns| - 1].Truncated? then 1 else 0
  }

  // The loop takes a reply cut off by the length limit for truncated if there is a recovery manager.
  predicate IsTruncated(c: Config, r: Reply) {
    r.finishReason == "length" && c.recovery.Some?
  }

  // How the loop reads the reply of the i-th turn.
  predicate Reads(c: Config, env: Environment, i: nat, t: Turn) {
    var r := ReplyAt(c, env, i);
    match t
    case Truncated => IsTruncated(c, r)
    case Answered => !IsTruncated(c, r) && r.toolCalls == []
    case ToolBatch(outcomes) => !IsTruncated(c, r) && r.toolCalls != [] && outcomes == OutcomesAt(c, env, i)
  }

  // The last reply ends the run: it was text, or one truncation too many.
  predicate EndedByReply(c: Config, turns: seq<Turn>) {
    && turns != []
    && var last := turns[|turns| - 1];
       || last.Answered?
       || (last.Truncated? && c.recovery.Some? && TruncationStreak(turns) > Positive(c.recovery.value.maxTruncations))
  }

  // Why a run that began at step `start` stops after these turns, read off the turns alone;
  // None when it goes on.
  function Verdict(c: Config, env: Environment, start: int, turns: seq<Turn>): Option<Exit> {
    if EndedByReply(c, turns) then Some(if turns[|turns| - 1].Answered? then AnswerGiven else TruncationGivenUp)
    else if !env.budget(|turns|) then Some(BudgetExhausted)
    else if FailureStreak(turns) >= c.maxToolFailures then Some(TooManyFailures)
    else if start + |turns| + 1 >= c.maxToolSteps then Some(MaxSteps)
    else None
  }

  // The turns are faithful to the replies, and the run had reason to go on before each of them.
  ghost predicate IsPartialRun(c: Config, env: Environment, start: int, turns: seq<Turn>) {
    && (forall i {:trigger turns[i]} :: 0 <= i < |turns| ==> Reads(c, env, i, turns[i]))
    && (forall k :: 0 <= k < |turns| ==> Verdict(c, env, start, turns[..k]) == None)
  }

  ghost predicate IsRun(c: Config, env: Environment, start: int, turns: seq<Turn>, e: Exit) {
    IsPartialRun(c, env, start, turns) && Verdict(c, env, start, turns) == Some(e)
  }

  // The counters of the loop are the streaks of the turns so far.
  ghost predicate CountersAgree(c: Config, start: int, steps: int, failures: nat, truncations: nat, turns: seq<Turn>) {
    && steps == start + |turns|
    && failures == FailureStreak(turns)
    && truncations == TruncationStreak(turns)
    && !EndedByReply(c, turns)
  }

  lemma {:induction false} StreaksGrow(turns: seq<Turn>, t: Turn)
    ensures FailureStreak(turns + [t]) ==
      (if !t.ToolBatch? then FailureStreak(turns) else if Fails(t.outcomes) then FailureStreak(turns) + 1 else 0)
    ensures TruncationStreak(turns + [t]) ==
      (if t.ToolBatch? then 0 else TruncationStreak(turns) + if t.Truncated? then 1 else 0)
  {
    assert (turns + [t])[..|turns|] == turns;
  }

  lemma {:induction false} PartialRunGrows(c: Config, env: Environment, start: int, turns: seq<Turn>, t: Turn)
    requires IsPartialRun(c, env, start, turns) && Verdict(c, env, start, turns) == None
    requires Reads(c, env, |turns|, t)
    ensures IsPartialRun(c, env, start, turns + [t])
    ensures FailureStreak(turns + [t]) ==
      (if !t.ToolBatch? then FailureStreak(turns) else if Fails(t.outcomes) then FailureStreak(turns) + 1 else 0)
    ensures TruncationStreak(turns + [t]) ==
      (if t.ToolBatch? then 0 else TruncationStreak(turns) + if t.Truncated? then 1 else 0)
  {
    StreaksGrow(turns, t);
    forall k | 0 <= k < |turns| + 1
      ensures Verdict(c, env, start, (turns + [t])[..k]) == None
    {
      assert (turns + [t])[..k] == turns[..k];
      assert turns[..|turns|] == turns;
    }
  }

  lemma RunBegins(c: Config, env: Environment, start: int)
    ensures IsPartialRun(c, env, start, []) && CountersAgree(c, start, start, 0, 0, [])
  {
  }

  // The loop's checks before a call are the verdict on the turns so far.
  lemma ChecksAreVerdict(c: Config, env: Environment, start: int,
                         steps: int, failures: nat, truncations: nat, turns: seq<Turn>)
    requires IsPartialRun(c, env, start, turns) && CountersAgree(c, start, steps, failures, truncations, turns)
    ensures !env.budget(|turns|) ==> IsRun(c, env, start, turns, BudgetExhausted)
    ensures env.budget(|turns|) && failures >= c.maxToolFailures ==> IsRun(c, env, start, turns, TooManyFailures)
    ensures env.budget(|turns|) && failures < c.maxToolFailures && steps + 1 >= c.maxToolSteps
      ==> IsRun(c, env, start, turns, MaxSteps)
    ensures env.budget(|turns|) && failures < c.maxToolFailures && steps + 1 < c.maxToolSteps
      ==> Verdict(c, env, start, turns) == None
  {
  }

  // After a call, the loop goes on with the right counters or ends for the right reason.
  lemma TurnIsCounted(c: Config, env: Environment, start: int,
                      steps: int, failures: nat, truncations: nat, turns: seq<Turn>, t: Turn)
    requires IsPartialRun(c, env, start, turns) && CountersAgree(c, start, steps, failures, truncations, turns)
    requires Verdict(c, env, start, turns) == None
    requires Reads(c, env, |turns|, t)
    ensures IsPartialRun(c, env, start, turns + [t])
    ensures t.Answered? ==> IsRun(c, env, start, turns + [t], AnswerGiven)
    ensures t.Truncated? ==>
      if truncations < c.recovery.value.maxTruncations then
        CountersAgree(c, start, steps + 1, failures, truncations + 1, turns + [t]) && !EndedByReply(c, turns + [t])
      else IsRun(c, env, start, turns + [t], TruncationGivenUp) && EndedByReply(c, turns + [t])
    ensures t.ToolBatch? ==>
      CountersAgree(c, start, steps + 1, if Fails(t.outcomes) then failures + 1 else 0, 0, turns + [t])
  {
    PartialRunGrows(c, env, start, turns, t);
  }

  lemma {:induction false} SameTurnsSoFar(c: Config, env: Environment, start: int, a: seq<Turn>, b: seq<Turn>, k: nat)
    requires IsPartialRun(c, env, start, a) && IsPartialRun(c, env, start, b)
    requires k <= |a| && k <= |b|
    ensures a[..k] == b[..k]
  {
    hide Verdict, ReplyAt, OutcomesAt, IsTruncated;
    if k > 0 {
      SameTurnsSoFar(c, env, start, a, b, k - 1);
      assert a[k - 1] == b[k - 1];
      assert a[..k] == a[..k - 1] + [a[k - 1]] && b[..k] == b[..k - 1] + [b[k - 1]];
    }
  }

  /** There is one run at most: the environment fixes every turn and the reason for stopping. */
  lemma {:induction false} RunIsUnique(c: Config, env: Environment, start: int,
                    a: seq<Turn>, e: Exit, b: seq<Turn>, f: Exit)
    requires IsRun(c, env, start, a, e) && IsRun(c, env, start, b, f)
    ensures a == b && e == f
  {
    var n := if |a| < |b| then |a| else |b|;
    SameTurnsSoFar(c, env, start, a, b, n);
    assert a[..|a|] == a && b[..|b|] == b;
  }

  /**
   * In any run: no row of failed tool batches is longer than the limit, no more truncated replies
   * than the limit and one come between batches, the tool results appended belong to the reply
   * that asked for them, and the calls fit under the step limit.
   */
  lemma {:induction false} RunIsBounded(c: Config, env: Environment, start: int, turns: seq<Turn>, e: Exit, k: nat)
    requires IsRun(c, env, start, turns, e) && k <= |turns|
    ensures FailureStreak(turns[..k]) <= Positive(c.maxToolFailures)
    ensures c.recovery.Some? ==> TruncationStreak(turns[..k]) <= Positive(c.recovery.value.maxTruncations) + 1
    ensures k < |turns| && turns[k].ToolBatch? ==> turns[k].outcomes == OutcomesAt(c, env, k)
    ensures k > 0 ==> start + k < c.maxToolSteps
  {
    hide ReplyAt, OutcomesAt, Fails, IsTruncated;
    if k > 0 {
      var before := turns[..k - 1];
      assert Verdict(c, env, start, before) == None;
      assert turns[..k] == before + [turns[k - 1]];
      StreaksGrow(before, turns[k - 1]);
      TruncationsStayAllowed(c, env, start, turns, k - 1);
    }
  }

  lemma {:induction false} TruncationsStayAllowed(c: Config, env: Environment, start: int, turns: seq<Turn>, k: nat)
    requires IsPartialRun(c, env, start, turns) && k < |turns|
    ensures c.recovery.Some? ==> TruncationStreak(turns[..k]) <= Positive(c.recovery.value.maxTruncations)
  {
    if k > 0 {
      TruncationsStayAllowed(c, env, start, turns, k - 1);
      assert Verdict(c, env, start, turns[..k]) == None;
      assert turns[..k] == turns[..k - 1] + [turns[k - 1]];
      StreaksGrow(turns[..k - 1], turns[k - 1]);
    }
  }

  // The turns from one on that are tool batches, or truncated replies.
  function BatchesFrom(turns: seq<Turn>, from: nat): set<nat> {
    set i: nat | from <= i < |turns| && turns[i].ToolBatch?
  }

  function TruncatedFrom(turns: seq<Turn>, from: nat): set<nat> {
    set i: nat | from <= i < |turns| && turns[i].Truncated?
  }

  predicate AllWork(outcomes: seq<Outcome>) {
    forall o :: o in outcomes ==> o.success
  }

  lemma FailsIff(outcomes: seq<Outcome>)
    ensures Fails(outcomes) <==> !AllWork(outcomes)
  {
    if k :| 0 <= k < |outcomes| && !outcomes[k].success {
      assert outcomes[k] in outcomes;
    }
  }

  // From turn k on no batch worked; the turn before was one that did.
  ghost predicate FollowsGoodBatch(turns: seq<Turn>, k: nat) {
    && k <= |turns|
    && (k > 0 ==> turns[k - 1].ToolBatch? && AllWork(turns[k - 1].outcomes))
    && forall i :: i in BatchesFrom(turns, k) ==> !AllWork(turns[i].outcomes)
  }

  // The failed batches counted are all those since the last batch whose tools all worked.
  lemma {:induction false} FailureStreakIs(turns: seq<Turn>)
    ensures exists k :: FollowsGoodBatch(turns, k) && FailureStreak(turns) == |BatchesFrom(turns, k)|
  {
    hide AllWork, Fails;
    if turns == [] {
      assert FollowsGoodBatch(turns, 0) && BatchesFrom(turns, 0) == {};
    } else {
      var n := |turns| - 1;
      if turns[n].ToolBatch? && !Fails(turns[n].outcomes) {
        FailsIff(turns[n].outcomes);
        assert BatchesFrom(turns, n + 1) == {};
        assert FollowsGoodBatch(turns, n + 1);
      } else {
        FailureStreakIs(turns[..n]);
        var k :| FollowsGoodBatch(turns[..n], k) && FailureStreak(turns[..n]) == |BatchesFrom(turns[..n], k)|;
        OneMoreFailed(turns, k);
      }
    }
  }

  lemma OneMoreFailed(turns: seq<Turn>, k: nat)
    requires turns != [] && FollowsGoodBatch(turns[..|turns| - 1], k)
    requires turns[|turns| - 1].ToolBatch? ==> Fails(turns[|turns| - 1].outcomes)
    ensures FollowsGoodBatch(turns, k)
    ensures |BatchesFrom(turns, k)| ==
      |BatchesFrom(turns[..|turns| - 1], k)| + if turns[|turns| - 1].ToolBatch? then 1 else 0
  {
    hide AllWork, Fails;
    var n := |turns| - 1;
    if turns[n].ToolBatch? {
      FailsIff(turns[n].outcomes);
    }
    assert BatchesFrom(turns, k) == BatchesFrom(turns[..n], k) + if turns[n].ToolBatch? then {n} else {};
  }

  // From turn k on there is no batch; the turn before was one.
  ghost predicate FollowsLastBatch(turns: seq<Turn>, k: nat) {
    k <= |turns| && (k > 0 ==> turns[k - 1].ToolBatch?) && BatchesFrom(turns, k) == {}
  }

  // The truncated replies counted are all those since the last tool batch.
  lemma {:induction false} TruncationStreakIs(turns: seq<Turn>)
    ensures exists k :: FollowsLastBatch(turns, k) && TruncationStreak(turns) == |TruncatedFrom(turns, k)|
  {
    var n := |turns| - 1;
    if turns == [] || turns[n].ToolBatch? {
      assert FollowsLastBatch(turns, |turns|) && TruncatedFrom(turns, |turns|) == {};
    } else {
      TruncationStreakIs(turns[..n]);
      var k :| FollowsLastBatch(turns[..n], k) && TruncationStreak(turns[..n]) == |TruncatedFrom(turns[..n], k)|;
      assert TruncatedFrom(turns, k) == TruncatedFrom(turns[..n], k) + if turns[n].Truncated? then {n} else {};
      assert BatchesFrom(turns, k) == BatchesFrom(turns[..n], k);
    }
  }

  // Why a run ends.
  lemma ExitHasCause(c: Config, env: Environment, start: int, turns: seq<Turn>, exit: Exit)
    requires IsRun(c, env, start, turns, exit)
    ensures exit == BudgetExhausted ==> !env.budget(|turns|)
    ensures exit == TooManyFailures ==> FailureStreak(turns) >= c.maxToolFailures
    ensures exit == MaxSteps ==> start + |turns| + 1 >= c.maxToolSteps
    ensures exit == AnswerGiven ==>
      turns != [] &&
      var r := ReplyAt(c, env, |turns| - 1); r.toolCalls == [] && !(r.finishReason == "length" && c.recovery.Some?)
    ensures exit == TruncationGivenUp ==>
      turns != [] && c.recovery.Some? && ReplyAt(c, env, |turns| - 1).finishReason == "length" &&
      TruncationStreak(turns) == Positive(c.recovery.value.maxTruncations) + 1
  {
    hide ReplyAt, OutcomesAt, Fails;
    var n := |turns|;
    if exit == TruncationGivenUp {
      assert Reads(c, env, n - 1, turns[n - 1]);
      TruncationsStayAllowed(c, env, start, turns, n - 1);
      StreaksGrow(turns[..n - 1], turns[n - 1]);
      assert turns == turns[..n - 1] + [turns[n - 1]];
    }
    if exit == AnswerGiven {
      assert Reads(c, env, n - 1, turns[n - 1]);
    }
  }

  // Nothing gave it reason to end before.
  lemma RunHadReasonToGoOn(c: Config, env: Environment, start: int, turns: seq<Turn>, k: nat)
    requires IsPartialRun(c, env, start, turns) && k < |turns|
    ensures env.budget(k) && FailureStreak(turns[..k]) < c.maxToolFailures && start + k + 1 < c.maxToolSteps
    ensures k > 0 ==>
      var r := ReplyAt(c, env, k - 1);
      if r.finishReason == "length" && c.recovery.Some? then
        TruncationStreak(turns[..k]) <= Positive(c.recovery.value.maxTruncations)
      else r.toolCalls != []
  {
    hide ReplyAt, OutcomesAt, FailureStreak, TruncationStreak;
    assert Verdict(c, env, start, turns[..k]) == None;
    if k > 0 {
      assert Reads(c, env, k - 1, turns[k - 1]);
    }
  }

  // ----- the conversation -----

  function ResultsOf(outcomes: seq<Outcome>): seq<Entry> {
    seq(|outcomes|, (k: nat) requires k < |outcomes| => ToolResult(outcomes[k]))
  }

  // The messages a turn writes down: the reply, and the outcomes of its tools.
  function Said(r: Reply, t: Turn): seq<Entry> {
    match t
    case Truncated =>
      [if r.toolCalls != [] then AssistantToolCalls(r.content, r.toolCalls) else AssistantText(r.content)]
    case Answered => if r.content != "" then [AssistantText(r.content)] else []
    case ToolBatch(outcomes) => [AssistantToolCalls(r.content, r.toolCalls)] + ResultsOf(outcomes)
  }

  // A truncated reply that does not end the run is followed by the request to go on.
  function Prompt(c: Config, turns: seq<Turn>): seq<Entry> {
    if turns != [] && turns[|turns| - 1].Truncated? && !EndedByReply(c, turns) then [PleaseContinue] else []
  }

  // The messages after some turns; each turn first has them compacted.
  function Transcript(c: Config, env: Environment, given: seq<Entry>, turns: seq<Turn>): seq<Entry> {
    if turns == [] then given
    else
      var n := |turns| - 1;
      env.compact(n, Transcript(c, env, given, turns[..n])) + Said(ReplyAt(c, env, n), turns[n]) + Prompt(c, turns)
  }

  // A run that is cut short says why.
  function Farewell(exit: Exit): seq<Entry> {
    if exit.TruncationGivenUp? || exit.AnswerGiven? then [] else [Warning(exit)]
  }

  lemma TranscriptGrows(c: Config, env: Environment, given: seq<Entry>, turns: seq<Turn>, t: Turn)
    ensures Transcript(c, env, given, turns + [t]) ==
      env.compact(|turns|, Transcript(c, env, given, turns)) + Said(ReplyAt(c, env, |turns|), t) +
        Prompt(c, turns + [t])
  {
    assert (turns + [t])[..|turns|] == turns;
  }

  predicate Matches(e: Entry, call: string) {
    e.ToolResult? && e.outcome.call == call
  }

  // The calls are answered one by one by the messages at the front of `rest`.
  predicate Answer(rest: seq<Entry>, calls: seq<string>) {
    |calls| <= |rest| && forall k :: 0 <= k < |calls| ==> Matches(rest[k], calls[k])
  }

  // The tool calls of a message are answered by the messages that follow it, in their order.
  predicate AnsweredAt(m: seq<Entry>, i: nat)
    requires i < |m|
  {
    m[i].AssistantToolCalls? ==> Answer(m[i + 1..], m[i].calls)
  }

  predicate AllAnswered(m: seq<Entry>) {
    forall i :: 0 <= i < |m| ==> AnsweredAt(m, i)
  }

  // A message with tool calls is followed by something else than a result.
  predicate BrokenAt(m: seq<Entry>, i: nat) {
    i + 1 < |m| && m[i].AssistantToolCalls? && m[i].calls != [] && !m[i + 1].ToolResult?
  }

  ghost predicate IsBroken(m: seq<Entry>) {
    exists i :: BrokenAt(m, i)
  }

  lemma BrokenIsUnanswered(m: seq<Entry>)
    requires IsBroken(m)
    ensures !AllAnswered(m)
  {
    var i: nat :| BrokenAt(m, i);
    assert !Matches(m[i + 1..][0], m[i].calls[0]);
    assert !AnsweredAt(m, i);
  }

  lemma BrokenStays(m: seq<Entry>, more: seq<Entry>)
    requires IsBroken(m)
    ensures IsBroken(m + more)
  {
    var i: nat :| BrokenAt(m, i);
    assert BrokenAt(m + more, i);
  }

  lemma AnsweredJoins(m: seq<Entry>, more: seq<Entry>)
    requires AllAnswered(m) && AllAnswered(more)
    ensures AllAnswered(m + more)
  {
    var all := m + more;
    forall i | 0 <= i < |all| ensures AnsweredAt(all, i) {
      if i < |m| {
        assert AnsweredAt(m, i);
        assert all[i + 1..] == m[i + 1..] + more;
      } else {
        assert AnsweredAt(more, i - |m|);
        assert all[i + 1..] == more[i - |m| + 1..];
      }
    }
  }

  // A truncated reply that asks for tools: its calls are written down, their results never are.
  predicate Drops(c: Config, env: Environment, i: nat, t: Turn) {
    t.Truncated? && ReplyAt(c, env, i).toolCalls != []
  }

  predicate DropsNone(c: Config, env: Environment, turns: seq<Turn>) {
    forall i :: 0 <= i < |turns| ==> !Drops(c, env, i, turns[i])
  }

  lemma SaidIsAnswered(c: Config, env: Environment, i: nat, t: Turn)
    requires Reads(c, env, i, t) && !Drops(c, env, i, t)
    ensures AllAnswered(Said(ReplyAt(c, env, i), t))
  {
    var r := ReplyAt(c, env, i);
    var said := Said(r, t);
    if t.ToolBatch? {
      assert |t.outcomes| == |r.toolCalls|;
      assert forall k :: 0 <= k < |r.toolCalls| ==> t.outcomes[k].call == r.toolCalls[k];
      forall j | 0 <= j < |said| ensures AnsweredAt(said, j) {
        if j == 0 {
          assert said[1..] == ResultsOf(t.outcomes);
        } else {
          assert said[j] == ToolResult(t.outcomes[j - 1]);
        }
      }
    }
  }

  ghost predicate NeverCompacts(env: Environment) {
    forall i, m :: env.compact(i, m) == m
  }

  lemma PartialRunBefore(c: Config, env: Environment, start: int, turns: seq<Turn>)
    requires IsPartialRun(c, env, start, turns) && turns != []
    ensures
      var n := |turns| - 1;
      IsPartialRun(c, env, start, turns[..n]) && !EndedByReply(c, turns[..n]) && Reads(c, env, n, turns[n])
  {
    var n := |turns| - 1;
    assert Verdict(c, env, start, turns[..n]) == None;
    forall k | 0 <= k < n ensures Verdict(c, env, start, turns[..n][..k]) == None {
      assert turns[..n][..k] == turns[..k];
    }
  }

  lemma {:induction false} KeptTurnsAreAnswered(c: Config, env: Environment, start: int, given: seq<Entry>,
                                                turns: seq<Turn>)
    requires NeverCompacts(env) && AllAnswered(given) && IsPartialRun(c, env, start, turns) && DropsNone(c, env, turns)
    ensures AllAnswered(Transcript(c, env, given, turns))
  {
    hide AllAnswered, IsPartialRun, Said, Reads, EndedByReply, Drops;
    if turns != [] {
      var n := |turns| - 1;
      PartialRunBefore(c, env, start, turns);
      KeptTurnsAreAnswered(c, env, start, given, turns[..n]);
      SaidIsAnswered(c, env, n, turns[n]);
      NothingToAnswer(Prompt(c, turns));
      AnsweredJoins(Transcript(c, env, given, turns[..n]), Said(ReplyAt(c, env, n), turns[n]));
      AnsweredJoins(Transcript(c, env, given, turns[..n]) + Said(ReplyAt(c, env, n), turns[n]), Prompt(c, turns));
    }
  }

  lemma NothingToAnswer(m: seq<Entry>)
    requires forall i :: 0 <= i < |m| ==> !m[i].AssistantToolCalls?
    ensures AllAnswered(m)
  {
  }

  // What a turn writes when it drops the results of its calls.
  lemma DroppedIsBroken(c: Config, env: Environment, m: seq<Entry>, turns: seq<Turn>)
    requires turns != [] && Drops(c, env, |turns| - 1, turns[|turns| - 1])
    ensures
      var more := m + Said(ReplyAt(c, env, |turns| - 1), turns[|turns| - 1]) + Prompt(c, turns);
      if EndedByReply(c, turns) then !AllAnswered(more) else IsBroken(more)
  {
    var more := m + Said(ReplyAt(c, env, |turns| - 1), turns[|turns| - 1]) + Prompt(c, turns);
    assert more[|m|].AssistantToolCalls? && more[|m|].calls != [];
    if EndedByReply(c, turns) {
      assert !AnsweredAt(more, |m|);
    } else {
      assert BrokenAt(more, |m|);
    }
  }

  lemma {:induction false} DroppedCallsStay(c: Config, env: Environment, start: int, given: seq<Entry>,
                                            turns: seq<Turn>)
    requires NeverCompacts(env) && IsPartialRun(c, env, start, turns) && !DropsNone(c, env, turns)
    ensures
      var m := Transcript(c, env, given, turns);
      if EndedByReply(c, turns) then !AllAnswered(m) else IsBroken(m)
  {
    hide AllAnswered, IsPartialRun, Said, Reads, EndedByReply, Drops, IsBroken;
    var n := |turns| - 1;
    PartialRunBefore(c, env, start, turns);
    var before := Transcript(c, env, given, turns[..n]);
    if Drops(c, env, n, turns[n]) {
      DroppedIsBroken(c, env, before, turns);
    } else {
      assert !DropsNone(c, env, turns[..n]);
      DroppedCallsStay(c, env, start, given, turns[..n]);
      BrokenStays(before, Said(ReplyAt(c, env, n), turns[n]));
      BrokenStays(before + Said(ReplyAt(c, env, n), turns[n]), Prompt(c, turns));
      BrokenIsUnanswered(Transcript(c, env, given, turns));
    }
  }

  /**
   * Every tool call in the conversation a run leaves is answered, in order and right after it,
   * exactly when no truncated reply asked for tools.
   */
  lemma CallsAreAnsweredIff(c: Config, env: Environment, start: int, given: seq<Entry>, turns: seq<Turn>, exit: Exit)
    requires NeverCompacts(env) && AllAnswered(given) && IsRun(c, env, start, turns, exit)
    ensures AllAnswered(Transcript(c, env, given, turns) + Farewell(exit)) <==> DropsNone(c, env, turns)
  {
    hide AllAnswered, IsPartialRun, Transcript, DropsNone, IsBroken;
    var m := Transcript(c, env, given, turns);
    if DropsNone(c, env, turns) {
      KeptTurnsAreAnswered(c, env, start, given, turns);
      NothingToAnswer(Farewell(exit));
      AnsweredJoins(m, Farewell(exit));
    } else {
      DroppedCallsStay(c, env, start, given, turns);
      if EndedByReply(c, turns) {
        assert m + Farewell(exit) == m;
      } else {
        BrokenStays(m, Farewell(exit));
        BrokenIsUnanswered(m + Farewell(exit));
      }
    }
  }

  // Without compaction the messages given stay, and each turn adds its own at the end.
  lemma {:induction false} TranscriptOnlyGrows(c: Config, env: Environment, given: seq<Entry>, turns: seq<Turn>, i: nat)
    requires NeverCompacts(env) && i < |turns|
    ensures given <= Transcript(c, env, given, turns)
    ensures Transcript(c, env, given, turns[..i]) + Said(ReplyAt(c, env, i), turns[i])
         <= Transcript(c, env, given, turns)
  {
    hide ReplyAt, Said, Prompt;
    var n := |turns| - 1;
    if i < n {
      TranscriptOnlyGrows(c, env, given, turns[..n], i);
      assert turns[..n][..i] == turns[..i];
    } else if n > 0 {
      TranscriptOnlyGrows(c, env, given, turns[..n], 0);
    } else {
      assert turns[..n] == [];
    }
  }

  // What a compaction leaves heads the conversation until the next compaction that changes anything;
  // nothing else of what was there before is left.
  lemma {:induction false} CompactionHolds(c: Config, env: Environment, given: seq<Entry>, turns: seq<Turn>, k: nat)
    requires k < |turns| && forall i: nat, m :: i > k ==> env.compact(i, m) == m
    ensures
      var kept, later := env.compact(k, Transcript(c, env, given, turns[..k])), turns[..k + 1];
      kept + Said(ReplyAt(c, env, k), turns[k]) + Prompt(c, later) <= Transcript(c, env, given, turns)
  {
    hide ReplyAt, Said, Prompt;
    var n := |turns| - 1;
    if k < n {
      CompactionHolds(c, env, given, turns[..n], k);
      assert turns[..n][..k] == turns[..k] && turns[..n][..k + 1] == turns[..k + 1];
    } else {
      assert turns[..k + 1] == turns;
    }
  }

  // The messages of a turn carry the text and the calls of its reply, and the outcome of each call.
  lemma TurnSaysReply(c: Config, env: Environment, i: nat, t: Turn)
    requires Reads(c, env, i, t)
    ensures
      var r, said := ReplyAt(c, env, i), Said(ReplyAt(c, env, i), t);
      if t.Answered? then said == (if r.content == "" then [] else [AssistantText(r.content)])
      else
        && |said| == 1 + (if t.ToolBatch? then |r.toolCalls| else 0)
        && (r.toolCalls == [] ==> said[0] == AssistantText(r.content))
        && (r.toolCalls != [] ==> said[0] == AssistantToolCalls(r.content, r.toolCalls))
        && forall k :: 1 <= k < |said| ==> said[k] == ToolResult(OutcomesAt(c, env, i)[k - 1])
  {
    OutcomesAre(c, env, i);
    hide ReplyAt, OutcomesAt;
  }

  // The failing input: a first reply cut off after it asked for a tool, then an answer.
  lemma TruncatedCallIsNotAnswered(c: Config, env: Environment)
    requires c.recovery.Some? && c.recovery.value.maxTruncations >= 1
    requires c.maxToolSteps >= 3 && c.maxToolFailures >= 1
    requires env.budget(0) && env.budget(1) && NeverCompacts(env)
    requires ReplyAt(c, env, 0) == Reply("", ["read"], "length") && ReplyAt(c, env, 1) == Reply("done", [], "stop")
    ensures IsRun(c, env, 0, [Truncated, Answered], AnswerGiven)
    ensures Transcript(c, env, [], [Truncated, Answered]) + Farewell(AnswerGiven) ==
      [AssistantToolCalls("", ["read"]), PleaseContinue, AssistantText("done")]
    ensures !AllAnswered(Transcript(c, env, [], [Truncated, Answered]) + Farewell(AnswerGiven))
  {
    hide ReplyAt;
    var one, two := [Truncated], [Truncated, Answered];
    RunBegins(c, env, 0);
    TurnIsCounted(c, env, 0, 0, 0, 0, [], Truncated);
    assert [] + [Truncated] == one && one + [Answered] == two;
    TurnIsCounted(c, env, 0, 1, 0, 1, one, Answered);
    TranscriptGrows(c, env, [], [], Truncated);
    TranscriptGrows(c, env, [], one, Answered);
    assert Drops(c, env, 0, two[0]);
    CallsAreAnsweredIff(c, env, 0, [], two, AnswerGiven);
  }

  // ----- which tools were run -----

  // A streaming call runs its tools itself, whatever its reply is taken for; a batch call leaves it
  // to the loop, which does so for a tool batch only.
  predicate RunsTools(c: Config, env: Environment, i: nat, t: Turn) {
    ReplyAt(c, env, i).toolCalls != [] && (env.streams(i) || t.ToolBatch?)
  }

  // The turns whose tools were run, in the order of running; `first` is the number of the first turn.
  function ToolRuns(c: Config, env: Environment, first: nat, turns: seq<Turn>): seq<nat> {
    if turns == [] then []
    else
      var n := |turns| - 1;
      ToolRuns(c, env, first, turns[..n]) + if RunsTools(c, env, n, turns[n]) then [first + n] else []
  }

  lemma ToolRunsGrow(c: Config, env: Environment, first: nat, turns: seq<Turn>, t: Turn)
    ensures ToolRuns(c, env, first, turns + [t]) ==
      ToolRuns(c, env, first, turns) + if RunsTools(c, env, |turns|, t) then [first + |turns|] else []
  {
    hide RunsTools;
    assert (turns + [t])[..|turns|] == turns;
  }

  lemma {:induction false} ToolRunsIncrease(c: Config, env: Environment, first: nat, turns: seq<Turn>)
    ensures
      var runs := ToolRuns(c, env, first, turns);
      && (forall j, k :: 0 <= j < k < |runs| ==> runs[j] < runs[k])
      && (forall j :: 0 <= j < |runs| ==> runs[j] < first + |turns|)
  {
    if turns != [] {
      hide RunsTools;
      var n := |turns| - 1;
      ToolRunsIncrease(c, env, first, turns[..n]);
      ToolRunsGrow(c, env, first, turns[..n], turns[n]);
      assert turns == turns[..n] + [turns[n]];
    }
  }

  lemma {:induction false} ToolRunsAre(c: Config, env: Environment, first: nat, turns: seq<Turn>, i: nat)
    requires i < |turns|
    ensures first + i in ToolRuns(c, env, first, turns) <==> RunsTools(c, env, i, turns[i])
  {
    hide RunsTools, ToolRuns;
    var n := |turns| - 1;
    ToolRunsGrow(c, env, first, turns[..n], turns[n]);
    assert turns == turns[..n] + [turns[n]];
    ToolRunsIncrease(c, env, first, turns[..n]);
    if i < n {
      ToolRunsAre(c, env, first, turns[..n], i);
    }
  }

  lemma RunsToolsIff(c: Config, env: Environment, i: nat, t: Turn)
    requires Reads(c, env, i, t)
    ensures RunsTools(c, env, i, t) <==> t.ToolBatch? || (Drops(c, env, i, t) && env.streams(i))
  {
    hide ReplyAt, OutcomesAt, IsTruncated;
  }

  // Tools are run at most once for a model call. They are run without their results being written
  // down exactly for truncated replies of streaming calls.
  lemma ToolsRunOnce(c: Config, env: Environment, start: int, first: nat, turns: seq<Turn>, i: nat)
    requires IsPartialRun(c, env, start, turns) && i < |turns|
    ensures
      var runs := ToolRuns(c, env, first, turns);
      && (forall j, k :: 0 <= j < k < |runs| ==> runs[j] < runs[k])
      && (first + i in runs <==> turns[i].ToolBatch? || (Drops(c, env, i, turns[i]) && env.streams(i)))
  {
    hide ToolRuns, RunsTools, Reads, Drops, Verdict;
    ToolRunsIncrease(c, env, first, turns);
    ToolRunsAre(c, env, first, turns, i);
    assert Reads(c, env, i, turns[i]);
    RunsToolsIff(c, env, i, turns[i]);
  }

  // ----- the loop, turn by turn -----

  // How far a run has come: its counters, the messages, and the calls whose tools were run.
  datatype Progress = Progress(
    turns: seq<Turn>, steps: int, failures: nat, truncations: nat, messages: seq<Entry>, runs: seq<nat>)

  ghost predicate IsUnderWay(c: Config, env: Environment, given: seq<Entry>, start: int, first: nat, p: Progress) {
    && IsPartialRun(c, env, start, p.turns)
    && CountersAgree(c, start, p.steps, p.failures, p.truncations, p.turns)
    && p.messages == Transcript(c, env, given, p.turns)
    && p.runs == ToolRuns(c, env, first, p.turns)
  }

  ghost predicate IsOver(c: Config, env: Environment, given: seq<Entry>, start: int, first: nat,
                         turns: seq<Turn>, messages: seq<Entry>, runs: seq<nat>, exit: Exit)
  {
    && IsRun(c, env, start, turns, exit)
    && messages == Transcript(c, env, given, turns) + Farewell(exit)
    && runs == ToolRuns(c, env, first, turns)
  }

  lemma OverMeans(c: Config, env: Environment, given: seq<Entry>, start: int, first: nat,
                  turns: seq<Turn>, messages: seq<Entry>, runs: seq<nat>, exit: Exit)
    requires IsOver(c, env, given, start, first, turns, messages, runs, exit)
    ensures IsRun(c, env, start, turns, exit)
    ensures messages == Transcript(c, env, given, turns) + Farewell(exit)
    ensures runs == ToolRuns(c, env, first, turns)
    ensures exit == BudgetExhausted || exit == TooManyFailures || exit == MaxSteps ==>
      messages != [] && messages[|messages| - 1] == Warning(exit)
  {
  }

  // The checks before a call let it go ahead.
  predicate GoesAhead(c: Config, env: Environment, p: Progress) {
    env.budget(|p.turns|) && p.failures < c.maxToolFailures && p.steps + 1 < c.maxToolSteps
  }

  lemma NothingDoneYet(c: Config, env: Environment, given: seq<Entry>, start: int, first: nat)
    ensures IsUnderWay(c, env, given, start, first, Progress([], start, 0, 0, given, [])) && Attempts(c, env, 0) == 0
  {
    RunBegins(c, env, start);
  }

  lemma ChecksStop(c: Config, env: Environment, given: seq<Entry>, start: int, first: nat, p: Progress)
    requires IsUnderWay(c, env, given, start, first, p)
    requires !env.budget(|p.turns|) || p.failures >= c.maxToolFailures || p.steps + 1 >= c.maxToolSteps
    ensures
      var exit :=
        if !env.budget(|p.turns|) then BudgetExhausted
        else if p.failures >= c.maxToolFailures then TooManyFailures else MaxSteps;
      IsOver(c, env, given, start, first, p.turns, p.messages + [Warning(exit)], p.runs, exit)
  {
    hide IsPartialRun, IsRun, CountersAgree, Transcript, ToolRuns;
    ChecksAreVerdict(c, env, start, p.steps, p.failures, p.truncations, p.turns);
  }

  lemma PromptIs(c: Config, turns: seq<Turn>, t: Turn)
    ensures Prompt(c, turns + [t]) == if t.Truncated? && !EndedByReply(c, turns + [t]) then [PleaseContinue] else []
  {
    hide EndedByReply;
  }

  // What one turn adds to the messages and to the tools run.
  lemma TurnIsWritten(c: Config, env: Environment, given: seq<Entry>, first: nat, turns: seq<Turn>, t: Turn)
    ensures
      var said := env.compact(|turns|, Transcript(c, env, given, turns)) + Said(ReplyAt(c, env, |turns|), t);
      Transcript(c, env, given, turns + [t]) ==
        if t.Truncated? && !EndedByReply(c, turns + [t]) then said + [PleaseContinue] else said
    ensures ToolRuns(c, env, first, turns + [t]) ==
      ToolRuns(c, env, first, turns) + if RunsTools(c, env, |turns|, t) then [first + |turns|] else []
  {
    hide *;
    TranscriptGrows(c, env, given, turns, t);
    PromptIs(c, turns, t);
    ToolRunsGrow(c, env, first, turns, t);
    var said := env.compact(|turns|, Transcript(c, env, given, turns)) + Said(ReplyAt(c, env, |turns|), t);
    assert said + [] == said;
  }

  // The counters, messages and tool runs after one more turn, from what the turn adds to each.
  lemma TurnIsTaken(c: Config, env: Environment, given: seq<Entry>, start: int, first: nat, p: Progress, t: Turn)
    requires IsUnderWay(c, env, given, start, first, p) && GoesAhead(c, env, p) && Reads(c, env, |p.turns|, t)
    ensures IsPartialRun(c, env, start, p.turns + [t])
    ensures t.Answered? ==> IsRun(c, env, start, p.turns + [t], AnswerGiven)
    ensures t.Truncated? ==>
      if p.truncations < c.recovery.value.maxTruncations then
        CountersAgree(c, start, p.steps + 1, p.failures, p.truncations + 1, p.turns + [t]) &&
          !EndedByReply(c, p.turns + [t])
      else IsRun(c, env, start, p.turns + [t], TruncationGivenUp) && EndedByReply(c, p.turns + [t])
    ensures t.ToolBatch? ==>
      CountersAgree(c, start, p.steps + 1, if Fails(t.outcomes) then p.failures + 1 else 0, 0, p.turns + [t])
  {
    hide IsPartialRun, IsRun, CountersAgree, Verdict, EndedByReply, Transcript, ToolRuns, Fails, ReplyAt, OutcomesAt;
    ChecksAreVerdict(c, env, start, p.steps, p.failures, p.truncations, p.turns);
    TurnIsCounted(c, env, start, p.steps, p.failures, p.truncations, p.turns, t);
  }

  // The same as the loop does it, for each of the three ways to take a reply.
  lemma TruncatedTurn(c: Config, env: Environment, given: seq<Entry>, start: int, first: nat, p: Progress, r: Reply)
    requires IsUnderWay(c, env, given, start, first, p) && GoesAhead(c, env, p)
    requires r == ReplyAt(c, env, |p.turns|) && r.finishReason == "length" && c.recovery.Some?
    ensures
      var n, turns := |p.turns|, p.turns + [Truncated];
      var said := env.compact(n, p.messages) +
        [if r.toolCalls != [] then AssistantToolCalls(r.content, r.toolCalls) else AssistantText(r.content)];
      var runs := p.runs + if env.streams(n) && r.toolCalls != [] then [first + n] else [];
      if p.truncations >= c.recovery.value.maxTruncations then
        IsOver(c, env, given, start, first, turns, said, runs, TruncationGivenUp)
      else
        var asked := said + [PleaseContinue];
        IsUnderWay(c, env, given, start, first,
                   Progress(turns, p.steps + 1, p.failures, p.truncations + 1, asked, runs))
  {
    hide GoesAhead, ReplyAt, OutcomesAt, Fails, ResultsOf, IsPartialRun, IsRun, CountersAgree, EndedByReply;
    hide Transcript, ToolRuns;
    TurnIsTaken(c, env, given, start, first, p, Truncated);
    TurnIsWritten(c, env, given, first, p.turns, Truncated);
  }

  lemma AnsweredTurn(c: Config, env: Environment, given: seq<Entry>, start: int, first: nat, p: Progress, r: Reply)
    requires IsUnderWay(c, env, given, start, first, p) && GoesAhead(c, env, p)
    requires r == ReplyAt(c, env, |p.turns|) && !(r.finishReason == "length" && c.recovery.Some?) && r.toolCalls == []
    ensures
      var compacted := env.compact(|p.turns|, p.messages);
      var said := if r.content != "" then compacted + [AssistantText(r.content)] else compacted;
      IsOver(c, env, given, start, first, p.turns + [Answered], said, p.runs, AnswerGiven)
  {
    hide GoesAhead, ReplyAt, OutcomesAt, Fails, ResultsOf, IsPartialRun, IsRun, CountersAgree, EndedByReply;
    hide Transcript, ToolRuns;
    TurnIsTaken(c, env, given, start, first, p, Answered);
    TurnIsWritten(c, env, given, first, p.turns, Answered);
    assert p.runs + [] == p.runs;
    var compacted := env.compact(|p.turns|, p.messages);
    assert compacted + [] == compacted;
  }

  lemma UnderWayIs(c: Config, env: Environment, given: seq<Entry>, start: int, first: nat, p: Progress)
    ensures IsUnderWay(c, env, given, start, first, p) <==>
      && IsPartialRun(c, env, start, p.turns)
      && CountersAgree(c, start, p.steps, p.failures, p.truncations, p.turns)
      && p.messages == Transcript(c, env, given, p.turns)
      && p.runs == ToolRuns(c, env, first, p.turns)
  {
    hide IsPartialRun, CountersAgree, Transcript, ToolRuns;
  }

  lemma BatchIsRead(c: Config, env: Environment, n: nat, r: Reply, outcomes: seq<Outcome>)
    requires r == ReplyAt(c, env, n) && !(r.finishReason == "length" && c.recovery.Some?) && r.toolCalls != []
    requires outcomes == OutcomesAt(c, env, n)
    ensures Reads(c, env, n, ToolBatch(outcomes)) && RunsTools(c, env, n, ToolBatch(outcomes))
    ensures Said(r, ToolBatch(outcomes)) == [AssistantToolCalls(r.content, r.toolCalls)] + ResultsOf(outcomes)
  {
    hide ReplyAt, OutcomesAt, ResultsOf;
  }

  lemma InOneGo(a: seq<Entry>, b: seq<Entry>, c: seq<Entry>)
    ensures a + b + c == a + (b + c)
  {
  }

  lemma BatchTurn(c: Config, env: Environment, given: seq<Entry>, start: int, first: nat, p: Progress,
                  r: Reply, outcomes: seq<Outcome>)
    requires IsUnderWay(c, env, given, start, first, p) && GoesAhead(c, env, p)
    requires r == ReplyAt(c, env, |p.turns|) && !(r.finishReason == "length" && c.recovery.Some?) && r.toolCalls != []
    requires outcomes == OutcomesAt(c, env, |p.turns|)
    ensures
      var n := |p.turns|;
      var said := env.compact(n, p.messages) + [AssistantToolCalls(r.content, r.toolCalls)] + ResultsOf(outcomes);
      var failures := if Fails(outcomes) then p.failures + 1 else 0;
      IsUnderWay(c, env, given, start, first,
                 Progress(p.turns + [ToolBatch(outcomes)], p.steps + 1, failures, 0, said, p.runs + [first + n]))
  {
    hide *;
    var n, t := |p.turns|, ToolBatch(outcomes);
    BatchIsRead(c, env, n, r, outcomes);
    UnderWayIs(c, env, given, start, first, p);
    TurnIsTaken(c, env, given, start, first, p, t);
    TurnIsWritten(c, env, given, first, p.turns, t);
    InOneGo(env.compact(n, p.messages), [AssistantToolCalls(r.content, r.toolCalls)], ResultsOf(outcomes));
    var said := env.compact(n, p.messages) + [AssistantToolCalls(r.content, r.toolCalls)] + ResultsOf(outcomes);
    var failures := if Fails(outcomes) then p.failures + 1 else 0;
    UnderWayIs(c, env, given, start, first,
               Progress(p.turns + [t], p.steps + 1, failures, 0, said, p.runs + [first + n]));
  }

  lemma GoesOn(c: Config, env: Environment, p: Progress)
    requires env.budget(|p.turns|) && p.failures < c.maxToolFailures && p.steps + 1 < c.maxToolSteps
    ensures GoesAhead(c, env, p)
    ensures Attempts(c, env, |p.turns| + 1) == Attempts(c, env, |p.turns|) + AttemptsAt(c, env, |p.turns|)
  {
  }

  // ----- any number of runs since a reset -----

  datatype Run = Run(env: Environment, turns: seq<Turn>, exit: Exit)

  datatype Totals = Totals(steps: int, calls: nat, attempts: nat)

  // What one run adds to the totals the loop keeps between runs.
  function After(c: Config, t: Totals, r: Run): Totals {
    Totals(t.steps + |r.turns| + if r.exit == MaxSteps then 1 else 0,
           t.calls + |r.turns|,
           t.attempts + Attempts(c, r.env, |r.turns|))
  }

  function Tally(c: Config, runs: seq<Run>): Totals {
    if runs == [] then Totals(0, 0, 0) else After(c, Tally(c, runs[..|runs| - 1]), runs[|runs| - 1])
  }

  // Successive runs of one loop, each started from the totals the earlier ones left.
  ghost predicate AreRuns(c: Config, runs: seq<Run>) {
    runs != [] ==>
      var earlier, last := runs[..|runs| - 1], runs[|runs| - 1];
      && AreRuns(c, earlier)
      && IsRun(c, last.env, Tally(c, earlier).steps, last.turns, last.exit)
  }

  predicate WithinLimits(c: Config, t: Totals) {
    && t.calls <= t.steps
    && t.calls <= Positive(c.maxToolSteps - 1)
    && t.attempts <= t.calls * Positive(c.maxStreamingRetries + 1)
  }

  lemma {:induction false} OneMoreRun(c: Config, t: Totals, r: Run)
    requires WithinLimits(c, t) && IsRun(c, r.env, t.steps, r.turns, r.exit)
    ensures WithinLimits(c, After(c, t, r))
  {
    hide IsRun, Attempts, FailureStreak, TruncationStreak;
    RunIsBounded(c, r.env, t.steps, r.turns, r.exit, |r.turns|);
    AttemptsPerCall(c, r.env, |r.turns|);
    var m := Positive(c.maxStreamingRetries + 1);
    assert (t.calls + |r.turns|) * m == t.calls * m + |r.turns| * m;
  }

  /**
   * Over any number of runs since a reset, the completed model calls stay one below the step
   * limit, and the streaming attempts stay within the retry setting for each of those calls.
   */
  lemma {:induction false} AllRunsStayWithinLimits(c: Config, runs: seq<Run>)
    requires AreRuns(c, runs)
    ensures WithinLimits(c, Tally(c, runs))
  {
    if runs != [] {
      AllRunsStayWithinLimits(c, runs[..|runs| - 1]);
      OneMoreRun(c, Tally(c, runs[..|runs| - 1]), runs[|runs| - 1]);
    }
  }

  class AgentLoop {
    const config: Config
    var totalSteps: int
    var totalModelCalls: nat
    var streamAttempts: nat
    // The outcomes that the streaming path has left for the loop to pick up.
    var streamingToolResults: seq<Outcome>
    // The model calls whose tools have been run.
    ghost var toolRuns: seq<nat>

    constructor (config: Config)
      ensures this.config == config && totalSteps == 0 && totalModelCalls == 0 && streamAttempts == 0
      ensures streamingToolResults == [] && toolRuns == []
    {
      this.config := config;
      totalSteps, totalModelCalls, streamAttempts, streamingToolResults, toolRuns := 0, 0, 0, [], [];
    }

    method Reset()
      modifies this
      ensures totalSteps == 0 && totalModelCalls == 0 && streamAttempts == 0
      ensures streamingToolResults == [] && toolRuns == []
    {
      totalSteps, totalModelCalls, streamAttempts, streamingToolResults, toolRuns := 0, 0, 0, [], [];
    }

    // One call in streaming mode. Whether it streams or falls back to a batch call, the tools run
    // once and their outcomes are left in the buffer.
    method CallModelStreaming(env: Environment, turn: nat) returns (reply: Reply)
      modifies this`streamAttempts, this`streamingToolResults, this`toolRuns
      ensures reply == StreamingReply(config, env, turn)
      ensures streamingToolResults == StreamingOutcomes(config, env, turn)
      ensures streamAttempts == old(streamAttempts) + AttemptsFrom(config, CallOf(env, turn), 0)
      ensures toolRuns == old(toolRuns) + if reply.toolCalls != [] then [totalModelCalls] else []
    {
      var attempt := 0;
      var stream: Option<Streamed> := None;
      while attempt < config.maxStreamingRetries + 1
        invariant 0 <= attempt && (attempt > 0 ==> attempt <= config.maxStreamingRetries + 1)
        invariant streamAttempts == old(streamAttempts) + attempt && stream.None? && toolRuns == old(toolRuns)
        invariant AttemptsFrom(config, CallOf(env, turn), 0) ==
          attempt + AttemptsFrom(config, CallOf(env, turn), attempt)
        invariant Stream(config, env, turn, 0) == Stream(config, env, turn, attempt)
      {
        streamAttempts := streamAttempts + 1;
        stream := env.streamed(turn, attempt);
        if stream.Some? || !RetriesAfter(config, attempt) {
          break;
        }
        attempt := attempt + 1;
      }
      if stream.Some? {
        reply := stream.value.reply;
        streamingToolResults := Outcomes(reply.toolCalls, stream.value.works);
      } else {
        reply := env.batch(turn);
        streamingToolResults := Outcomes(reply.toolCalls, ToolsOf(env, turn));
      }
      toolRuns := toolRuns + if reply.toolCalls != [] then [totalModelCalls] else [];
    }

    // Streaming or batch; only the streaming path runs tools and leaves outcomes behind.
    method CallModel(env: Environment, turn: nat) returns (reply: Reply, streaming: bool)
      modifies this`streamAttempts, this`streamingToolResults, this`toolRuns
      ensures reply == ReplyAt(config, env, turn) && streaming == env.streams(turn)
      ensures streaming ==> streamingToolResults == OutcomesAt(config, env, turn)
      ensures streamAttempts == old(streamAttempts) + AttemptsAt(config, env, turn)
      ensures toolRuns == old(toolRuns) + if streaming && reply.toolCalls != [] then [totalModelCalls] else []
    {
      streaming := env.streams(turn);
      if streaming {
        reply := CallModelStreaming(env, turn);
      } else {
        reply := env.batch(turn);
      }
    }

    // The outcomes of a reply's tools: those the streaming path left, or those of running them now.
    method TakeOutcomes(env: Environment, turn: nat, streaming: bool) returns (outcomes: seq<Outcome>)
      requires totalModelCalls > 0 && streaming == env.streams(turn)
      requires streaming ==> streamingToolResults == OutcomesAt(config, env, turn)
      modifies this`streamingToolResults, this`toolRuns
      ensures outcomes == OutcomesAt(config, env, turn)
      ensures toolRuns == old(toolRuns) + if streaming then [] else [totalModelCalls - 1]
    {
      if streaming {
        outcomes := streamingToolResults;
        streamingToolResults := [];
      } else {
        outcomes := Outcomes(env.batch(turn).toolCalls, ToolsOf(env, turn));
        toolRuns := toolRuns + [totalModelCalls - 1];
      }
    }

    method ToolLoop(env: Environment, given: seq<Entry>)
        returns (messages: seq<Entry>, exit: Exit, ghost turns: seq<Turn>)
      modifies this
      ensures IsRun(config, env, old(totalSteps), turns, exit)
      ensures messages == Transcript(config, env, given, turns) + Farewell(exit)
      ensures exit == BudgetExhausted || exit == TooManyFailures || exit == MaxSteps ==>
        messages != [] && messages[|messages| - 1] == Warning(exit)
      ensures totalSteps == old(totalSteps) + |turns| + if exit == MaxSteps then 1 else 0
      ensures totalModelCalls == old(totalModelCalls) + |turns|
      ensures streamAttempts == old(streamAttempts) + Attempts(config, env, |turns|)
      ensures toolRuns == old(toolRuns) + ToolRuns(config, env, old(totalModelCalls), turns)
    {
      hide *;
      var failures, truncations := 0, 0;
      messages, turns := given, [];
      var calls := totalModelCalls;
      ghost var start: int, runs: seq<nat> := totalSteps, [];
      NothingDoneYet(config, env, given, start, calls);
      while true
        invariant totalModelCalls == calls + |turns| && totalSteps == start + |turns|
        invariant streamAttempts == old(streamAttempts) + Attempts(config, env, |turns|)
        invariant toolRuns == old(toolRuns) + runs
        invariant IsUnderWay(config, env, given, start, calls,
                             Progress(turns, totalSteps, failures, truncations, messages, runs))
        decreases config.maxToolSteps - totalSteps
      {
        ghost var p := Progress(turns, totalSteps, failures, truncations, messages, runs);
        if !env.budget(totalModelCalls - calls) {
          ChecksStop(config, env, given, start, calls, p);
          messages, exit := messages + [Warning(BudgetExhausted)], BudgetExhausted;
          break;
        }
        if failures >= config.maxToolFailures {
          ChecksStop(config, env, given, start, calls, p);
          messages, exit := messages + [Warning(TooManyFailures)], TooManyFailures;
          break;
        }
        totalSteps := totalSteps + 1;
        if totalSteps >= config.maxToolSteps {
          ChecksStop(config, env, given, start, calls, p);
          messages, exit := messages + [Warning(MaxSteps)], MaxSteps;
          break;
        }
        GoesOn(config, env, p);
        var turn := totalModelCalls - calls;
        messages := env.compact(turn, messages);
        var r, streaming := CallModel(env, turn);
        totalModelCalls := totalModelCalls + 1;
        if r.finishReason == "length" && config.recovery.Some? {
          TruncatedTurn(config, env, given, start, calls, p, r);
          turns, runs := turns + [Truncated], runs + if streaming && r.toolCalls != [] then [calls + turn] else [];
          messages := messages +
            [if r.toolCalls != [] then AssistantToolCalls(r.content, r.toolCalls) else AssistantText(r.content)];
          if truncations < config.recovery.value.maxTruncations {
            truncations := truncations + 1;
            messages := messages + [PleaseContinue];
            continue;
          } else {
            exit := TruncationGivenUp;
            break;
          }
        }
        if r.toolCalls == [] {
          AnsweredTurn(config, env, given, start, calls, p, r);
          turns := turns + [Answered];
          if r.content != "" {
            messages := messages + [AssistantText(r.content)];
          }
          exit := AnswerGiven;
          break;
        }
        messages := messages + [AssistantToolCalls(r.content, r.toolCalls)];
        var outcomes := TakeOutcomes(env, turn, streaming);
        messages := messages + ResultsOf(outcomes);
        BatchTurn(config, env, given, start, calls, p, r, outcomes);
        turns, runs := turns + [ToolBatch(outcomes)], runs + [calls + turn];
        failures, truncations := if Fails(outcomes) then failures + 1 else 0, 0;
      }
      OverMeans(config, env, given, start, calls, turns, messages, runs, exit);
    }
  }
}
