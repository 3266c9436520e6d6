/** AutoCompactor.maybe_compact: replacing the early part of a conversation by a summary, with a
    cap on the number of compactions and a breaker for consecutive failures. */
module AutoCompact {
  import opened Messages
  import opened Options
  import opened TimeDecay

  const MAX_CONSECUTIVE_FAILURES := 2

  datatype Settings = Settings(retainCount: int, maxCompacts: int)

  // int(x): truncation towards zero.
  function Truncated(x: real): int {
    if x >= 0.0 then x.Floor else -((-x).Floor)
  }

  // How many messages stay, before the length of the list is taken into account.
  function WishedRetain(retainCount: int, cacheHitRate: Option<real>): int {
    if cacheHitRate.Some? && cacheHitRate.value > 0.7 then Truncated(retainCount as real * 1.5)
    else if cacheHitRate.Some? && cacheHitRate.value < 0.3 then
      var fewer := Truncated(retainCount as real * 0.75);
      if fewer > 2 then fewer else 2
    else retainCount
  }

  function EffectiveRetain(retainCount: int, cacheHitRate: Option<real>, length: nat): int {
    var wished := WishedRetain(retainCount, cacheHitRate);
    var most := if length - 1 > 1 then length - 1 else 1;
    if wished < most then wished else most
  }

  // What one call of maybe_compact meets: whether the context window asks for compaction, the
  // adapter's cache hit rate, and the summary the model produced, if it did not raise.
  datatype Call = Call(asked: bool, cacheHitRate: Option<real>, summary: Option<string>)

  datatype Counters = Counters(compacts: nat, failures: nat)

  // The summary under its headline, which says the how-manieth compaction this is.
  function SummaryText(number: nat, text: string): string {
    "[上下文摘要 — 自动压缩 #" + Decimal(number) + "]\n\n以下是之前对话的关键信息摘要：\n\n" + text +
    "\n\n--- 以上为摘要，以下是最新对话 ---"
  }

  function SummaryMessage(number: nat, text: string): Message {
    Message(User, ContextSummary, SummaryText(number, text), false, false)
  }

  const HEADLINE := "[上下文摘要 — 自动压缩 #"

  lemma {:induction false} DecimalHasNoBracket(n: nat)
    ensures ']' !in Decimal(n)
  {
    if n >= 10 {
      DecimalHasNoBracket(n / 10);
    }
  }

  lemma UpToBracket(front: string, rest: string)
    requires ']' !in front
    ensures
      var s := front + "]" + rest;
      && s[|front|] == ']' && (forall i :: 0 <= i < |front| ==> s[i] != ']')
      && s[..|front|] == front && s[|front| + 1..] == rest
  {
    var s := front + "]" + rest;
    forall i | 0 <= i < |front| ensures s[i] != ']' {
      assert s[i] == front[i];
    }
  }

  lemma NumberEndsAtBracket(n: nat, rest: string, m: nat, others: string)
    requires Decimal(n) + "]" + rest == Decimal(m) + "]" + others
    ensures n == m && rest == others
  {
    DecimalHasNoBracket(n);
    DecimalHasNoBracket(m);
    DecimalReads(n);
    DecimalReads(m);
    UpToBracket(Decimal(n), rest);
    UpToBracket(Decimal(m), others);
  }

  // A summary message says which compaction wrote it and what the model had answered.
  lemma SummaryIsReadable(n: nat, text: string, m: nat, other: string)
    requires SummaryText(n, text) == SummaryText(m, other)
    ensures n == m && text == other
    ensures HEADLINE <= SummaryText(n, text) && Contains(SummaryText(n, text), text)
  {
    var intro, outro := "\n\n以下是之前对话的关键信息摘要：\n\n", "\n\n--- 以上为摘要，以下是最新对话 ---";
    SummaryParts(n, text);
    SummaryParts(m, other);
    var rest, others := intro + text + outro, intro + other + outro;
    assert SummaryText(n, text)[|HEADLINE|..] == SummaryText(m, other)[|HEADLINE|..];
    NumberEndsAtBracket(n, rest, m, others);
    assert rest[|intro|..|rest| - |outro|] == text && others[|intro|..|others| - |outro|] == other;
    var start := |HEADLINE| + |Decimal(n)| + 1 + |intro|;
    assert OccursAt(SummaryText(n, text), text, start);
  }

  lemma SummaryParts(n: nat, text: string)
    ensures
      var intro, outro := "\n\n以下是之前对话的关键信息摘要：\n\n", "\n\n--- 以上为摘要，以下是最新对话 ---";
      && SummaryText(n, text) == HEADLINE + (Decimal(n) + "]" + (intro + text + outro))
      && SummaryText(n, text)[|HEADLINE|..] == Decimal(n) + "]" + (intro + text + outro)
  {
    hide Decimal;
    var intro, outro := "\n\n以下是之前对话的关键信息摘要：\n\n", "\n\n--- 以上为摘要，以下是最新对话 ---";
    assert "]" + intro == "]\n\n以下是之前对话的关键信息摘要：\n\n";
    assert SummaryText(n, text) == HEADLINE + (Decimal(n) + "]" + (intro + text + outro));
  }

  // Half as much again for a warm cache, three quarters but at least two for a cold one, and in
  // any case no more than all messages but one; of a single message, one.
  lemma EffectiveRetainIs(retainCount: int, cacheHitRate: Option<real>, length: nat)
    ensures
      var wished :=
        if cacheHitRate == None || 0.3 <= cacheHitRate.value <= 0.7 then retainCount
        else if cacheHitRate.value > 0.7 then
          (if retainCount >= 0 then 3 * retainCount / 2 else -(-3 * retainCount / 2))
        else if retainCount >= 4 then 3 * retainCount / 4
        else 2;
      var most := if length >= 2 then length - 1 else 1;
      && EffectiveRetain(retainCount, cacheHitRate, length) <= wished
      && EffectiveRetain(retainCount, cacheHitRate, length) <= most
      && EffectiveRetain(retainCount, cacheHitRate, length) in {wished, most}
  {
    var half, quarters := retainCount as real * 1.5, retainCount as real * 0.75;
    TruncatedIs(half);
    TruncatedIs(quarters);
  }

  lemma RetainFits(retainCount: int, cacheHitRate: Option<real>, length: nat)
    ensures length > 1 ==> EffectiveRetain(retainCount, cacheHitRate, length) < length
  {
  }

  lemma TruncatedIs(x: real)
    ensures x >= 0.0 ==> Truncated(x) as real <= x < Truncated(x) as real + 1.0
    ensures x <= 0.0 ==> Truncated(x) as real - 1.0 < x <= Truncated(x) as real
  {
  }

  predicate PassesGuards(s: Settings, c: Counters, length: nat, call: Call) {
    call.asked && c.compacts < s.maxCompacts && c.failures < MAX_CONSECUTIVE_FAILURES && length > s.retainCount + 2
  }

  class AutoCompactor {
    const settings: Settings
    var compactCount: nat
    var consecutiveFailures: nat
    var compactHistory: seq<(nat, nat)>

    constructor (settings: Settings)
      ensures this.settings == settings && View() == Counters(0, 0) && compactHistory == []
    {
      this.settings := settings;
      compactCount, consecutiveFailures, compactHistory := 0, 0, [];
    }

    function View(): Counters
      reads this
    {
      Counters(compactCount, consecutiveFailures)
    }

    // None stands for Python's None, on which the caller's len() raises; `raised` for a failed summary.
    method DoCompact(messages: seq<Message>, call: Call) returns (raised: bool, compacted: Option<seq<Message>>)
      ensures raised <==>
        EffectiveRetain(settings.retainCount, call.cacheHitRate, |messages|) > 0 && |messages| > 1 && call.summary.None?
      ensures !raised ==>
        var keep := EffectiveRetain(settings.retainCount, call.cacheHitRate, |messages|);
        compacted == if keep <= 0 || |messages| <= 1 then None
                     else Some([SummaryMessage(compactCount + 1, call.summary.value)] + messages[|messages| - keep..])
    {
      var keep := EffectiveRetain(settings.retainCount, call.cacheHitRate, |messages|);
      if keep <= 0 || |messages| <= 1 {
        return false, None;
      }
      var toRetain := messages[|messages| - keep..];
      match call.summary
      case None => return true, None;
      case Some(text) => return false, Some([SummaryMessage(compactCount + 1, text)] + toRetain);
    }

    method MaybeCompact(messages: seq<Message>, call: Call) returns (result: seq<Message>)
      modifies this
      // Nothing happens unless compaction is asked for, allowed, not switched off by two failures
      // and worth while.
      ensures
        (!call.asked || old(compactCount) >= settings.maxCompacts || old(consecutiveFailures) >= 2 ||
         |messages| <= settings.retainCount + 2) ==>
        result == messages && View() == old(View()) && compactHistory == old(compactHistory)
      // Otherwise the call ends in one of three ways.
      ensures
        (call.asked && old(compactCount) < settings.maxCompacts && old(consecutiveFailures) < 2 &&
         |messages| > settings.retainCount + 2) ==>
        var keep := EffectiveRetain(settings.retainCount, call.cacheHitRate, |messages|);
        if keep <= 0 || |messages| <= 1 then
          result == messages && compactCount == old(compactCount) + 1 && consecutiveFailures == 1
        else if call.summary == None then
          result == messages && compactCount == old(compactCount) && consecutiveFailures == old(consecutiveFailures) + 1
        else
          && |result| == keep + 1 && result[1..] == messages[|messages| - keep..]
          && result[0].role == User && result[0].kind == ContextSummary && !result[0].hasToolCalls
          && result[0].content == SummaryText(old(compactCount) + 1, call.summary.value)
          && compactCount == old(compactCount) + 1 && consecutiveFailures == 0
      ensures compactHistory == old(compactHistory) || compactHistory == old(compactHistory) + [(|messages|, |result|)]
      ensures |compactHistory| > |old(compactHistory)| <==> compactCount > old(compactCount) && consecutiveFailures == 0
      ensures (result, View()) == AfterCall(settings, old(View()), messages, call)
      ensures compactHistory == old(compactHistory) +
        if Replaces(settings, old(View()), |messages|, call) then [(|messages|, |result|)] else []
    {
      hide EffectiveRetain, SummaryText;
      RetainFits(settings.retainCount, call.cacheHitRate, |messages|);
      result := messages;
      if !call.asked || compactCount >= settings.maxCompacts || consecutiveFailures >= MAX_CONSECUTIVE_FAILURES
         || |messages| <= settings.retainCount + 2 {
        return;
      }
      var raised, compacted := DoCompact(messages, call);
      if !raised {
        compactCount := compactCount + 1;
        consecutiveFailures := 0;
        if compacted.Some? {
          compactHistory := compactHistory + [(|messages|, |compacted.value|)];
          return compacted.value;
        }
      }
      // The except branch: a failed summary, or len(None).
      consecutiveFailures := consecutiveFailures + 1;
    }

    // The time-decay pass of the same object. If there is anything to decay it counts as one more
    // compaction and is entered in the history; the cap and the breaker are not consulted.
    method ApplyTimeDecay(words: seq<string>, messages: seq<Message>) returns (result: seq<Message>)
      modifies this`compactCount, this`compactHistory
      ensures result == Decayed(words, messages)
      ensures
        var applies := TotalTokens(OfRole(messages, false)) > 200_000;
        && compactCount == old(compactCount) + (if applies then 1 else 0)
        && compactHistory == old(compactHistory) + if applies then [(|messages|, |result|)] else []
    {
      var applied;
      result, applied := DecayPass(words, messages);
      if applied {
        compactHistory := compactHistory + [(|messages|, |result|)];
        compactCount := compactCount + 1;
      }
    }

    method Reset()
      modifies this
      ensures View() == Counters(0, 0) && compactHistory == []
    {
      compactCount, consecutiveFailures, compactHistory := 0, 0, [];
    }
  }

  // The call gets as far as replacing the list.
  predicate Replaces(s: Settings, c: Counters, length: nat, call: Call) {
    && PassesGuards(s, c, length, call)
    && EffectiveRetain(s.retainCount, call.cacheHitRate, length) > 0 && length > 1 && call.summary.Some?
  }

  // The list and the counters after a call.
  function AfterCall(s: Settings, c: Counters, messages: seq<Message>, call: Call): (seq<Message>, Counters) {
    if !PassesGuards(s, c, |messages|, call) then (messages, c)
    else
      var keep := EffectiveRetain(s.retainCount, call.cacheHitRate, |messages|);
      if keep <= 0 || |messages| <= 1 then (messages, Counters(c.compacts + 1, 1))
      else if call.summary.None? then (messages, Counters(c.compacts, c.failures + 1))
      else ([SummaryMessage(c.compacts + 1, call.summary.value)] + messages[|messages| - keep..],
            Counters(c.compacts + 1, 0))
  }

  // ----- whole conversations -----

  datatype Event = Append(messages: seq<Message>) | MaybeCompact(call: Call) | Reset

  // The list in use beside the full log of everything that was ever appended, and the number of
  // lists replaced since the last reset.
  datatype Conversation = Conversation(log: seq<Message>, messages: seq<Message>, counters: Counters, replaced: nat)

  const EMPTY := Conversation([], [], Counters(0, 0), 0)

  function Step(s: Settings, c: Conversation, e: Event): Conversation {
    match e
    case Append(ms) => c.(log := c.log + ms, messages := c.messages + ms)
    case Reset => c.(counters := Counters(0, 0), replaced := 0)
    case MaybeCompact(call) =>
      var (messages, counters) := AfterCall(s, c.counters, c.messages, call);
      c.(messages := messages, counters := counters,
        replaced := c.replaced + if counters.compacts > c.counters.compacts && counters.failures == 0 then 1 else 0)
  }

  function Run(s: Settings, es: seq<Event>): Conversation {
    if es == [] then EMPTY else Step(s, Run(s, es[..|es| - 1]), es[|es| - 1])
  }

  // Either nothing is missing, or one summary stands for a non-empty beginning of the log and a
  // non-empty rest of the log follows it unchanged.
  ghost predicate IsLogOrSummarised(log: seq<Message>, messages: seq<Message>) {
    messages == log || exists k :: IsSummarisedAt(log, messages, k)
  }

  ghost predicate IsSummarisedAt(log: seq<Message>, messages: seq<Message>, k: int) {
    0 < k < |log| && |messages| > 1 && messages[0].kind == ContextSummary && messages[1..] == log[k..]
  }

  lemma SuffixOfSuffix(log: seq<Message>, messages: seq<Message>, keep: nat)
    requires IsLogOrSummarised(log, messages) && 0 < keep < |messages|
    ensures keep < |log| && messages[|messages| - keep..] == log[|log| - keep..]
  {
    if messages != log {
      var k :| IsSummarisedAt(log, messages, k);
      assert messages[|messages| - keep..] == messages[1..][|messages| - 1 - keep..];
      assert log[k..][|log| - k - keep..] == log[|log| - keep..];
    }
  }

  lemma CallKeepsShape(s: Settings, c: Counters, log: seq<Message>, messages: seq<Message>, call: Call)
    requires IsLogOrSummarised(log, messages)
    ensures IsLogOrSummarised(log, AfterCall(s, c, messages, call).0)
  {
    var after := AfterCall(s, c, messages, call).0;
    if after != messages {
      var keep := EffectiveRetain(s.retainCount, call.cacheHitRate, |messages|);
      SuffixOfSuffix(log, messages, keep);
      assert IsSummarisedAt(log, after, |log| - keep);
    }
  }

  lemma AppendKeepsShape(log: seq<Message>, messages: seq<Message>, more: seq<Message>)
    requires IsLogOrSummarised(log, messages)
    ensures IsLogOrSummarised(log + more, messages + more)
  {
    if messages != log {
      var k :| IsSummarisedAt(log, messages, k);
      assert (messages + more)[1..] == messages[1..] + more;
      assert (log + more)[k..] == log[k..] + more;
      assert IsSummarisedAt(log + more, messages + more, k);
    }
  }

  // Over any run, for any settings, whatever the model and the context window answer, the list is
  // the full log or one summary with a contiguous rest of the log behind it.
  lemma {:induction false} ListIsLogOrSummarised(s: Settings, es: seq<Event>)
    ensures IsLogOrSummarised(Run(s, es).log, Run(s, es).messages)
  {
    if es != [] {
      var before := Run(s, es[..|es| - 1]);
      ListIsLogOrSummarised(s, es[..|es| - 1]);
      match es[|es| - 1]
      case Append(ms) => AppendKeepsShape(before.log, before.messages, ms);
      case Reset =>
      case MaybeCompact(call) => CallKeepsShape(s, before.counters, before.log, before.messages, call);
    }
  }

  // Between resets there are no more compactions than allowed, and the breaker has two states to go.
  lemma {:induction false} CountersStayInBounds(s: Settings, es: seq<Event>)
    ensures
      var c := Run(s, es);
      && c.replaced <= c.counters.compacts <= (if s.maxCompacts > 0 then s.maxCompacts else 0)
      && c.counters.failures <= MAX_CONSECUTIVE_FAILURES
  {
    if es != [] {
      CountersStayInBounds(s, es[..|es| - 1]);
    }
  }

  predicate HasReset(es: seq<Event>) {
    exists i :: 0 <= i < |es| && es[i].Reset?
  }

  // After two failures in a row nothing but appending happens until the next reset.
  lemma {:induction false} BreakerHoldsUntilReset(s: Settings, es: seq<Event>, more: seq<Event>)
    requires Run(s, es).counters.failures >= MAX_CONSECUTIVE_FAILURES && !HasReset(more)
    ensures Run(s, es + more).counters == Run(s, es).counters
    ensures Run(s, es).messages <= Run(s, es + more).messages && Run(s, es).log <= Run(s, es + more).log
    ensures Run(s, es + more).messages[|Run(s, es).messages|..] == Run(s, es + more).log[|Run(s, es).log|..]
  {
    if more == [] {
      assert es + more == es;
    } else {
      var front, last := more[..|more| - 1], more[|more| - 1];
      BreakerHoldsUntilReset(s, es, front);
      assert (es + more)[..|es + more| - 1] == es + front;
      assert last == more[|more| - 1] && !last.Reset?;
    }
  }

  // Two failures in a row: two triggered calls whose summary raised.
  lemma TwoFailuresOpenBreaker(s: Settings, c: Counters, messages: seq<Message>, first: Call, second: Call)
    requires c.failures == 0 && s.retainCount >= 1 && first.summary.None? && second.summary.None?
    requires PassesGuards(s, c, |messages|, first) && second.asked
    ensures
      var (same, once) := AfterCall(s, c, messages, first);
      var (still, twice) := AfterCall(s, once, same, second);
      same == messages && still == messages && twice == Counters(c.compacts, 2)
  {
  }

  // A triggered call with a working model replaces the list exactly when it is set to retain
  // something: the configured count is positive, or the cache is cold enough for the floor of two
  // to apply. Otherwise it changes nothing and still uses up one of the allowed compactions.
  lemma RetainingNothingWastesTheCall(s: Settings, c: Counters, messages: seq<Message>, call: Call)
    requires PassesGuards(s, c, |messages|, call) && call.summary.Some? && |messages| > 1
    ensures
      var (after, counters) := AfterCall(s, c, messages, call);
      var retains := s.retainCount >= 1 || (call.cacheHitRate.Some? && call.cacheHitRate.value < 0.3);
      && counters.compacts == c.compacts + 1
      && (if retains then
            after != [] && after[0] == SummaryMessage(c.compacts + 1, call.summary.value) && counters.failures == 0
          else after == messages && counters.failures == 1)
  {
  }

  // A compaction shortens the list exactly when it wishes to retain fewer than all but one message;
  // with no word from the cache it always does.
  lemma CompactionShortensIff(s: Settings, c: Counters, messages: seq<Message>, call: Call)
    requires PassesGuards(s, c, |messages|, call) && call.summary.Some? && |messages| > 1
    requires EffectiveRetain(s.retainCount, call.cacheHitRate, |messages|) > 0
    ensures |AfterCall(s, c, messages, call).0| < |messages| <==>
      WishedRetain(s.retainCount, call.cacheHitRate) < |messages| - 1
    ensures call.cacheHitRate.None? ==> |AfterCall(s, c, messages, call).0| == s.retainCount + 1 < |messages|
  {
  }
}
