/** AutoCompactor._apply_time_decay_compression: the further back a message, the less of it is kept. */
module TimeDecay {
  import opened Messages

  const RECENT_BUDGET := 200_000
  const ZONE2_END := 600_000
  const ZONE3_END := 900_000

  // ----- token estimates -----

  function MessageTokens(m: Message): nat {
    if |m.content| / 2 > 1 then |m.content| / 2 else 1
  }

  function TotalTokens(ms: seq<Message>): nat {
    if ms == [] then 0 else MessageTokens(ms[0]) + TotalTokens(ms[1..])
  }

  // How many tokens stand behind message i.
  function DistanceFromEnd(ms: seq<Message>, i: nat): nat
    requires i < |ms|
  {
    TotalTokens(ms[i + 1..])
  }

  // ----- compressing one message -----

  function Decimal(n: nat): string {
    if n < 10 then ["0123456789"[n]] else Decimal(n / 10) + ["0123456789"[n % 10]]
  }

  function Marker(omitted: nat): string {
    "\n... [省略 " + Decimal(omitted) + " 字符] ...\n"
  }

  function TargetLength(length: nat, ratio: real): nat
    requires 0.0 <= ratio
  {
    var wished := (length as real * ratio).Floor;
    if wished > 50 then wished else 50
  }

  function HeadLength(target: nat): nat {
    (target as real * 0.7).Floor
  }

  lemma HeadFits(target: nat)
    ensures HeadLength(target) <= target
    ensures target >= 50 ==> 0 < HeadLength(target) < target
  {
  }

  function Shortened(content: string, target: nat): string
    requires 50 <= target < |content|
  {
    HeadFits(target);
    var head := HeadLength(target);
    var tail := target - head;
    content[..head] + Marker(|content| - head - tail) + content[|content| - tail..]
  }

  function LightCompress(m: Message, ratio: real): Message
    requires 0.0 <= ratio
  {
    var target := TargetLength(|m.content|, ratio);
    if m.content == "" || |m.content| <= target then m
    else m.(content := Shortened(m.content, target), decayed := true)
  }

  ghost predicate KeepsEnds(content: string, shortened: string, head: nat, tail: nat)
    requires head + tail <= |content|
  {
    shortened == content[..head] + Marker(|content| - head - tail) + content[|content| - tail..]
  }

  // Compression cuts out a middle part and says how long it was; everything else is kept.
  lemma LightCompressKeepsEnds(m: Message, ratio: real)
    requires 0.0 <= ratio
    ensures
      var c := LightCompress(m, ratio);
      var target := TargetLength(|m.content|, ratio);
      && c.role == m.role && c.kind == m.kind && c.hasToolCalls == m.hasToolCalls
      && HeadLength(target) <= target
      && (|m.content| <= target ==> c == m)
      && (|m.content| > target ==>
            c.decayed && KeepsEnds(m.content, c.content, HeadLength(target), target - HeadLength(target)))
  {
    HeadFits(TargetLength(|m.content|, ratio));
  }

  // What is left: the given share of the length rounded down, but at least 50 characters; seven
  // tenths of that, rounded down, are the head.
  lemma CutIs(length: nat, ratio: real)
    requires 0.0 <= ratio
    ensures
      var target := TargetLength(length, ratio);
      && target >= 50 && target as real > length as real * ratio - 1.0
      && (target > 50 ==> target as real <= length as real * ratio)
      && 10 * HeadLength(target) <= 7 * target < 10 * HeadLength(target) + 10
  {
    var wished := length as real * ratio;
    assert wished.Floor as real <= wished < wished.Floor as real + 1.0;
  }

  lemma {:induction false} DecimalIsShort(n: nat)
    ensures 1 <= |Decimal(n)| <= 1 + n / 10
    ensures n >= 10 ==> |Decimal(n)| >= 2
  {
    if n >= 10 {
      DecimalIsShort(n / 10);
    }
  }

  // The number a row of digits stands for.
  function ReadDecimal(s: string): int {
    if s == [] then 0 else 10 * ReadDecimal(s[..|s| - 1]) + (s[|s| - 1] as int - '0' as int)
  }

  lemma {:induction false} DecimalReads(n: nat)
    ensures ReadDecimal(Decimal(n)) == n
    ensures forall i :: 0 <= i < |Decimal(n)| ==> '0' <= Decimal(n)[i] <= '9'
  {
    if n >= 10 {
      DecimalReads(n / 10);
      assert Decimal(n)[..|Decimal(n)| - 1] == Decimal(n / 10);
    }
  }

  // Cutting pays exactly when the part cut out is longer than the marker put in its place: from 21
  // characters on. A cut of 20 keeps the length, and any shorter one makes the message longer.
  lemma CompressionShortensIff(m: Message, ratio: real)
    requires 0.0 <= ratio && LightCompress(m, ratio) != m
    ensures
      var cut, before, after :=
        |m.content| - TargetLength(|m.content|, ratio), |m.content|, |LightCompress(m, ratio).content|;
      (after < before <==> cut >= 21) && (after == before <==> cut == 20) && (after > before <==> cut <= 19)
  {
    var target := TargetLength(|m.content|, ratio);
    HeadFits(target);
    var omitted := |m.content| - target;
    assert |LightCompress(m, ratio).content| == target + 18 + |Decimal(omitted)|;
    DecimalIsShort(omitted);
  }

  // Sixty characters at the gentlest ratio become seventy.
  lemma SixtyCharactersGrow(m: Message)
    requires |m.content| == 60
    ensures |LightCompress(m, 0.8).content| == 70
  {
    assert TargetLength(60, 0.8) == 50;
    HeadFits(50);
    assert |Decimal(10)| == 2;
  }

  // ----- what is kept of a message -----

  // The words the source looks for; nothing below depends on which they are.
  const KEY_WORDS: seq<string> := [
    "决定", "决策", "选择", "采用", "切换到", "改为",
    "成功", "完成", "失败", "通过", "未通过",
    "Error", "error", "错误", "异常", "Exception",
    "切换策略", "换方法", "更换方案", "改用"]

  predicate OccursAt(text: string, word: string, i: nat) {
    i + |word| <= |text| && text[i..i + |word|] == word
  }

  predicate Contains(text: string, word: string) {
    exists i :: 0 <= i <= |text| && OccursAt(text, word, i)
  }

  predicate IsKey(words: seq<string>, m: Message) {
    || m.kind == ContextSummary
    || m.role == User
    || m.hasToolCalls
    || exists k :: 0 <= k < |words| && Contains(m.content, words[k])
  }

  // The user's own messages, summaries and tool calls are key, and so is any text around one of the words.
  lemma IsKeyIff(words: seq<string>, m: Message)
    ensures IsKey(words, m) <==>
      || m.role == User || m.kind == ContextSummary || m.hasToolCalls
      || exists word, before, after :: word in words && m.content == before + word + after
  {
    if k, i :| 0 <= k < |words| && 0 <= i <= |m.content| && OccursAt(m.content, words[k], i) {
      assert words[k] in words && m.content == m.content[..i] + words[k] + m.content[i + |words[k]|..];
    }
    if word, before, after :| word in words && m.content == before + word + after {
      var k :| 0 <= k < |words| && words[k] == word;
      assert OccursAt(m.content, words[k], |before|);
      assert Contains(m.content, words[k]);
    }
  }

  datatype Treatment = Verbatim | Compress(ratio: real) | Drop

  // The source's chain of conditions over the distance from the end and the message's own tokens.
  function TreatmentAt(key: bool, distance: nat, tokens: nat): Treatment {
    if distance + tokens <= RECENT_BUDGET then Verbatim
    else if distance < RECENT_BUDGET then Verbatim
    else if distance + tokens <= ZONE2_END then (if key then Verbatim else Compress(0.8))
    else if distance < ZONE2_END then (if key then Verbatim else Compress(0.6))
    else if distance + tokens <= ZONE3_END then (if key then Compress(0.7) else Compress(0.4))
    else if key then Compress(0.5) else Drop
  }

  // The share of a message a treatment aims to retain.
  function Retention(t: Treatment): real {
    match t
    case Verbatim => 1.0
    case Compress(ratio) => ratio
    case Drop => 0.0
  }

  function Apply(t: Treatment, m: Message): seq<Message>
    requires t.Compress? ==> 0.0 <= t.ratio
  {
    match t
    case Verbatim => [m]
    case Compress(ratio) => [LightCompress(m, ratio)]
    case Drop => []
  }

  function TreatmentOf(words: seq<string>, ms: seq<Message>, i: nat): Treatment
    requires i < |ms|
  {
    TreatmentAt(IsKey(words, ms[i]), DistanceFromEnd(ms, i), MessageTokens(ms[i]))
  }

  // The conversation without its system messages after the first n of them have been treated.
  function Treated(words: seq<string>, ms: seq<Message>, n: nat): seq<Message>
    requires n <= |ms|
  {
    if n == 0 then [] else Treated(words, ms, n - 1) + Apply(TreatmentOf(words, ms, n - 1), ms[n - 1])
  }

  function OfRole(ms: seq<Message>, system: bool): seq<Message> {
    if ms == [] then []
    else
      var last := ms[|ms| - 1];
      OfRole(ms[..|ms| - 1], system) + if (last.role == System) == system then [last] else []
  }

  function Decayed(words: seq<string>, ms: seq<Message>): seq<Message> {
    if NeedsDecay(ms) then OfRole(ms, true) + Treated(words, OfRole(ms, false), |OfRole(ms, false)|) else ms
  }

  // The messages other than system messages do not fit the recent budget.
  predicate NeedsDecay(ms: seq<Message>) {
    OfRole(ms, false) != [] && TotalTokens(OfRole(ms, false)) > RECENT_BUDGET
  }

  // ----- the pass -----

  // Accumulates from the newest message backwards.
  method SuffixSums(ms: seq<Message>) returns (tokens: array<nat>, cumulative: array<nat>)
    ensures fresh(tokens) && fresh(cumulative) && tokens.Length == cumulative.Length == |ms|
    ensures forall i :: 0 <= i < |ms| ==> tokens[i] == MessageTokens(ms[i])
    ensures forall i :: 0 <= i < |ms| ==> cumulative[i] == DistanceFromEnd(ms, i) + tokens[i]
  {
    tokens := new nat[|ms|](i requires 0 <= i < |ms| => MessageTokens(ms[i]));
    cumulative := new nat[|ms|](_ => 0);
    var sum := 0;
    var i := |ms|;
    while i > 0
      invariant 0 <= i <= |ms| && sum == TotalTokens(ms[i..])
      invariant forall k :: 0 <= k < |ms| ==> tokens[k] == MessageTokens(ms[k])
      invariant forall k :: i <= k < |ms| ==> cumulative[k] == DistanceFromEnd(ms, k) + tokens[k]
    {
      i := i - 1;
      assert ms[i..][1..] == ms[i + 1..];
      sum := sum + tokens[i];
      cumulative[i] := sum;
    }
  }

  method SplitByRole(messages: seq<Message>) returns (systemMessages: seq<Message>, userMessages: seq<Message>)
    ensures systemMessages == OfRole(messages, true) && userMessages == OfRole(messages, false)
  {
    systemMessages, userMessages := [], [];
    for i := 0 to |messages|
      invariant systemMessages == OfRole(messages[..i], true) && userMessages == OfRole(messages[..i], false)
    {
      assert messages[..i + 1][..i] == messages[..i];
      if messages[i].role == System {
        systemMessages := systemMessages + [messages[i]];
      } else {
        userMessages := userMessages + [messages[i]];
      }
    }
    assert messages[..|messages|] == messages;
  }

  lemma OneMoreTreated(words: seq<string>, ms: seq<Message>, i: nat)
    requires i < |ms|
    ensures Treated(words, ms, i + 1) == Treated(words, ms, i) + Apply(TreatmentOf(words, ms, i), ms[i])
    ensures TreatmentOf(words, ms, i) == Drop ==> Treated(words, ms, i + 1) == Treated(words, ms, i)
  {
  }

  method DecayPass(words: seq<string>, messages: seq<Message>) returns (result: seq<Message>, applied: bool)
    ensures result == Decayed(words, messages) && applied == NeedsDecay(messages)
  {
    var systemMessages, userMessages := SplitByRole(messages);
    if userMessages == [] {
      return messages, false;
    }
    if TotalTokens(userMessages) <= RECENT_BUDGET {
      return messages, false;
    }
    var tokens, cumulative := SuffixSums(userMessages);
    var kept: seq<Message> := [];
    for i := 0 to |userMessages|
      invariant kept == Treated(words, userMessages, i)
      modifies {}
    {
      var m, key := userMessages[i], IsKey(words, userMessages[i]);
      var distance := cumulative[i] - tokens[i];
      OneMoreTreated(words, userMessages, i);
      assert distance == DistanceFromEnd(userMessages, i) && tokens[i] == MessageTokens(m);
      if distance + tokens[i] <= RECENT_BUDGET {
        kept := kept + [m];
      } else if distance < RECENT_BUDGET {
        kept := kept + [m];
      } else if distance + tokens[i] <= ZONE2_END {
        kept := kept + [if key then m else LightCompress(m, 0.8)];
      } else if distance < ZONE2_END {
        kept := kept + [if key then m else LightCompress(m, 0.6)];
      } else if distance + tokens[i] <= ZONE3_END {
        kept := kept + [if key then LightCompress(m, 0.7) else LightCompress(m, 0.4)];
      } else if key {
        kept := kept + [LightCompress(m, 0.5)];
      }
    }
    result, applied := systemMessages + kept, true;
  }

  // ----- what the pass keeps -----

  lemma {:induction false} OlderIsFurther(ms: seq<Message>, older: nat, newer: nat)
    requires older < newer < |ms|
    ensures DistanceFromEnd(ms, older) >= DistanceFromEnd(ms, newer) + MessageTokens(ms[newer])
    decreases newer - older
  {
    assert ms[older + 1..][1..] == ms[older + 2..];
    if older + 1 < newer {
      OlderIsFurther(ms, older + 1, newer);
    }
  }

  // An older message is never treated more gently than a newer one of the same importance.
  lemma OlderIsNeverGentler(words: seq<string>, ms: seq<Message>, older: nat, newer: nat)
    requires older < newer < |ms| && IsKey(words, ms[older]) == IsKey(words, ms[newer])
    ensures Retention(TreatmentOf(words, ms, older)) <= Retention(TreatmentOf(words, ms, newer))
  {
    OlderIsFurther(ms, older, newer);
  }

  // Key messages may be cut but never dropped; what starts within the last 200,000 tokens is not touched.
  lemma KeyAndRecentSurvive(words: seq<string>, ms: seq<Message>, i: nat)
    requires i < |ms|
    ensures IsKey(words, ms[i]) ==> TreatmentOf(words, ms, i) != Drop
    ensures DistanceFromEnd(ms, i) < RECENT_BUDGET ==> TreatmentOf(words, ms, i) == Verbatim
    ensures TreatmentOf(words, ms, i) == Drop <==>
      !IsKey(words, ms[i]) && DistanceFromEnd(ms, i) >= ZONE2_END &&
        DistanceFromEnd(ms, i) + MessageTokens(ms[i]) > ZONE3_END
  {
  }

  // The distance is nought for the last message and grows by the tokens passed over.
  lemma DistanceSteps(ms: seq<Message>, i: nat)
    requires i < |ms|
    ensures i == |ms| - 1 ==> DistanceFromEnd(ms, i) == 0
    ensures i < |ms| - 1 ==> DistanceFromEnd(ms, i) == DistanceFromEnd(ms, i + 1) + MessageTokens(ms[i + 1])
  {
    if i < |ms| - 1 {
      assert ms[i + 1..][1..] == ms[i + 2..];
    }
  }

  // Which treatment a message receives, by what lies behind it and where its own tokens end.
  lemma TreatmentsAre(words: seq<string>, ms: seq<Message>, i: nat)
    requires i < |ms|
    ensures
      var key, start, t := IsKey(words, ms[i]), DistanceFromEnd(ms, i), TreatmentOf(words, ms, i);
      var end := start + if |ms[i].content| >= 4 then |ms[i].content| / 2 else 1;
      && (t == Verbatim <==> start < 200_000 || (key && start < 600_000))
      && (t == Compress(0.8) <==> !key && 200_000 <= start && end <= 600_000)
      && (t == Compress(0.6) <==> !key && 200_000 <= start < 600_000 < end)
      && (t == Compress(0.7) <==> key && 600_000 <= start && end <= 900_000)
      && (t == Compress(0.5) <==> key && 600_000 <= start && 900_000 < end)
      && (t == Compress(0.4) <==> !key && 600_000 <= start && end <= 900_000)
      && (t == Drop <==> !key && 600_000 <= start && 900_000 < end)
  {
    hide IsKey, DistanceFromEnd;
  }

  // The positions of the messages that are kept, in order.
  function KeptPositions(words: seq<string>, ms: seq<Message>, n: nat): seq<nat>
    requires n <= |ms|
  {
    if n == 0 then []
    else KeptPositions(words, ms, n - 1) + if TreatmentOf(words, ms, n - 1) == Drop then [] else [n - 1]
  }

  // Each output message is the message of its position, treated as that position demands.
  ghost predicate Follows(words: seq<string>, ms: seq<Message>, positions: seq<nat>, out: seq<Message>) {
    && |out| == |positions|
    && forall k :: 0 <= k < |out| ==>
         positions[k] < |ms| && Apply(TreatmentOf(words, ms, positions[k]), ms[positions[k]]) == [out[k]]
  }

  lemma FollowsOneMore(words: seq<string>, ms: seq<Message>, positions: seq<nat>, out: seq<Message>, i: nat)
    requires Follows(words, ms, positions, out) && i < |ms|
    ensures
      var t := TreatmentOf(words, ms, i);
      Follows(words, ms, positions + (if t == Drop then [] else [i]), out + Apply(t, ms[i]))
  {
  }

  lemma NothingFollows(words: seq<string>, ms: seq<Message>)
    ensures Follows(words, ms, [], [])
  {
  }

  // The output is the kept messages in their old order, each treated as its own place demands.
  lemma {:induction false} TreatedFollowsOrder(words: seq<string>, ms: seq<Message>, n: nat)
    requires n <= |ms|
    ensures Follows(words, ms, KeptPositions(words, ms, n), Treated(words, ms, n))
  {
    hide Follows, IsKey, TreatmentOf;
    if n == 0 {
      NothingFollows(words, ms);
    } else {
      TreatedFollowsOrder(words, ms, n - 1);
      FollowsOneMore(words, ms, KeptPositions(words, ms, n - 1), Treated(words, ms, n - 1), n - 1);
      OneMoreTreated(words, ms, n - 1);
    }
  }

  // The pass as a whole: up to 200,000 tokens nothing changes; beyond, the system messages come
  // first and the kept others follow.
  lemma DecayedIs(words: seq<string>, ms: seq<Message>)
    ensures
      var others := OfRole(ms, false);
      if TotalTokens(others) <= 200_000 then Decayed(words, ms) == ms
      else exists out ::
        && Decayed(words, ms) == OfRole(ms, true) + out
        && Follows(words, others, KeptPositions(words, others, |others|), out)
  {
    var others := OfRole(ms, false);
    TreatedFollowsOrder(words, others, |others|);
  }

  // The kept positions are those of all messages not dropped, and they increase.
  lemma {:induction false} KeptPositionsAre(words: seq<string>, ms: seq<Message>, n: nat, i: nat)
    requires n <= |ms|
    ensures i in KeptPositions(words, ms, n) <==> i < n && TreatmentOf(words, ms, i) != Drop
  {
    if n > 0 {
      KeptPositionsAre(words, ms, n - 1, i);
    }
  }

  predicate Increasing(positions: seq<nat>) {
    forall k, l :: 0 <= k < l < |positions| ==> positions[k] < positions[l]
  }

  lemma {:induction false} KeptPositionsIncrease(words: seq<string>, ms: seq<Message>, n: nat)
    requires n <= |ms|
    ensures Increasing(KeptPositions(words, ms, n))
  {
    if n > 0 {
      var before := KeptPositions(words, ms, n - 1);
      KeptPositionsIncrease(words, ms, n - 1);
      forall k | 0 <= k < |before| ensures before[k] < n - 1 {
        assert before[k] in before;
        KeptPositionsAre(words, ms, n - 1, before[k]);
      }
    }
  }

  lemma {:induction false} OfRoleIs(ms: seq<Message>, system: bool)
    ensures forall m :: m in OfRole(ms, system) <==> m in ms && (m.role == System) == system
  {
    if ms != [] {
      var front, last := ms[..|ms| - 1], ms[|ms| - 1];
      OfRoleIs(front, system);
      assert ms == front + [last];
    }
  }

  lemma OneMoreOfRole(front: seq<Message>, last: Message)
    ensures OfRole(front + [last], true) == OfRole(front, true) + if last.role == System then [last] else []
    ensures OfRole(front + [last], false) == OfRole(front, false) + if last.role == System then [] else [last]
  {
    assert (front + [last])[..|front|] == front;
  }

  // Sorting the messages by role loses and doubles none.
  lemma {:induction false} RolesPartition(ms: seq<Message>)
    ensures multiset(OfRole(ms, true)) + multiset(OfRole(ms, false)) == multiset(ms)
  {
    if ms != [] {
      hide OfRole;
      var front, last := ms[..|ms| - 1], ms[|ms| - 1];
      RolesPartition(front);
      OneMoreOfRole(front, last);
      assert ms == front + [last];
    }
  }

  // Whatever happens to the others, every system message is kept, in order and at the head; and a
  // conversation that fits the recent budget comes back as it was.
  lemma SystemMessagesSurvive(words: seq<string>, ms: seq<Message>)
    ensures OfRole(Decayed(words, ms), true) == OfRole(ms, true)
    ensures TotalTokens(OfRole(ms, false)) <= RECENT_BUDGET ==> Decayed(words, ms) == ms
  {
    var others := OfRole(ms, false);
    if others != [] && TotalTokens(others) > RECENT_BUDGET {
      OfRoleIs(ms, false);
      TreatedHasNoSystem(words, others, |others|);
      OfRoleTwice(ms);
      OfRoleAdds(OfRole(ms, true), Treated(words, others, |others|), true);
    }
  }

  lemma {:induction false} OfRoleAdds(a: seq<Message>, b: seq<Message>, system: bool)
    ensures OfRole(a + b, system) == OfRole(a, system) + OfRole(b, system)
  {
    if b == [] {
      assert a + b == a;
    } else {
      assert (a + b)[..|a + b| - 1] == a + b[..|b| - 1];
      OfRoleAdds(a, b[..|b| - 1], system);
    }
  }

  lemma {:induction false} OfRoleTwice(ms: seq<Message>)
    ensures OfRole(OfRole(ms, true), true) == OfRole(ms, true)
  {
    if ms != [] {
      OfRoleTwice(ms[..|ms| - 1]);
      var last := ms[|ms| - 1];
      assert [last][..0] == [];
      OfRoleAdds(OfRole(ms[..|ms| - 1], true), if last.role == System then [last] else [], true);
    }
  }

  lemma AppliedKeepsRole(t: Treatment, m: Message)
    requires t.Compress? ==> 0.0 <= t.ratio
    requires m.role != System
    ensures OfRole(Apply(t, m), true) == []
  {
    var kept := Apply(t, m);
    if kept != [] {
      assert kept[..0] == [];
      assert kept[0].role == m.role;
    }
  }

  lemma NeitherHasSystem(a: seq<Message>, b: seq<Message>)
    requires OfRole(a, true) == [] == OfRole(b, true)
    ensures OfRole(a + b, true) == []
  {
    OfRoleAdds(a, b, true);
  }

  lemma {:induction false} TreatedHasNoSystem(words: seq<string>, ms: seq<Message>, n: nat)
    requires n <= |ms| && forall m :: m in ms ==> m.role != System
    ensures OfRole(Treated(words, ms, n), true) == []
  {
    hide OfRole, IsKey;
    if n == 0 {
      NothingTreated(words, ms);
    } else {
      TreatedHasNoSystem(words, ms, n - 1);
      assert ms[n - 1] in ms;
      AppliedKeepsRole(TreatmentOf(words, ms, n - 1), ms[n - 1]);
      NeitherHasSystem(Treated(words, ms, n - 1), Apply(TreatmentOf(words, ms, n - 1), ms[n - 1]));
      OneMoreTreated(words, ms, n - 1);
    }
  }

  lemma NothingTreated(words: seq<string>, ms: seq<Message>)
    ensures OfRole(Treated(words, ms, 0), true) == []
  {
  }
}
