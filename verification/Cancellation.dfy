/** CancellationToken: `cancel` and `wait` as interleaved critical sections of any number of callers. */
module Cancellation {
  import opened Sequences

  // ----- what the callers share -----

  // The future of the wait call with the same number. asyncio.wait_for abandons it on a time-out.
  datatype FutureState = Absent | Pending | Resolved | Abandoned

  // The token's two fields, and the futures of the event loop.
  datatype Shared = Shared(cancelled: bool, waiters: seq<nat>, futures: seq<FutureState>)

  // cancel(): the section under the lock.
  function EnterCancel(sh: Shared): Shared {
    if sh.cancelled then sh else sh.(cancelled := true, waiters := [])
  }

  // cancel(): one turn of the loop outside the lock.
  function Resolve(sh: Shared, w: nat): Shared
    requires w < |sh.futures|
  {
    if sh.futures[w].Pending? then sh.(futures := sh.futures[w := Resolved]) else sh
  }

  // wait(): the second section under the lock.
  function Register(sh: Shared, w: nat): Shared
    requires w < |sh.futures|
  {
    if sh.cancelled then sh else sh.(waiters := sh.waiters + [w], futures := sh.futures[w := Pending])
  }

  function Abandon(sh: Shared, w: nat): Shared
    requires w < |sh.futures|
  {
    if sh.futures[w].Pending? then sh.(futures := sh.futures[w := Abandoned]) else sh
  }

  function RemoveFirst(s: seq<nat>, x: nat): seq<nat> {
    if s == [] then []
    else if s[0] == x then s[1..]
    else [s[0]] + RemoveFirst(s[1..], x)
  }

  // wait(): the section under the lock of its `finally` clause.
  function Leave(sh: Shared, w: nat): Shared {
    sh.(waiters := RemoveFirst(sh.waiters, w))
  }

  class CancellationToken {
    var cancelled: bool
    var waiters: seq<nat>
    var futures: seq<FutureState>

    constructor (callers: nat)
      ensures View() == Shared(false, [], seq(callers, _ => Absent))
    {
      cancelled, waiters, futures := false, [], seq(callers, _ => Absent);
    }

    function View(): Shared
      reads this
    {
      Shared(cancelled, waiters, futures)
    }

    method CancelLocked() returns (won: bool, snapshot: seq<nat>)
      modifies this
      ensures View() == EnterCancel(old(View()))
      ensures won == !old(cancelled) && snapshot == if won then old(waiters) else []
    {
      if cancelled {
        return false, [];
      }
      cancelled := true;
      snapshot := waiters;
      waiters := [];
      won := true;
    }

    method ResolveOne(w: nat)
      requires w < |futures|
      modifies this`futures
      ensures View() == Resolve(old(View()), w)
    {
      if futures[w].Pending? {
        futures := futures[w := Resolved];
      }
    }

    // cancel() when nobody comes between its sections.
    method Cancel()
      requires forall w :: w in waiters ==> w < |futures|
      modifies this
      ensures cancelled && |futures| == |old(futures)|
      ensures waiters == if old(cancelled) then old(waiters) else []
      ensures forall w :: 0 <= w < |futures| ==>
        futures[w] ==
          if !old(cancelled) && w in old(waiters) && old(futures)[w].Pending? then Resolved else old(futures)[w]
    {
      var won, snapshot := CancelLocked();
      for k := 0 to |snapshot|
        invariant cancelled && waiters == (if old(cancelled) then old(waiters) else [])
        invariant |futures| == |old(futures)|
        invariant forall w :: 0 <= w < |futures| ==>
          futures[w] == if w in snapshot[..k] && old(futures)[w].Pending? then Resolved else old(futures)[w]
      {
        assert snapshot[k] in snapshot;
        ResolveOne(snapshot[k]);
        assert snapshot[..k + 1] == snapshot[..k] + [snapshot[k]];
      }
      assert snapshot[..|snapshot|] == snapshot;
    }

    method RegisterLocked(w: nat) returns (registered: bool)
      requires w < |futures|
      modifies this`waiters, this`futures
      ensures View() == Register(old(View()), w) && registered == !cancelled
    {
      registered := !cancelled;
      if registered {
        waiters := waiters + [w];
        futures := futures[w := Pending];
      }
    }

    method LeaveLocked(w: nat)
      modifies this`waiters
      ensures View() == Leave(old(View()), w)
    {
      var k := 0;
      while k < |waiters| && waiters[k] != w
        invariant 0 <= k <= |waiters|
        invariant w !in waiters[..k]
      {
        k := k + 1;
      }
      RemoveFirstAt(waiters, w, k);
      if k < |waiters| {
        waiters := waiters[..k] + waiters[k + 1..];
      }
    }
  }

  lemma {:induction false} RemoveFirstAt(s: seq<nat>, x: nat, k: nat)
    requires k <= |s| && x !in s[..k] && (k < |s| ==> s[k] == x)
    ensures RemoveFirst(s, x) == if k < |s| then s[..k] + s[k + 1..] else s
  {
    if s != [] && k > 0 {
      assert s[..k] == [s[0]] + s[1..][..k - 1];
      RemoveFirstAt(s[1..], x, k - 1);
      if k < |s| {
        assert s[1..][k..] == s[k + 1..];
        assert [s[0]] + (s[1..][..k - 1] + s[k + 1..]) == s[..k] + s[k + 1..];
      }
    }
  }

  // ----- the protocol -----

  // wait() returns True, returns False, or raises because its own task was cancelled.
  datatype WaitResult = Signalled | TimedOut | Raised

  datatype WaitState = NotWaiting | Checked | Awaiting | Leaving(r: WaitResult) | Returned(result: WaitResult)

  // A canceller that won the race holds the snapshot it still has to work off.
  datatype CancelState = NotCancelling | Resolving(todo: seq<nat>) | Done(won: bool)

  // What each wait call is exposed to: a time-out of its own, the cancellation of its task.
  datatype Exposure = Exposure(timed: bool, interruptible: bool)

  datatype State = State(sh: Shared, waits: seq<WaitState>, cancels: seq<CancelState>, calls: seq<Exposure>)

  datatype Move =
    | CancelEnters(c: nat) | CancelResolves(c: nat)
    | WaitChecks(w: nat) | WaitRegisters(w: nat) | WaitWakes(w: nat)
    | WaitTimesOut(w: nat) | WaitRaises(w: nat) | WaitLeaves(w: nat)

  predicate Enabled(s: State, m: Move) {
    && |s.sh.futures| == |s.waits| == |s.calls|
    && match m
       case CancelEnters(c) => c < |s.cancels| && s.cancels[c] == NotCancelling
       case CancelResolves(c) => c < |s.cancels| && s.cancels[c].Resolving?
         && forall k :: 0 <= k < |s.cancels[c].todo| ==> s.cancels[c].todo[k] < |s.waits|
       case WaitChecks(w) => w < |s.waits| && s.waits[w] == NotWaiting
       case WaitRegisters(w) => w < |s.waits| && s.waits[w] == Checked
       case WaitWakes(w) => w < |s.waits| && s.waits[w] == Awaiting && s.sh.futures[w] == Resolved
       case WaitTimesOut(w) => w < |s.waits| && s.waits[w] == Awaiting && s.calls[w].timed && s.sh.futures[w] == Pending
       case WaitRaises(w) => w < |s.waits| && s.waits[w] == Awaiting && s.calls[w].interruptible
       case WaitLeaves(w) => w < |s.waits| && s.waits[w].Leaving?
  }

  function Next(s: State, m: Move): State
    requires Enabled(s, m)
  {
    match m
    case CancelEnters(c) =>
      s.(sh := EnterCancel(s.sh),
         cancels := s.cancels[c := if s.sh.cancelled then Done(false) else Resolving(s.sh.waiters)])
    case CancelResolves(c) =>
      var todo := s.cancels[c].todo;
      if todo == [] then s.(cancels := s.cancels[c := Done(true)])
      else s.(sh := Resolve(s.sh, todo[0]), cancels := s.cancels[c := Resolving(todo[1..])])
    case WaitChecks(w) =>
      s.(waits := s.waits[w := if s.sh.cancelled then Returned(Signalled) else Checked])
    case WaitRegisters(w) =>
      s.(sh := Register(s.sh, w), waits := s.waits[w := if s.sh.cancelled then Returned(Signalled) else Awaiting])
    case WaitWakes(w) => s.(waits := s.waits[w := Leaving(Signalled)])
    case WaitTimesOut(w) => s.(sh := Abandon(s.sh, w), waits := s.waits[w := Leaving(TimedOut)])
    case WaitRaises(w) => s.(sh := Abandon(s.sh, w), waits := s.waits[w := Leaving(Raised)])
    case WaitLeaves(w) => s.(sh := Leave(s.sh, w), waits := s.waits[w := Returned(s.waits[w].r)])
  }

  function Start(cancels: nat, calls: seq<Exposure>): State {
    State(Shared(false, [], seq(|calls|, _ => Absent)), seq(|calls|, _ => NotWaiting),
          seq(cancels, _ => NotCancelling), calls)
  }

  predicate CanRun(s: State, ms: seq<Move>)
    decreases |ms|
  {
    ms == [] || (Enabled(s, ms[0]) && CanRun(Next(s, ms[0]), ms[1..]))
  }

  function Run(s: State, ms: seq<Move>): State
    requires CanRun(s, ms)
    decreases |ms|
  {
    if ms == [] then s else Run(Next(s, ms[0]), ms[1..])
  }

  predicate HasWon(c: CancelState) {
    c.Resolving? || c == Done(true)
  }

  // Somebody has still to resolve the future of w.
  ghost predicate IsCovered(s: State, w: nat) {
    w in s.sh.waiters || exists c :: 0 <= c < |s.cancels| && s.cancels[c].Resolving? && w in s.cancels[c].todo
  }

  ghost predicate ListSound(s: State) {
    && |s.sh.futures| == |s.waits| == |s.calls|
    && (s.sh.cancelled ==> s.sh.waiters == [])
    && Distinct(s.sh.waiters)
    && (forall w :: w in s.sh.waiters ==> w < |s.waits| && (s.waits[w].Awaiting? || s.waits[w].Leaving?))
  }

  ghost predicate WaitSound(s: State, w: nat)
    requires w < |s.waits| == |s.sh.futures| == |s.calls|
  {
    var wait, future := s.waits[w], s.sh.futures[w];
    && (wait.NotWaiting? || wait.Checked? ==> future == Absent)
    && (wait.Awaiting? ==> future == Pending || future == Resolved)
    && (future == Pending ==> wait.Awaiting? && IsCovered(s, w))
    && (future == Resolved ==> s.sh.cancelled)
    && (wait == Leaving(Signalled) || wait == Returned(Signalled) ==> s.sh.cancelled)
    && (wait == Leaving(TimedOut) || wait == Returned(TimedOut) ==> s.calls[w].timed)
    && (wait == Leaving(Raised) || wait == Returned(Raised) ==> s.calls[w].interruptible)
  }

  ghost predicate CancelsSound(s: State) {
    && (forall c :: 0 <= c < |s.cancels| ==> (s.cancels[c] != NotCancelling ==> s.sh.cancelled))
    && (s.sh.cancelled ==> exists c :: 0 <= c < |s.cancels| && HasWon(s.cancels[c]))
    && (forall c, d :: 0 <= c < |s.cancels| && 0 <= d < |s.cancels| && HasWon(s.cancels[c]) && HasWon(s.cancels[d]) ==>
       c == d)
    && (forall c, k :: 0 <= c < |s.cancels| && s.cancels[c].Resolving? && 0 <= k < |s.cancels[c].todo| ==>
         s.cancels[c].todo[k] < |s.waits|)
  }

  ghost predicate Sound(s: State) {
    && ListSound(s)
    && CancelsSound(s)
    && forall w :: 0 <= w < |s.waits| ==> WaitSound(s, w)
  }

  lemma StartIsSound(cancels: nat, calls: seq<Exposure>)
    ensures Sound(Start(cancels, calls))
  {
  }

  lemma {:induction false} RemovedFromDistinct(s: seq<nat>, x: nat)
    requires Distinct(s)
    ensures Distinct(RemoveFirst(s, x))
    ensures forall y :: y in RemoveFirst(s, x) <==> y in s && y != x
  {
    if s != [] {
      assert s == [s[0]] + s[1..];
      RemovedFromDistinct(s[1..], x);
      assert s[0] !in s[1..];
      var rest := RemoveFirst(s[1..], x);
      assert forall i :: 0 <= i < |rest| ==> rest[i] in rest;
    }
  }

  lemma EnteringKeepsSound(s: State, c: nat)
    requires Sound(s) && Enabled(s, CancelEnters(c))
    ensures Sound(Next(s, CancelEnters(c)))
  {
    var n := Next(s, CancelEnters(c));
    forall w | 0 <= w < |n.waits| ensures WaitSound(n, w) {
      assert WaitSound(s, w);
      if n.sh.futures[w] == Pending {
        if w in s.sh.waiters {
          assert n.cancels[c].Resolving? && w in n.cancels[c].todo;
        } else {
          var d :| 0 <= d < |s.cancels| && s.cancels[d].Resolving? && w in s.cancels[d].todo;
          assert n.cancels[d].Resolving? && w in n.cancels[d].todo;
        }
      }
    }
    if s.sh.cancelled {
      var d :| 0 <= d < |s.cancels| && HasWon(s.cancels[d]);
      assert HasWon(n.cancels[d]);
    } else {
      assert HasWon(n.cancels[c]);
      forall k | 0 <= k < |s.sh.waiters| ensures n.cancels[c].todo[k] < |n.waits| {
        assert s.sh.waiters[k] in s.sh.waiters;
      }
    }
  }

  lemma ResolvingKeepsSound(s: State, c: nat)
    requires Sound(s) && Enabled(s, CancelResolves(c))
    ensures Sound(Next(s, CancelResolves(c)))
  {
    var n := Next(s, CancelResolves(c));
    var todo := s.cancels[c].todo;
    forall w | 0 <= w < |n.waits| ensures WaitSound(n, w) {
      assert WaitSound(s, w);
      if n.sh.futures[w] == Pending && w !in s.sh.waiters {
        var d :| 0 <= d < |s.cancels| && s.cancels[d].Resolving? && w in s.cancels[d].todo;
        assert HasWon(s.cancels[d]) && HasWon(s.cancels[c]);
        assert todo == [todo[0]] + todo[1..] && w != todo[0];
        assert n.cancels[c].Resolving? && w in n.cancels[c].todo;
      }
    }
    assert HasWon(s.cancels[c]) && HasWon(n.cancels[c]);
    assert forall d :: 0 <= d < |s.cancels| && d != c ==> n.cancels[d] == s.cancels[d];
  }

  // The waiter's own moves leave the cancellers and the other waiters as they are.
  lemma WaitingKeepsSound(s: State, m: Move, w: nat)
    requires Sound(s) && Enabled(s, m)
    requires m in {WaitChecks(w), WaitRegisters(w), WaitWakes(w), WaitTimesOut(w), WaitRaises(w)}
    ensures Sound(Next(s, m))
  {
    var n := Next(s, m);
    assert WaitSound(s, w);
    forall v | 0 <= v < |n.waits| ensures WaitSound(n, v) {
      assert WaitSound(s, v);
      if n.sh.futures[v] == Pending && v != w && v !in s.sh.waiters {
        var d :| 0 <= d < |s.cancels| && s.cancels[d].Resolving? && v in s.cancels[d].todo;
        assert n.cancels[d].Resolving? && v in n.cancels[d].todo;
      }
    }
    if s.sh.cancelled {
      var d :| 0 <= d < |s.cancels| && HasWon(s.cancels[d]);
      assert HasWon(n.cancels[d]);
    }
  }

  lemma LeavingKeepsSound(s: State, w: nat)
    requires Sound(s) && Enabled(s, WaitLeaves(w))
    ensures Sound(Next(s, WaitLeaves(w)))
  {
    var n := Next(s, WaitLeaves(w));
    RemovedFromDistinct(s.sh.waiters, w);
    forall v | 0 <= v < |n.waits| ensures WaitSound(n, v) {
      assert WaitSound(s, v);
      if n.sh.futures[v] == Pending && v !in s.sh.waiters {
        var d :| 0 <= d < |s.cancels| && s.cancels[d].Resolving? && v in s.cancels[d].todo;
        assert n.cancels[d].Resolving? && v in n.cancels[d].todo;
      }
    }
    if s.sh.cancelled {
      var d :| 0 <= d < |s.cancels| && HasWon(s.cancels[d]);
      assert HasWon(n.cancels[d]);
    }
  }

  lemma EveryMoveKeepsSound(s: State, m: Move)
    requires Sound(s) && Enabled(s, m)
    ensures Sound(Next(s, m))
    ensures s.sh.cancelled ==> Next(s, m).sh.cancelled
  {
    match m
    case CancelEnters(c) => EnteringKeepsSound(s, c);
    case CancelResolves(c) => ResolvingKeepsSound(s, c);
    case WaitLeaves(w) => LeavingKeepsSound(s, w);
    case WaitChecks(w) => WaitingKeepsSound(s, m, w);
    case WaitRegisters(w) => WaitingKeepsSound(s, m, w);
    case WaitWakes(w) => WaitingKeepsSound(s, m, w);
    case WaitTimesOut(w) => WaitingKeepsSound(s, m, w);
    case WaitRaises(w) => WaitingKeepsSound(s, m, w);
  }

  lemma {:induction false} RunKeepsSound(s: State, ms: seq<Move>)
    requires Sound(s) && CanRun(s, ms)
    ensures Sound(Run(s, ms))
    ensures s.sh.cancelled ==> Run(s, ms).sh.cancelled
    decreases |ms|
  {
    if ms != [] {
      EveryMoveKeepsSound(s, ms[0]);
      RunKeepsSound(Next(s, ms[0]), ms[1..]);
    }
  }

  ghost predicate IsOnlyWinner(s: State, c: nat) {
    forall d :: 0 <= d < |s.cancels| ==> (HasWon(s.cancels[d]) <==> d == c)
  }

  // In every interleaving, from the first cancellation on: the token stays cancelled, nobody is
  // on the list, and one canceller, and no other, holds the snapshot.
  lemma CancelledForGood(cancels: nat, calls: seq<Exposure>, ms: seq<Move>, more: seq<Move>)
    requires CanRun(Start(cancels, calls), ms)
    requires Run(Start(cancels, calls), ms).sh.cancelled
    requires CanRun(Run(Start(cancels, calls), ms), more)
    ensures
      var s := Run(Run(Start(cancels, calls), ms), more);
      && s.sh.cancelled && s.sh.waiters == []
      && exists c :: 0 <= c < |s.cancels| && IsOnlyWinner(s, c)
  {
    StartIsSound(cancels, calls);
    RunKeepsSound(Start(cancels, calls), ms);
    RunKeepsSound(Run(Start(cancels, calls), ms), more);
    var s := Run(Run(Start(cancels, calls), ms), more);
    var c :| 0 <= c < |s.cancels| && HasWon(s.cancels[c]);
    assert IsOnlyWinner(s, c);
  }

  // Every pending future is still in somebody's hands: on the list before the cancellation, in
  // the winner's snapshot after it. Once the winner has returned none is pending.
  lemma NoLostWakeUp(cancels: nat, calls: seq<Exposure>, ms: seq<Move>, w: nat)
    requires CanRun(Start(cancels, calls), ms)
    requires w < |Run(Start(cancels, calls), ms).sh.futures|
    requires Run(Start(cancels, calls), ms).sh.futures[w] == Pending
    ensures
      var s := Run(Start(cancels, calls), ms);
      if !s.sh.cancelled then w in s.sh.waiters
      else exists c :: 0 <= c < |s.cancels| && s.cancels[c].Resolving? && w in s.cancels[c].todo
  {
    StartIsSound(cancels, calls);
    RunKeepsSound(Start(cancels, calls), ms);
    var s := Run(Start(cancels, calls), ms);
    assert WaitSound(s, w);
    if !s.sh.cancelled {
      assert forall c :: 0 <= c < |s.cancels| ==> s.cancels[c] == NotCancelling;
    }
  }

  lemma WinnerLeavesNonePending(cancels: nat, calls: seq<Exposure>, ms: seq<Move>, c: nat, w: nat)
    requires CanRun(Start(cancels, calls), ms)
    requires c < |Run(Start(cancels, calls), ms).cancels| && Run(Start(cancels, calls), ms).cancels[c] == Done(true)
    requires w < |Run(Start(cancels, calls), ms).sh.futures|
    ensures Run(Start(cancels, calls), ms).sh.futures[w] != Pending
  {
    StartIsSound(cancels, calls);
    RunKeepsSound(Start(cancels, calls), ms);
    var s := Run(Start(cancels, calls), ms);
    assert WaitSound(s, w) && HasWon(s.cancels[c]);
  }

  // wait() returns True only on a cancelled token, False only after a time-out it was given, and
  // raises only if its task was cancelled.
  lemma WaitTellsTheTruth(cancels: nat, calls: seq<Exposure>, ms: seq<Move>, w: nat)
    requires CanRun(Start(cancels, calls), ms) && w < |calls|
    ensures
      var s := Run(Start(cancels, calls), ms);
      && |s.waits| == |calls|
      && (s.waits[w] == Returned(Signalled) ==> s.sh.cancelled)
      && (s.waits[w] == Returned(TimedOut) ==> calls[w].timed)
      && (s.waits[w] == Returned(Raised) ==> calls[w].interruptible)
  {
    StartIsSound(cancels, calls);
    RunKeepsSound(Start(cancels, calls), ms);
    RunKeepsShape(Start(cancels, calls), ms);
    assert WaitSound(Run(Start(cancels, calls), ms), w);
  }

  predicate ComesTo(wait: WaitState, r: WaitResult) {
    wait == Leaving(r) || wait == Returned(r)
  }

  // A wait comes to a time-out or an exception by that very move, and by nothing else.
  lemma {:induction false} OutcomeHasCause(s: State, ms: seq<Move>, w: nat)
    requires CanRun(s, ms) && w < |s.waits|
    ensures |Run(s, ms).waits| == |s.waits|
    ensures ComesTo(Run(s, ms).waits[w], TimedOut) <==> ComesTo(s.waits[w], TimedOut) || WaitTimesOut(w) in ms
    ensures ComesTo(Run(s, ms).waits[w], Raised) <==> ComesTo(s.waits[w], Raised) || WaitRaises(w) in ms
    decreases |ms|
  {
    if ms != [] {
      OutcomeHasCause(Next(s, ms[0]), ms[1..], w);
      assert ms == [ms[0]] + ms[1..];
    }
  }

  // So what a wait returns tells how it went: False exactly if its time-out was what ended it, an
  // exception exactly if its task was cancelled while it waited, and True in all other cases.
  lemma ResultTellsCause(cancels: nat, calls: seq<Exposure>, ms: seq<Move>, w: nat)
    requires CanRun(Start(cancels, calls), ms) && w < |calls|
    ensures
      var s := Run(Start(cancels, calls), ms);
      |s.waits| == |calls| &&
      (s.waits[w].Returned? ==>
        s.waits[w].result ==
          if WaitTimesOut(w) in ms then TimedOut else if WaitRaises(w) in ms then Raised else Signalled)
  {
    OutcomeHasCause(Start(cancels, calls), ms, w);
  }

  // A wait that has not yet been registered when the token is cancelled returns True, whatever its
  // time-out, and one that has not begun does so at its first look at the token.
  lemma {:induction false} LateWaitIsSignalled(s: State, ms: seq<Move>, w: nat)
    requires CanRun(s, ms) && s.sh.cancelled && w < |s.waits|
    requires s.waits[w] == NotWaiting || s.waits[w] == Checked
    ensures
      var n := Run(s, ms);
      |n.waits| == |s.waits| && (n.waits[w] == s.waits[w] || n.waits[w] == Returned(Signalled))
    ensures WaitChecks(w) in ms || WaitRegisters(w) in ms ==> Run(s, ms).waits[w] == Returned(Signalled)
    decreases |ms|
  {
    if ms != [] {
      var n := Next(s, ms[0]);
      assert ms == [ms[0]] + ms[1..];
      if n.waits[w] == s.waits[w] {
        LateWaitIsSignalled(n, ms[1..], w);
      } else {
        ReturnedStays(n, ms[1..], w);
      }
    }
  }

  lemma {:induction false} ReturnedStays(s: State, ms: seq<Move>, w: nat)
    requires CanRun(s, ms) && w < |s.waits| && s.waits[w].Returned?
    ensures |Run(s, ms).waits| == |s.waits| && Run(s, ms).waits[w] == s.waits[w]
    decreases |ms|
  {
    if ms != [] {
      ReturnedStays(Next(s, ms[0]), ms[1..], w);
    }
  }

  // ----- every interleaving ends, and ends well -----

  function WaitRank(wait: WaitState): nat {
    match wait
    case NotWaiting => 4
    case Checked => 3
    case Awaiting => 2
    case Leaving(_) => 1
    case Returned(_) => 0
  }

  function CancelRank(callers: nat, cancel: CancelState): nat {
    match cancel
    case NotCancelling => callers + 2
    case Resolving(todo) => |todo| + 1
    case Done(_) => 0
  }

  function WaitsRank(waits: seq<WaitState>): nat {
    if waits == [] then 0 else WaitRank(waits[0]) + WaitsRank(waits[1..])
  }

  function CancelsRank(callers: nat, cancels: seq<CancelState>): nat {
    if cancels == [] then 0 else CancelRank(callers, cancels[0]) + CancelsRank(callers, cancels[1..])
  }

  function Rank(s: State): nat {
    WaitsRank(s.waits) + CancelsRank(|s.waits|, s.cancels)
  }

  lemma {:induction false} WaitsRankUpdate(waits: seq<WaitState>, w: nat, wait: WaitState)
    requires w < |waits|
    ensures WaitsRank(waits[w := wait]) == WaitsRank(waits) - WaitRank(waits[w]) + WaitRank(wait)
  {
    if w > 0 {
      WaitsRankUpdate(waits[1..], w - 1, wait);
      assert waits[w := wait][1..] == waits[1..][w - 1 := wait];
    }
  }

  lemma {:induction false} CancelsRankUpdate(callers: nat, cancels: seq<CancelState>, c: nat, cancel: CancelState)
    requires c < |cancels|
    ensures CancelsRank(callers, cancels[c := cancel])
         == CancelsRank(callers, cancels) - CancelRank(callers, cancels[c]) + CancelRank(callers, cancel)
  {
    if c > 0 {
      CancelsRankUpdate(callers, cancels[1..], c - 1, cancel);
      assert cancels[c := cancel][1..] == cancels[1..][c - 1 := cancel];
    }
  }

  lemma EveryMoveLowersRank(s: State, m: Move)
    requires Sound(s) && Enabled(s, m)
    ensures Rank(Next(s, m)) < Rank(s)
  {
    hide WaitSound, CancelsSound, WaitsRank, CancelsRank;
    match m
    case CancelEnters(c) =>
      CancelsRankUpdate(|s.waits|, s.cancels, c, Next(s, m).cancels[c]);
      BelowSize(|s.waits|);
      DistinctFits(s.sh.waiters, Below(|s.waits|));
    case CancelResolves(c) => CancelsRankUpdate(|s.waits|, s.cancels, c, Next(s, m).cancels[c]);
    case WaitChecks(w) => WaitsRankUpdate(s.waits, w, Next(s, m).waits[w]);
    case WaitRegisters(w) => WaitsRankUpdate(s.waits, w, Next(s, m).waits[w]);
    case WaitWakes(w) => WaitsRankUpdate(s.waits, w, Next(s, m).waits[w]);
    case WaitTimesOut(w) => WaitsRankUpdate(s.waits, w, Next(s, m).waits[w]);
    case WaitRaises(w) => WaitsRankUpdate(s.waits, w, Next(s, m).waits[w]);
    case WaitLeaves(w) => WaitsRankUpdate(s.waits, w, Next(s, m).waits[w]);
  }

  function Below(n: nat): set<nat> {
    if n == 0 then {} else Below(n - 1) + {n - 1}
  }

  lemma {:induction false} BelowSize(n: nat)
    ensures |Below(n)| == n && forall i: nat :: i in Below(n) <==> i < n
  {
    if n > 0 {
      BelowSize(n - 1);
    }
  }

  // No interleaving goes on for ever.
  lemma {:induction false} RunsAreBounded(s: State, ms: seq<Move>)
    requires Sound(s) && CanRun(s, ms)
    ensures |ms| + Rank(Run(s, ms)) <= Rank(s)
    decreases |ms|
  {
    if ms != [] {
      EveryMoveLowersRank(s, ms[0]);
      EveryMoveKeepsSound(s, ms[0]);
      RunsAreBounded(Next(s, ms[0]), ms[1..]);
    }
  }

  // Nothing can happen any more except a time-out or the cancellation of a waiting task.
  ghost predicate IsQuiet(s: State) {
    forall m :: Enabled(s, m) ==> m.WaitTimesOut? || m.WaitRaises?
  }

  // When the callers have come to rest and `cancel` was called at least once, every call has
  // returned; a wait that could neither time out nor be interrupted has returned True.
  lemma QuietRunsHaveReturned(cancels: nat, calls: seq<Exposure>, ms: seq<Move>)
    requires CanRun(Start(cancels, calls), ms) && cancels > 0
    requires IsQuiet(Run(Start(cancels, calls), ms))
    ensures
      var s := Run(Start(cancels, calls), ms);
      && (forall c :: 0 <= c < |s.cancels| ==> s.cancels[c].Done?)
      && |s.waits| == |calls|
      && (forall w :: 0 <= w < |calls| ==> s.waits[w].Returned?)
      && (forall w :: 0 <= w < |calls| && calls[w] == Exposure(false, false) ==> s.waits[w] == Returned(Signalled))
  {
    StartIsSound(cancels, calls);
    RunKeepsSound(Start(cancels, calls), ms);
    RunKeepsShape(Start(cancels, calls), ms);
    var s := Run(Start(cancels, calls), ms);
    forall c | 0 <= c < |s.cancels| ensures s.cancels[c].Done? {
      assert !Enabled(s, CancelEnters(c));
      assert !Enabled(s, CancelResolves(c));
    }
    assert s.cancels[0].Done? && s.sh.cancelled;
    forall w | 0 <= w < |calls| ensures s.waits[w].Returned? {
      assert WaitSound(s, w);
      assert !Enabled(s, WaitChecks(w)) && !Enabled(s, WaitRegisters(w)) && !Enabled(s, WaitLeaves(w));
      assert !Enabled(s, WaitWakes(w));
    }
    forall w | 0 <= w < |calls| && calls[w] == Exposure(false, false) ensures s.waits[w] == Returned(Signalled) {
      assert WaitSound(s, w);
      assert s.waits[w].Returned? && s.waits[w] == Returned(s.waits[w].result);
      assert s.waits[w].result != TimedOut && s.waits[w].result != Raised;
    }
  }

  lemma {:induction false} RunKeepsShape(s: State, ms: seq<Move>)
    requires CanRun(s, ms)
    ensures |Run(s, ms).cancels| == |s.cancels| && |Run(s, ms).waits| == |s.waits| && Run(s, ms).calls == s.calls
    decreases |ms|
  {
    if ms != [] {
      RunKeepsShape(Next(s, ms[0]), ms[1..]);
    }
  }
}
