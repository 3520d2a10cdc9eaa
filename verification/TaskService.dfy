// The prioritized task service of src/taskServiceClass.c.  Tasks are numbered by
// table position, lower first; a task may signal tasks, test itself and yield,
// which re-enters the scheduler for the tasks above it.
module TaskService {
  import opened Base

  const COUNTS: int := 0x1_0000   // taskCnt_t is a uint16_t

  // -------------------------------------------------------------- what happens

  datatype Event =
    | Signal(task: nat)     // TSC_SignalTask
    | Ack(task: nat)        // TSC_Test, by the task itself
    | Begin(task: nat)      // the scheduler calls the task
    | Yield(task: nat)      // the task re-enters the scheduler
    | Resume(task: nat)     // and gets back
    | Finish(task: nat)     // the task returns

  /** A task on the call stack, which may be waiting inside TSC_Yield. */
  datatype Frame = Frame(task: nat, yielding: bool)

  /** The call stack a history leaves, outermost first. */
  function StackOf(log: seq<Event>): seq<Frame> {
    if log == [] then []
    else
      var s := StackOf(log[..|log| - 1]);
      match log[|log| - 1]
      case Begin(i) => s + [Frame(i, false)]
      case Finish(_) => if s == [] then s else s[..|s| - 1]
      case Yield(i) => if s == [] then s else s[..|s| - 1] + [Frame(i, true)]
      case Resume(i) => if s == [] then s else s[..|s| - 1] + [Frame(i, false)]
      case _ => s
  }

  /** How many signals of task i its last begin or test has not seen. */
  function Owed(log: seq<Event>, i: nat): nat {
    if log == [] then 0
    else
      var owed := Owed(log[..|log| - 1], i);
      match log[|log| - 1]
      case Signal(j) => if i == j then owed + 1 else owed
      case Begin(j) => if i == j then 0 else owed
      case Ack(j) => if i == j then 0 else owed
      case _ => owed
  }

  /** What the 16-bit counter shows of them. */
  predicate Due(log: seq<Event>, i: nat) {
    Owed(log, i) % COUNTS != 0
  }

  /** The scheduler considers the tasks below this one. */
  function Ceiling(s: seq<Frame>, n: nat): nat {
    if s == [] then n else s[|s| - 1].task
  }

  /** runState.lowestYielding: the ceiling of the innermost scheduler loop. */
  function Level(s: seq<Frame>, n: nat): nat {
    if s != [] && !s[|s| - 1].yielding then Ceiling(s[..|s| - 1], n) else Ceiling(s, n)
  }

  predicate InScheduler(s: seq<Frame>) {
    s == [] || s[|s| - 1].yielding
  }

  predicate Running(s: seq<Frame>, i: nat) {
    s != [] && s[|s| - 1] == Frame(i, false)
  }

  predicate QuietBelow(log: seq<Event>, ceiling: nat) {
    forall j: nat | j < ceiling :: !Due(log, j)
  }

  /** What may happen next, after `log`, with n tasks in the table. */
  predicate May(log: seq<Event>, e: Event, n: nat) {
    var s := StackOf(log);
    match e
    case Signal(i) => i < n
    case Begin(i) => InScheduler(s) && i < Ceiling(s, n) && Due(log, i) && QuietBelow(log, i)
    case Finish(i) => Running(s, i)
    case Ack(i) => Running(s, i)
    case Yield(i) => Running(s, i) && i > 0
    case Resume(i) => s != [] && s[|s| - 1] == Frame(i, true) && QuietBelow(log, i)
  }

  /** A history in which every event was allowed: the scheduler only ever calls the
      lowest-numbered waiting task below its ceiling, and only goes back to a
      yielding task when nothing below it waits. */
  predicate Legal(log: seq<Event>, n: nat) {
    log == [] || (Legal(log[..|log| - 1], n) && May(log[..|log| - 1], log[|log| - 1], n))
  }

  // ----------------------------------------------------- what follows from that

  /** Every task on the stack is a table entry, above those nested in it, and all
      but the innermost are waiting in TSC_Yield. */
  ghost predicate Nested(s: seq<Frame>, n: nat) {
    && (forall k | 0 <= k < |s| :: s[k].task < n)
    && (forall k, l | 0 <= k < l < |s| :: s[l].task < s[k].task)
    && (forall k | 0 <= k < |s| - 1 :: s[k].yielding)
  }

  lemma NothingNested(n: nat)
    ensures Nested([], n)
  {
  }

  lemma NestedPush(s: seq<Frame>, i: nat, n: nat)
    requires Nested(s, n) && InScheduler(s) && i < Ceiling(s, n)
    ensures Nested(s + [Frame(i, false)], n)
  {
    assert forall k | 0 <= k < |s| - 1 :: s[|s| - 1].task < s[k].task;
  }

  lemma NestedPop(s: seq<Frame>, n: nat)
    requires Nested(s, n) && s != []
    ensures Nested(s[..|s| - 1], n)
  {
  }

  lemma NestedTop(s: seq<Frame>, yielding: bool, n: nat)
    requires Nested(s, n) && s != []
    ensures Nested(s[..|s| - 1] + [Frame(s[|s| - 1].task, yielding)], n)
  {
  }

  lemma NestedStep(log: seq<Event>, e: Event, n: nat)
    requires Nested(StackOf(log), n) && May(log, e, n)
    ensures Nested(StackOf(log + [e]), n)
  {
    hide Due, Owed, QuietBelow, Nested;
    var s := StackOf(log);
    assert (log + [e])[..|log|] == log;
    match e {
      case Begin(i) =>
        NestedPush(s, i, n);
      case Finish(i) =>
        NestedPop(s, n);
      case Yield(i) =>
        NestedTop(s, true, n);
      case Resume(i) =>
        NestedTop(s, false, n);
      case _ =>
    }
  }

  lemma {:induction false} LegalIsNested(log: seq<Event>, n: nat)
    requires Legal(log, n)
    ensures Nested(StackOf(log), n)
    decreases |log|
  {
    hide Nested, May;
    if log != [] {
      var shorter := log[..|log| - 1];
      LegalIsNested(shorter, n);
      NestedStep(shorter, log[|log| - 1], n);
      assert shorter + [log[|log| - 1]] == log;
    } else {
      NothingNested(n);
    }
  }

  /** No task is ever re-entered, and nesting is bounded by the number of tasks. */
  lemma {:induction false} NestingBounded(s: seq<Frame>, n: nat)
    requires Nested(s, n)
    ensures |s| <= n
    ensures forall k, l | 0 <= k < l < |s| :: s[k].task != s[l].task
    decreases |s|
  {
    if s == [] {
    } else {
      var m := s[0].task;
      assert Nested(s[1..], m) by {
        forall k | 0 <= k < |s[1..]| ensures s[1..][k].task < m {
          assert s[1..][k] == s[k + 1];
        }
      }
      NestingBounded(s[1..], m);
    }
  }

  lemma {:induction false} LegalGrows(log: seq<Event>, n: nat, m: nat)
    requires Legal(log, n) && n <= m
    ensures Legal(log, m)
    decreases |log|
  {
    if log == [] {
    } else {
      LegalGrows(log[..|log| - 1], n, m);
    }
  }

  lemma {:induction false} UnknownOwesNothing(log: seq<Event>, n: nat, i: nat)
    requires Legal(log, n) && i >= n
    ensures Owed(log, i) == 0
    decreases |log|
  {
    if log == [] {
    } else {
      UnknownOwesNothing(log[..|log| - 1], n, i);
    }
  }

  lemma LegalPrefix(log: seq<Event>, k: nat, n: nat)
    requires Legal(log, n) && k <= |log|
    ensures Legal(log[..k], n)
    decreases |log|
  {
    if k < |log| {
      assert log[..|log| - 1][..k] == log[..k];
      LegalPrefix(log[..|log| - 1], k, n);
    } else {
      assert log[..k] == log;
    }
  }

  /** Every call of a task, anywhere in a legal history, is the lowest-numbered
      waiting task, above every task on the stack at that moment. */
  lemma EveryBeginIsPriority(log: seq<Event>, k: nat, n: nat)
    requires Legal(log, n) && k < |log| && log[k].Begin?
    ensures var s := StackOf(log[..k]);
            && (forall f | f in s :: log[k].task < f.task && f.yielding)
            && Due(log[..k], log[k].task) && QuietBelow(log[..k], log[k].task)
  {
    LegalPrefix(log, k + 1, n);
    assert log[..k + 1][..k] == log[..k];
    LegalPrefix(log, k, n);
    LegalIsNested(log[..k], n);
  }

  /** Signals of task i since position k of the history. */
  function SignalsFrom(log: seq<Event>, k: nat, i: nat): nat
    requires k <= |log|
    decreases |log| - k
  {
    if k == |log| then 0 else (if log[k] == Signal(i) then 1 else 0) + SignalsFrom(log, k + 1, i)
  }

  predicate SeenFrom(log: seq<Event>, k: nat, i: nat)
    requires k <= |log|
  {
    exists l :: k <= l < |log| && (log[l] == Begin(i) || log[l] == Ack(i))
  }

  lemma {:induction false} SignalsSnoc(log: seq<Event>, e: Event, k: nat, i: nat)
    requires k <= |log|
    ensures SignalsFrom(log + [e], k, i) == SignalsFrom(log, k, i) + (if e == Signal(i) then 1 else 0)
    decreases |log| - k
  {
    if k < |log| {
      SignalsSnoc(log, e, k + 1, i);
    } else {
      assert SignalsFrom(log + [e], k + 1, i) == 0;
    }
  }

  lemma {:induction false} OwedCounts(log: seq<Event>, i: nat)
    ensures exists k: nat :: k <= |log| && !SeenFrom(log, k, i) && Owed(log, i) == SignalsFrom(log, k, i)
              && (k > 0 ==> log[k - 1] == Begin(i) || log[k - 1] == Ack(i))
    decreases |log|
  {
    if log == [] {
      assert !SeenFrom(log, 0, i);
      assert Owed(log, i) == SignalsFrom(log, 0, i);
    } else {
      var shorter := log[..|log| - 1];
      var e := log[|log| - 1];
      OwedCounts(shorter, i);
      if e == Begin(i) || e == Ack(i) {
        assert !SeenFrom(log, |log|, i) && SignalsFrom(log, |log|, i) == 0;
      } else {
        var k: nat :| k <= |shorter| && !SeenFrom(shorter, k, i) && Owed(shorter, i) == SignalsFrom(shorter, k, i)
                      && (k > 0 ==> shorter[k - 1] == Begin(i) || shorter[k - 1] == Ack(i));
        SignalsSnoc(shorter, e, k, i);
        assert log == shorter + [e];
        assert forall l | k <= l < |shorter| :: shorter[l] == log[l];
        assert !SeenFrom(log, k, i) && Owed(log, i) == SignalsFrom(log, k, i);
      }
    }
  }

  lemma {:induction false} FirstSignal(log: seq<Event>, k: nat, i: nat)
    requires k <= |log| && SignalsFrom(log, k, i) > 0
    ensures exists l :: k <= l < |log| && log[l] == Signal(i)
    decreases |log| - k
  {
    if log[k] != Signal(i) {
      FirstSignal(log, k + 1, i);
    }
  }

  /** What is owed was signalled and not seen. */
  lemma OwedIsUnseen(log: seq<Event>, i: nat)
    requires Owed(log, i) > 0
    ensures exists k: nat :: k < |log| && log[k] == Signal(i) && !SeenFrom(log, k, i)
  {
    OwedCounts(log, i);
    var k: nat :| k <= |log| && !SeenFrom(log, k, i) && Owed(log, i) == SignalsFrom(log, k, i);
    FirstSignal(log, k, i);
    var l :| k <= l < |log| && log[l] == Signal(i);
    assert !SeenFrom(log, l, i);
  }

  lemma {:induction false} UnseenIsOwed(log: seq<Event>, k: nat, i: nat)
    requires k < |log| && log[k] == Signal(i) && !SeenFrom(log, k, i)
    ensures Owed(log, i) > 0
    decreases |log|
  {
    var shorter := log[..|log| - 1];
    if k < |log| - 1 {
      assert forall l | k <= l < |shorter| :: shorter[l] == log[l];
      UnseenIsOwed(shorter, k, i);
      assert !(log[|log| - 1] == Begin(i) || log[|log| - 1] == Ack(i));
    }
  }

  /** No lost wakeup.  When nothing below the ceiling is due, every signal of a task
      below it has since been seen - the task has begun or tested itself - exactly
      if fewer than 2^16 of its signals had piled up. */
  lemma NoLostWakeup(log: seq<Event>, ceiling: nat, i: nat)
    requires QuietBelow(log, ceiling) && i < ceiling
    ensures Owed(log, i) < COUNTS <==> forall k: nat | k < |log| && log[k] == Signal(i) :: SeenFrom(log, k, i)
  {
    assert !Due(log, i);
    if Owed(log, i) < COUNTS {
      forall k: nat | k < |log| && log[k] == Signal(i) ensures SeenFrom(log, k, i) {
        if !SeenFrom(log, k, i) {
          UnseenIsOwed(log, k, i);
        }
      }
    } else {
      OwedIsUnseen(log, i);
    }
  }

  function Signals(i: nat, count: nat): seq<Event> {
    if count == 0 then [] else Signals(i, count - 1) + [Signal(i)]
  }

  lemma {:induction false} SignalsOwed(i: nat, count: nat)
    ensures |Signals(i, count)| == count
    ensures forall j: nat :: Owed(Signals(i, count), j) == if j == i then count else 0
    ensures forall e | e in Signals(i, count) :: e == Signal(i)
    ensures Legal(Signals(i, count), i + 1)
    decreases count
  {
    if count == 0 {
    } else {
      assert Signals(i, count)[..|Signals(i, count)| - 1] == Signals(i, count - 1);
      SignalsOwed(i, count - 1);
    }
  }

  /** Such a pile can come about: the 2^16-th unseen signal brings the counter back to
      zero, so that TSC_DoTasks returns at once although none was ever seen to. */
  lemma WakeupLostAtWrap(i: nat)
    ensures var log := Signals(i, COUNTS);
            && Legal(log, i + 1) && QuietBelow(log, i + 1)
            && Owed(log, i) == COUNTS && log[0] == Signal(i) && !SeenFrom(log, 0, i)
  {
    var log := Signals(i, COUNTS);
    SignalsOwed(i, COUNTS);
    assert forall l | 0 <= l < |log| :: log[l] in log;
    assert log[0] in log;
  }

  // -------------------------------------------------------------------- the code

  /** How many tasks are due. */
  ghost function Backlog(log: seq<Event>, n: nat): nat {
    if n == 0 then 0 else Backlog(log, n - 1) + (if Due(log, n - 1) then 1 else 0)
  }

  lemma {:induction false} BacklogShrinks(log: seq<Event>, log': seq<Event>, n: nat, i: nat)
    requires forall j: nat | j < n && j != i :: Due(log', j) <==> Due(log, j)
    requires i < n ==> Due(log, i) && !Due(log', i)
    ensures Backlog(log', n) == Backlog(log, n) - (if i < n then 1 else 0)
    decreases n
  {
    if n == 0 {
    } else {
      BacklogShrinks(log, log', n - 1, i);
    }
  }

  /** One more event: what it does to the history before it. */
  lemma Snoc(log: seq<Event>, e: Event, n: nat)
    requires Legal(log, n) && May(log, e, n)
    ensures (log + [e])[..|log|] == log && Legal(log + [e], n) && log < log + [e]
  {
  }

  lemma BeginFacts(log: seq<Event>, i: nat, n: nat)
    requires Legal(log, n) && May(log, Begin(i), n)
    ensures var r := log + [Begin(i)];
            && Legal(r, n) && StackOf(r) == StackOf(log) + [Frame(i, false)] && log < r
            && Level(StackOf(r), n) == Level(StackOf(log), n)
            && forall j: nat :: Owed(r, j) == if j == i then 0 else Owed(log, j)
  {
    Snoc(log, Begin(i), n);
    assert (StackOf(log) + [Frame(i, false)])[..|StackOf(log)|] == StackOf(log);
  }

  lemma SignalFacts(log: seq<Event>, i: nat, n: nat)
    requires Legal(log, n) && i < n
    ensures var r := log + [Signal(i)];
            && Legal(r, n) && StackOf(r) == StackOf(log)
            && forall j: nat :: Owed(r, j) == if j == i then Owed(log, j) + 1 else Owed(log, j)
  {
    Snoc(log, Signal(i), n);
  }

  lemma FinishFacts(log: seq<Event>, i: nat, n: nat)
    requires Legal(log, n) && May(log, Finish(i), n)
    ensures var r := log + [Finish(i)];
            && Legal(r, n) && StackOf(r) == StackOf(log)[..|StackOf(log)| - 1] && log < r
            && forall j: nat :: Owed(r, j) == Owed(log, j)
  {
    Snoc(log, Finish(i), n);
  }

  lemma YieldFacts(log: seq<Event>, i: nat, n: nat)
    requires Legal(log, n) && May(log, Yield(i), n)
    ensures var r := log + [Yield(i)];
            && Legal(r, n) && log < r && InScheduler(StackOf(r)) && Level(StackOf(r), n) == i
            && StackOf(r) == StackOf(log)[..|StackOf(log)| - 1] + [Frame(i, true)]
            && forall j: nat :: Owed(r, j) == Owed(log, j)
  {
    Snoc(log, Yield(i), n);
  }

  lemma ResumeFacts(log: seq<Event>, i: nat, n: nat)
    requires Legal(log, n) && May(log, Resume(i), n)
    ensures var r := log + [Resume(i)];
            && Legal(r, n) && log < r
            && StackOf(r) == StackOf(log)[..|StackOf(log)| - 1] + [Frame(i, false)]
            && QuietBelow(r, i)
            && forall j: nat :: Owed(r, j) == Owed(log, j)
  {
    var r := log + [Resume(i)];
    Snoc(log, Resume(i), n);
    assert forall j: nat | j < i :: Due(log, j) == Due(r, j);
  }

  /** A task called and straightaway back, with nothing in between. */
  lemma IdleCall(log: seq<Event>, i: nat, n: nat)
    requires Due(log, i) && i < n
    ensures Backlog(log + [Begin(i)] + [Finish(i)], n) < Backlog(log, n)
  {
    var mid := log + [Begin(i)];
    var end := mid + [Finish(i)];
    assert end[..|mid|] == mid && mid[..|log|] == log;
    assert forall j: nat :: Owed(end, j) == Owed(mid, j);
    BacklogShrinks(log, end, n, i);
  }

  /** What a task body does, one call after another; a handle may name no task. */
  datatype Action = DoSignal(handle: int) | DoTest | DoYield

  function Doing(a: Action, i: nat, n: nat): seq<Event> {
    match a
    case DoSignal(handle) => if 0 <= handle < n then [Signal(handle)] else []
    case DoTest => [Ack(i)]
    case DoYield => if i > 0 then [Yield(i), Resume(i)] else []
  }

  /** The events in which task i does these things, with n tasks in the table; task 0,
      with nothing above it, does not re-enter the scheduler. */
  function Performed(body: seq<Action>, i: nat, n: nat): seq<Event> {
    if body == [] then []
    else
      Performed(body[..|body| - 1], i, n) + Doing(body[|body| - 1], i, n)
  }

  lemma NothingToDo(i: nat, n: nat)
    ensures Performed([], i, n) == []
  {
  }

  /** What was done since `from` at stack depth d itself, not in tasks nested in it. */
  function Own(log: seq<Event>, from: nat, d: nat): seq<Event>
    requires from <= |log|
    decreases |log|
  {
    if from == |log| then []
    else
      var e := log[|log| - 1];
      Own(log[..|log| - 1], from, d) +
      if |StackOf(log[..|log| - 1])| == d && !e.Begin? && !e.Finish? then [e] else []
  }

  /** Since `from`, nothing but `did` was done at depth d, and nothing below it. */
  ghost predicate Did(log: seq<Event>, from: nat, d: nat, did: seq<Event>) {
    && from <= |log| && Own(log, from, d) == did
    && forall k | from <= k <= |log| :: |StackOf(log[..k])| >= d
  }

  lemma DidNothing(log: seq<Event>, d: nat)
    requires |StackOf(log)| >= d
    ensures Did(log, |log|, d, [])
  {
    assert log[..|log|] == log;
  }

  lemma {:induction false} DidThen(log: seq<Event>, more: seq<Event>, from: nat, d: nat, did: seq<Event>, next: seq<Event>)
    requires log <= more && Did(log, from, d, did) && Did(more, |log|, d, next)
    ensures Did(more, from, d, did + next)
    decreases |more|
  {
    hide StackOf;
    forall k | from <= k <= |more| ensures |StackOf(more[..k])| >= d {
      if k < |log| {
        assert more[..k] == log[..k];
      }
    }
    if |log| < |more| {
      var shorter := more[..|more| - 1];
      assert forall k | |log| <= k <= |shorter| :: shorter[..k] == more[..k];
      DidThen(log, shorter, from, d, did, Own(shorter, |log|, d));
    } else {
      assert more == log;
    }
  }

  /** One event at depth d, by the task there. */
  lemma DidOne(log: seq<Event>, e: Event, d: nat)
    requires |StackOf(log)| == d && !e.Begin? && !e.Finish?
    ensures Did(log + [e], |log|, d, [e])
  {
    var r := log + [e];
    assert r[..|log|] == log && r[..|r|] == r;
  }

  /** A task called at depth d and what it did at its own: nothing at depth d. */
  lemma {:induction false} DidNested(log: seq<Event>, from: nat, d: nat, did: seq<Event>)
    requires Did(log, from, d + 1, did)
    ensures Did(log, from, d, [])
    decreases |log|
  {
    hide StackOf;
    if from < |log| {
      var shorter := log[..|log| - 1];
      assert forall k | from <= k <= |shorter| :: shorter[..k] == log[..k];
      DidNested(shorter, from, d, Own(shorter, from, d + 1));
    }
  }

  /** The scheduler, at depth d, calls a task and gets back. */
  lemma DidCall(log: seq<Event>, i: nat, end: seq<Event>, d: nat, did: seq<Event>)
    requires |StackOf(log)| == d && log + [Begin(i)] <= end && |StackOf(end)| == d + 1 && Did(end, |log| + 1, d + 1, did)
    ensures Did(end + [Finish(i)], |log|, d, [])
    ensures Own(end + [Finish(i)], |log| + 1, d + 1) == did
  {
    var begun, r := log + [Begin(i)], end + [Finish(i)];
    assert begun[..|log|] == log && begun[..|begun|] == begun && r[..|end|] == end && r[..|r|] == r;
    assert Own(begun, |log|, d) == Own(log, |log|, d);
    assert Did(begun, |log|, d, []);
    DidNested(end, |log| + 1, d, did);
    DidThen(begun, end, |log|, d, [], []);
    assert forall k | |log| <= k <= |end| :: r[..k] == end[..k];
  }

  lemma Paired<T>(x: T, y: T)
    ensures [x] + [] + [y] == [x, y]
  {
  }

  lemma DidBehind(log: seq<Event>, e: Event, more: seq<Event>, did: seq<Event>)
    requires !e.Begin? && !e.Finish? && log + [e] <= more && Did(more, |log| + 1, |StackOf(log)|, did)
    ensures Did(more, |log|, |StackOf(log)|, [e] + did)
  {
    hide StackOf, Did, Own;
    DidOne(log, e, |StackOf(log)|);
    DidThen(log + [e], more, |log|, |StackOf(log)|, [e], did);
  }

  lemma DidAhead(log: seq<Event>, from: nat, d: nat, did: seq<Event>, e: Event)
    requires !e.Begin? && !e.Finish? && Did(log, from, d, did) && |StackOf(log)| == d
    ensures Did(log + [e], from, d, did + [e])
  {
    hide StackOf, Did, Own;
    DidOne(log, e, d);
    DidThen(log, log + [e], from, d, did, [e]);
  }

  /** A pass of the scheduler that task i has stepped aside for. */
  lemma DidAside(log: seq<Event>, done: seq<Event>, i: nat)
    requires log + [Yield(i)] <= done && Did(done, |log| + 1, |StackOf(log)|, []) && |StackOf(done)| == |StackOf(log)|
    ensures Did(done + [Resume(i)], |log|, |StackOf(log)|, [Yield(i), Resume(i)])
  {
    hide StackOf, Did, Own;
    var none: seq<Event> := [];
    DidBehind(log, Yield(i), done, none);
    DidAhead(done, |log|, |StackOf(log)|, [Yield(i)] + none, Resume(i));
    Paired(Yield(i), Resume(i));
  }

  datatype TaskStatus = TableFull | TaskNotDefined | IllegalCall | Done

  /** fn 0 is the null pointer. */
  datatype Entry = Entry(fn: nat, scheduled: nat)

  class Service {
    const ttable: array<Entry>
    var runningTask: int
    var lowestYielding: nat
    var nextInTable: nat
    var script: seq<seq<Action>>    // what the coming task bodies will do
    ghost var log: seq<Event>

    /** Running the service only ever adds to a legal history; the counters show
        what it owes, modulo 2^16. */
    ghost predicate Valid()
      reads this, ttable
    {
      && nextInTable <= ttable.Length
      && Legal(log, nextInTable)
      && lowestYielding == Level(StackOf(log), nextInTable)
      && forall i: nat | i < nextInTable :: ttable[i].scheduled == Owed(log, i) % COUNTS
    }

    ghost predicate TaskRunning()
      reads this
    {
      StackOf(log) != [] && runningTask == StackOf(log)[|StackOf(log)| - 1].task
      && Running(StackOf(log), runningTask)
    }

    /** Outside any task, after a pass of the scheduler, which leaves runningTask at its
        ceiling. */
    ghost predicate AtTop()
      reads this
    {
      StackOf(log) == [] && runningTask == lowestYielding
    }

    /** TSC_Init; user code is given by what its task bodies will do in turn. */
    constructor (len: nat, script: seq<seq<Action>>)
      ensures Valid() && log == [] && nextInTable == 0 && fresh(ttable) && ttable.Length == len && this.script == script
    {
      ttable := new Entry[len](_ => Entry(0, 0));
      runningTask, lowestYielding, nextInTable := -1, 0, 0;
      this.script := script;
      log := [];
    }

    /** TSC_AddTask, from outside any task. */
    method AddTask(fn: nat) returns (st: TaskStatus, handle: nat)
      requires Valid() && StackOf(log) == []
      modifies this`lowestYielding, this`nextInTable, ttable
      ensures Valid()
      ensures st == if old(nextInTable) < ttable.Length then Done else TableFull
      ensures st == Done ==> handle == old(nextInTable) && nextInTable == handle + 1 && ttable[handle] == Entry(fn, 0)
      ensures st != Done ==> nextInTable == old(nextInTable)
      ensures forall i: nat | i < old(nextInTable) :: ttable[i] == old(ttable[i])
    {
      handle := nextInTable;
      if nextInTable >= ttable.Length {
        return TableFull, handle;
      }
      LegalGrows(log, nextInTable, nextInTable + 1);
      UnknownOwesNothing(log, nextInTable, nextInTable);
      if lowestYielding == nextInTable {
        lowestYielding := lowestYielding + 1;
      }
      nextInTable := nextInTable + 1;
      ttable[handle] := Entry(fn, 0);
      st := Done;
    }

    /** The tasks are the same, whatever their counters show. */
    ghost predicate SameTable(table: seq<Entry>)
      reads ttable
    {
      |table| == ttable.Length && forall j | 0 <= j < |table| :: ttable[j].fn == table[j].fn
    }

    /** TSC_SignalTask, by a running task or from outside. */
    method SignalTask(handle: int) returns (st: TaskStatus)
      requires Valid()
      modifies this`log, ttable
      ensures Valid()
      ensures st == if 0 <= handle < nextInTable then Done else TaskNotDefined
      ensures log == if st == Done then old(log) + [Signal(handle)] else old(log)
      ensures SameTable(old(ttable[..]))
    {
      hide StackOf, Legal;
      if handle < 0 || handle > nextInTable - 1 {
        return TaskNotDefined;
      }
      SignalFacts(log, handle, nextInTable);
      var te := ttable[handle];
      ttable[handle] := te.(scheduled := if te.scheduled + 1 != 0 then (te.scheduled + 1) % COUNTS else te.scheduled);
      log := log + [Signal(handle)];
      st := Done;
    }

    /** TSC_Test, by a running task or before the scheduler has ever run. */
    method Test() returns (st: TaskStatus, val: int)
      requires Valid() && (TaskRunning() || runningTask < 0)
      modifies this`log, ttable
      ensures Valid() && st == if runningTask < 0 then IllegalCall else Done
      ensures st == IllegalCall ==> log == old(log)
      ensures SameTable(old(ttable[..]))
      ensures st == Done ==> log == old(log) + [Ack(runningTask)] && val == Owed(old(log), runningTask) % COUNTS
    {
      if runningTask < 0 {
        return IllegalCall, 0;
      }
      st := Done;
      LegalIsNested(log, nextInTable);
      val := ttable[runningTask].scheduled;
      ttable[runningTask] := ttable[runningTask].(scheduled := 0);
      log := log + [Ack(runningTask)];
      Snoc(old(log), Ack(runningTask), nextInTable);
    }

    /** The scheduler calls task i; its counter is cleared first. */
    method Dispatch(i: nat)
      requires Valid() && i < lowestYielding && i < nextInTable && runningTask == i
      requires InScheduler(StackOf(log)) && Due(log, i) && QuietBelow(log, i)
      modifies this, ttable
      ensures Valid() && StackOf(log) == old(StackOf(log)) && old(log) + [Begin(i)] < log && log[|log| - 1] == Finish(i)
      ensures var body := if old(ttable[i].fn) != 0 && old(script) != [] then old(script)[0] else [];
              Own(log, |old(log)| + 1, |old(StackOf(log))| + 1) == Performed(body, i, nextInTable)
      ensures Did(log, |old(log)|, |old(StackOf(log))|, [])
      ensures nextInTable == old(nextInTable) && lowestYielding == old(lowestYielding) && SameTable(old(ttable[..]))
      ensures |script| < |old(script)| || (script == old(script) && Backlog(log, nextInTable) < old(Backlog(log, nextInTable)))
      decreases |script|, 0
    {
      hide StackOf, Owed, Legal, Did, Own, Performed;
      ghost var before := log;
      ghost var d := |StackOf(log)|;
      BeginFacts(log, i, nextInTable);
      ttable[i] := ttable[i].(scheduled := 0);
      log := log + [Begin(i)];
      ghost var body := if ttable[i].fn != 0 && script != [] then script[0] else [];
      DidNothing(log, d + 1);
      NothingToDo(i, nextInTable);
      if ttable[i].fn != 0 && script != [] {
        var body := script[0];
        script := script[1..];
        RunBody(body);
      } else {
        IdleCall(before, i, nextInTable);
      }
      DidCall(before, i, log, d, Performed(body, i, nextInTable));
      FinishFacts(log, i, nextInTable);
      log := log + [Finish(i)];
    }

    /** The saved run state comes back, and with it the stack s. */
    method GoBack(running: nat, lowest: nat, ghost s: seq<Frame>)
      requires Valid() && lowest == Level(s, nextInTable) && QuietBelow(log, running)
      requires s != [] ==> s[|s| - 1] == Frame(running, false)
      requires StackOf(log) == if s == [] then [] else s[..|s| - 1] + [Frame(running, true)]
      modifies this`log, this`runningTask, this`lowestYielding
      ensures Valid() && TaskRunning() == (s != []) && StackOf(log) == s && QuietBelow(log, running)
      ensures log == (if s == [] then old(log) else old(log) + [Resume(running)])
      ensures runningTask == running && lowestYielding == lowest
    {
      hide StackOf, Owed, Legal, Due, QuietBelow;
      runningTask, lowestYielding := running, lowest;
      if s != [] {
        ResumeFacts(log, running, nextInTable);
        log := log + [Resume(running)];
      }
      assert StackOf(log) == s;
    }

    /** One thing that the running task does. */
    method DoAction(a: Action)
      requires Valid() && TaskRunning()
      modifies this, ttable
      ensures Valid() && TaskRunning() && StackOf(log) == old(StackOf(log)) && old(log) <= log
      ensures nextInTable == old(nextInTable) && lowestYielding == old(lowestYielding) && runningTask == old(runningTask)
      ensures |script| <= |old(script)| && SameTable(old(ttable[..]))
      ensures Did(log, |old(log)|, |StackOf(log)|, Doing(a, runningTask, nextInTable))
      decreases |script|, 3
    {
      hide Legal, Own, Did, Owed;
      ghost var d := |StackOf(log)|;
      DidNothing(log, d);
      match a {
        case DoSignal(handle) =>
          DidOne(log, Signal(if handle < 0 then 0 else handle), d);
          var _ := SignalTask(handle);
        case DoTest =>
          DidOne(log, Ack(runningTask), d);
          var _, _ := Test();
        case DoYield =>
          Yield();
      }
    }

    /** A task body, action by action: at its own depth, the task does just that. */
    method RunBody(body: seq<Action>)
      requires Valid() && TaskRunning()
      modifies this, ttable
      ensures Valid() && TaskRunning() && StackOf(log) == old(StackOf(log)) && old(log) <= log
      ensures nextInTable == old(nextInTable) && lowestYielding == old(lowestYielding) && runningTask == old(runningTask)
      ensures |script| <= |old(script)| && SameTable(old(ttable[..]))
      ensures Did(log, |old(log)|, |StackOf(log)|, Performed(body, runningTask, nextInTable))
      decreases |script|, 4
    {
      hide Legal, Own, Did, Owed, Doing, StackOf;
      var k := 0;
      DidNothing(log, |StackOf(log)|);
      while k < |body|
        invariant 0 <= k <= |body|
        invariant Valid() && TaskRunning() && StackOf(log) == old(StackOf(log)) && old(log) <= log
        invariant nextInTable == old(nextInTable) && lowestYielding == old(lowestYielding) && runningTask == old(runningTask)
        invariant |script| <= |old(script)| && SameTable(old(ttable[..]))
        invariant Did(log, |old(log)|, |StackOf(log)|, Performed(body[..k], runningTask, nextInTable))
      {
        ghost var before := log;
        DoAction(body[k]);
        assert body[..k + 1][..k] == body[..k];
        DidThen(before, log, |old(log)|, |StackOf(log)|, Performed(body[..k], runningTask, nextInTable),
                Doing(body[k], runningTask, nextInTable));
        k := k + 1;
      }
      assert body[..k] == body;
    }

    /** TSC_Yield: everything above the running task that waits is run; then the run
        state is exactly as before.  From outside any task it is a pass of the scheduler. */
    method Yield()
      requires Valid() && (runningTask <= 0 || TaskRunning() || AtTop())
      modifies this, ttable
      ensures Valid() && TaskRunning() == old(TaskRunning()) && StackOf(log) == old(StackOf(log)) && old(log) <= log
      ensures nextInTable == old(nextInTable) && lowestYielding == old(lowestYielding) && runningTask == old(runningTask)
      ensures |script| <= |old(script)| && SameTable(old(ttable[..]))
      ensures runningTask > 0 ==> QuietBelow(log, runningTask)
      ensures runningTask <= 0 ==> log == old(log)
      ensures Did(log, |old(log)|, |StackOf(log)|,
                  if runningTask > 0 && StackOf(log) != [] then [Event.Yield(runningTask), Resume(runningTask)] else [])
      decreases |script|, 2
    {
      hide StackOf, Owed, Legal, Due, QuietBelow, Did, Own;
      DidNothing(log, |StackOf(log)|);
      if runningTask <= 0 {
        return;
      }
      var running, lowest := runningTask, lowestYielding;
      LegalIsNested(log, nextInTable);
      StepAside();
      DoTasks();
      if old(StackOf(log)) != [] {
        DidAside(old(log), log, running);
      }
      GoBack(running, lowest, old(StackOf(log)));
    }

    /** The new limit on yield, before the loop is re-entered. */
    method StepAside()
      requires Valid() && (TaskRunning() || AtTop()) && runningTask > 0
      modifies this`log, this`runningTask, this`lowestYielding
      ensures Valid() && InScheduler(StackOf(log)) && lowestYielding == old(runningTask) && old(log) <= log
      ensures log == if old(StackOf(log)) == [] then old(log) else old(log) + [Event.Yield(old(runningTask))]
      ensures StackOf(log) == if old(StackOf(log)) == [] then []
                              else old(StackOf(log)[..|StackOf(log)| - 1]) + [Frame(old(runningTask), true)]
    {
      hide StackOf, Owed, Legal, Due, QuietBelow;
      if StackOf(log) != [] {
        YieldFacts(log, runningTask, nextInTable);
        log := log + [Event.Yield(runningTask)];
      }
      lowestYielding := runningTask;
      runningTask := -1;
    }

    /** TSC_DoTasks: run the lowest waiting task, and start over, until nothing below
        the ceiling waits. */
    method DoTasks()
      requires Valid() && InScheduler(StackOf(log))
      modifies this, ttable
      ensures Valid() && StackOf(log) == old(StackOf(log)) && old(log) <= log
      ensures nextInTable == old(nextInTable) && lowestYielding == old(lowestYielding) && runningTask == lowestYielding
      ensures |script| <= |old(script)| && SameTable(old(ttable[..]))
      ensures QuietBelow(log, lowestYielding)
      ensures Did(log, |old(log)|, |StackOf(log)|, [])
      decreases |script|, 1
    {
      hide StackOf, Owed, Legal, Due, QuietBelow, Did, Own;
      DidNothing(log, |StackOf(log)|);
      LegalIsNested(log, nextInTable);
      var again := true;
      while again
        invariant Valid() && StackOf(log) == old(StackOf(log)) && old(log) <= log
        invariant nextInTable == old(nextInTable) && lowestYielding == old(lowestYielding)
        invariant |script| <= |old(script)| && SameTable(old(ttable[..]))
        invariant Did(log, |old(log)|, |StackOf(log)|, [])
        invariant !again ==> QuietBelow(log, lowestYielding) && runningTask == lowestYielding
        decreases |script|, Backlog(log, nextInTable), again
      {
        ghost var before := log;
        again := FindAndRun();
        ghost var none: seq<Event> := [];
        DidThen(before, log, |old(log)|, |StackOf(log)|, none, none);
        assert none + none == none;
      }
    }

    /** The for loop of TSC_DoTasks: up to its break or its end. */
    method FindAndRun() returns (again: bool)
      requires Valid() && InScheduler(StackOf(log)) && lowestYielding <= nextInTable
      modifies this, ttable
      ensures Valid() && StackOf(log) == old(StackOf(log)) && old(log) <= log
      ensures nextInTable == old(nextInTable) && lowestYielding == old(lowestYielding)
      ensures SameTable(old(ttable[..])) && Did(log, |old(log)|, |StackOf(log)|, [])
      ensures !again ==> log == old(log) && script == old(script) && QuietBelow(log, lowestYielding) && runningTask == lowestYielding
      ensures again ==> exists i: nat :: i < lowestYielding && QuietBelow(old(log), i) && old(log) + [Begin(i)] < log
      ensures again ==> |script| < |old(script)|
                        || (script == old(script) && Backlog(log, nextInTable) < old(Backlog(log, nextInTable)))
      decreases |script|, 1, 0
    {
      hide Did, Own, StackOf, Owed, Legal;
      DidNothing(log, |StackOf(log)|);
      runningTask := 0;
      while runningTask < lowestYielding
        invariant 0 <= runningTask <= lowestYielding && Valid()
        invariant log == old(log) && script == old(script) && nextInTable == old(nextInTable)
        invariant lowestYielding == old(lowestYielding) && QuietBelow(log, runningTask) && SameTable(old(ttable[..]))
        decreases lowestYielding - runningTask
      {
        if ttable[runningTask].scheduled != 0 {
          ghost var i: nat := runningTask;
          Dispatch(runningTask);
          assert QuietBelow(old(log), i) && old(log) + [Begin(i)] < log;
          return true;
        }
        runningTask := runningTask + 1;
      }
      again := false;
    }
  }
}
