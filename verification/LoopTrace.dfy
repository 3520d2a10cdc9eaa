// What user code has done in a run, and what has come of it: every invocation is on
// record, and the submissions, timers, runs and firings are just those on record.
module LoopTrace {
  import opened Base
  import opened GenPool
  import opened History
  import opened LoopModel
  import LoopTheorems
  import TaskModel
  import TimerModel

  // ------------------------------------------------------ what the record amounts to

  function TaskRun(v: Visit): seq<Event> {
    if v.who.Task? then [Event(v.who.serial, v.at, v.cb, v.status)] else []
  }

  function TimerRun(v: Visit): seq<Event> {
    if v.who.Timer? then [Event(v.who.serial, v.at, v.cb, v.status)] else []
  }

  function UserTick(v: Visit): seq<nat> {
    if v.who.ProcessUser? then [v.at] else []
  }

  /** An event with a callback to call. */
  function Called(e: Event): seq<Event> {
    if e.cb.fn != 0 then [e] else []
  }

  /** The submission that a call answered OK stands for, made at tick `at`. */
  function SubmittedBy(at: nat, draining: bool): Outcome -> seq<TaskModel.Submission> {
    (x: Outcome) =>
      match x.call
      case RunTask(cb) => if x.answer == OK then [TaskModel.Submission(cb, false, at, draining)] else []
      case RunTaskOnce(cb) => if x.answer == OK then [TaskModel.Submission(cb, true, at, draining)] else []
      case _ => []
  }

  /** The timer likewise. */
  function ArmedBy(at: nat, late: bool): Outcome -> seq<TimerModel.Birth> {
    (x: Outcome) =>
      match x.call
      case RunLater(cb, d) => if x.answer == OK then [TimerModel.Birth(cb, at, d, 0, late)] else []
      case RunPeriodically(cb, p) =>
        if x.answer == OK then [TimerModel.Birth(cb, at, if p < 0 then -p else p, p, late)] else []
      case _ => []
  }

  function Submitted(v: Visit): seq<TaskModel.Submission> {
    Flat(v.outs, SubmittedBy(v.at, v.draining))
  }

  function Armed(v: Visit): seq<TimerModel.Birth> {
    Flat(v.outs, ArmedBy(v.at, v.late))
  }

  predicate Stops(v: Visit) {
    exists i :: 0 <= i < |v.outs| && v.outs[i].call == StopLoop
  }

  /** A null task is refused as Param and anything else at most as FULL. */
  predicate Answered(x: Outcome) {
    match x.call
    case RunTask(cb) => (x.answer == Param <==> cb.fn == 0) && (x.answer == Param || x.answer == FULL || x.answer == OK)
    case RunTaskOnce(cb) => (x.answer == Param <==> cb.fn == 0) && (x.answer == Param || x.answer == FULL || x.answer == OK)
    case StopLoop => x.answer == OK
    case _ => x.answer == FULL || x.answer == OK
  }

  /** Visit v is an invocation as the oracle has it: all its calls were made, in order
      and answered, and its answer is what was reported. */
  ghost predicate AsTold(v: Visit, b: Behaviour) {
    && v.status == b.status && v.cb.fn != 0 && |v.outs| == |b.calls|
    && forall i | 0 <= i < |v.outs| :: v.outs[i].call == b.calls[i] && Answered(v.outs[i])
  }

  /** ProcessUser and the release callbacks come before the timers of their tick, and
      these before its tasks. */
  predicate OfItsMoment(v: Visit) {
    match v.who
    case ProcessUser => !v.late && !v.draining
    case Releases => !v.late && !v.draining
    case Timer(_) => v.late && !v.draining
    case Task(_) => v.late && v.draining
  }

  /** The invocation v may come right after u.  Only ProcessUser's is at a new tick. */
  predicate Follows(u: Visit, v: Visit) {
    match v.who
    case ProcessUser => v.at == u.at + 1 && !u.who.ProcessUser?
    case Releases => v.at == u.at && u.who.ProcessUser?
    case Timer(_) => v.at == u.at && (u.who.Releases? || u.who.Timer?)
    case Task(_) => v.at == u.at && !u.who.ProcessUser?
  }

  /** The first invocation of a run is ProcessUser's at tick 0. */
  ghost predicate Chained(vs: seq<Visit>) {
    && (vs != [] ==> vs[0].who.ProcessUser? && vs[0].at == 0)
    && (forall j | 0 <= j < |vs| :: OfItsMoment(vs[j]))
    && (forall j | 0 < j < |vs| :: Follows(vs[j - 1], vs[j]))
  }

  /** State m has exactly the submissions and timers on record. */
  ghost predicate Holds(m: State) {
    m.tasks.subs == Flat(m.trace, Submitted) && m.timers.births == Flat(m.trace, Armed)
  }

  ghost predicate SoundThen(m: State, v: Visit) {
    && m.now == v.at && m.late == v.late && m.draining == v.draining
    && exists timerMain: nat, taskMain: nat :: Sound(m, timerMain, taskMain)
  }

  /** What the histories say was called is on record, and the other way round. */
  ghost predicate Logged(s: State) {
    Flat(s.tasks.log, Called) == Flat(s.trace, TaskRun) && Flat(s.timers.log, Called) == Flat(s.trace, TimerRun)
  }

  /** The calls of visit v were carried out, one by one, from a sound state with the
      record vs, and answered there as v has it. */
  ghost predicate Happened(vs: seq<Visit>, v: Visit, b: Behaviour, holders: nat, nodes: nat) {
    exists m: State, r: State ::
      && CarriedOut(m, b.calls, v.outs, r) && SoundThen(m, v) && Holds(m) && Logged(m)
      && m.trace == vs && m.tasks.pool.size == holders && m.timers.pool.size == nodes
  }

  /** The record of s is the oracle's run so far, and s has exactly the submissions and
      timers on record. */
  ghost predicate Told(s: State, o: Oracle) {
    && s.said == [] && s.calls == |s.trace| && Chained(s.trace) && Holds(s)
    && (forall j | 0 <= j < |s.trace| ::
          Happened(s.trace[..j], s.trace[j], o(j), s.tasks.pool.size, s.timers.pool.size))
    && (forall j | 0 <= j < |s.trace| :: AsTold(s.trace[j], o(j)))
    && (s.run <==> forall j | 0 <= j < |s.trace| :: !Stops(s.trace[j]))
  }

  // ------------------------------------------------------------------ one call

  /** A call takes s to r, and was answered st. */
  ghost predicate Effect(s: State, c: UserCall, st: Status, r: State)
    requires TaskModel.Wf(s.tasks) && TimerModel.Wf(s.timers)
  {
    && r == s.(tasks := r.tasks, timers := r.timers, run := s.run && c != StopLoop, said := s.said + [Outcome(c, st)])
    && match c
       case RunTask(cb) =>
         r.timers == s.timers && TaskModel.Submits(s.tasks, cb, false, s.now, s.draining, r.tasks, st)
       case RunTaskOnce(cb) =>
         r.timers == s.timers && TaskModel.Submits(s.tasks, cb, true, s.now, s.draining, r.tasks, st)
       case RunLater(cb, d) =>
         r.tasks == s.tasks && TimerModel.Arms(s.timers, cb, d, 0, s.now, s.late, r.timers, st)
       case RunPeriodically(cb, p) =>
         r.tasks == s.tasks && TimerModel.Arms(s.timers, cb, if p < 0 then -p else p, p, s.now, s.late, r.timers, st)
       case StopLoop => r.tasks == s.tasks && r.timers == s.timers && st == OK
  }

  /** These calls, answered so, take s to r one by one. */
  ghost predicate CarriedOut(s: State, cs: seq<UserCall>, outs: seq<Outcome>, r: State)
    decreases |cs|
  {
    && TaskModel.Wf(s.tasks) && TimerModel.Wf(s.timers) && |outs| == |cs|
    && if cs == [] then r == s
       else exists m: State :: Effect(s, cs[0], outs[0].answer, m) && outs[0].call == cs[0] && CarriedOut(m, cs[1..], outs[1..], r)
  }

  lemma NoCalls(s: State)
    requires TaskModel.Wf(s.tasks) && TimerModel.Wf(s.timers)
    ensures DoCalls(s, []) == s
  {
    assert s.said + [] == s.said;
  }

  /** What each public call does, from any state, and what it answers. */
  lemma CallExact(s: State, c: UserCall)
    requires TaskModel.Wf(s.tasks) && TimerModel.Wf(s.timers)
    ensures Effect(s, c, Answer(s, c), DoCall(s, c))
  {
    hide TaskModel.Submits, TimerModel.Arms, TaskModel.Submit, TimerModel.Arm;
    match c {
      case RunTask(cb) => TaskModel.SubmitExact(s.tasks, cb, false, s.now, s.draining);
      case RunTaskOnce(cb) => TaskModel.SubmitExact(s.tasks, cb, true, s.now, s.draining);
      case RunLater(cb, d) => TimerModel.ArmExact(s.timers, cb, d, 0, s.now, s.late);
      case RunPeriodically(cb, p) => TimerModel.ArmExact(s.timers, cb, TimerModel.Abs(p), p, s.now, s.late);
      case StopLoop =>
    }
  }

  lemma {:induction false} CallsCarriedOut(s: State, cs: seq<UserCall>)
    requires TaskModel.Wf(s.tasks) && TimerModel.Wf(s.timers)
    ensures CarriedOut(s, cs, Outcomes(s, cs), DoCalls(s, cs))
    decreases |cs|
  {
    hide Effect, Answer, DoCall, TaskModel.OnCall, TimerModel.OnCall, TaskModel.Wf, TimerModel.Wf;
    if cs == [] {
      NoCalls(s);
    } else {
      hide DoCalls;
      var m := DoCall(s, cs[0]);
      CallExact(s, cs[0]);
      CallsCarriedOut(m, cs[1..]);
      DoCallsFirst(s, cs);
      assert Outcomes(s, cs)[1..] == Outcomes(m, cs[1..]);
    }
  }

  /** What one call adds, and what a sequence of calls adds. */
  ghost predicate AddsOne(s: State, x: Outcome, r: State) {
    && Answered(x)
    && r.tasks.subs == s.tasks.subs + SubmittedBy(s.now, s.draining)(x)
    && r.timers.births == s.timers.births + ArmedBy(s.now, s.late)(x)
    && r.tasks.log == s.tasks.log && r.timers.log == s.timers.log
  }

  ghost predicate Adds(s: State, cs: seq<UserCall>, outs: seq<Outcome>, r: State) {
    && |outs| == |cs| && (forall i | 0 <= i < |cs| :: outs[i].call == cs[i] && Answered(outs[i]))
    && r.tasks.subs == s.tasks.subs + Flat(outs, SubmittedBy(s.now, s.draining))
    && r.timers.births == s.timers.births + Flat(outs, ArmedBy(s.now, s.late))
    && r.tasks.log == s.tasks.log && r.timers.log == s.timers.log
  }

  lemma OneCallAdds(s: State, c: UserCall)
    requires TaskModel.Wf(s.tasks) && TimerModel.Wf(s.timers)
    ensures AddsOne(s, Outcome(c, Answer(s, c)), DoCall(s, c))
  {
    hide Answer, DoCall, TaskModel.CarriedBy, TimerModel.CarriedBy, PoolOk;
    CallExact(s, c);
  }

  lemma AddsChain(s: State, cs: seq<UserCall>, m: State, x: Outcome, outs: seq<Outcome>, r: State)
    requires cs != [] && x.call == cs[0] && AddsOne(s, x, m) && Adds(m, cs[1..], outs, r)
    requires m.now == s.now && m.late == s.late && m.draining == s.draining
    ensures Adds(s, cs, [x] + outs, r)
  {
    hide Answered, SubmittedBy, ArmedBy;
    FlatFirst(x, outs, SubmittedBy(s.now, s.draining));
    FlatFirst(x, outs, ArmedBy(s.now, s.late));
    forall i | 0 <= i < |cs| ensures ([x] + outs)[i].call == cs[i] && Answered(([x] + outs)[i]) {
      if i > 0 {
        assert outs[i - 1].call == cs[1..][i - 1] && Answered(outs[i - 1]);
      }
    }
  }

  lemma {:induction false} CallsAdd(s: State, cs: seq<UserCall>)
    requires TaskModel.Wf(s.tasks) && TimerModel.Wf(s.timers)
    ensures Adds(s, cs, Outcomes(s, cs), DoCalls(s, cs))
    decreases |cs|
  {
    hide Answer, TaskModel.OnCall, TimerModel.OnCall, Answered, SubmittedBy, ArmedBy, AddsOne;
    if cs == [] {
    } else {
      var m := DoCall(s, cs[0]);
      OneCallAdds(s, cs[0]);
      CallsAdd(m, cs[1..]);
      AddsChain(s, cs, m, Outcome(cs[0], Answer(s, cs[0])), Outcomes(m, cs[1..]), DoCalls(m, cs[1..]));
    }
  }

  // ------------------------------------------------------------ one invocation

  /** One invocation takes s to r, and v is its record. */
  ghost predicate Invoked(s: State, b: Behaviour, v: Visit, r: State) {
    && AsTold(v, b) && v.at == s.now && v.late == s.late && v.draining == s.draining
    && r.said == [] && r.calls == s.calls + 1 && r.trace == s.trace + [v]
    && r.tasks.subs == s.tasks.subs + Submitted(v) && r.timers.births == s.timers.births + Armed(v)
    && r.tasks.log == s.tasks.log && r.timers.log == s.timers.log
    && (r.run <==> s.run && !Stops(v)) && LoopTheorems.SameSize(s, r)
  }

  lemma StopsIff(v: Visit, b: Behaviour)
    requires AsTold(v, b)
    ensures Stops(v) <==> StopLoop in b.calls
  {
    if StopLoop in b.calls {
      var i :| 0 <= i < |b.calls| && b.calls[i] == StopLoop;
      assert v.outs[i].call == StopLoop;
    }
  }

  lemma InvokeSize(s: State, o: Oracle, who: Who, cb: Cb)
    requires TaskModel.Wf(s.tasks) && TimerModel.Wf(s.timers)
    ensures LoopTheorems.SameSize(s, Invoke(s, o, who, cb).0)
  {
    hide TaskModel.OnCalls, TimerModel.OnCalls;
    LoopTheorems.DoCallsSize(s.(calls := s.calls + 1, said := []), o(s.calls).calls);
  }

  lemma InvokeRecords(s: State, o: Oracle, who: Who, cb: Cb)
    requires TaskModel.Wf(s.tasks) && TimerModel.Wf(s.timers) && cb.fn != 0
    ensures var (r, st) := Invoke(s, o, who, cb);
            && |r.trace| == |s.trace| + 1
            && var v := r.trace[|s.trace|];
               v.who == who && v.cb == cb && v.status == st && Invoked(s, o(s.calls), v, r)
  {
    hide Answered, DoCall, SubmittedBy, ArmedBy, TaskModel.OnCalls, TimerModel.OnCalls, TaskModel.Wf, TimerModel.Wf, Outcomes;
    hide LoopTheorems.SameSize;
    var b := o(s.calls);
    var s' := s.(calls := s.calls + 1, said := []);
    CallsAdd(s', b.calls);
    InvokeSize(s, o, who, cb);
    var v := Visit(s.now, s.late, s.draining, who, cb, b.status, Outcomes(s', b.calls));
    assert DoCalls(s', b.calls).said == v.outs;
    StopsIff(v, b);
  }

  /** v may be the next invocation in a run with the record vs. */
  ghost predicate Next(vs: seq<Visit>, v: Visit) {
    OfItsMoment(v) && if vs == [] then v.who.ProcessUser? && v.at == 0 else Follows(vs[|vs| - 1], v)
  }

  lemma ChainedSnoc(vs: seq<Visit>, v: Visit)
    requires Chained(vs) && Next(vs, v)
    ensures Chained(vs + [v])
  {
    hide Follows, OfItsMoment;
    var ws := vs + [v];
    forall j | 0 < j < |ws| ensures Follows(ws[j - 1], ws[j]) {
      if j == |vs| {
        assert ws[j - 1] == vs[|vs| - 1];
      }
    }
  }

  lemma InvokedTold(s: State, o: Oracle, v: Visit, r: State)
    requires Told(s, o) && Invoked(s, o(s.calls), v, r) && Next(s.trace, v)
    requires Happened(s.trace, v, o(s.calls), s.tasks.pool.size, s.timers.pool.size)
    ensures Told(r, o)
  {
    hide Chained, Next, AsTold, Submitted, Armed, Stops, Happened;
    ChainedSnoc(s.trace, v);
    FlatSnoc(s.trace, v, Submitted);
    FlatSnoc(s.trace, v, Armed);
    forall j | 0 <= j < |r.trace|
      ensures AsTold(r.trace[j], o(j))
      ensures Happened(r.trace[..j], r.trace[j], o(j), r.tasks.pool.size, r.timers.pool.size)
    {
      assert r.trace[..j] == s.trace[..j];
      if j < |s.trace| {
        assert r.trace[j] == s.trace[j];
      } else {
        assert r.trace[..j] == s.trace;
      }
    }
    assert r.trace[|s.trace|] == v;
    assert forall j | 0 <= j < |s.trace| :: r.trace[j] == s.trace[j];
  }

  /** States that differ in nothing on record. */
  predicate SameRecord(s: State, r: State) {
    && r.said == s.said && r.calls == s.calls && r.trace == s.trace && r.run == s.run
    && r.tasks.subs == s.tasks.subs && r.timers.births == s.timers.births && LoopTheorems.SameSize(s, r)
  }

  lemma ToldAlike(s: State, o: Oracle, r: State)
    requires Told(s, o) && SameRecord(s, r)
    ensures Told(r, o)
  {
    hide Chained, AsTold, Submitted, Armed, Stops, Happened;
  }

  // ------------------------------------------------------------------ one turn

  /** The last invocation was at this tick; ProcessUser's is over. */
  predicate Afoot(s: State) {
    s.trace != [] && s.trace[|s.trace| - 1].at == s.now && !s.trace[|s.trace| - 1].who.ProcessUser?
  }

  /** No task has run yet in this tick. */
  predicate Early(s: State) {
    s.trace != [] && !s.trace[|s.trace| - 1].who.Task?
  }

  /** Everything the record promises. */
  ghost predicate Faithful(s: State, o: Oracle) {
    Told(s, o) && Logged(s)
  }

  /** What all invocations since s have in common. */
  ghost predicate Onward(s: State, r: State) {
    && s.trace <= r.trace && r.now == s.now
    && forall j | |s.trace| <= j < |r.trace| :: r.trace[j].at == s.now
  }

  lemma OnwardChain(s: State, m: State, r: State)
    requires Onward(s, m) && Onward(m, r)
    ensures Onward(s, r)
  {
    forall j | |s.trace| <= j < |r.trace| ensures r.trace[j].at == s.now {
      assert j < |m.trace| ==> r.trace[j] == m.trace[j];
    }
  }

  /** States with the same record and the same histories. */
  predicate SameMoment(s: State, m: State) {
    && m.trace == s.trace && m.tasks.subs == s.tasks.subs && m.timers.births == s.timers.births
    && m.tasks.log == s.tasks.log && m.timers.log == s.timers.log && LoopTheorems.SameSize(s, m)
  }

  /** A callback cb taken in hand in state s was called as who's (s1 to s2, if it is not
      null), answered st, and then logged as e (in r). */
  ghost predicate TurnOf(s: State, b: Behaviour, who: Who, cb: Cb, st: Status, r: State) {
    if cb.fn == 0 then SameRecord(s, r)
    else
      && |r.trace| == |s.trace| + 1
      && var v := r.trace[|s.trace|];
         v.who == who && v.cb == cb && v.status == st && v.at == s.now && v.late == s.late && v.draining == s.draining
         && (exists m :: Invoked(s, b, v, m) && SameRecord(m, r))
         && (exists m, r' :: CarriedOut(m, b.calls, v.outs, r') && SoundThen(m, v) && SameMoment(s, m))
  }

  lemma InvokeCarriedOut(s: State, o: Oracle, who: Who, cb: Cb)
    requires TaskModel.Wf(s.tasks) && TimerModel.Wf(s.timers)
    ensures var r := Invoke(s, o, who, cb).0;
            && |r.trace| == |s.trace| + 1
            && var m := s.(calls := s.calls + 1, said := []);
               CarriedOut(m, o(s.calls).calls, r.trace[|s.trace|].outs, DoCalls(m, o(s.calls).calls))
  {
    hide DoCall, TaskModel.OnCalls, TimerModel.OnCalls, TaskModel.Wf, TimerModel.Wf, Outcomes, CarriedOut;
    var m := s.(calls := s.calls + 1, said := []);
    CallsCarriedOut(m, o(s.calls).calls);
    assert DoCalls(m, o(s.calls).calls).said == Outcomes(m, o(s.calls).calls);
  }

  lemma CallBackTurn(s: State, o: Oracle, who: Who, cb: Cb, timerMain: nat, taskMain: nat)
    requires Sound(s, timerMain, taskMain)
    ensures TaskModel.Wf(s.tasks) && TimerModel.Wf(s.timers)
    ensures var (r, st) := CallBack(s, who, cb, o);
            TurnOf(s, o(s.calls), who, cb, st, r) && r.tasks.log == s.tasks.log && r.timers.log == s.timers.log
  {
    hide TaskModel.TaskInv, TimerModel.TimerInv, TaskModel.Wf, TimerModel.Wf, Invoke, AsTold, Submitted, Armed, Stops, CarriedOut;
    SoundIsWf(s, timerMain, taskMain);
    if cb.fn != 0 {
      InvokeRecords(s, o, who, cb);
      var r := CallBack(s, who, cb, o).0;
      assert Invoked(s, o(s.calls), r.trace[|s.trace|], r) && SameRecord(r, r);
      InvokeCarriedOut(s, o, who, cb);
      SoundAlike(s, s.calls + 1, [], timerMain, taskMain);
      var m := s.(calls := s.calls + 1, said := []);
      assert CarriedOut(m, o(s.calls).calls, r.trace[|s.trace|].outs, DoCalls(m, o(s.calls).calls));
    }
  }

  lemma TurnHappened(s: State, o: Oracle, v: Visit, who: Who, cb: Cb, st: Status, r: State)
    requires Faithful(s, o) && cb.fn != 0 && TurnOf(s, o(s.calls), who, cb, st, r) && v == r.trace[|s.trace|]
    ensures Happened(s.trace, v, o(s.calls), s.tasks.pool.size, s.timers.pool.size)
  {
    hide Invoked, CarriedOut, SoundThen, Chained, AsTold, Flat;
    var m, r' :| CarriedOut(m, o(s.calls).calls, v.outs, r') && SoundThen(m, v) && SameMoment(s, m);
    assert Holds(m) && Logged(m);
  }

  lemma TurnTold(s: State, o: Oracle, who: Who, cb: Cb, st: Status, r: State)
    requires Faithful(s, o) && TurnOf(s, o(s.calls), who, cb, st, r)
    requires Next(s.trace, Visit(s.now, s.late, s.draining, who, cb, st, []))
    ensures Told(r, o)
  {
    hide Told, Invoked, CarriedOut;
    if cb.fn == 0 {
      ToldAlike(s, o, r);
    } else {
      var v := r.trace[|s.trace|];
      TurnHappened(s, o, v, who, cb, st, r);
      var m :| Invoked(s, o(s.calls), v, m) && SameRecord(m, r);
      InvokedTold(s, o, v, m);
      ToldAlike(m, o, r);
    }
  }

  /** What is done to a holder or node before and after its turn is not on record. */
  lemma TurnGivenBack(s: State, s1: State, b: Behaviour, who: Who, cb: Cb, st: Status, s2: State, r: State)
    requires TurnOf(s1, b, who, cb, st, s2) && SameRecord(s, s1) && SameRecord(s2, r)
    requires s1.now == s.now && s1.late == s.late && s1.draining == s.draining
    requires s1.tasks.log == s.tasks.log && s1.timers.log == s.timers.log
    ensures TurnOf(s, b, who, cb, st, r)
  {
    hide AsTold, Stops, Submitted, Armed, CarriedOut, SoundThen;
    if cb.fn != 0 {
      var v := s2.trace[|s1.trace|];
      var m :| Invoked(s1, b, v, m) && SameRecord(m, s2);
      assert Invoked(s, b, v, m);
      var m', r' :| CarriedOut(m', b.calls, v.outs, r') && SoundThen(m', v) && SameMoment(s1, m');
      assert SameMoment(s, m');
    }
  }

  /** A task's turn is that of the first waiting holder: its callback is called, if it
      has one, and only it is logged. */
  lemma TaskTurnIs(s: State, o: Oracle)
    requires Draining(s) && s.tasks.src != []
    ensures var h := s.tasks.src[0];
            && h < |s.tasks.life| && h < |s.tasks.cb|
            && var (r, e) := (TaskTurn(s, o), Event(s.tasks.life[h].serial, s.now, s.tasks.cb[h], CalledTask(s, h, o).1));
               && TurnOf(s, o(s.calls), Task(e.serial), e.cb, e.status, r)
               && r.tasks.log == s.tasks.log + [e] && r.timers.log == s.timers.log
  {
    hide TaskModel.TaskInv, TimerModel.TimerInv, TimerModel.Extends, TimerModel.Wf, CallBack, TurnOf;
    TaskTurnFacts(s, o);
    TaskModel.StartFacts(s.tasks, s.now, s.now + 1);
    var h := s.tasks.src[0];
    var s1 := s.(tasks := TaskModel.Start(s.tasks));
    var who, cb := Task(s.tasks.life[h].serial), s.tasks.cb[h];
    CallBackKeeps(s1, who, cb, o, s.now + 1, s.now);
    CallBackTurn(s1, o, who, cb, s.now + 1, s.now);
    var (s2, st) := CallBack(s1, who, cb, o);
    TurnGivenBack(s, s1, o(s.calls), who, cb, st, s2, TaskTurn(s, o));
  }

  lemma TimerTurnIs(s: State, o: Oracle)
    requires Walking(s) && s.timers.timeQ != []
    ensures var h := s.timers.timeQ[0];
            && h < |s.timers.life| && h < |s.timers.node| && TaskModel.Wf(s.tasks) && TimerModel.Wf(s.timers)
            && var r := TimerTurn(s, o);
               if !TimerModel.Expired(s.timers.node[h].time, Tick(s)) then
                 SameRecord(s, r) && r.tasks.log == s.tasks.log && r.timers.log == s.timers.log
               else
                 var e := Event(s.timers.life[h].serial, s.now, s.timers.node[h].cb, CalledBack(s, h, o).1);
                 && TurnOf(s, o(s.calls), Timer(e.serial), e.cb, e.status, r)
                 && r.timers.log == s.timers.log + [e] && r.tasks.log == s.tasks.log
  {
    hide TaskModel.TaskInv, TimerModel.TimerInv, TaskModel.Extends, TaskModel.Wf, CallBack, TurnOf, TimerModel.Expired;
    TimerModel.TakeFacts(s.timers, s.now);
    TaskModel.InvBasics(s.tasks, s.now, s.now);
    var h := s.timers.timeQ[0];
    if TimerModel.Expired(s.timers.node[h].time, Tick(s)) {
      FireFacts(s, h, o);
      var s1 := s.(timers := TimerModel.Take(s.timers));
      var who, cb := Timer(s.timers.life[h].serial), s.timers.node[h].cb;
      CallBackKeeps(s1, who, cb, o, s.now, s.now);
      CallBackTurn(s1, o, who, cb, s.now, s.now);
      var (s2, st) := CallBack(s1, who, cb, o);
      TurnGivenBack(s, s1, o(s.calls), who, cb, st, s2, TimerTurn(s, o));
    }
  }

  /** A turn adds to the record what it adds to the history. */
  lemma TaskTurnLogs(s: State, b: Behaviour, e: Event, r: State)
    requires Logged(s) && TurnOf(s, b, Task(e.serial), e.cb, e.status, r) && e.at == s.now
    requires r.tasks.log == s.tasks.log + [e] && r.timers.log == s.timers.log
    ensures Logged(r)
  {
    FlatSnoc(s.tasks.log, e, Called);
    if e.cb.fn != 0 {
      FlatSnoc(s.trace, r.trace[|s.trace|], TaskRun);
      FlatSnoc(s.trace, r.trace[|s.trace|], TimerRun);
    }
  }

  lemma TimerTurnLogs(s: State, b: Behaviour, e: Event, r: State)
    requires Logged(s) && TurnOf(s, b, Timer(e.serial), e.cb, e.status, r) && e.at == s.now
    requires r.timers.log == s.timers.log + [e] && r.tasks.log == s.tasks.log
    ensures Logged(r)
  {
    FlatSnoc(s.timers.log, e, Called);
    if e.cb.fn != 0 {
      FlatSnoc(s.trace, r.trace[|s.trace|], TaskRun);
      FlatSnoc(s.trace, r.trace[|s.trace|], TimerRun);
    }
  }

  lemma TaskTurnFaithful(s: State, o: Oracle)
    requires Draining(s) && s.tasks.src != [] && Faithful(s, o) && Afoot(s)
    ensures var r := TaskTurn(s, o);
            Faithful(r, o) && Afoot(r) && Onward(s, r)
  {
    hide TaskModel.TaskInv, TimerModel.TimerInv, Told, Logged, TaskTurn, CalledTask, AsTold;
    TaskTurnIs(s, o);
    TaskTurnFacts(s, o);
    var h := s.tasks.src[0];
    var e := Event(s.tasks.life[h].serial, s.now, s.tasks.cb[h], CalledTask(s, h, o).1);
    TurnTold(s, o, Task(e.serial), e.cb, e.status, TaskTurn(s, o));
    TaskTurnLogs(s, o(s.calls), e, TaskTurn(s, o));
  }

  lemma TimerTurnFaithful(s: State, o: Oracle)
    requires Walking(s) && s.timers.timeQ != [] && Faithful(s, o) && Afoot(s) && Early(s)
    ensures var r := TimerTurn(s, o);
            Faithful(r, o) && Afoot(r) && Early(r) && Onward(s, r)
  {
    hide TaskModel.TaskInv, TimerModel.TimerInv, Told, TimerTurn, CalledBack, AsTold, TimerModel.Expired, Flat;
    TimerTurnIs(s, o);
    TimerTurnKeeps(s, o);
    var h := s.timers.timeQ[0];
    if TimerModel.Expired(s.timers.node[h].time, Tick(s)) {
      var e := Event(s.timers.life[h].serial, s.now, s.timers.node[h].cb, CalledBack(s, h, o).1);
      TurnTold(s, o, Timer(e.serial), e.cb, e.status, TimerTurn(s, o));
      TimerTurnLogs(s, o(s.calls), e, TimerTurn(s, o));
    } else {
      ToldAlike(s, o, TimerTurn(s, o));
    }
  }

  // ------------------------------------------------------------------ every run

  lemma OnwardSelf(s: State)
    ensures Onward(s, s)
  {
  }

  lemma {:induction false} WalkFaithful(s: State, o: Oracle)
    requires Walking(s) && Faithful(s, o) && Afoot(s) && Early(s)
    ensures Faithful(Walk(s, o), o) && Afoot(Walk(s, o)) && Onward(s, Walk(s, o))
    decreases |s.timers.timeQ|
  {
    hide TaskModel.TaskInv, TimerModel.TimerInv, Faithful, Onward, Afoot, Early, TimerTurn;
    if s.timers.timeQ == [] {
      OnwardSelf(s);
    } else {
      TimerTurnKeeps(s, o);
      TimerTurnFaithful(s, o);
      WalkFaithful(TimerTurn(s, o), o);
      OnwardChain(s, TimerTurn(s, o), Walk(s, o));
    }
  }

  lemma {:induction false} DrainFaithful(s: State, o: Oracle)
    requires Draining(s) && Faithful(s, o) && Afoot(s)
    ensures Faithful(Drain(s, o), o) && Afoot(Drain(s, o)) && Onward(s, Drain(s, o))
    decreases |s.tasks.src|
  {
    hide TaskModel.TaskInv, TimerModel.TimerInv, Faithful, Onward, Afoot, TaskTurn;
    if s.tasks.src == [] {
      OnwardSelf(s);
    } else {
      TaskTurnFaithful(s, o);
      DrainFaithful(TaskTurn(s, o), o);
      OnwardChain(s, TaskTurn(s, o), Drain(s, o));
    }
  }

  /** Between passes: the last invocation was in the tick before. */
  ghost predicate Complete(s: State) {
    if s.now == 0 then s.trace == []
    else s.trace != [] && s.trace[|s.trace| - 1].at == s.now - 1 && !s.trace[|s.trace| - 1].who.ProcessUser?
  }

  lemma UserTurnFaithful(s: State, o: Oracle, who: Who)
    requires Sound(s, s.now, s.now) && !s.late && !s.draining && Faithful(s, o) && !who.Timer? && !who.Task?
    requires Next(s.trace, Visit(s.now, s.late, s.draining, who, USER, OK, []))
    ensures TaskModel.Wf(s.tasks) && TimerModel.Wf(s.timers)
    ensures var r := Invoke(s, o, who, USER).0;
            && Sound(r, s.now, s.now) && Faithful(r, o) && r.now == s.now && r.late == s.late && r.draining == s.draining
            && |r.trace| == |s.trace| + 1 && s.trace <= r.trace
            && r.trace[|s.trace|].who == who && r.trace[|s.trace|].at == s.now
  {
    hide TaskModel.TaskInv, TimerModel.TimerInv, TaskModel.Extends, TimerModel.Extends, Invoke, Told, AsTold, Submitted, Armed;
    hide Flat, CarriedOut;
    SoundIsWf(s, s.now, s.now);
    CallBackKeeps(s, who, USER, o, s.now, s.now);
    CallBackTurn(s, o, who, USER, s.now, s.now);
    var (r, st) := CallBack(s, who, USER, o);
    TurnTold(s, o, who, USER, st, r);
    FlatSnoc(s.trace, r.trace[|s.trace|], TaskRun);
    FlatSnoc(s.trace, r.trace[|s.trace|], TimerRun);
  }

  /** ProcessUser and the release callbacks get control, in this order. */
  lemma UserPartFaithful(s: State, o: Oracle)
    requires Ready(s) && Faithful(s, o) && Complete(s)
    ensures var r := UserPart(s, o);
            Faithful(r, o) && Afoot(r) && Early(r) && Onward(s, r)
  {
    hide TaskModel.TaskInv, TimerModel.TimerInv, Invoke, Faithful;
    SoundIsWf(s, s.now, s.now);
    UserTurnFaithful(s, o, ProcessUser);
    var s1 := Invoke(s, o, ProcessUser, USER).0;
    SoundIsWf(s1, s.now, s.now);
    UserTurnFaithful(s1, o, Releases);
  }

  /** Moving holders and nodes about, and the tick, are not on record. */
  lemma FaithfulAlike(s: State, o: Oracle, r: State)
    requires Faithful(s, o) && SameRecord(s, r) && r.tasks.log == s.tasks.log && r.timers.log == s.timers.log
    ensures Faithful(r, o)
  {
    hide Told;
    ToldAlike(s, o, r);
  }

  lemma DoLaterFaithful(s: State, o: Oracle)
    requires Idle(s) && !s.late && !s.draining && Unseen(s) && Faithful(s, o) && Afoot(s) && Early(s)
    ensures var r := DoLater(s, o);
            Faithful(r, o) && Afoot(r) && Onward(s, r)
  {
    hide TaskModel.TaskInv, TimerModel.TimerInv, Faithful, Walk;
    var b := BeginWalk(s);
    FaithfulAlike(s, o, b);
    WalkFaithful(b, o);
    FaithfulAlike(Walk(b, o), o, DoLater(s, o));
  }

  lemma RunTasksFaithful(s: State, o: Oracle)
    requires Idle(s) && s.late && !s.draining && Faithful(s, o) && Afoot(s)
    ensures var r := RunTasks(s, o);
            Faithful(r, o) && Afoot(r) && Onward(s, r)
  {
    hide TaskModel.TaskInv, TimerModel.TimerInv, Faithful, Drain;
    var b := BeginDrain(s);
    FaithfulAlike(s, o, b);
    DrainFaithful(b, o);
  }

  lemma PassFaithful(s: State, o: Oracle)
    requires Ready(s) && Faithful(s, o) && Complete(s)
    ensures var r := Pass(s, o);
            && Faithful(r, o) && Complete(r) && s.trace <= r.trace
            && forall j | |s.trace| <= j < |r.trace| :: r.trace[j].at == s.now
  {
    hide TaskModel.TaskInv, TimerModel.TimerInv, Faithful, UserPart, DoLater, RunTasks;
    ReadyIsUnseen(s);
    UserPartFaithful(s, o);
    var u := UserPart(s, o);
    DoLaterFaithful(u, o);
    var w := DoLater(u, o);
    RunTasksFaithful(w, o);
    var d := RunTasks(w, o);
    OnwardChain(s, u, w);
    OnwardChain(s, w, d);
    FaithfulAlike(d, o, Pass(s, o));
  }

  /** No invocation before the last tick stopped the loop. */
  ghost predicate StopsLate(s: State) {
    forall j | 0 <= j < |s.trace| && s.trace[j].at < s.now - 1 :: !Stops(s.trace[j])
  }

  lemma PassStops(s: State, o: Oracle)
    requires Ready(s) && Faithful(s, o) && Complete(s) && s.run
    ensures StopsLate(Pass(s, o))
  {
    hide TaskModel.TaskInv, TimerModel.TimerInv, Pass, Stops, AsTold;
    PassFaithful(s, o);
  }

  /** A run of passes from s. */
  lemma {:induction false} RunFaithful(s: State, o: Oracle, passes: nat)
    requires Ready(s) && Faithful(s, o) && Complete(s) && StopsLate(s)
    ensures var r := Run(s, o, passes);
            && Faithful(r, o) && Complete(r) && StopsLate(r)
            && r.now <= s.now + passes && (r.run ==> r.now == s.now + passes)
    decreases passes
  {
    hide TaskModel.TaskInv, TimerModel.TimerInv, Faithful, StopsLate, Complete, Ready, Pass;
    if passes > 0 && s.run {
      PassFaithful(s, o);
      PassStops(s, o);
      RunFaithful(Pass(s, o), o, passes - 1);
    }
  }

  lemma AfterFaithful(taskRunners: nat, futureRunners: nat, o: Oracle, passes: nat)
    requires taskRunners > 0 && futureRunners > 0
    ensures var s := LoopTheorems.After(taskRunners, futureRunners, o, passes);
            && Faithful(s, o) && Complete(s) && StopsLate(s) && s.now <= passes && (s.run ==> s.now == passes)
  {
    hide TaskModel.TaskInv, TimerModel.TimerInv, Run;
    BootIsReady(taskRunners, futureRunners);
    RunFaithful(Boot(taskRunners, futureRunners), o, passes);
  }

  // ------------------------------------------------- what the record says of a run

  /** ProcessUser was called once at each tick so far. */
  ghost predicate EveryTick(vs: seq<Visit>, now: nat) {
    var ticks := Flat(vs, UserTick);
    |ticks| == now && forall t | 0 <= t < now :: ticks[t] == t
  }

  lemma {:induction false} ChainTicks(vs: seq<Visit>)
    requires Chained(vs)
    ensures EveryTick(vs, if vs == [] then 0 else vs[|vs| - 1].at + 1)
    decreases |vs|
  {
    hide OfItsMoment;
    if vs != [] {
      var us := vs[..|vs| - 1];
      forall j | 0 < j < |us| ensures Follows(us[j - 1], us[j]) {
        assert us[j - 1] == vs[j - 1] && us[j] == vs[j];
      }
      ChainTicks(us);
      if us != [] {
        assert Follows(vs[|vs| - 2], vs[|vs| - 1]);
      }
    }
  }

  lemma TicksTold(s: State, o: Oracle)
    requires Told(s, o) && Complete(s)
    ensures EveryTick(s.trace, s.now)
  {
    hide EveryTick, AsTold, Happened, Holds, Chained;
    ChainTicks(s.trace);
  }

  /** User code is invoked in the order of the oracle, ProcessUser first and once in each
      pass, then the release callbacks, timers and tasks; every call it makes is
      answered, and just those answered OK are submissions and timers. */
  lemma EveryInvocationOnRecord(taskRunners: nat, futureRunners: nat, o: Oracle, passes: nat)
    requires taskRunners > 0 && futureRunners > 0
    ensures var s := LoopTheorems.After(taskRunners, futureRunners, o, passes);
            Told(s, o) && Complete(s) && EveryTick(s.trace, s.now)
  {
    hide LoopTheorems.After, EveryTick, Ready, Told, Logged, Complete, StopsLate;
    AfterFaithful(taskRunners, futureRunners, o, passes);
    TicksTold(LoopTheorems.After(taskRunners, futureRunners, o, passes), o);
  }

  /** Fewer passes than allowed only if one of the invocations called StopLoop; and
      whichever did was in the last pass. */
  predicate EndsWhenStopped(s: State, passes: nat) {
    && s.now <= passes
    && (s.now < passes ==> exists j :: 0 <= j < |s.trace| && Stops(s.trace[j]))
    && forall j | 0 <= j < |s.trace| && Stops(s.trace[j]) :: s.trace[j].at == s.now - 1
  }

  lemma {:induction false} ChainSorted(vs: seq<Visit>)
    requires Chained(vs)
    ensures forall j | 0 <= j < |vs| :: vs[j].at <= vs[|vs| - 1].at
    decreases |vs|
  {
    hide OfItsMoment;
    if |vs| > 1 {
      var us := vs[..|vs| - 1];
      forall j | 0 < j < |us| ensures Follows(us[j - 1], us[j]) {
        assert us[j - 1] == vs[j - 1] && us[j] == vs[j];
      }
      ChainSorted(us);
      assert Follows(vs[|vs| - 2], vs[|vs| - 1]);
      assert forall j | 0 <= j < |us| :: us[j] == vs[j];
    }
  }

  lemma StopsAtTheEnd(s: State, o: Oracle, passes: nat)
    requires Told(s, o) && Complete(s) && StopsLate(s) && s.now <= passes && (s.run ==> s.now == passes)
    ensures EndsWhenStopped(s, passes)
  {
    hide Stops, AsTold, Happened, Holds, Chained;
    ChainSorted(s.trace);
  }

  /** User_Loop goes on until a pass in which StopLoop is called, and ends after it. */
  lemma RunsUntilStopped(taskRunners: nat, futureRunners: nat, o: Oracle, passes: nat)
    requires taskRunners > 0 && futureRunners > 0
    ensures EndsWhenStopped(LoopTheorems.After(taskRunners, futureRunners, o, passes), passes)
  {
    hide LoopTheorems.After, Ready, Logged, EndsWhenStopped, Complete, StopsLate, Told;
    AfterFaithful(taskRunners, futureRunners, o, passes);
    StopsAtTheEnd(LoopTheorems.After(taskRunners, futureRunners, o, passes), o, passes);
  }

  // ----------------------------------------------------- what became of each call

  /** The number of the submission that call i of visit j made, if it was answered OK. */
  function TaskNo(vs: seq<Visit>, j: nat, i: nat): nat
    requires j < |vs| && i < |vs[j].outs|
  {
    |Flat(vs[..j], Submitted)| + |Flat(vs[j].outs[..i], SubmittedBy(vs[j].at, vs[j].draining))|
  }

  /** The number of the timer that it set. */
  function TimerNo(vs: seq<Visit>, j: nat, i: nat): nat
    requires j < |vs| && i < |vs[j].outs|
  {
    |Flat(vs[..j], Armed)| + |Flat(vs[j].outs[..i], ArmedBy(vs[j].at, vs[j].late))|
  }

  lemma SubmissionOfCall(vs: seq<Visit>, j: nat, i: nat)
    requires j < |vs| && i < |vs[j].outs|
    requires SubmittedBy(vs[j].at, vs[j].draining)(vs[j].outs[i]) != []
    ensures TaskNo(vs, j, i) < |Flat(vs, Submitted)|
    ensures Flat(vs, Submitted)[TaskNo(vs, j, i)] == SubmittedBy(vs[j].at, vs[j].draining)(vs[j].outs[i])[0]
  {
    hide SubmittedBy, Flat;
    var f := SubmittedBy(vs[j].at, vs[j].draining);
    FlatAt(vs[j].outs, i, f);
    FlatNth(vs, j, Submitted, Flat(vs[j].outs[..i], f), f(vs[j].outs[i])[0]);
  }

  lemma BirthOfCall(vs: seq<Visit>, j: nat, i: nat)
    requires j < |vs| && i < |vs[j].outs|
    requires ArmedBy(vs[j].at, vs[j].late)(vs[j].outs[i]) != []
    ensures TimerNo(vs, j, i) < |Flat(vs, Armed)|
    ensures Flat(vs, Armed)[TimerNo(vs, j, i)] == ArmedBy(vs[j].at, vs[j].late)(vs[j].outs[i])[0]
  {
    hide ArmedBy, Flat;
    var f := ArmedBy(vs[j].at, vs[j].late);
    FlatAt(vs[j].outs, i, f);
    FlatNth(vs, j, Armed, Flat(vs[j].outs[..i], f), f(vs[j].outs[i])[0]);
  }

  lemma {:induction false} OfCalled(log: seq<Event>, k: nat)
    requires forall i | 0 <= i < |Of(log, k)| :: Of(log, k)[i].cb.fn != 0
    ensures Of(Flat(log, Called), k) == Of(log, k)
    decreases |log|
  {
    if log != [] {
      var e := log[|log| - 1];
      var before := log[..|log| - 1];
      forall i | 0 <= i < |Of(before, k)| ensures Of(before, k)[i].cb.fn != 0 {
        assert Of(log, k)[i] == Of(before, k)[i];
      }
      OfCalled(before, k);
      OfSnoc(Flat(before, Called), e, k);
      assert e.serial == k ==> Of(log, k)[|Of(before, k)|] == e;
      assert Flat(before, Called) + [] == Flat(before, Called);
    }
  }

  /** These runs, from the drain of tick `first` on, are one in every drain before tick
      now, with callback cb, up to the first answer other than OK. */
  predicate InEveryDrain(f: seq<Event>, cb: Cb, first: nat, now: nat) {
    && (forall i | 0 <= i < |f| :: f[i].at == first + i && f[i].at < now && f[i].cb == cb)
    && (forall i | 0 <= i < |f| - 1 :: f[i].status == OK)
    && (first + |f| == now || (f != [] && f[|f| - 1].status != OK))
  }

  /** One run or firing, at tick due and no other, once that has passed. */
  predicate Just(f: seq<Event>, cb: Cb, due: nat, now: nat) {
    if due < now then |f| == 1 && f[0].at == due && f[0].cb == cb else f == []
  }

  /** Runs as submission b asks for. */
  predicate RanAs(f: seq<Event>, b: TaskModel.Submission, now: nat) {
    var first := if b.late then b.at + 1 else b.at;
    if b.once then Just(f, b.cb, first, now) else InEveryDrain(f, b.cb, first, now)
  }

  /** The runs on record that a call answered OK has led to. */
  ghost predicate RanAsAsked(s: State, j: nat, i: nat)
    requires j < |s.trace| && i < |s.trace[j].outs|
  {
    var v := s.trace[j];
    var runs := Of(Flat(s.trace, TaskRun), TaskNo(s.trace, j, i));
    var first := if v.draining then v.at + 1 else v.at;
    v.outs[i].answer == OK ==>
      match v.outs[i].call
      case RunTask(cb) => InEveryDrain(runs, cb, first, s.now)
      case RunTaskOnce(cb) => Just(runs, cb, first, s.now)
      case _ => true
  }

  lemma HistoryRanAs(t: TaskModel.Tasks, now: nat, k: nat)
    requires TaskModel.Wf(t) && k < |t.subs| && TaskModel.RanAsPromised(t, now, k)
    ensures RanAs(Of(t.log, k), t.subs[k], now)
  {
    var f := Of(t.log, k);
    if f != [] {
      assert f[|f| - 1].at == TaskModel.RestOf(t.subs[k].at, t.subs[k].late) + |f| - 1;
    }
  }

  lemma RunsAreCalls(taskRunners: nat, futureRunners: nat, o: Oracle, passes: nat, k: nat)
    requires taskRunners > 0 && futureRunners > 0
    requires k < |LoopTheorems.After(taskRunners, futureRunners, o, passes).tasks.subs|
    requires LoopTheorems.After(taskRunners, futureRunners, o, passes).tasks.subs[k].cb.fn != 0
    ensures var s := LoopTheorems.After(taskRunners, futureRunners, o, passes);
            RanAs(Of(Flat(s.trace, TaskRun), k), s.tasks.subs[k], s.now)
  {
    hide LoopTheorems.After, Told, Ready, RanAs;
    AfterFaithful(taskRunners, futureRunners, o, passes);
    var s := LoopTheorems.After(taskRunners, futureRunners, o, passes);
    LoopTheorems.TasksRunEveryTick(taskRunners, futureRunners, o, passes, k);
    OfCalled(s.tasks.log, k);
    HistoryRanAs(s.tasks, s.now, k);
  }

  lemma TaskRanAsAsked(s: State, j: nat, i: nat)
    requires j < |s.trace| && i < |s.trace[j].outs|
    requires var b := SubmittedBy(s.trace[j].at, s.trace[j].draining)(s.trace[j].outs[i]);
             b != [] ==> RanAs(Of(Flat(s.trace, TaskRun), TaskNo(s.trace, j, i)), b[0], s.now)
    ensures RanAsAsked(s, j, i)
  {
    hide Flat, Of, InEveryDrain, Just, TaskNo;
  }

  lemma CallIsAnswered(s: State, o: Oracle, j: nat, i: nat)
    requires Faithful(s, o) && j < |s.trace| && i < |s.trace[j].outs|
    ensures Answered(s.trace[j].outs[i])
    ensures s.tasks.subs == Flat(s.trace, Submitted) && s.timers.births == Flat(s.trace, Armed)
  {
    hide Happened, Chained, Logged, Answered;
  }

  /** A task that any invocation hands to Run_Task is called in every drain until its first
      answer other than OK, and one handed to Run_Task_Once in the next drain only. */
  lemma TasksRunAsAsked(taskRunners: nat, futureRunners: nat, o: Oracle, passes: nat, j: nat, i: nat)
    requires taskRunners > 0 && futureRunners > 0
    requires j < |LoopTheorems.After(taskRunners, futureRunners, o, passes).trace|
    requires i < |LoopTheorems.After(taskRunners, futureRunners, o, passes).trace[j].outs|
    ensures RanAsAsked(LoopTheorems.After(taskRunners, futureRunners, o, passes), j, i)
  {
    hide LoopTheorems.After, Chained, Ready, Flat, Complete, Faithful, RanAs, RanAsAsked, TaskNo;
    var s := LoopTheorems.After(taskRunners, futureRunners, o, passes);
    AfterFaithful(taskRunners, futureRunners, o, passes);
    var v := s.trace[j];
    CallIsAnswered(s, o, j, i);
    var b := SubmittedBy(v.at, v.draining)(v.outs[i]);
    if b != [] {
      SubmissionOfCall(s.trace, j, i);
      RunsAreCalls(taskRunners, futureRunners, o, passes, TaskNo(s.trace, j, i));
    }
    TaskRanAsAsked(s, j, i);
  }

  /** These firings are those at start + pace, start + 2*pace and so on before tick now,
      up to the first that is answered Interrupt. */
  predicate OnEveryBeat(f: seq<Event>, cb: Cb, start: nat, pace: nat, now: nat) {
    && (forall i | 0 <= i < |f| :: f[i].at == start + (i + 1) * pace && f[i].at < now && f[i].cb == cb)
    && (forall i | 0 <= i < |f| - 1 :: f[i].status != Interrupt)
    && (start + (|f| + 1) * pace >= now || (f != [] && f[|f| - 1].status == Interrupt))
  }

  /** The firings on record that a call answered OK has led to, its callback not null. */
  ghost predicate FiredAsAsked(s: State, j: nat, i: nat)
    requires j < |s.trace| && i < |s.trace[j].outs|
  {
    var v := s.trace[j];
    var f := Of(Flat(s.trace, TimerRun), TimerNo(s.trace, j, i));
    v.outs[i].answer == OK ==>
      match v.outs[i].call
      case RunLater(cb, d) =>
        cb.fn != 0 ==>
          Just(f, cb, if d < 0x8000_0000 || (d == 0x8000_0000 && v.late) then v.at + d + 1
                      else if v.late then v.at + 1 else v.at, s.now)
      case RunPeriodically(cb, p) =>
        cb.fn != 0 ==>
          if p == 0 then Just(f, cb, v.at + 1, s.now)
          else OnEveryBeat(f, cb, v.at + if p < 0 then 1 else 0, if p < 0 then -p else p + 1, s.now)
      case _ => true
  }

  /** Firings as a timer with birth b promises. */
  predicate FiredAs(f: seq<Event>, b: TimerModel.Birth, now: nat) {
    if b.future != 0 then
      OnEveryBeat(f, b.cb, b.setAt + if b.future < 0 then 1 else 0, if b.future < 0 then -b.future else b.future + 1, now)
    else
      Just(f, b.cb, if b.first < 0x8000_0000 || (b.first == 0x8000_0000 && b.late) then b.setAt + b.first + 1
                    else if b.late then b.setAt + 1 else b.setAt, now)
  }

  lemma HistoryFiredAs(t: TimerModel.Timers, now: nat, k: nat)
    requires k < |t.births|
    requires if t.births[k].future == 0 then TimerModel.FiredOnce(t, now, k) else TimerModel.KeptPace(t, now, k)
    ensures FiredAs(Of(t.log, k), t.births[k], now)
  {
  }

  lemma FiringsAreCalls(taskRunners: nat, futureRunners: nat, o: Oracle, passes: nat, k: nat)
    requires taskRunners > 0 && futureRunners > 0
    requires k < |LoopTheorems.After(taskRunners, futureRunners, o, passes).timers.births|
    requires LoopTheorems.After(taskRunners, futureRunners, o, passes).timers.births[k].cb.fn != 0
    ensures var s := LoopTheorems.After(taskRunners, futureRunners, o, passes);
            FiredAs(Of(Flat(s.trace, TimerRun), k), s.timers.births[k], s.now)
  {
    hide LoopTheorems.After, Told, Ready, TimerModel.FiredOnce, TimerModel.KeptPace, FiredAs;
    AfterFaithful(taskRunners, futureRunners, o, passes);
    var s := LoopTheorems.After(taskRunners, futureRunners, o, passes);
    LoopTheorems.TimersFireOnTime(taskRunners, futureRunners, o, passes, k);
    OfCalled(s.timers.log, k);
    if s.timers.births[k].future == 0 {
      LoopTheorems.OneShotFiresOnce(taskRunners, futureRunners, o, passes, k);
    } else {
      LoopTheorems.PeriodicKeepsPace(taskRunners, futureRunners, o, passes, k);
    }
    HistoryFiredAs(s.timers, s.now, k);
  }

  lemma TimerFiredAsAsked(s: State, j: nat, i: nat)
    requires j < |s.trace| && i < |s.trace[j].outs|
    requires var b := ArmedBy(s.trace[j].at, s.trace[j].late)(s.trace[j].outs[i]);
             b != [] && b[0].cb.fn != 0 ==> FiredAs(Of(Flat(s.trace, TimerRun), TimerNo(s.trace, j, i)), b[0], s.now)
    ensures FiredAsAsked(s, j, i)
  {
    hide Flat, Of, OnEveryBeat, Just, TimerNo;
  }

  /** Run_Later(cb, d) at tick t has cb called at t + d + 1 and at no other tick, for d below
      2^31; Run_Periodically has it called at each beat of its own interval. */
  lemma TimersFireAsAsked(taskRunners: nat, futureRunners: nat, o: Oracle, passes: nat, j: nat, i: nat)
    requires taskRunners > 0 && futureRunners > 0
    requires j < |LoopTheorems.After(taskRunners, futureRunners, o, passes).trace|
    requires i < |LoopTheorems.After(taskRunners, futureRunners, o, passes).trace[j].outs|
    ensures FiredAsAsked(LoopTheorems.After(taskRunners, futureRunners, o, passes), j, i)
  {
    hide LoopTheorems.After, Chained, Ready, Flat, Complete, Faithful, FiredAs, FiredAsAsked, TimerNo;
    var s := LoopTheorems.After(taskRunners, futureRunners, o, passes);
    AfterFaithful(taskRunners, futureRunners, o, passes);
    var v := s.trace[j];
    CallIsAnswered(s, o, j, i);
    var b := ArmedBy(v.at, v.late)(v.outs[i]);
    if b != [] && b[0].cb.fn != 0 {
      BirthOfCall(s.trace, j, i);
      FiringsAreCalls(taskRunners, futureRunners, o, passes, TimerNo(s.trace, j, i));
    }
    TimerFiredAsAsked(s, j, i);
  }

  /** Nobody is called but ProcessUser, the release callbacks, and what was asked for. */
  lemma NobodyElseIsCalled(taskRunners: nat, futureRunners: nat, o: Oracle, passes: nat, j: nat)
    requires taskRunners > 0 && futureRunners > 0
    requires j < |LoopTheorems.After(taskRunners, futureRunners, o, passes).trace|
    ensures var s := LoopTheorems.After(taskRunners, futureRunners, o, passes);
            match s.trace[j].who
            case Task(k) => k < |s.tasks.subs| && s.trace[j].cb == s.tasks.subs[k].cb
            case Timer(k) => k < |s.timers.births| && s.trace[j].cb == s.timers.births[k].cb
            case _ => true
  {
    hide LoopTheorems.After, Chained, Flat, Complete, Told;
    var s := LoopTheorems.After(taskRunners, futureRunners, o, passes);
    AfterFaithful(taskRunners, futureRunners, o, passes);
    FlatHas(s.trace, TaskRun);
    FlatHas(s.trace, TimerRun);
    FlatHas(s.tasks.log, Called);
    FlatHas(s.timers.log, Called);
    assert s.trace[j] in s.trace;
    match s.trace[j].who {
      case Task(k) =>
        var e := TaskRun(s.trace[j])[0];
        assert e in Flat(s.trace, TaskRun);
        TaskModel.LoggedIsSubmitted(s.tasks, s.now, e);
      case Timer(k) =>
        var e := TimerRun(s.trace[j])[0];
        assert e in Flat(s.trace, TimerRun);
        TimerModel.LoggedWasSet(s.timers, s.now, e);
      case _ =>
    }
  }
}
