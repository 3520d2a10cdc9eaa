// src/set_run_isr.c as a whole, as a value: tasks, timers, the tick, and user
// code given by an oracle.  SetRun.dfy proves the code against these functions;
// LoopTheorems.dfy draws the conclusions over whole runs.
module LoopModel {
  import opened Base
  import opened GenPool
  import TaskModel
  import TimerModel

  const USER: Cb := Cb(1, 0)   // ProcessUser and the release callbacks, as callbacks

  const NEVER: nat := 0xffff   // Do_Later's last_time before its first walk

  /** A call of user code and what it was answered. */
  datatype Outcome = Outcome(call: UserCall, answer: Status)

  /** Whose callback user code is called as. */
  datatype Who = ProcessUser | Releases | Timer(serial: nat) | Task(serial: nat)

  /** One invocation of user code: when, as whose callback, what it answered, and the
      outcomes of its calls in order. */
  datatype Visit = Visit(at: nat, late: bool, draining: bool, who: Who, cb: Cb, status: Status, outs: seq<Outcome>)

  /** now counts ticks without wrapping (time_tick is now modulo 2^32); late and
      draining say that this tick's timer walk and task drain have begun; calls
      counts the invocations of user code; run is system_run; said has the outcomes of
      the invocation in progress, and trace all invocations that are over. */
  datatype State = State(
    tasks: TaskModel.Tasks, timers: TimerModel.Timers,
    now: nat, lastTime: nat, late: bool, draining: bool, calls: nat, run: bool,
    said: seq<Outcome>, trace: seq<Visit>)

  function Tick(s: State): nat {
    s.now % TimerModel.WRAP
  }

  function Boot(taskRunners: nat, futureRunners: nat): State {
    State(TaskModel.Fresh(taskRunners), TimerModel.Fresh(futureRunners), 0, NEVER, false, false, 0, true, [], [])
  }

  // ---------------------------------------------------------------- invariant

  /** The main timer stack is next walked, and the draining task queue run, at
      these ticks. */
  ghost predicate Sound(s: State, timerMain: nat, taskMain: nat) {
    && TaskModel.TaskInv(s.tasks, taskMain, TaskModel.RestOf(s.now, s.draining))
    && TimerModel.TimerInv(s.timers, timerMain, TimerModel.RestOf(s.now, s.late))
  }

  /** No walk or drain is in progress; only one task queue is in use. */
  ghost predicate Idle(s: State) {
    && Sound(s, TimerModel.RestOf(s.now, s.late), s.now)
    && s.tasks.running == [] && s.tasks.src == []
    && s.timers.current == [] && s.timers.kept == []
  }

  /** Between two turns of the timer walk. */
  ghost predicate Walking(s: State) {
    && s.late && !s.draining && Sound(s, s.now, s.now)
    && s.tasks.running == [] && s.tasks.src == [] && s.timers.current == []
  }

  /** Between two turns of the task drain. */
  ghost predicate Draining(s: State) {
    && s.late && s.draining && Sound(s, s.now + 1, s.now)
    && s.tasks.running == [] && s.timers.current == [] && s.timers.kept == []
  }

  /** Do_Later has not yet seen this tick. */
  ghost predicate Unseen(s: State) {
    !s.late && s.lastTime != Tick(s)
  }

  /** The state in which every pass of User_Loop begins. */
  ghost predicate Ready(s: State) {
    Idle(s) && !s.late && !s.draining && s.lastTime == if s.now == 0 then NEVER else (s.now - 1) % TimerModel.WRAP
  }

  lemma ReadyIsUnseen(s: State)
    requires Ready(s)
    ensures Unseen(s)
  {
    if s.now > 0 {
      assert (s.now - 1) % TimerModel.WRAP != s.now % TimerModel.WRAP;
    }
  }

  lemma BootIsReady(taskRunners: nat, futureRunners: nat)
    requires taskRunners > 0 && futureRunners > 0
    ensures Ready(Boot(taskRunners, futureRunners))
  {
    TaskModel.FreshInv(taskRunners, 0, 0);
    TimerModel.FreshInv(futureRunners, 0, 0);
  }

  // ---------------------------------------------------------------- user code

  ghost function Answer(s: State, c: UserCall): Status
    requires TaskModel.Wf(s.tasks) && TimerModel.Wf(s.timers)
  {
    match c
    case RunTask(cb) => TaskModel.Submit(s.tasks, cb, false, s.now, s.draining).1
    case RunTaskOnce(cb) => TaskModel.Submit(s.tasks, cb, true, s.now, s.draining).1
    case RunLater(cb, future) => TimerModel.Arm(s.timers, cb, future, 0, s.now, s.late).1
    case RunPeriodically(cb, interval) => TimerModel.Arm(s.timers, cb, TimerModel.Abs(interval), interval, s.now, s.late).1
    case StopLoop => OK
  }

  ghost function DoCall(s: State, c: UserCall): (r: State)
    requires TaskModel.Wf(s.tasks) && TimerModel.Wf(s.timers)
    ensures TaskModel.Wf(r.tasks) && TimerModel.Wf(r.timers)
  {
    s.(tasks := TaskModel.OnCall(s.tasks, c, s.now, s.draining),
       timers := TimerModel.OnCall(s.timers, c, s.now, s.late),
       run := s.run && c != StopLoop,
       said := s.said + [Outcome(c, Answer(s, c))])
  }

  ghost function Outcomes(s: State, cs: seq<UserCall>): seq<Outcome>
    requires TaskModel.Wf(s.tasks) && TimerModel.Wf(s.timers)
    decreases |cs|
  {
    if cs == [] then [] else [Outcome(cs[0], Answer(s, cs[0]))] + Outcomes(DoCall(s, cs[0]), cs[1..])
  }

  ghost function DoCalls(s: State, cs: seq<UserCall>): State
    requires TaskModel.Wf(s.tasks) && TimerModel.Wf(s.timers)
  {
    s.(tasks := TaskModel.OnCalls(s.tasks, cs, s.now, s.draining),
       timers := TimerModel.OnCalls(s.timers, cs, s.now, s.late),
       run := s.run && StopLoop !in cs,
       said := s.said + Outcomes(s, cs))
  }

  lemma DoCallsKeep(s: State, cs: seq<UserCall>, timerMain: nat, taskMain: nat)
    requires Sound(s, timerMain, taskMain)
    ensures var r := DoCalls(s, cs);
            && Sound(r, timerMain, taskMain) && r.now == s.now && r.lastTime == s.lastTime
            && r.late == s.late && r.draining == s.draining
            && TaskModel.Extends(s.tasks, r.tasks) && TimerModel.Extends(s.timers, r.timers)
            && r.tasks.src == s.tasks.src && r.tasks.running == s.tasks.running
            && r.timers.current == s.timers.current && r.timers.kept == s.timers.kept && r.timers.timeQ == s.timers.timeQ
  {
    hide TaskModel.TaskInv, TimerModel.TimerInv;
    TaskModel.CallsKeep(s.tasks, cs, s.now, s.draining, taskMain);
    TimerModel.CallsKeep(s.timers, cs, s.now, s.late, timerMain);
  }

  /** A sequence of calls is its first call and then the others. */
  lemma DoCallsFirst(s: State, cs: seq<UserCall>)
    requires TaskModel.Wf(s.tasks) && TimerModel.Wf(s.timers) && cs != []
    ensures DoCalls(DoCall(s, cs[0]), cs[1..]) == DoCalls(s, cs)
  {
    hide TaskModel.OnCall, TimerModel.OnCall, Answer;
    assert StopLoop in cs <==> cs[0] == StopLoop || StopLoop in cs[1..];
    assert DoCall(s, cs[0]).said + Outcomes(DoCall(s, cs[0]), cs[1..]) == s.said + Outcomes(s, cs);
  }

  lemma DoCallsStep(s: State, cs: seq<UserCall>, timerMain: nat, taskMain: nat)
    requires Sound(s, timerMain, taskMain) && cs != []
    ensures TaskModel.Wf(s.tasks) && TimerModel.Wf(s.timers)
    ensures var r := DoCall(s, cs[0]);
            Sound(r, timerMain, taskMain) && TaskModel.Wf(r.tasks) && TimerModel.Wf(r.timers) &&
            DoCalls(r, cs[1..]) == DoCalls(s, cs)
  {
    hide TaskModel.TaskInv, TimerModel.TimerInv, TaskModel.Extends, TimerModel.Extends, Answer;
    hide TaskModel.OnCall, TimerModel.OnCall;
    SoundIsWf(s, timerMain, taskMain);
    TaskModel.CallKeeps(s.tasks, cs[0], s.now, s.draining, taskMain);
    TimerModel.CallKeeps(s.timers, cs[0], s.now, s.late, timerMain);
    DoCallsFirst(s, cs);
  }

  /** One invocation of user code, as who's callback cb. */
  ghost function Invoke(s: State, o: Oracle, who: Who, cb: Cb): (State, Status)
    requires TaskModel.Wf(s.tasks) && TimerModel.Wf(s.timers)
  {
    var b := o(s.calls);
    var r := DoCalls(s.(calls := s.calls + 1, said := []), b.calls);
    (r.(said := [], trace := s.trace + [Visit(s.now, s.late, s.draining, who, cb, b.status, r.said)]), b.status)
  }

  /** Calling a callback that may be the null pointer. */
  ghost function CallBack(s: State, who: Who, cb: Cb, o: Oracle): (State, Status)
    requires TaskModel.Wf(s.tasks) && TimerModel.Wf(s.timers)
  {
    if cb.fn != 0 then Invoke(s, o, who, cb) else (s, OK)
  }

  lemma SoundAlike(s: State, calls: nat, said: seq<Outcome>, timerMain: nat, taskMain: nat)
    requires Sound(s, timerMain, taskMain)
    ensures Sound(s.(calls := calls, said := said), timerMain, taskMain)
  {
  }

  lemma NoCallsKeep(s: State, timerMain: nat, taskMain: nat)
    requires Sound(s, timerMain, taskMain)
    ensures TaskModel.Wf(s.tasks) && TimerModel.Wf(s.timers)
    ensures TaskModel.Extends(s.tasks, s.tasks) && TimerModel.Extends(s.timers, s.timers)
  {
    hide TaskModel.Extends, TimerModel.Extends;
    SoundIsWf(s, timerMain, taskMain);
    TaskModel.ExtendsChain(s.tasks, s.tasks, s.tasks);
    TimerModel.ExtendsChain(s.timers, s.timers, s.timers);
  }

  lemma CallBackKeeps(s: State, who: Who, cb: Cb, o: Oracle, timerMain: nat, taskMain: nat)
    requires Sound(s, timerMain, taskMain)
    ensures var r := CallBack(s, who, cb, o).0;
            && Sound(r, timerMain, taskMain) && r.now == s.now && r.lastTime == s.lastTime
            && r.late == s.late && r.draining == s.draining
            && TaskModel.Extends(s.tasks, r.tasks) && TimerModel.Extends(s.timers, r.timers)
            && r.tasks.src == s.tasks.src && r.tasks.running == s.tasks.running
            && r.timers.current == s.timers.current && r.timers.kept == s.timers.kept && r.timers.timeQ == s.timers.timeQ
  {
    hide TaskModel.TaskInv, TimerModel.TimerInv, TaskModel.Extends, TimerModel.Extends, DoCalls;
    NoCallsKeep(s, timerMain, taskMain);
    DoCallsKeep(s.(calls := s.calls + 1, said := []), o(s.calls).calls, timerMain, taskMain);
  }

  // ----------------------------------------------------------- the timer walk

  /** The state in which node h, just popped, has been called back. */
  ghost function CalledBack(s: State, h: nat, o: Oracle): (State, Status)
    requires TaskModel.Wf(s.tasks) && TimerModel.Wf(s.timers) && s.timers.timeQ != [] && h < s.timers.pool.size
  {
    CallBack(s.(timers := TimerModel.Take(s.timers)), Timer(s.timers.life[h].serial), s.timers.node[h].cb, o)
  }

  /** What giving back node h relies on. */
  ghost predicate ReadyToGiveBack(t: TimerModel.Timers, h: nat) {
    && h in t.pool.live && h < t.pool.size && TimerModel.Unlisted(t, h)
    && (h in t.pool.hooks ==> t.pool.hooks[h] == Hook(TimerModel.RETRIGGER, h))
  }

  lemma FireFacts(s: State, h: nat, o: Oracle)
    requires Walking(s) && s.timers.timeQ != [] && h == s.timers.timeQ[0]
    requires TaskModel.Wf(s.tasks) && TimerModel.Wf(s.timers) && h < s.timers.pool.size
    requires TimerModel.Expired(s.timers.node[h].time, Tick(s))
    ensures var (s2, status) := CalledBack(s, h, o);
            && s2.timers.current == [h] && h < |s2.timers.node| && h < |s2.timers.life|
            && s2.timers.life[h].serial < |s2.timers.births|
            && TimerModel.Wf(s2.timers) && ReadyToGiveBack(TimerModel.Judge(s2.timers, status), h)
            && var r := s2.(timers := TimerModel.GiveBack(TimerModel.Judge(s2.timers, status), status, s.now));
               Walking(r) && r.timers.timeQ == s.timers.timeQ[1..] && r.now == s.now && r.lastTime == s.lastTime
  {
    hide TaskModel.TaskInv, TimerModel.TimerInv, TaskModel.Extends, TimerModel.Extends, TaskModel.Wf, TimerModel.Expired, DoCalls;
    TimerModel.TakeFacts(s.timers, s.now);
    var s1 := s.(timers := TimerModel.Take(s.timers));
    CallBackKeeps(s1, Timer(s.timers.life[h].serial), s.timers.node[h].cb, o, s.now, s.now);
    var (s2, status) := CalledBack(s, h, o);
    assert (s2, status) == CallBack(s1, Timer(s.timers.life[h].serial), s.timers.node[h].cb, o);
    TimerModel.InvBasics(s2.timers, s.now, s.now + 1);
    TimerModel.FinishKeeps(s1.timers, s2.timers, h, status, s.now);
  }

  /** The popped node h, past its deadline, fires. */
  ghost function Fire(s: State, h: nat, o: Oracle): (r: State)
    requires Walking(s) && s.timers.timeQ != [] && h == s.timers.timeQ[0]
    requires TaskModel.Wf(s.tasks) && TimerModel.Wf(s.timers) && h < s.timers.pool.size
    requires TimerModel.Expired(s.timers.node[h].time, Tick(s))
    ensures Walking(r) && r.timers.timeQ == s.timers.timeQ[1..] && r.now == s.now && r.lastTime == s.lastTime
  {
    hide TaskModel.TaskInv, TimerModel.TimerInv, TaskModel.Extends, TimerModel.Extends, CallBack, TimerModel.Expired;
    FireFacts(s, h, o);
    var (s2, status) := CalledBack(s, h, o);
    s2.(timers := TimerModel.GiveBack(TimerModel.Judge(s2.timers, status), status, s.now))
  }

  /** The node popped in this turn fires if its deadline has passed. */
  ghost function TimerTurn(s: State, o: Oracle): State
    requires Walking(s) && s.timers.timeQ != []
  {
    hide TaskModel.TaskInv, TimerModel.TimerInv;
    TimerModel.TakeFacts(s.timers, s.now);
    TaskModel.InvBasics(s.tasks, s.now, s.now);
    var h := s.timers.timeQ[0];
    if TimerModel.Expired(s.timers.node[h].time, Tick(s)) then Fire(s, h, o)
    else s.(timers := TimerModel.Keep(TimerModel.Take(s.timers)))
  }

  lemma TimerTurnKeeps(s: State, o: Oracle)
    requires Walking(s) && s.timers.timeQ != []
    ensures var r := TimerTurn(s, o);
            Walking(r) && r.timers.timeQ == s.timers.timeQ[1..] && r.now == s.now && r.lastTime == s.lastTime
  {
    hide TaskModel.TaskInv, TimerModel.TimerInv;
    TimerModel.TakeFacts(s.timers, s.now);
    var h := s.timers.timeQ[0];
    TaskModel.InvBasics(s.tasks, s.now, s.now);
    if !TimerModel.Expired(s.timers.node[h].time, Tick(s)) {
      TimerModel.KeepKeeps(TimerModel.Take(s.timers), s.now);
    }
  }

  ghost function Walk(s: State, o: Oracle): (r: State)
    requires Walking(s)
    ensures Walking(r) && r.timers.timeQ == [] && r.now == s.now && r.lastTime == s.lastTime
    decreases |s.timers.timeQ|
  {
    hide TaskModel.TaskInv, TimerModel.TimerInv, TaskModel.Extends, TimerModel.Extends;
    if s.timers.timeQ == [] then s
    else
      TimerTurnKeeps(s, o);
      Walk(TimerTurn(s, o), o)
  }

  ghost function BeginWalk(s: State): (r: State)
    requires Idle(s) && !s.late && !s.draining
    ensures Walking(r)
  {
    hide TaskModel.TaskInv, TimerModel.TimerInv, TaskModel.Extends, TimerModel.Extends;
    TimerModel.SpliceKeeps(s.timers, s.now);
    s.(lastTime := Tick(s), late := true, timers := TimerModel.Splice(s.timers))
  }

  /** Do_Later */
  ghost function DoLater(s: State, o: Oracle): (r: State)
    requires Idle(s) && !s.late && !s.draining
    ensures Unseen(s) ==> Idle(r) && r.late && !r.draining && r.now == s.now && r.lastTime == Tick(s)
  {
    hide TaskModel.TaskInv, TimerModel.TimerInv, TaskModel.Extends, TimerModel.Extends;
    if s.lastTime != Tick(s) then
      var w := Walk(BeginWalk(s), o);
      TimerModel.SettleKeeps(w.timers, w.now, w.now + 1);
      w.(timers := TimerModel.Settle(w.timers))
    else s
  }

  // ----------------------------------------------------------- the task drain

  /** The state in which holder h, just taken, has been run. */
  ghost function CalledTask(s: State, h: nat, o: Oracle): (State, Status)
    requires TaskModel.Wf(s.tasks) && TimerModel.Wf(s.timers) && s.tasks.src != [] && h < s.tasks.pool.size
  {
    CallBack(s.(tasks := TaskModel.Start(s.tasks)), Task(s.tasks.life[h].serial), s.tasks.cb[h], o)
  }

  /** What giving back holder h relies on. */
  ghost predicate ReadyToRelease(t: TaskModel.Tasks, h: nat) {
    && t.running == [h] && h in t.pool.live && h < t.pool.size && |t.dst| < t.pool.size
    && (h in t.pool.hooks ==> t.pool.hooks[h] == Hook(TaskModel.REQUEUE, h))
  }

  lemma TaskTurnFacts(s: State, o: Oracle)
    requires Draining(s) && s.tasks.src != []
    ensures var h := s.tasks.src[0];
            && TaskModel.Wf(s.tasks) && TimerModel.Wf(s.timers) && h < s.tasks.pool.size
            && var (s2, status) := CalledTask(s, h, o);
               && TaskModel.Wf(s2.tasks) && s2.tasks.running == [h] && h < s2.tasks.pool.size
               && ReadyToRelease(TaskModel.Judge(s2.tasks, status), h)
               && var r := s2.(tasks := TaskModel.GiveBack(TaskModel.Judge(s2.tasks, status), status, s.now));
                  Draining(r) && r.tasks.src == s.tasks.src[1..] && r.now == s.now && r.lastTime == s.lastTime
  {
    hide TaskModel.TaskInv, TimerModel.TimerInv, TaskModel.Extends, TimerModel.Extends, TimerModel.Wf, DoCalls;
    TaskModel.StartFacts(s.tasks, s.now, s.now + 1);
    TimerModel.InvBasics(s.timers, s.now + 1, s.now + 1);
    var h := s.tasks.src[0];
    var s1 := s.(tasks := TaskModel.Start(s.tasks));
    CallBackKeeps(s1, Task(s.tasks.life[h].serial), s.tasks.cb[h], o, s.now + 1, s.now);
    var (s2, status) := CalledTask(s, h, o);
    assert (s2, status) == CallBack(s1, Task(s.tasks.life[h].serial), s.tasks.cb[h], o);
    TaskModel.InvBasics(s2.tasks, s.now, s.now + 1);
    TaskModel.FinishKeeps(s1.tasks, s2.tasks, h, status, s.now);
  }

  /** The next waiting task is run and given back. */
  ghost function TaskTurn(s: State, o: Oracle): (r: State)
    requires Draining(s) && s.tasks.src != []
    ensures Draining(r) && r.now == s.now && r.lastTime == s.lastTime && r.tasks.src == s.tasks.src[1..]
  {
    hide TaskModel.TaskInv, TimerModel.TimerInv, TaskModel.Extends, TimerModel.Extends, CallBack;
    TaskTurnFacts(s, o);
    var (s2, status) := CalledTask(s, s.tasks.src[0], o);
    s2.(tasks := TaskModel.GiveBack(TaskModel.Judge(s2.tasks, status), status, s.now))
  }

  ghost function Drain(s: State, o: Oracle): (r: State)
    requires Draining(s)
    ensures Draining(r) && r.tasks.src == [] && r.now == s.now && r.lastTime == s.lastTime
    decreases |s.tasks.src|
  {
    hide TaskModel.TaskInv, TimerModel.TimerInv, TaskModel.Extends, TimerModel.Extends;
    if s.tasks.src == [] then s
    else
      Drain(TaskTurn(s, o), o)
  }

  ghost function BeginDrain(s: State): (r: State)
    requires Idle(s) && s.late && !s.draining
    ensures Draining(r)
  {
    hide TaskModel.TaskInv, TimerModel.TimerInv, TaskModel.Extends, TimerModel.Extends;
    TaskModel.FlipKeeps(s.tasks, s.now);
    s.(tasks := TaskModel.Flip(s.tasks), draining := true)
  }

  /** Run_Tasks */
  ghost function RunTasks(s: State, o: Oracle): (r: State)
    requires Idle(s) && s.late && !s.draining
    ensures Idle(r) && r.late && r.draining && r.now == s.now && r.lastTime == s.lastTime
  {
    hide TaskModel.TaskInv, TimerModel.TimerInv, TaskModel.Extends, TimerModel.Extends;
    Drain(BeginDrain(s), o)
  }

  // ------------------------------------------------------------- the main loop

  lemma SoundIsWf(s: State, timerMain: nat, taskMain: nat)
    requires Sound(s, timerMain, taskMain)
    ensures TaskModel.Wf(s.tasks) && TimerModel.Wf(s.timers)
  {
  }

  /** Everything before Do_Later in one pass: ProcessUser, then the release
      callbacks run by ProcessReturnPoolObjects. */
  ghost function UserPart(s: State, o: Oracle): (r: State)
    requires Idle(s)
    ensures Idle(r) && r.now == s.now && r.late == s.late && r.draining == s.draining && r.lastTime == s.lastTime
  {
    hide TaskModel.TaskInv, TimerModel.TimerInv, TaskModel.Extends, TimerModel.Extends;
    var main := TimerModel.RestOf(s.now, s.late);
    SoundIsWf(s, main, s.now);
    CallBackKeeps(s, ProcessUser, USER, o, main, s.now);
    var s1 := Invoke(s, o, ProcessUser, USER).0;
    SoundIsWf(s1, main, s.now);
    CallBackKeeps(s1, Releases, USER, o, main, s.now);
    Invoke(s1, o, Releases, USER).0
  }

  /** The tick advances. */
  ghost function Advance(s: State): (r: State)
    requires Idle(s) && s.late && s.draining && s.lastTime == Tick(s)
    ensures Ready(r) && r.now == s.now + 1
  {
    hide TaskModel.TaskInv, TimerModel.TimerInv, TaskModel.Extends, TimerModel.Extends;
    TaskModel.DrainedKeeps(s.tasks, s.now, s.now + 1, s.now + 1);
    s.(now := s.now + 1, late := false, draining := false)
  }

  ghost function Pass(s: State, o: Oracle): (r: State)
    requires Ready(s)
    ensures Ready(r) && r.now == s.now + 1
  {
    hide TaskModel.TaskInv, TimerModel.TimerInv, TaskModel.Extends, TimerModel.Extends;
    ReadyIsUnseen(s);
    Advance(RunTasks(DoLater(UserPart(s, o), o), o))
  }

  /** User_Loop, for at most `passes` passes. */
  ghost function Run(s: State, o: Oracle, passes: nat): (r: State)
    requires Ready(s)
    ensures Ready(r)
    decreases passes
  {
    hide TaskModel.TaskInv, TimerModel.TimerInv, TaskModel.Extends, TimerModel.Extends;
    if passes == 0 || !s.run then s else Run(Pass(s, o), o, passes - 1)
  }
}
