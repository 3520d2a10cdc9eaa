// What holds of every run of the task and timer loop, whatever user code does.
module LoopTheorems {
  import opened Base
  import opened GenPool
  import opened History
  import opened LoopModel
  import TaskModel
  import TimerModel

  // ------------------------------------------------------------ pools keep size

  lemma {:induction false} DoCallsSize(s: State, cs: seq<UserCall>)
    requires TaskModel.Wf(s.tasks) && TimerModel.Wf(s.timers)
    ensures DoCalls(s, cs).tasks.pool.size == s.tasks.pool.size
    ensures DoCalls(s, cs).timers.pool.size == s.timers.pool.size
    decreases |cs|
  {
    if cs == [] {
    } else {
      DoCallsSize(DoCall(s, cs[0]), cs[1..]);
    }
  }

  predicate SameSize(s: State, r: State) {
    r.tasks.pool.size == s.tasks.pool.size && r.timers.pool.size == s.timers.pool.size
  }

  lemma TimerTurnSize(s: State, o: Oracle)
    requires Walking(s) && s.timers.timeQ != []
    ensures SameSize(s, TimerTurn(s, o))
  {
    hide TaskModel.TaskInv, TimerModel.TimerInv;
    TimerModel.TakeFacts(s.timers, s.now);
    TaskModel.InvBasics(s.tasks, s.now, s.now);
    var s1 := s.(timers := TimerModel.Take(s.timers));
    if TimerModel.Expired(s.timers.node[s.timers.timeQ[0]].time, Tick(s)) {
      FireFacts(s, s.timers.timeQ[0], o);
    }
    hide Walking, TimerModel.Expired;
    DoCallsSize(s1.(calls := s1.calls + 1, said := []), o(s1.calls).calls);
  }

  lemma {:induction false} WalkSize(s: State, o: Oracle)
    requires Walking(s)
    ensures SameSize(s, Walk(s, o))
    decreases |s.timers.timeQ|
  {
    hide TaskModel.TaskInv, TimerModel.TimerInv;
    if s.timers.timeQ == [] {
    } else {
      TimerTurnKeeps(s, o);
      TimerTurnSize(s, o);
      WalkSize(TimerTurn(s, o), o);
    }
  }

  lemma TaskTurnSize(s: State, o: Oracle)
    requires Draining(s) && s.tasks.src != []
    ensures SameSize(s, TaskTurn(s, o))
  {
    hide TaskModel.TaskInv, TimerModel.TimerInv;
    TaskModel.StartFacts(s.tasks, s.now, s.now + 1);
    TimerModel.InvBasics(s.timers, s.now + 1, s.now + 1);
    var s1 := s.(tasks := TaskModel.Start(s.tasks));
    DoCallsSize(s1.(calls := s1.calls + 1, said := []), o(s1.calls).calls);
  }

  lemma {:induction false} DrainSize(s: State, o: Oracle)
    requires Draining(s)
    ensures SameSize(s, Drain(s, o))
    decreases |s.tasks.src|
  {
    hide TaskModel.TaskInv, TimerModel.TimerInv;
    if s.tasks.src == [] {
    } else {
      TaskTurnSize(s, o);
      DrainSize(TaskTurn(s, o), o);
    }
  }

  lemma PassSize(s: State, o: Oracle)
    requires Ready(s)
    ensures SameSize(s, Pass(s, o))
  {
    hide TaskModel.TaskInv, TimerModel.TimerInv;
    SoundIsWf(s, s.now, s.now);
    DoCallsSize(s.(calls := s.calls + 1, said := []), o(s.calls).calls);
    var s1 := Invoke(s, o, ProcessUser, USER).0;
    CallBackKeeps(s, ProcessUser, USER, o, s.now, s.now);
    SoundIsWf(s1, s.now, s.now);
    DoCallsSize(s1.(calls := s1.calls + 1, said := []), o(s1.calls).calls);
    ReadyIsUnseen(s);
    var u := UserPart(s, o);
    WalkSize(BeginWalk(u), o);
    var w := DoLater(u, o);
    DrainSize(BeginDrain(w), o);
  }

  // ---------------------------------------------------------------- every run

  /** The state after at most `passes` passes of User_Loop from power-up. */
  ghost function After(taskRunners: nat, futureRunners: nat, o: Oracle, passes: nat): (s: State)
    requires taskRunners > 0 && futureRunners > 0
    ensures Ready(s)
  {
    BootIsReady(taskRunners, futureRunners);
    Run(Boot(taskRunners, futureRunners), o, passes)
  }

  lemma {:induction false} RunSize(s: State, o: Oracle, passes: nat)
    requires Ready(s)
    ensures SameSize(s, Run(s, o, passes))
    decreases passes
  {
    hide TaskModel.TaskInv, TimerModel.TimerInv, Ready, Pass;
    if passes > 0 && s.run {
      PassSize(s, o);
      RunSize(Pass(s, o), o, passes - 1);
    }
  }

  /** Ownership.  Whatever user code has done, between passes every task holder is
      free or in exactly one place of one queue, every timer node is free or on
      exactly one of the two lists, and neither population exceeds its pool. */
  lemma HoldersAreConserved(taskRunners: nat, futureRunners: nat, o: Oracle, passes: nat)
    requires taskRunners > 0 && futureRunners > 0
    ensures var s := After(taskRunners, futureRunners, o, passes);
            && s.tasks.pool.live <= Cells(taskRunners)
            && s.tasks.src == [] && s.tasks.running == []
            && multiset(s.tasks.dst) == multiset(s.tasks.pool.live) && |s.tasks.dst| <= taskRunners
            && s.timers.pool.live <= Cells(futureRunners)
            && multiset(s.timers.timeQ) + multiset(s.timers.added) == multiset(s.timers.pool.live)
            && |s.timers.timeQ| + |s.timers.added| <= futureRunners
  {
    hide TaskModel.TaskInv, TimerModel.TimerInv, Run;
    var s := After(taskRunners, futureRunners, o, passes);
    BootIsReady(taskRunners, futureRunners);
    RunSize(Boot(taskRunners, futureRunners), o, passes);
    TaskModel.Population(s.tasks, s.now, s.now);
    TimerModel.Population(s.timers, s.now, s.now);
  }

  // ------------------------------------------------------- what has run, and when

  /** The k-th timer ever set has fired as promised: never early, never late, and
      the wrapping of time_tick is invisible. */
  lemma TimersFireOnTime(taskRunners: nat, futureRunners: nat, o: Oracle, passes: nat, k: nat)
    requires taskRunners > 0 && futureRunners > 0
    requires k < |After(taskRunners, futureRunners, o, passes).timers.births|
    ensures var s := After(taskRunners, futureRunners, o, passes);
            TimerModel.Wf(s.timers) && TimerModel.FiredAsPromised(s.timers, s.now, k)
  {
    hide TaskModel.TaskInv, TimerModel.TimerInv, TimerModel.FiredAsPromised, After;
    var s := After(taskRunners, futureRunners, o, passes);
    SoundIsWf(s, s.now, s.now);
    TimerModel.AllFiredAsPromised(s.timers, s.now, k);
  }

  /** Run_Later: one firing, one tick after the delay has passed. */
  lemma OneShotFiresOnce(taskRunners: nat, futureRunners: nat, o: Oracle, passes: nat, k: nat)
    requires taskRunners > 0 && futureRunners > 0
    requires k < |After(taskRunners, futureRunners, o, passes).timers.births|
    requires After(taskRunners, futureRunners, o, passes).timers.births[k].future == 0
    ensures var s := After(taskRunners, futureRunners, o, passes);
            TimerModel.FiredOnce(s.timers, s.now, k)
  {
    TimersFireOnTime(taskRunners, futureRunners, o, passes, k);
    hide After, TimerModel.FiredAsPromised, TimerModel.FiredOnce, Ready;
    var s := After(taskRunners, futureRunners, o, passes);
    TimerModel.OneShotHistory(s.timers, s.now, k);
  }

  /** Run_Periodically: the i-th firing is at t + i*(p+1) for a positive interval p
      and at t + i*p + 1, without drift, for a negative interval -p; none is
      skipped and the first Status_Interrupt is the last. */
  lemma PeriodicKeepsPace(taskRunners: nat, futureRunners: nat, o: Oracle, passes: nat, k: nat)
    requires taskRunners > 0 && futureRunners > 0
    requires k < |After(taskRunners, futureRunners, o, passes).timers.births|
    requires After(taskRunners, futureRunners, o, passes).timers.births[k].future != 0
    ensures var s := After(taskRunners, futureRunners, o, passes);
            TimerModel.KeptPace(s.timers, s.now, k)
  {
    TimersFireOnTime(taskRunners, futureRunners, o, passes, k);
    hide After, TimerModel.FiredAsPromised, TimerModel.KeptPace, Ready;
    var s := After(taskRunners, futureRunners, o, passes);
    TimerModel.PeriodicHistory(s.timers, s.now, k);
  }

  /** The k-th task ever submitted has run in every drain since, one a tick, until
      it answered other than OK (or just once, if so submitted). */
  lemma TasksRunEveryTick(taskRunners: nat, futureRunners: nat, o: Oracle, passes: nat, k: nat)
    requires taskRunners > 0 && futureRunners > 0
    requires k < |After(taskRunners, futureRunners, o, passes).tasks.subs|
    ensures var s := After(taskRunners, futureRunners, o, passes);
            TaskModel.Wf(s.tasks) && TaskModel.RanAsPromised(s.tasks, s.now, k)
  {
    hide TaskModel.TaskInv, TimerModel.TimerInv, TaskModel.RanAsPromised, After;
    var s := After(taskRunners, futureRunners, o, passes);
    SoundIsWf(s, s.now, s.now);
    TaskModel.AllRanAsPromised(s.tasks, s.now, k);
  }

  /** Run_Task_Once: exactly one run, ever, in the drain that follows. */
  lemma OnceRunsOnce(taskRunners: nat, futureRunners: nat, o: Oracle, passes: nat, k: nat)
    requires taskRunners > 0 && futureRunners > 0
    requires k < |After(taskRunners, futureRunners, o, passes).tasks.subs|
    requires After(taskRunners, futureRunners, o, passes).tasks.subs[k].once
    ensures var s := After(taskRunners, futureRunners, o, passes);
            var b := s.tasks.subs[k];
            |Of(s.tasks.log, k)| == if TaskModel.RestOf(b.at, b.late) < s.now then 1 else 0
  {
    TasksRunEveryTick(taskRunners, futureRunners, o, passes, k);
    hide After, TaskModel.RanAsPromised, Ready;
    var s := After(taskRunners, futureRunners, o, passes);
    TaskModel.OnceHistory(s.tasks, s.now, k);
  }

  // -------------------------------------------------------- order within a drain

  lemma CallBackOrder(s: State, who: Who, cb: Cb, o: Oracle, bound: nat)
    requires s.draining && Sound(s, s.now + 1, s.now) && s.late && bound <= |s.tasks.subs|
    ensures TaskModel.Wf(s.tasks) && TimerModel.Wf(s.timers)
    ensures var r := CallBack(s, who, cb, o).0;
            TaskModel.Older(r.tasks.life, r.tasks.dst, bound) == TaskModel.Older(s.tasks.life, s.tasks.dst, bound)
  {
    hide TaskModel.TaskInv, TimerModel.TimerInv;
    SoundIsWf(s, s.now + 1, s.now);
    if cb.fn != 0 {
      TaskModel.CallsAppendYounger(s.tasks, o(s.calls).calls, s.now, s.draining, s.now, bound);
    }
  }

  lemma TaskTurnOrder(s: State, o: Oracle, bound: nat)
    requires Draining(s) && s.tasks.src != [] && bound <= |s.tasks.subs|
    requires s.tasks.src[0] < |s.tasks.life| && s.tasks.life[s.tasks.src[0]].serial < bound
    ensures TaskModel.TurnInOrder(s.tasks, TaskTurn(s, o).tasks, bound)
  {
    hide TaskModel.TaskInv, TimerModel.TimerInv, TaskModel.TurnInOrder, TaskModel.Extends, TimerModel.Extends;
    TaskModel.StartFacts(s.tasks, s.now, s.now + 1);
    TimerModel.InvBasics(s.timers, s.now + 1, s.now + 1);
    var h := s.tasks.src[0];
    var s1 := s.(tasks := TaskModel.Start(s.tasks));
    CallBackKeeps(s1, Task(s.tasks.life[h].serial), s.tasks.cb[h], o, s.now + 1, s.now);
    var (s2, status) := CallBack(s1, Task(s.tasks.life[h].serial), s.tasks.cb[h], o);
    CallBackOrder(s1, Task(s.tasks.life[h].serial), s.tasks.cb[h], o, bound);
    TaskModel.FinishInOrder(s.tasks, s2.tasks, h, status, s.now, bound);
  }

  lemma {:induction false} DrainOrder(s: State, o: Oracle, bound: nat)
    requires Draining(s) && bound <= |s.tasks.subs|
    requires forall h | h in s.tasks.src :: h < |s.tasks.life| && s.tasks.life[h].serial < bound
    ensures var r := Drain(s, o);
            && |r.tasks.log| >= |s.tasks.log| && s.tasks.log == r.tasks.log[..|s.tasks.log|]
            && var ran := r.tasks.log[|s.tasks.log|..];
               && TaskModel.SerialsOf(ran) == TaskModel.Serials(s.tasks.life, s.tasks.src)
               && TaskModel.Older(r.tasks.life, r.tasks.dst, bound) ==
                    TaskModel.Older(s.tasks.life, s.tasks.dst, bound) + TaskModel.Survivors(ran, s.tasks.subs[..bound])
    decreases |s.tasks.src|
  {
    hide TaskModel.TaskInv, TimerModel.TimerInv;
    if s.tasks.src == [] {
      assert s.tasks.log == s.tasks.log[..|s.tasks.log|];
    } else {
      var h := s.tasks.src[0];
      assert h in s.tasks.src;
      TaskTurnOrder(s, o, bound);
      var m := TaskTurn(s, o);
      forall g | g in m.tasks.src ensures g < |m.tasks.life| && m.tasks.life[g].serial < bound {
        assert g in s.tasks.src;
      }
      DrainOrder(m, o, bound);
      TaskModel.OrderStep(s.tasks, m.tasks, Drain(m, o).tasks, bound);
    }
  }

  /** Run_Tasks runs exactly the submissions waiting when it begins, once each and
      in the order they wait; those that are not thereby ended wait again in the
      same order, and whatever is submitted meanwhile is not run. */
  lemma DrainRunsWhatWaited(s: State, o: Oracle)
    requires Idle(s) && s.late && !s.draining
    ensures var r := RunTasks(s, o);
            && |r.tasks.log| >= |s.tasks.log| && s.tasks.log == r.tasks.log[..|s.tasks.log|]
            && var ran := r.tasks.log[|s.tasks.log|..];
               && TaskModel.SerialsOf(ran) == TaskModel.Serials(s.tasks.life, s.tasks.dst)
               && TaskModel.Older(r.tasks.life, r.tasks.dst, |s.tasks.subs|) == TaskModel.Survivors(ran, s.tasks.subs)
  {
    var d := BeginDrain(s);
    TaskModel.RoomInQueues(s.tasks);
    forall h | h in s.tasks.dst ensures h < |s.tasks.life| && s.tasks.life[h].serial < |s.tasks.subs| {
      assert TaskModel.Aimed(s.tasks, h, s.now);
    }
    hide TaskModel.TaskInv, TimerModel.TimerInv;
    DrainOrder(d, o, |s.tasks.subs|);
    assert s.tasks.subs[..|s.tasks.subs|] == s.tasks.subs;
  }
}
