// src/set_run_isr.c: the main loop over the task and the timer half.
module SetRun {
  import opened Base
  import opened LoopModel
  import GenPool
  import TaskModel
  import TimerModel
  import TaskRunner
  import TimerRunner

  class SetRun {
    const tasks: TaskRunner.TaskRunner
    const timers: TimerRunner.TimerRunner
    var systemRun: bool
    var timeTick: nat        // a uint32_t
    var lastTime: nat        // Do_Later's static
    var calls: nat           // invocations of user code so far
    ghost var now: nat       // time_tick, had it not wrapped
    ghost var late: bool
    ghost var draining: bool
    ghost var said: seq<Outcome>
    ghost var trace: seq<Visit>

    ghost function Repr(): set<object> {
      {this} + tasks.Repr() + timers.Repr()
    }

    ghost predicate Apart() {
      tasks.Repr() !! timers.Repr() && this !in tasks.Repr() && this !in timers.Repr()
    }

    /** Neither internal error counter ever leaves zero. */
    ghost predicate Valid()
      reads Repr()
    {
      && Apart() && tasks.Valid() && timers.Valid()
      && timeTick == now % TimerModel.WRAP
      && tasks.internalErrors == 0 && timers.internalErrors == 0
    }

    ghost function View(): State
      reads this, tasks, timers
    {
      State(tasks.m, timers.m, now, lastTime, late, draining, calls, systemRun, said, trace)
    }

    /** Power-up and User_Setup. */
    constructor (taskRunners: nat, futureRunners: nat, header: nat, taskCell: nat, timerCell: nat)
      requires taskRunners > 0 && futureRunners > 0 && header > 0 && header % 4 == 0
      requires taskCell >= 12 && taskCell % 4 == 0 && timerCell >= 12 && timerCell % 4 == 0
      requires GenPool.Offset(header, taskCell, taskRunners - 1) < 0x4_0000
      requires GenPool.Offset(header, timerCell, futureRunners - 1) < 0x4_0000
      ensures Valid() && fresh(Repr()) && View() == Boot(taskRunners, futureRunners)
    {
      hide TaskRunner.TaskRunner.Valid, TimerRunner.TimerRunner.Valid;
      tasks := new TaskRunner.TaskRunner(taskRunners, header, taskCell);
      timers := new TimerRunner.TimerRunner(futureRunners, header, timerCell);
      systemRun, timeTick, lastTime, calls := true, 0, NEVER, 0;
      now, late, draining, said, trace := 0, false, false, [], [];
    }

    method RunTask(cb: Cb, ghost main: nat) returns (st: Status)
      requires Valid() && TaskModel.TaskInv(tasks.m, main, TaskModel.RestOf(now, draining))
      modifies Repr()
      ensures Valid() && TaskModel.Wf(old(tasks.m))
      ensures var r := TaskModel.Submit(old(tasks.m), cb, false, now, draining);
              st == r.1 && View() == old(View()).(tasks := r.0)
    {
      hide TaskModel.TaskInv, TaskModel.HasRoom, TaskRunner.TaskRunner.Valid, TimerRunner.TimerRunner.Valid, TaskModel.Submit;
      TaskModel.InvBasics(tasks.m, main, TaskModel.RestOf(now, draining));
      TaskModel.SubmitHasRoom(tasks.m, main, TaskModel.RestOf(now, draining));
      st := tasks.RunTask(cb, now, draining);
    }

    method RunTaskOnce(cb: Cb, ghost main: nat) returns (st: Status)
      requires Valid() && TaskModel.TaskInv(tasks.m, main, TaskModel.RestOf(now, draining))
      modifies Repr()
      ensures Valid() && TaskModel.Wf(old(tasks.m))
      ensures var r := TaskModel.Submit(old(tasks.m), cb, true, now, draining);
              st == r.1 && View() == old(View()).(tasks := r.0)
    {
      hide TaskModel.TaskInv, TaskModel.HasRoom, TaskRunner.TaskRunner.Valid, TimerRunner.TimerRunner.Valid, TaskModel.Submit;
      TaskModel.InvBasics(tasks.m, main, TaskModel.RestOf(now, draining));
      TaskModel.SubmitHasRoom(tasks.m, main, TaskModel.RestOf(now, draining));
      st := tasks.RunTaskOnce(cb, now, draining);
    }

    method RunLater(cb: Cb, future: nat, ghost main: nat) returns (st: Status)
      requires Valid() && TimerModel.TimerInv(timers.m, main, TimerModel.RestOf(now, late))
      modifies Repr()
      ensures Valid() && TimerModel.Wf(old(timers.m))
      ensures var r := TimerModel.Arm(old(timers.m), cb, future, 0, now, late);
              st == r.1 && View() == old(View()).(timers := r.0)
    {
      hide TimerModel.TimerInv, TimerModel.Unlisted, TaskRunner.TaskRunner.Valid, TimerRunner.TimerRunner.Valid, TimerModel.Arm;
      TimerModel.InvConserves(timers.m, main, TimerModel.RestOf(now, late));
      TimerModel.InvBasics(timers.m, main, TimerModel.RestOf(now, late));
      TimerModel.NewIsUnlisted(timers.m);
      st := timers.RunLater(cb, future, timeTick, now, late);
    }

    method RunPeriodically(cb: Cb, interval: int, ghost main: nat) returns (st: Status)
      requires Valid() && TimerModel.TimerInv(timers.m, main, TimerModel.RestOf(now, late))
      modifies Repr()
      ensures Valid() && TimerModel.Wf(old(timers.m))
      ensures var r := TimerModel.Arm(old(timers.m), cb, TimerModel.Abs(interval), interval, now, late);
              st == r.1 && View() == old(View()).(timers := r.0)
    {
      hide TimerModel.TimerInv, TimerModel.Unlisted, TaskRunner.TaskRunner.Valid, TimerRunner.TimerRunner.Valid, TimerModel.Arm;
      TimerModel.InvConserves(timers.m, main, TimerModel.RestOf(now, late));
      TimerModel.InvBasics(timers.m, main, TimerModel.RestOf(now, late));
      TimerModel.NewIsUnlisted(timers.m);
      st := timers.RunPeriodically(cb, interval, timeTick, now, late);
    }

    /** One public call made by user code. */
    method DoCall(c: UserCall, ghost timerMain: nat, ghost taskMain: nat)
      requires Valid() && Sound(View(), timerMain, taskMain)
      modifies Repr()
      ensures Valid()
      ensures TaskModel.Wf(old(tasks.m)) && TimerModel.Wf(old(timers.m))
      ensures View() == LoopModel.DoCall(old(View()), c)
    {
      hide TaskModel.TaskInv, TimerModel.TimerInv, TaskRunner.TaskRunner.Valid, TimerRunner.TimerRunner.Valid;
      hide TaskModel.Submit, TimerModel.Arm, TaskModel.Wf, TimerModel.Wf;
      SoundIsWf(View(), timerMain, taskMain);
      var st := OK;
      match c {
        case RunTask(cb) => st := RunTask(cb, taskMain);
        case RunTaskOnce(cb) => st := RunTaskOnce(cb, taskMain);
        case RunLater(cb, future) => st := RunLater(cb, future, timerMain);
        case RunPeriodically(cb, interval) => st := RunPeriodically(cb, interval, timerMain);
        case StopLoop => systemRun := false;
      }
      said := said + [Outcome(c, st)];
    }

    /** One invocation of user code. */
    method DoCalls(cs: seq<UserCall>, ghost timerMain: nat, ghost taskMain: nat)
      requires Valid() && Sound(View(), timerMain, taskMain)
      modifies Repr()
      ensures Valid()
      ensures TaskModel.Wf(old(tasks.m)) && TimerModel.Wf(old(timers.m))
      ensures View() == LoopModel.DoCalls(old(View()), cs)
    {
      hide TaskModel.TaskInv, TimerModel.TimerInv;
      hide TaskRunner.TaskRunner.Valid, TimerRunner.TimerRunner.Valid;
      SoundIsWf(View(), timerMain, taskMain);
      var rest := cs;
      while rest != []
        invariant Valid() && Sound(View(), timerMain, taskMain)
        invariant TaskModel.Wf(tasks.m) && TimerModel.Wf(timers.m)
        invariant LoopModel.DoCalls(View(), rest) == LoopModel.DoCalls(old(View()), cs)
        decreases |rest|
      {
        ghost var before := View();
        DoCallsStep(before, rest, timerMain, taskMain);
        DoCall(rest[0], timerMain, taskMain);
        SoundIsWf(View(), timerMain, taskMain);
        rest := rest[1..];
      }
    }

    /** User code gets control: its invocations are numbered. */
    method Enter() returns (k: nat)
      requires Valid()
      modifies this
      ensures Valid() && k == old(calls)
      ensures View() == old(View()).(calls := old(calls) + 1, said := [])
    {
      hide TaskRunner.TaskRunner.Valid, TimerRunner.TimerRunner.Valid;
      k := calls;
      calls := calls + 1;
      said := [];
    }

    /** It returns, and the invocation is on record. */
    ghost method Leave(visits: seq<Visit>)
      requires Valid()
      modifies this
      ensures Valid()
      ensures View() == old(View()).(said := [], trace := visits)
    {
      hide TaskRunner.TaskRunner.Valid, TimerRunner.TimerRunner.Valid;
      said := [];
      trace := visits;
    }

    /** One invocation of user code, as who's callback cb. */
    method Invoke(ghost who: Who, ghost cb: Cb, o: Oracle, ghost timerMain: nat, ghost taskMain: nat) returns (status: Status)
      requires Valid() && Sound(View(), timerMain, taskMain)
      modifies Repr()
      ensures Valid()
      ensures TaskModel.Wf(old(tasks.m)) && TimerModel.Wf(old(timers.m))
      ensures (View(), status) == LoopModel.Invoke(old(View()), o, who, cb)
    {
      hide Sound, LoopModel.DoCalls, TaskModel.Wf, TimerModel.Wf, Valid;
      ghost var s := View();
      SoundIsWf(s, timerMain, taskMain);
      SoundAlike(s, s.calls + 1, [], timerMain, taskMain);
      var k := Enter();
      var b := o(k);
      DoCalls(b.calls, timerMain, taskMain);
      status := b.status;
      Leave(s.trace + [Visit(s.now, s.late, s.draining, who, cb, status, said)]);
    }

    /** Calling a callback, unless it is the null pointer. */
    method CallBack(ghost who: Who, cb: Cb, o: Oracle, ghost timerMain: nat, ghost taskMain: nat) returns (status: Status)
      requires Valid() && Sound(View(), timerMain, taskMain)
      modifies Repr()
      ensures Valid()
      ensures TaskModel.Wf(old(tasks.m)) && TimerModel.Wf(old(timers.m))
      ensures (View(), status) == LoopModel.CallBack(old(View()), who, cb, o)
    {
      hide TaskModel.TaskInv, TimerModel.TimerInv, LoopModel.Invoke;
      hide TaskRunner.TaskRunner.Valid, TimerRunner.TimerRunner.Valid;
      SoundIsWf(View(), timerMain, taskMain);
      status := OK;
      if cb.fn != 0 {
        status := Invoke(who, cb, o, timerMain, taskMain);
      }
    }

    /** ProcessUser, then the release callbacks of ProcessReturnPoolObjects. */
    method UserPart(o: Oracle)
      requires Valid() && Idle(View())
      modifies Repr()
      ensures Valid() && View() == LoopModel.UserPart(old(View()), o)
    {
      hide TaskModel.TaskInv, TimerModel.TimerInv, TaskRunner.TaskRunner.Valid, TimerRunner.TimerRunner.Valid;
      hide LoopModel.DoCalls, TaskModel.Extends, TimerModel.Extends;
      ghost var main := TimerModel.RestOf(now, late);
      ghost var s := View();
      SoundIsWf(s, main, now);
      CallBackKeeps(s, ProcessUser, USER, o, main, now);
      var _ := CallBack(ProcessUser, USER, o, main, now);
      SoundIsWf(View(), main, now);
      var _ := CallBack(Releases, USER, o, main, now);
    }

    /** What its answer does to the timer just called. */
    method Release(h: nat, status: Status)
      requires Valid() && timers.m.current == [h] && h < |timers.m.node| && h < |timers.m.life|
      requires timers.m.life[h].serial < |timers.m.births|
      requires TimerModel.Wf(timers.m) && ReadyToGiveBack(TimerModel.Judge(timers.m, status), h)
      modifies Repr()
      ensures Valid()
      ensures View() == old(View()).(timers := TimerModel.GiveBack(TimerModel.Judge(old(timers.m), status), status, now))
    {
      hide TaskModel.TaskInv, TimerModel.TimerInv, TaskRunner.TaskRunner.Valid, TimerRunner.TimerRunner.Valid;
      hide TimerModel.GiveBack;
      timers.Judge(h, status);
      timers.GiveBack(h, status, timeTick, now);
    }

    /** The popped node h, past its deadline, is called back and released. */
    method Fire(h: nat, o: Oracle, ghost s: State)
      requires Valid() && Walking(s) && s.timers.timeQ != [] && h == s.timers.timeQ[0]
      requires TaskModel.Wf(s.tasks) && TimerModel.Wf(s.timers) && h < s.timers.pool.size
      requires TimerModel.Expired(s.timers.node[h].time, Tick(s))
      requires View() == s.(timers := TimerModel.Take(s.timers))
      modifies Repr()
      ensures Valid() && View() == LoopModel.Fire(s, h, o)
    {
      hide TaskModel.TaskInv, TimerModel.TimerInv, TaskRunner.TaskRunner.Valid, TimerRunner.TimerRunner.Valid;
      hide LoopModel.CallBack, TaskModel.Extends, TimerModel.Extends, TaskModel.Wf, TimerModel.Expired, TimerModel.GiveBack;
      FireFacts(s, h, o);
      TimerModel.TakeFacts(s.timers, now);
      var n := timers.Read(h);
      var status := CallBack(Timer(s.timers.life[h].serial), n.cb, o, now, now);
      assert (View(), status) == CalledBack(s, h, o);
      Release(h, status);
    }

    /** The popped node h is walked past, its deadline still ahead. */
    method Pass(h: nat, ghost s: State)
      requires Valid() && Walking(s) && s.timers.timeQ != [] && h == s.timers.timeQ[0]
      requires View() == s.(timers := TimerModel.Take(s.timers))
      modifies Repr()
      ensures Valid() && View() == s.(timers := TimerModel.Keep(TimerModel.Take(s.timers)))
    {
      hide TaskModel.TaskInv, TimerModel.TimerInv, TaskRunner.TaskRunner.Valid, TimerRunner.TimerRunner.Valid;
      TimerModel.TakeFacts(s.timers, now);
      TimerModel.WalkFacts(timers.m, h, now);
      timers.Keep(h);
    }

    /** One node of the timer walk. */
    method TimerTurn(o: Oracle)
      requires Valid() && Walking(View()) && timers.m.timeQ != []
      modifies Repr()
      ensures Valid() && View() == LoopModel.TimerTurn(old(View()), o)
    {
      hide TaskModel.TaskInv, TimerModel.TimerInv, TaskRunner.TaskRunner.Valid, TimerRunner.TimerRunner.Valid;
      hide LoopModel.Fire, LoopModel.CallBack, TimerModel.Keep, TaskModel.Wf;
      ghost var s := View();
      TimerModel.TakeFacts(timers.m, now);
      TaskModel.InvBasics(tasks.m, now, now);
      var h := timers.Pop();
      var n := timers.Read(h);
      if (n.time - timeTick) % TimerModel.WRAP >= TimerModel.HALF {
        Fire(h, o, s);
      } else {
        Pass(h, s);
      }
    }

    method BeginWalk()
      requires Valid() && Idle(View()) && !late && !draining
      modifies Repr()
      ensures Valid() && View() == LoopModel.BeginWalk(old(View()))
    {
      hide TaskModel.TaskInv, TimerModel.TimerInv, TaskRunner.TaskRunner.Valid, TimerRunner.TimerRunner.Valid, TimerModel.Unshared;
      TimerModel.InvConserves(timers.m, now, now);
      TimerModel.ConservedIsUnshared(timers.m);
      lastTime := timeTick;
      timers.Splice();
      late := true;
    }

    /** The whole main stack is walked: callbacks arm new timers meanwhile, but never on this list. */
    method WalkAll(o: Oracle)
      requires Valid() && Walking(View())
      modifies Repr()
      ensures Valid() && View() == Walk(old(View()), o)
    {
      hide TaskModel.TaskInv, TimerModel.TimerInv, TaskRunner.TaskRunner.Valid, TimerRunner.TimerRunner.Valid;
      hide LoopModel.TimerTurn, Sound;
      var more := timers.HasMore();
      while more
        invariant Valid() && Walking(View()) && Walk(View(), o) == Walk(old(View()), o)
        invariant more <==> timers.m.timeQ != []
        decreases |timers.m.timeQ|
      {
        TimerTurnKeeps(View(), o);
        TimerTurn(o);
        more := timers.HasMore();
      }
    }

    /** Do_Later */
    method DoLater(o: Oracle)
      requires Valid() && Idle(View()) && !late && !draining
      modifies Repr()
      ensures Valid() && View() == LoopModel.DoLater(old(View()), o)
    {
      hide TaskModel.TaskInv, TimerModel.TimerInv, TaskRunner.TaskRunner.Valid, TimerRunner.TimerRunner.Valid;
      hide Walk, LoopModel.BeginWalk, Sound;
      if timeTick != lastTime {
        BeginWalk();
        WalkAll(o);
        timers.Settle();
      }
    }

    /** taskQ_get and, if it delivers, everything done to the task. */
    method TaskTurn(o: Oracle) returns (more: bool)
      requires Valid() && Draining(View())
      modifies Repr()
      ensures Valid() && more == (old(tasks.m.src) != [])
      ensures if more then View() == LoopModel.TaskTurn(old(View()), o) else View() == old(View())
    {
      hide TaskModel.TaskInv, TimerModel.TimerInv, TaskRunner.TaskRunner.Valid, TimerRunner.TimerRunner.Valid;
      hide LoopModel.TaskTurn;
      ghost var s := View();
      var st, task := tasks.Take();
      more := st == OK;
      if more {
        RunTaken(task, o, s);
      }
    }

    /** Run_Tasks */
    method RunTasks(o: Oracle)
      requires Valid() && Idle(View()) && late && !draining
      modifies Repr()
      ensures Valid() && View() == LoopModel.RunTasks(old(View()), o)
    {
      hide TaskModel.TaskInv, TimerModel.TimerInv, TaskRunner.TaskRunner.Valid, TimerRunner.TimerRunner.Valid;
      hide LoopModel.TaskTurn;
      ghost var s := View();
      tasks.Flip();
      draining := true;
      assert View() == BeginDrain(s);
      var more := true;
      while more
        invariant Valid() && Draining(View()) && Drain(View(), o) == Drain(BeginDrain(s), o)
        invariant !more ==> tasks.m.src == []
        decreases |tasks.m.src|, more
      {
        more := TaskTurn(o);
      }
    }

    /** The taken task is run and given back. */
    method RunTaken(task: nat, o: Oracle, ghost s: State)
      requires Valid() && Draining(s) && s.tasks.src != [] && task == s.tasks.src[0]
      requires View() == s.(tasks := TaskModel.Start(s.tasks))
      modifies Repr()
      ensures Valid() && View() == LoopModel.TaskTurn(s, o)
    {
      hide TaskModel.TaskInv, TimerModel.TimerInv, TaskRunner.TaskRunner.Valid, TimerRunner.TimerRunner.Valid;
      hide LoopModel.CallBack, TaskModel.Extends, TimerModel.Extends, TimerModel.Wf, TaskModel.GiveBack;
      TaskTurnFacts(s, o);
      TaskModel.StartFacts(s.tasks, now, now + 1);
      var cb := tasks.Read(task);
      var status := CallBack(Task(s.tasks.life[task].serial), cb, o, now + 1, now);
      assert (View(), status) == CalledTask(s, task, o);
      tasks.Judge(task, status);
      tasks.GiveBack(task, status, now);
    }

    /** The tick advances. */
    method Advance()
      requires Valid() && Idle(View()) && late && draining && lastTime == Tick(View())
      modifies this
      ensures Valid() && View() == LoopModel.Advance(old(View()))
    {
      hide TaskModel.TaskInv, TimerModel.TimerInv, TaskRunner.TaskRunner.Valid, TimerRunner.TimerRunner.Valid;
      timeTick := (timeTick + 1) % TimerModel.WRAP;
      now, late, draining := now + 1, false, false;
    }

    /** One pass of User_Loop; the order is intentional. */
    method OnePass(o: Oracle)
      requires Valid() && Ready(View())
      modifies Repr()
      ensures Valid() && View() == LoopModel.Pass(old(View()), o)
    {
      hide TaskModel.TaskInv, TimerModel.TimerInv, TaskRunner.TaskRunner.Valid, TimerRunner.TimerRunner.Valid;
      hide Idle, Sound, LoopModel.DoLater, LoopModel.RunTasks, LoopModel.UserPart, LoopModel.Advance;
      ReadyIsUnseen(View());
      UserPart(o);
      DoLater(o);
      RunTasks(o);
      Advance();
    }

    /** User_Loop, for at most `passes` passes. */
    method UserLoop(o: Oracle, passes: nat)
      requires Valid() && Ready(View())
      modifies Repr()
      ensures Valid() && View() == Run(old(View()), o, passes)
      ensures tasks.internalErrors == 0 && timers.internalErrors == 0
    {
      hide TaskModel.TaskInv, TimerModel.TimerInv, TaskRunner.TaskRunner.Valid, TimerRunner.TimerRunner.Valid;
      hide Idle, Sound, LoopModel.DoLater, LoopModel.RunTasks, LoopModel.UserPart, LoopModel.Pass;
      var left := passes;
      while systemRun && left > 0
        invariant Valid() && Ready(View()) && Run(View(), o, left) == Run(old(View()), o, passes)
        decreases left
      {
        OnePass(o);
        left := left - 1;
      }
    }
  }
}
