// Ownership at every moment of a pass of User_Loop, also in the midst of a walk or a
// drain and in the midst of user code.
module LoopMoments {
  import opened Base
  import opened GenPool
  import opened LoopModel
  import LoopTheorems
  import TaskModel
  import TimerModel

  // ------------------------------------------------- when user code gets control

  /** The states of a walk in which a callback is due to be called: its node is off
      the list and in hand. */
  ghost function WalkMoments(s: State, o: Oracle): seq<State>
    requires Walking(s)
    decreases |s.timers.timeQ|
  {
    hide TaskModel.TaskInv, TimerModel.TimerInv;
    if s.timers.timeQ == [] then []
    else
      TimerTurnKeeps(s, o);
      TimerModel.TakeFacts(s.timers, s.now);
      var fires := TimerModel.Expired(s.timers.node[s.timers.timeQ[0]].time, Tick(s));
      (if fires then [s.(timers := TimerModel.Take(s.timers))] else []) + WalkMoments(TimerTurn(s, o), o)
  }

  /** The states of a drain in which a task is due to be called. */
  ghost function DrainMoments(s: State, o: Oracle): seq<State>
    requires Draining(s)
    decreases |s.tasks.src|
  {
    hide TaskModel.TaskInv, TimerModel.TimerInv;
    if s.tasks.src == [] then []
    else
      [s.(tasks := TaskModel.Start(s.tasks))] + DrainMoments(TaskTurn(s, o), o)
  }

  /** ProcessUser and the release callbacks, then the walk, then the drain. */
  ghost function PassMoments(s: State, o: Oracle): seq<State>
    requires Ready(s)
  {
    hide TaskModel.TaskInv, TimerModel.TimerInv;
    SoundIsWf(s, s.now, s.now);
    ReadyIsUnseen(s);
    var u := UserPart(s, o);
    [s, Invoke(s, o, ProcessUser, USER).0] + WalkMoments(BeginWalk(u), o) + DrainMoments(BeginDrain(DoLater(u, o)), o)
  }

  // ------------------------------------------------------- what holds at all of them

  ghost predicate Settled(s: State, m: State) {
    LoopTheorems.SameSize(s, m) && exists timerMain: nat, taskMain: nat :: Sound(m, timerMain, taskMain)
  }

  lemma {:induction false} WalkIsSettled(s: State, o: Oracle)
    requires Walking(s)
    ensures forall m | m in WalkMoments(s, o) :: Settled(s, m)
    decreases |s.timers.timeQ|
  {
    hide TaskModel.TaskInv, TimerModel.TimerInv, TimerTurn;
    if s.timers.timeQ == [] {
    } else {
      TimerTurnKeeps(s, o);
      TimerModel.TakeFacts(s.timers, s.now);
      LoopTheorems.TimerTurnSize(s, o);
      WalkIsSettled(TimerTurn(s, o), o);
      var m := s.(timers := TimerModel.Take(s.timers));
      assert Sound(m, s.now, s.now);
    }
  }

  lemma {:induction false} DrainIsSettled(s: State, o: Oracle)
    requires Draining(s)
    ensures forall m | m in DrainMoments(s, o) :: Settled(s, m)
    decreases |s.tasks.src|
  {
    hide TaskModel.TaskInv, TimerModel.TimerInv, TaskTurn;
    if s.tasks.src == [] {
    } else {
      TaskModel.StartFacts(s.tasks, s.now, s.now + 1);
      LoopTheorems.TaskTurnSize(s, o);
      DrainIsSettled(TaskTurn(s, o), o);
      var m := s.(tasks := TaskModel.Start(s.tasks));
      assert Sound(m, s.now + 1, s.now);
    }
  }

  lemma UserIsSettled(s: State, o: Oracle)
    requires Ready(s)
    ensures TaskModel.Wf(s.tasks) && TimerModel.Wf(s.timers) && Settled(s, s) && Settled(s, Invoke(s, o, ProcessUser, USER).0)
    ensures LoopTheorems.SameSize(s, UserPart(s, o))
  {
    hide TaskModel.TaskInv, TimerModel.TimerInv;
    assert Sound(s, s.now, s.now);
    SoundIsWf(s, s.now, s.now);
    CallBackKeeps(s, ProcessUser, USER, o, s.now, s.now);
    var s1 := Invoke(s, o, ProcessUser, USER).0;
    assert Sound(s1, s.now, s.now);
    SoundIsWf(s1, s.now, s.now);
    LoopTheorems.DoCallsSize(s.(calls := s.calls + 1, said := []), o(s.calls).calls);
    LoopTheorems.DoCallsSize(s1.(calls := s1.calls + 1, said := []), o(s1.calls).calls);
  }

  lemma PassIsSettled(s: State, o: Oracle)
    requires Ready(s)
    ensures forall m | m in PassMoments(s, o) :: Settled(s, m)
  {
    hide TaskModel.TaskInv, TimerModel.TimerInv, UserPart, Invoke, Walk, WalkMoments, DrainMoments;
    UserIsSettled(s, o);
    ReadyIsUnseen(s);
    var u := UserPart(s, o);
    var b := BeginWalk(u);
    WalkIsSettled(b, o);
    LoopTheorems.WalkSize(b, o);
    DrainIsSettled(BeginDrain(DoLater(u, o)), o);
  }

  /** Each task holder is free, in one of the two queues or the one running, and each
      timer node is free, on one of the three lists or the one in hand; in one place
      only, and only once. */
  ghost predicate Parted(s: State, taskRunners: nat, futureRunners: nat) {
    && s.tasks.pool.live <= Cells(taskRunners)
    && multiset(s.tasks.src) + multiset(s.tasks.running) + multiset(s.tasks.dst) == multiset(s.tasks.pool.live)
    && |s.tasks.running| <= 1 && |s.tasks.src| + |s.tasks.running| + |s.tasks.dst| <= taskRunners
    && s.timers.pool.live <= Cells(futureRunners)
    && multiset(s.timers.timeQ) + multiset(s.timers.current) + multiset(s.timers.kept) + multiset(s.timers.added)
       == multiset(s.timers.pool.live)
    && |s.timers.current| <= 1
    && |s.timers.timeQ| + |s.timers.current| + |s.timers.kept| + |s.timers.added| <= futureRunners
  }

  lemma SoundIsParted(s: State, timerMain: nat, taskMain: nat)
    requires Sound(s, timerMain, taskMain)
    ensures Parted(s, s.tasks.pool.size, s.timers.pool.size)
  {
    var rest, later := TaskModel.RestOf(s.now, s.draining), TimerModel.RestOf(s.now, s.late);
    TaskModel.InvBasics(s.tasks, taskMain, rest);
    TaskModel.InvConserves(s.tasks, taskMain, rest);
    TaskModel.RoomInQueues(s.tasks);
    TimerModel.InvBasics(s.timers, timerMain, later);
    TimerModel.InvConserves(s.timers, timerMain, later);
    TimerModel.RoomInLists(s.timers);
    hide TaskModel.TaskInv, TimerModel.TimerInv;
  }

  /** Ownership at all times.  After any number of passes, whenever user code is about
      to get control in the pass that follows, and whatever calls it has made then,
      every holder and every node is in exactly one place. */
  lemma HoldersAreAlwaysConserved(taskRunners: nat, futureRunners: nat, o: Oracle, passes: nat, m: State, cs: seq<UserCall>)
    requires taskRunners > 0 && futureRunners > 0
    requires m in PassMoments(LoopTheorems.After(taskRunners, futureRunners, o, passes), o)
    ensures TaskModel.Wf(m.tasks) && TimerModel.Wf(m.timers)
    ensures Parted(DoCalls(m, cs), taskRunners, futureRunners)
  {
    hide TaskModel.TaskInv, TimerModel.TimerInv, Run, PassMoments;
    var s := LoopTheorems.After(taskRunners, futureRunners, o, passes);
    BootIsReady(taskRunners, futureRunners);
    LoopTheorems.RunSize(Boot(taskRunners, futureRunners), o, passes);
    PassIsSettled(s, o);
    assert Settled(s, m);
    var timerMain: nat, taskMain: nat :| Sound(m, timerMain, taskMain);
    SoundIsWf(m, timerMain, taskMain);
    DoCallsKeep(m, cs, timerMain, taskMain);
    LoopTheorems.DoCallsSize(m, cs);
    SoundIsParted(DoCalls(m, cs), timerMain, taskMain);
  }
}
