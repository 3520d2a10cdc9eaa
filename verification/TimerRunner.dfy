// The timer half of src/set_run_isr.c: futureHolders and the intrusive lists
// through their nodes, updated in place as the code does.
module TimerRunner {
  import opened Base
  import opened GenPool
  import opened LinkNode
  import opened TimerModel

  class TimerRunner {
    const holders: ObjectPool      // futureHolders
    const link: array<int>         // each node's LinkBase_t
    const node: array<TimedCall>   // and the rest of it
    var timeQ: int
    var addedTimeQ: int
    var newQ: int                  // Do_Later's own list, while it walks
    var internalErrors: nat        // timer_internal_error
    ghost var m: Timers

    ghost function Repr(): (r: set<object>)
      ensures this in r
    {
      {this, link, node} + holders.Repr()
    }

    ghost predicate Apart() {
      holders.onRelease == RETRIGGER && link.Length == node.Length == holders.base.Length
    }

    ghost predicate Chained()
      reads this, link
    {
      && Chain(link[..], timeQ, m.timeQ)
      && Chain(link[..], addedTimeQ, m.added)
      && Chain(link[..], newQ, m.kept)
    }

    ghost predicate Valid()
      reads Repr()
    {
      && Apart() && holders.Valid() && Chained()
      && Wf(m) && m.pool == holders.v && m.node == node[..]
    }

    constructor (runners: nat, header: nat, cellSize: nat)
      requires runners > 0 && header > 0 && header % 4 == 0 && cellSize >= 12 && cellSize % 4 == 0
      requires Offset(header, cellSize, runners - 1) < 0x4_0000
      ensures Valid() && fresh(Repr()) && m == Fresh(runners) && internalErrors == 0
    {
      hide ObjectPool.Valid, Cells;
      holders := new ObjectPool(0, header, cellSize, runners, RETRIGGER);
      link := new int[runners];
      node := new TimedCall[runners](_ => TimedCall(0, Cb(0, 0), 0));
      timeQ, addedTimeQ, newQ, internalErrors := NIL, NIL, NIL, 0;
      m := Fresh(runners);
      new;
      assert node[..] == m.node;
    }

    /** StackPush onto addedTimeQ, which leaves the other lists alone. */
    method PushAdded(h: nat)
      requires Chained() && h < link.Length && Unlisted(m, h)
      modifies this`addedTimeQ, this`m, link
      ensures Chained() && m == old(m).(added := [h] + old(m.added))
    {
      ChainFrame(link[..], timeQ, m.timeQ, h, addedTimeQ);
      ChainFrame(link[..], newQ, m.kept, h, addedTimeQ);
      addedTimeQ := StackPush(link, addedTimeQ, h, m.added);
      m := m.(added := [h] + m.added);
    }

    /** _set_future_cb */
    method SetFutureCb(cb: Cb, first: nat, retrigger: int, timeTick: nat, ghost now: nat, ghost late: bool) returns (st: Status)
      requires Valid() && timeTick == now % WRAP
      requires Pick(m.pool).Some? ==> Unlisted(m, Pick(m.pool).value)
      modifies Repr()
      ensures Valid() && (m, st) == Arm(old(m), cb, first, retrigger, now, late)
      ensures Wf(old(m)) && Arms(old(m), cb, first, retrigger, now, late, m, st)
      ensures internalErrors == old(internalErrors)
    {
      hide Scan, Cells, ObjectPool.Valid, PoolOk, Chain, Due, Arms;
      ArmExact(m, cb, first, retrigger, now, late);
      PickFindsFree(m.pool);
      var holder := holders.Allocate();
      st := FULL;
      if holder.Some? {
        var h := holder.value;
        node[h] := TimedCall((first + timeTick) % WRAP, cb, retrigger);
        ghost var was := m;
        PushAdded(h);
        m := Armed(was, h, Birth(cb, now, first, retrigger, late));
        st := OK;
      }
    }

    method RunLater(cb: Cb, future: nat, timeTick: nat, ghost now: nat, ghost late: bool) returns (st: Status)
      requires Valid() && timeTick == now % WRAP
      requires Pick(m.pool).Some? ==> Unlisted(m, Pick(m.pool).value)
      modifies Repr()
      ensures Valid() && (m, st) == Arm(old(m), cb, future, 0, now, late)
      ensures internalErrors == old(internalErrors)
    {
      st := SetFutureCb(cb, future, 0, timeTick, now, late);
    }

    method RunPeriodically(cb: Cb, interval: int, timeTick: nat, ghost now: nat, ghost late: bool) returns (st: Status)
      requires Valid() && timeTick == now % WRAP
      requires Pick(m.pool).Some? ==> Unlisted(m, Pick(m.pool).value)
      modifies Repr()
      ensures Valid() && (m, st) == Arm(old(m), cb, Abs(interval), interval, now, late)
      ensures internalErrors == old(internalErrors)
    {
      st := SetFutureCb(cb, Abs(interval), interval, timeTick, now, late);
    }

    method MoveOne(ghost rest: seq<nat>, ghost stack: seq<nat>)
      requires Chain(link[..], newQ, rest) && Chain(link[..], timeQ, stack) && rest != []
      requires rest[0] !in rest[1..] && rest[0] !in stack
      modifies this`timeQ, this`newQ, link
      ensures Chain(link[..], newQ, rest[1..]) && Chain(link[..], timeQ, [rest[0]] + stack)
    {
      var n;
      n, newQ := StackPop(link, newQ, rest);
      ChainFrame(link[..], newQ, rest[1..], n, timeQ);
      timeQ := StackPush(link, timeQ, n, stack);
    }

    /** Do_Later moves the new arrivals, one by one, onto the main stack. */
    method Splice()
      requires Valid() && Unshared(m) && m.kept == []
      modifies Repr()
      ensures Valid() && m == TimerModel.Splice(old(m))
      ensures internalErrors == old(internalErrors)
    {
      hide ObjectPool.Valid, Cells, PoolOk, Chain, Reverse, Once;
      ghost var was := m;
      newQ := addedTimeQ;
      addedTimeQ := NIL;
      ghost var rest: seq<nat> := was.added;
      ghost var stack: seq<nat> := was.timeQ;
      SplicedOnce(was);
      EmptyChain(link[..], newQ, rest);
      while newQ != NIL
        invariant newQ == NIL <==> rest == []
        invariant Apart() && holders.Valid() && holders.v == was.pool && node[..] == was.node
        invariant m == was && internalErrors == old(internalErrors) && addedTimeQ == NIL
        invariant Chain(link[..], newQ, rest) && Chain(link[..], timeQ, stack)
        invariant Reverse(rest) + stack == Reverse(was.added) + was.timeQ
        invariant Once(rest, stack)
        decreases |rest|
      {
        OnceStep(rest, stack);
        MoveOne(rest, stack);
        ReverseStep(rest, stack);
        EmptyChain(link[..], newQ, rest[1..]);
        rest, stack := rest[1..], [rest[0]] + stack;
      }
      ReverseNone(stack);
      EmptyChain(link[..], addedTimeQ, []);
      m := TimerModel.Splice(was);
    }

    /** StackPop from the main stack. */
    method Pop() returns (h: int)
      requires Valid() && m.current == []
      modifies this`timeQ, this`m
      ensures Valid()
      ensures old(m.timeQ) == [] ==> h == NIL && m == old(m)
      ensures old(m.timeQ) != [] ==> h == old(m.timeQ)[0] && m == Take(old(m))
    {
      ghost var was := m;
      h, timeQ := StackPop(link, timeQ, m.timeQ);
      if h != NIL {
        m := Take(was);
      }
    }

    method HasMore() returns (more: bool)
      requires Valid()
      ensures more <==> m.timeQ != []
    {
      EmptyChain(link[..], timeQ, m.timeQ);
      more := timeQ != NIL;
    }

    method Read(h: nat) returns (n: TimedCall)
      requires Valid() && h < m.pool.size
      ensures n == m.node[h]
    {
      n := node[h];
    }

    /** A node whose time has not come is saved for the next walk. */
    method Keep(h: nat)
      requires Valid() && m.current == [h] && h < m.pool.size && Unlisted(m, h)
      modifies Repr()
      ensures Valid() && m == TimerModel.Keep(old(m))
      ensures internalErrors == old(internalErrors)
    {
      hide ObjectPool.Valid, Cells, PoolOk;
      ChainFrame(link[..], timeQ, m.timeQ, h, newQ);
      ChainFrame(link[..], addedTimeQ, m.added, h, newQ);
      newQ := StackPush(link, newQ, h, m.kept);
      m := TimerModel.Keep(m);
    }

    /** GenPool_extract_callback, when the callback answered Status_Interrupt. */
    method Judge(h: nat, status: Status)
      requires Valid() && m.current == [h] && h < m.pool.size
      modifies Repr()
      ensures Valid() && m == TimerModel.Judge(old(m), status)
      ensures internalErrors == old(internalErrors)
    {
      if status == Interrupt {
        var _ := holders.ExtractCallback(h);
      }
      m := TimerModel.Judge(m, status);
    }

    /** retrigger_timer: a repeating timer gets its next deadline and rejoins the
        new arrivals, which cancels its release. */
    method RetriggerTimer(context: int, timeTick: nat, ghost now: nat) returns (answer: Status)
      requires Chained() && 0 <= context < link.Length == node.Length && Unlisted(m, context) && timeTick == now % WRAP
      modifies this`addedTimeQ, this`m, link, node
      ensures Chained()
      ensures var n := old(node[..])[context];
              && answer == (if n.future != 0 then Interrupt else OK)
              && node[..] == (if n.future != 0 then old(node[..])[context := n.(time := NextTime(n, now))] else old(node[..]))
              && m == (if n.future != 0 then old(m).(added := [context] + old(m.added)) else old(m))
    {
      hide Chain;
      var n := node[context];
      answer := OK;
      if n.future != 0 {
        if n.future > 0 {
          node[context] := n.(time := (n.future + timeTick) % WRAP);
        } else {
          node[context] := n.(time := (n.time + -n.future) % WRAP);
        }
        PushAdded(context);
        answer := Interrupt;
      }
    }

    /** A release that does not answer OK is an internal error. */
    method Count(st: Status)
      modifies this`internalErrors
      ensures internalErrors == old(internalErrors) + if st == OK then 0 else 1
    {
      if st != OK {
        internalErrors := internalErrors + 1;
      }
    }

    /** futureHoldersReturn: release, which for a repeating timer means re-arming. */
    method GiveBack(h: nat, ghost status: Status, timeTick: nat, ghost now: nat)
      requires Valid() && m.current == [h] && h < m.pool.size && h in m.pool.live && Unlisted(m, h)
      requires m.life[h].serial < |m.births| && timeTick == now % WRAP
      requires h in m.pool.hooks ==> m.pool.hooks[h] == Hook(RETRIGGER, h)
      modifies Repr()
      ensures Valid() && m == TimerModel.GiveBack(old(m), status, now)
      ensures internalErrors == old(internalErrors)
    {
      hide ObjectPool.Valid, Cells, Chain, Due, NextTime, PoolOk;
      ghost var was := m;
      var answer := OK;
      var cb := holders.CallbackOf(h);
      if cb.Some? {
        answer := RetriggerTimer(cb.value.context, timeTick, now);
      }
      var st := holders.Return(h, answer);
      Count(st);
      m := TimerModel.GiveBack(was, status, now);
    }

    /** What was walked past becomes the main stack again. */
    method Settle()
      requires Valid() && m.timeQ == []
      modifies this`timeQ, this`newQ, this`m
      ensures Valid() && m == TimerModel.Settle(old(m))
    {
      timeQ := newQ;
      newQ := NIL;
      m := TimerModel.Settle(m);
    }
  }
}
