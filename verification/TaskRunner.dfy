// The task half of src/set_run_isr.c: taskHolders, the two alternating queues and
// the payload each holder points at, updated in place as the code does.
module TaskRunner {
  import opened Base
  import opened GenPool
  import opened GenQ
  import opened TaskModel

  class TaskRunner {
    const holders: ObjectPool         // taskHolders
    const queue0: Ring<nat>        // taskQs[0]
    const queue1: Ring<nat>        // taskQs[1]
    const payload: array<Cb>       // *holder
    var taskQ: nat
    var internalErrors: nat        // task_internal_error
    ghost var m: Tasks

    ghost function Repr(): (r: set<object>)
      ensures this in r
    {
      {this, payload} + holders.Repr() + queue0.Repr() + queue1.Repr()
    }

    /** The i-th of the two queues. */
    function Queue(i: nat): Ring<nat> {
      if i == 0 then queue0 else queue1
    }

    ghost predicate Apart() {
      && queue0 != queue1 && queue0.buf != queue1.buf
      && holders.onRelease == REQUEUE
      && payload.Length == holders.base.Length == queue0.Capacity() == queue1.Capacity()
    }

    ghost predicate Valid()
      reads Repr()
    {
      && Apart()
      && holders.Valid() && queue0.Valid() && queue1.Valid()
      && taskQ < 2
      && Wf(m)
      && m.pool == holders.v && m.cb == payload[..]
      && m.dst == Queue(taskQ).contents && m.src == Queue(1 - taskQ).contents
    }

    constructor (runners: nat, header: nat, cellSize: nat)
      requires runners > 0 && header > 0 && header % 4 == 0 && cellSize >= 12 && cellSize % 4 == 0
      requires Offset(header, cellSize, runners - 1) < 0x4_0000
      ensures Valid() && fresh(Repr()) && m == Fresh(runners) && internalErrors == 0
    {
      hide ObjectPool.Valid, Ring.Valid, Cells, Held;
      holders := new ObjectPool(0, header, cellSize, runners, REQUEUE);
      queue0 := new Ring(runners + 1);
      queue1 := new Ring(runners + 1);
      payload := new Cb[runners](_ => Cb(0, 0));
      taskQ, internalErrors := 0, 0;
      m := Fresh(runners);
      new;
      assert payload[..] == m.cb;
    }

    /** The holder's payload is filled in and its pointer put on the collecting
        queue, which the code asserts to succeed. */
    method Enqueue(holder: nat, cb: Cb)
      requires Apart() && taskQ < 2 && Queue(taskQ).Valid() && holder < payload.Length
      requires |Queue(taskQ).contents| < Queue(taskQ).Capacity()
      modifies payload, Queue(taskQ).Repr()
      ensures payload[..] == old(payload[..])[holder := cb]
      ensures Queue(taskQ).Valid() && Queue(taskQ).contents == old(Queue(taskQ).contents) + [holder]
    {
      payload[holder] := cb;
      var put := Queue(taskQ).Put(holder);
      assert put == OK;
    }

    /** Run_Task */
    method RunTask(cb: Cb, ghost now: nat, ghost late: bool) returns (st: Status)
      requires Valid() && HasRoom(m)
      modifies Repr()
      ensures Valid() && (m, st) == Submit(old(m), cb, false, now, late)
      ensures Wf(old(m)) && Submits(old(m), cb, false, now, late, m, st)
      ensures internalErrors == old(internalErrors)
    {
      hide Scan, Cells, ObjectPool.Valid, Ring.Valid, PoolOk, Submits;
      SubmitExact(m, cb, false, now, late);
      st := Param;
      if cb.fn != 0 {
        PickFindsFree(m.pool);
        var holder := holders.Allocate();
        st := FULL;
        if holder.Some? {
          Enqueue(holder.value, cb);
          m := Submitted(m, holder.value, Submission(cb, false, now, late));
          st := OK;
        }
      }
    }

    /** Run_Task_Once */
    method RunTaskOnce(cb: Cb, ghost now: nat, ghost late: bool) returns (st: Status)
      requires Valid() && HasRoom(m)
      modifies Repr()
      ensures Valid() && (m, st) == Submit(old(m), cb, true, now, late)
      ensures Wf(old(m)) && Submits(old(m), cb, true, now, late, m, st)
      ensures internalErrors == old(internalErrors)
    {
      hide Scan, Cells, ObjectPool.Valid, Ring.Valid, PoolOk, Submits;
      SubmitExact(m, cb, true, now, late);
      st := Param;
      if cb.fn != 0 {
        PickFindsFree(m.pool);
        var holder := holders.AllocateWithCallback(0, 0);
        st := FULL;
        if holder.Some? {
          Enqueue(holder.value, cb);
          m := Submitted(m, holder.value, Submission(cb, true, now, late));
          st := OK;
        }
      }
    }

    /** Run_Tasks selects the collecting queue for draining. */
    method Flip()
      requires Valid()
      modifies this`taskQ, this`m
      ensures Valid() && m == TaskModel.Flip(old(m))
    {
      taskQ := (taskQ + 1) % 2;
      m := TaskModel.Flip(m);
    }

    /** The oldest task on the queue being drained. */
    method Take() returns (st: Status, task: nat)
      requires Valid() && m.running == []
      modifies Repr()
      ensures Valid() && internalErrors == old(internalErrors)
      ensures st == if old(m.src) == [] then EMPTY else OK
      ensures st == OK ==> task == old(m.src)[0] && m == Start(old(m))
      ensures st != OK ==> m == old(m)
    {
      hide Cells, ObjectPool.Valid, Ring.Valid;
      st, task := Queue(1 - taskQ).Get();
      if st == OK {
        m := Start(m);
      }
    }

    method Read(h: nat) returns (cb: Cb)
      requires Valid() && h < m.pool.size
      ensures cb == m.cb[h]
    {
      cb := payload[h];
    }

    /** GenPool_extract_callback on the running task, unless it answered OK. */
    method Judge(task: nat, status: Status)
      requires Valid() && m.running == [task] && task < m.pool.size
      modifies Repr()
      ensures Valid() && m == TaskModel.Judge(old(m), status)
      ensures internalErrors == old(internalErrors)
    {
      if status != OK {
        var _ := holders.ExtractCallback(task);
      }
      m := TaskModel.Judge(m, status);
    }

    /** requeue_task: the holder joins the collecting queue and its release is
        cancelled, unless the queue is full; a null context is none of its business. */
    method RequeueTask(context: int) returns (answer: Status)
      requires Apart() && taskQ < 2 && Queue(taskQ).Valid()
      modifies Queue(taskQ).Repr(), this`internalErrors
      ensures Queue(taskQ).Valid()
      ensures var q := old(Queue(taskQ).contents);
              if context < 0 then
                answer == OK && Queue(taskQ).contents == q && internalErrors == old(internalErrors)
              else if |q| < Queue(taskQ).Capacity() then
                answer == Interrupt && Queue(taskQ).contents == q + [context] && internalErrors == old(internalErrors)
              else
                answer == OK && Queue(taskQ).contents == q && internalErrors == old(internalErrors) + 1
    {
      if context >= 0 {
        var put := Queue(taskQ).Put(context);
        if put == OK {
          return Interrupt;
        }
        internalErrors := internalErrors + 1;
      }
      answer := OK;
    }

    /** A release that does not answer OK is an internal error. */
    method Count(st: Status)
      modifies this`internalErrors
      ensures internalErrors == old(internalErrors) + if st == OK then 0 else 1
    {
      if st != OK {
        internalErrors := internalErrors + 1;
      }
    }

    /** taskHoldersReturn: release, which for a repeating task means requeueing. */
    method GiveBack(task: nat, ghost status: Status, ghost now: nat)
      requires Valid() && m.running == [task] && task < m.pool.size && task in m.pool.live
      requires |m.dst| < m.pool.size
      requires task in m.pool.hooks ==> m.pool.hooks[task] == Hook(REQUEUE, task)
      modifies Repr()
      ensures Valid() && m == TaskModel.GiveBack(old(m), status, now)
      ensures internalErrors == old(internalErrors)
    {
      hide Cells, ObjectPool.Valid, Ring.Valid, PoolOk, Held;
      var answer := OK;
      var cb := holders.CallbackOf(task);
      if cb.Some? {
        answer := RequeueTask(cb.value.context);
      }
      var st := holders.Return(task, answer);
      Count(st);
      m := TaskModel.GiveBack(m, status, now);
    }
  }
}
