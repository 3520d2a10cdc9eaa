// The mailbox of src/isr_comm.c: pool objects travel from the user to an interrupt
// handler and back through two rings as deep as the pool (a "double" ISR queue).
module IsrComm {
  import opened Base
  import opened GenPool
  import opened GenQ

  // ---------------------------------------------------------------- as a value

  /** Where each live object is: on its way to the handler, on its way back, in
      the handler's hands or in the user's. */
  datatype Mailbox = Mailbox(pool: Pool, toQ: seq<nat>, fromQ: seq<nat>, isr: multiset<nat>, user: multiset<nat>)

  ghost predicate Conserved(b: Mailbox) {
    && PoolOk(b.pool)
    && multiset(b.toQ) + multiset(b.fromQ) + b.isr + b.user == multiset(b.pool.live)
  }

  /** Allocate_*_Object */
  function Allocate(b: Mailbox, onRelease: nat): (Mailbox, Option<nat>) {
    var (p, r) := Alloc(b.pool, onRelease, OWN_ADDRESS);
    match r
    case None => (b.(pool := p), None)
    case Some(h) => (b.(pool := p, user := b.user + multiset{h}), Some(h))
  }

  /** Ipt_SendToIsr */
  function Send(b: Mailbox, obj: nat): (Mailbox, Status) {
    if |b.toQ| >= b.pool.size then (b, FULL)
    else (b.(toQ := b.toQ + [obj], user := b.user - multiset{obj}), OK)
  }

  /** Ipt_DequeueInIsr */
  function Dequeue(b: Mailbox): (Mailbox, Option<nat>) {
    if b.toQ == [] then (b, None)
    else (b.(toQ := b.toQ[1..], isr := b.isr + multiset{b.toQ[0]}), Some(b.toQ[0]))
  }

  /** Ipt_ReturnToUserProcess, when there is room (and there always is). */
  function Return(b: Mailbox, obj: nat): Mailbox {
    b.(fromQ := b.fromQ + [obj], isr := b.isr - multiset{obj})
  }

  /** Ipt_ReceiveFromIsr */
  function Receive(b: Mailbox): (Mailbox, Option<nat>) {
    if b.fromQ == [] then (b, None)
    else (b.(fromQ := b.fromQ[1..], user := b.user + multiset{b.fromQ[0]}), Some(b.fromQ[0]))
  }

  /** Ipt_Reset: the rings are emptied and the pool is cleared, so that nothing is live
      any more, wherever it was. */
  function Emptied(b: Mailbox): Mailbox {
    Mailbox(Cleared(b.pool), [], [], multiset{}, multiset{})
  }

  /** PoolReturn_*_Object; a release callback that answers Status_Interrupt leaves
      the object with the user. */
  function PoolReturn(b: Mailbox, obj: nat, answer: Status): (Mailbox, Status) {
    var (p, st) := Release(b.pool, obj, answer);
    (b.(pool := p, user := if obj in p.live then b.user else b.user - multiset{obj}), st)
  }

  // -------------------------------------------------------------- conservation

  lemma RoomInBoth(b: Mailbox)
    requires Conserved(b)
    ensures |b.toQ| + |b.fromQ| + |b.isr| + |b.user| == |b.pool.live| <= b.pool.size
    ensures forall h | h in b.toQ || h in b.fromQ || h in b.isr || h in b.user :: h in b.pool.live && h < b.pool.size
  {
    LiveAtMost(b.pool.live, b.pool.size);
    var all := multiset(b.toQ) + multiset(b.fromQ) + b.isr + b.user;
    assert |all| == |b.toQ| + |b.fromQ| + |b.isr| + |b.user|;
    forall h | h in b.toQ || h in b.fromQ || h in b.isr || h in b.user ensures h in b.pool.live {
      assert h in all;
    }
  }

  /** The pigeonhole: an object in somebody's hands leaves room in both rings. */
  lemma RoomForHeld(b: Mailbox, obj: nat)
    requires Conserved(b) && (obj in b.isr || obj in b.user)
    ensures |b.toQ| < b.pool.size && |b.fromQ| < b.pool.size
  {
    RoomInBoth(b);
    if obj in b.isr {
      assert |b.isr| >= 1 by { assert b.isr == (b.isr - multiset{obj}) + multiset{obj}; }
    } else {
      assert |b.user| >= 1 by { assert b.user == (b.user - multiset{obj}) + multiset{obj}; }
    }
  }

  lemma AllocateKeeps(b: Mailbox, onRelease: nat)
    requires Conserved(b)
    ensures Conserved(Allocate(b, onRelease).0)
    ensures Allocate(b, onRelease).1 == None <==> b.pool.live == Cells(b.pool.size)
    ensures var (r, o) := Allocate(b, onRelease);
            && Allocated(b.pool, onRelease, OWN_ADDRESS, r.pool, o)
            && r == b.(pool := r.pool, user := if o.Some? then b.user + multiset{o.value} else b.user)
  {
    AllocExact(b.pool, onRelease, OWN_ADDRESS);
    PickFindsFree(b.pool);
    if Pick(b.pool).Some? {
      MultisetOfSet(b.pool.live, Pick(b.pool).value);
    }
  }

  lemma SendKeeps(b: Mailbox, obj: nat)
    requires Conserved(b) && obj in b.user
    ensures Conserved(Send(b, obj).0) && Send(b, obj).1 == OK
    ensures Send(b, obj).0 == b.(toQ := b.toQ + [obj], user := b.user - multiset{obj})
  {
    RoomForHeld(b, obj);
    var r := Send(b, obj).0;
    assert multiset(r.toQ) == multiset(b.toQ) + multiset{obj};
    assert b.user == (b.user - multiset{obj}) + multiset{obj};
  }

  lemma DequeueKeeps(b: Mailbox)
    requires Conserved(b)
    ensures Conserved(Dequeue(b).0)
    ensures b.toQ == [] ==> Dequeue(b) == (b, None)
    ensures b.toQ != [] ==>
              && Dequeue(b).1 == Some(b.toQ[0]) && b.toQ == [b.toQ[0]] + Dequeue(b).0.toQ
              && Dequeue(b).0 == b.(toQ := Dequeue(b).0.toQ, isr := b.isr + multiset{b.toQ[0]})
  {
    if b.toQ != [] {
      assert b.toQ == [b.toQ[0]] + b.toQ[1..];
    }
  }

  lemma ReturnKeeps(b: Mailbox, obj: nat)
    requires Conserved(b) && obj in b.isr
    ensures Conserved(Return(b, obj)) && Return(b, obj) == b.(fromQ := b.fromQ + [obj], isr := b.isr - multiset{obj})
  {
    var r := Return(b, obj);
    assert multiset(r.fromQ) == multiset(b.fromQ) + multiset{obj};
    assert b.isr == (b.isr - multiset{obj}) + multiset{obj};
  }

  lemma ReceiveKeeps(b: Mailbox)
    requires Conserved(b)
    ensures Conserved(Receive(b).0)
    ensures b.fromQ == [] ==> Receive(b) == (b, None)
    ensures b.fromQ != [] ==>
              && Receive(b).1 == Some(b.fromQ[0]) && b.fromQ == [b.fromQ[0]] + Receive(b).0.fromQ
              && Receive(b).0 == b.(fromQ := Receive(b).0.fromQ, user := b.user + multiset{b.fromQ[0]})
  {
    if b.fromQ != [] {
      assert b.fromQ == [b.fromQ[0]] + b.fromQ[1..];
    }
  }

  lemma PoolReturnKeeps(b: Mailbox, obj: nat, answer: Status)
    requires Conserved(b) && obj in b.user
    ensures Conserved(PoolReturn(b, obj, answer).0)
    ensures PoolReturn(b, obj, answer).1 == if obj in b.pool.hooks && answer != Interrupt then answer else OK
    ensures var (r, st) := PoolReturn(b, obj, answer);
            && Released(b.pool, obj, answer, r.pool, st)
            && r == b.(pool := r.pool, user := if obj in b.pool.hooks && answer == Interrupt then b.user else b.user - multiset{obj})
  {
    RoomInBoth(b);
    MultisetOfSet(b.pool.live, obj);
    assert b.user == (b.user - multiset{obj}) + multiset{obj};
  }

  // -------------------------------------------------------------------- the code

  class Target {
    const pool: ObjectPool         // iptPool
    const toIsrQ: Ring<nat>
    const fromIsrQ: Ring<nat>
    const isrRetQ: Ring<nat>       // where what finds no room in fromIsrQ goes
    var droppedFrom: nat
    var droppedObjects: nat        // isrReqQ_dropped_objects
    ghost var box: Mailbox

    ghost function Repr(): set<object> {
      {this} + pool.Repr() + toIsrQ.Repr() + fromIsrQ.Repr() + isrRetQ.Repr()
    }

    ghost predicate Apart() {
      && toIsrQ != fromIsrQ && toIsrQ.buf != fromIsrQ.buf && isrRetQ != toIsrQ && isrRetQ.buf != toIsrQ.buf
      && isrRetQ != fromIsrQ && isrRetQ.buf != fromIsrQ.buf
      && toIsrQ.Capacity() == fromIsrQ.Capacity() == pool.base.Length
    }

    ghost predicate Valid()
      reads Repr()
    {
      && Apart() && pool.Valid() && toIsrQ.Valid() && fromIsrQ.Valid() && isrRetQ.Valid()
      && Conserved(box) && box.pool == pool.v
      && box.toQ == toIsrQ.contents && box.fromQ == fromIsrQ.contents
    }

    /** DefineDoubleIsrObjectQueue */
    constructor (depth: nat, header: nat, cellSize: nat, complete: nat)
      requires depth > 0 && header > 0 && header % 4 == 0 && cellSize >= 12 && cellSize % 4 == 0
      requires Offset(header, cellSize, depth - 1) < 0x4_0000
      ensures Valid() && fresh(Repr()) && droppedFrom == 0
      ensures box == Mailbox(Pool(depth, {}, map[], 0), [], [], multiset{}, multiset{})
    {
      hide ObjectPool.Valid, Ring.Valid, Held;
      pool := new ObjectPool(0, header, cellSize, depth, complete);
      toIsrQ := new Ring(depth + 1);
      fromIsrQ := new Ring(depth + 1);
      isrRetQ := new Ring(20 + 1);
      droppedFrom, droppedObjects := 0, 0;
      box := Mailbox(Pool(depth, {}, map[], 0), [], [], multiset{}, multiset{});
    }

    method AllocateObject() returns (r: Option<nat>)
      requires Valid()
      modifies Repr()
      ensures Valid() && (box, r) == Allocate(old(box), pool.onRelease) && droppedFrom == old(droppedFrom)
      ensures Allocated(old(box).pool, pool.onRelease, OWN_ADDRESS, box.pool, r)
      ensures box == old(box).(pool := box.pool, user := if r.Some? then old(box).user + multiset{r.value} else old(box).user)
    {
      hide ObjectPool.Valid, Ring.Valid, Cells, Conserved, Scan;
      AllocateKeeps(box, pool.onRelease);
      r := pool.Allocate();
      box := Allocate(box, pool.onRelease).0;
    }

    /** Ipt_Reset */
    method Reset()
      requires Valid()
      modifies Repr()
      ensures Valid() && box == Emptied(old(box)) && droppedFrom == old(droppedFrom)
      ensures box.toQ == [] && box.fromQ == [] && box.pool.live == {} && box.isr == box.user == multiset{}
    {
      hide ObjectPool.Valid, Ring.Valid, Cells;
      toIsrQ.Reset();
      fromIsrQ.Reset();
      pool.Reset();
      box := Emptied(box);
    }

    method SendToIsr(obj: nat) returns (st: Status)
      requires Valid() && obj in box.user
      modifies Repr()
      ensures Valid() && st == OK && box == Send(old(box), obj).0 && droppedFrom == old(droppedFrom)
      ensures box == old(box).(toQ := old(box).toQ + [obj], user := old(box).user - multiset{obj})
    {
      hide ObjectPool.Valid, Ring.Valid, Cells, Conserved;
      SendKeeps(box, obj);
      RoomForHeld(box, obj);
      st := toIsrQ.Put(obj);
      box := Send(box, obj).0;
    }

    method DequeueInIsr() returns (st: Status, obj: nat)
      requires Valid()
      modifies Repr()
      ensures Valid() && box == Dequeue(old(box)).0 && droppedFrom == old(droppedFrom)
      ensures st == if old(box).toQ == [] then EMPTY else OK
      ensures st != OK ==> box == old(box)
      ensures st == OK ==> old(box).toQ == [obj] + box.toQ && box == old(box).(toQ := box.toQ, isr := old(box).isr + multiset{obj})
    {
      hide ObjectPool.Valid, Ring.Valid, Cells, Conserved;
      DequeueKeeps(box);
      st, obj := toIsrQ.Get();
      box := Dequeue(box).0;
    }

    /** returnPoolObjectToProcess with what it falls back to: into fromIsrQ, else
        into isrRetQ, else straight back into the pool with its callback disabled. */
    method ReturnPoolObjectToProcess(obj: nat)
      requires Apart() && pool.Valid() && fromIsrQ.Valid() && isrRetQ.Valid() && obj < pool.base.Length
      modifies pool.Repr(), fromIsrQ.Repr(), isrRetQ.Repr(), this`droppedFrom, this`droppedObjects
      ensures pool.Valid() && fromIsrQ.Valid() && isrRetQ.Valid()
      ensures |old(fromIsrQ.contents)| < fromIsrQ.Capacity() ==>
                fromIsrQ.contents == old(fromIsrQ.contents) + [obj] && droppedFrom == old(droppedFrom)
                && pool.v == old(pool.v) && isrRetQ.contents == old(isrRetQ.contents)
      ensures |old(fromIsrQ.contents)| == fromIsrQ.Capacity() ==>
                fromIsrQ.contents == old(fromIsrQ.contents) && droppedFrom == old(droppedFrom) + 1
      ensures |old(fromIsrQ.contents)| == fromIsrQ.Capacity() && |old(isrRetQ.contents)| < isrRetQ.Capacity() ==>
                isrRetQ.contents == old(isrRetQ.contents) + [obj] && pool.v == old(pool.v)
      ensures |old(fromIsrQ.contents)| == fromIsrQ.Capacity() && |old(isrRetQ.contents)| == isrRetQ.Capacity() ==>
                isrRetQ.contents == old(isrRetQ.contents) && droppedObjects == old(droppedObjects) + 1
                && pool.v == (if obj in old(pool.v.live) then Free(old(pool.v), obj) else Extract(old(pool.v), obj))
    {
      hide ObjectPool.Valid, Ring.Valid, Cells, Conserved;
      var st := fromIsrQ.Put(obj);
      if st != OK {
        droppedFrom := droppedFrom + 1;
        var st2 := isrRetQ.Put(obj);
        if st2 != OK {
          droppedObjects := droppedObjects + 1;
          var _ := pool.ExtractCallback(obj);
          var _ := pool.Return(obj, OK);
        }
      }
    }

    /** Ipt_ReturnToUserProcess: fromIsrQ always has room, nothing is dropped. */
    method ReturnToUserProcess(obj: nat)
      requires Valid() && obj in box.isr
      modifies Repr()
      ensures Valid() && box == Return(old(box), obj) && droppedFrom == old(droppedFrom)
      ensures box == old(box).(fromQ := old(box).fromQ + [obj], isr := old(box).isr - multiset{obj})
    {
      hide ObjectPool.Valid, Ring.Valid, Cells, Conserved;
      ReturnKeeps(box, obj);
      RoomForHeld(box, obj);
      RoomInBoth(box);
      ReturnPoolObjectToProcess(obj);
      box := Return(box, obj);
    }

    method ReceiveFromIsr() returns (st: Status, obj: nat)
      requires Valid()
      modifies Repr()
      ensures Valid() && box == Receive(old(box)).0 && droppedFrom == old(droppedFrom)
      ensures st == if old(box).fromQ == [] then EMPTY else OK
      ensures st != OK ==> box == old(box)
      ensures st == OK ==>
                old(box).fromQ == [obj] + box.fromQ && box == old(box).(fromQ := box.fromQ, user := old(box).user + multiset{obj})
    {
      hide ObjectPool.Valid, Ring.Valid, Cells, Conserved;
      ReceiveKeeps(box);
      st, obj := fromIsrQ.Get();
      box := Receive(box).0;
    }

    method PoolReturnObject(obj: nat, answer: Status) returns (st: Status)
      requires Valid() && obj in box.user
      modifies Repr()
      ensures Valid() && (box, st) == PoolReturn(old(box), obj, answer) && droppedFrom == old(droppedFrom)
      ensures Released(old(box).pool, obj, answer, box.pool, st)
      ensures box == old(box).(pool := box.pool, user := if obj in old(box).pool.hooks && answer == Interrupt then old(box).user
                                                         else old(box).user - multiset{obj})
    {
      hide ObjectPool.Valid, Ring.Valid, Cells, Conserved;
      RoomInBoth(box);
      PoolReturnKeeps(box, obj, answer);
      st := pool.Return(obj, answer);
      box := PoolReturn(box, obj, answer).0;
    }
  }
}
