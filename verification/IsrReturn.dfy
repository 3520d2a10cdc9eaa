// The general return queue of src/isr_comm.c: interrupt handlers hand back objects
// of any pool, and the main loop releases them.  Pools are held as values here;
// GenPool.ObjectPool implements the operations used.
module IsrReturn {
  import opened Base
  import opened GenPool
  import opened GenQ

  const RET_Q_LEN: nat := 20

  datatype Obj = Obj(pool: nat, cell: nat)

  /** All pools, the queue, and who else holds objects: the interrupt handlers and
      (sent objects included) everybody else. */
  datatype Shared = Shared(pools: seq<Pool>, retQ: seq<Obj>, isr: multiset<Obj>, others: multiset<Obj>)

  ghost predicate Live(pools: seq<Pool>, x: Obj) {
    x.pool < |pools| && x.cell in pools[x.pool].live
  }

  /** Live objects, and only they, are held somewhere, and in one place only. */
  ghost predicate Conserved(s: Shared) {
    && (forall p | 0 <= p < |s.pools| :: PoolOk(s.pools[p]))
    && forall x: Obj :: (multiset(s.retQ) + s.isr + s.others)[x] == if Live(s.pools, x) then 1 else 0
  }

  /** The release callback of x, if it has one, will be asked. */
  ghost predicate Hooked(pools: seq<Pool>, x: Obj) {
    x.pool < |pools| && x.cell in pools[x.pool].hooks
  }

  // ---------------------------------------------------------------- the two sides

  /** ReturnPoolObject: queued, or if the queue is full released without a callback. */
  function HandBack(s: Shared, x: Obj): Shared
    requires x.pool < |s.pools|
  {
    if |s.retQ| < RET_Q_LEN then s.(retQ := s.retQ + [x], isr := s.isr - multiset{x})
    else s.(pools := s.pools[x.pool := Release(Extract(s.pools[x.pool], x.cell), x.cell, OK).0], isr := s.isr - multiset{x})
  }

  /** The oldest queued object is released; a callback that keeps it has it now. */
  function ReleaseOne(s: Shared, answer: Status): (Shared, Status)
    requires s.retQ != [] && s.retQ[0].pool < |s.pools|
  {
    var x := s.retQ[0];
    var (p, st) := Release(s.pools[x.pool], x.cell, answer);
    var others := if x.cell in p.live then s.others + multiset{x} else s.others;
    (s.(pools := s.pools[x.pool := p], retQ := s.retQ[1..], others := others), st)
  }

  lemma Held(s: Shared, x: Obj)
    requires Conserved(s) && (x in s.retQ || x in s.isr || x in s.others)
    ensures Live(s.pools, x)
  {
    assert x in multiset(s.retQ) + s.isr + s.others;
  }

  /** The queue holds nothing twice. */
  lemma QueuedOnce(s: Shared)
    requires Conserved(s) && s.retQ != []
    ensures s.retQ[0] !in s.retQ[1..]
  {
    var x := s.retQ[0];
    assert s.retQ == [x] + s.retQ[1..];
    assert (multiset(s.retQ) + s.isr + s.others)[x] <= 1;
    assert multiset(s.retQ)[x] == 1 + multiset(s.retQ[1..])[x];
  }

  /** Nothing is lost when the queue overflows: the object is free again. */
  lemma HandBackKeeps(s: Shared, x: Obj)
    requires Conserved(s) && x in s.isr
    ensures Live(s.pools, x) && Conserved(HandBack(s, x))
    ensures Live(HandBack(s, x).pools, x) <==> |s.retQ| < RET_Q_LEN
    ensures HandBack(s, x).isr == s.isr - multiset{x} && HandBack(s, x).others == s.others
    ensures HandBack(s, x).retQ == if |s.retQ| < RET_Q_LEN then s.retQ + [x] else s.retQ
  {
    Held(s, x);
    var r := HandBack(s, x);
    assert |s.retQ| < RET_Q_LEN ==> multiset(r.retQ) == multiset(s.retQ) + multiset{x};
    assert (multiset(s.retQ) + s.isr + s.others)[x] == 1;
    forall y: Obj ensures (multiset(r.retQ) + r.isr + r.others)[y] == if Live(r.pools, y) then 1 else 0 {
      assert Live(s.pools, y) || (multiset(s.retQ) + s.isr + s.others)[y] == 0;
    }
  }

  lemma ReleaseOneKeeps(s: Shared, answer: Status)
    requires Conserved(s) && s.retQ != []
    ensures Live(s.pools, s.retQ[0])
    ensures var (r, st) := ReleaseOne(s, answer);
            var keeps := Hooked(s.pools, s.retQ[0]) && answer == Interrupt;
            && Conserved(r) && |r.pools| == |s.pools|
            && (forall y: Obj :: Live(r.pools, y) <==> Live(s.pools, y) && (y == s.retQ[0] ==> keeps))
            && (forall y: Obj | y != s.retQ[0] :: Hooked(r.pools, y) == Hooked(s.pools, y))
            && st == (if Hooked(s.pools, s.retQ[0]) && answer != Interrupt then answer else OK)
  {
    var x := s.retQ[0];
    Held(s, x);
    QueuedOnce(s);
    var (r, st) := ReleaseOne(s, answer);
    assert s.retQ == [x] + s.retQ[1..];
    forall y: Obj ensures (multiset(r.retQ) + r.isr + r.others)[y] == if Live(r.pools, y) then 1 else 0 {
      assert (multiset(s.retQ) + s.isr + s.others)[y] == if Live(s.pools, y) then 1 else 0;
    }
  }

  /** ProcessReturnPoolObjects; answers(i) is what the callback of the i-th object
      says, if it has one.  The second result is how much isrReqQ_errors grows. */
  ghost function ReleaseAll(s: Shared, answers: nat -> Status, k: nat): (r: (Shared, nat))
    requires Conserved(s)
    ensures Conserved(r.0) && r.0.retQ == [] && r.0.isr == s.isr
    decreases |s.retQ|
  {
    if s.retQ == [] then (s, 0)
    else
      ReleaseOneKeeps(s, answers(k));
      var (m, st) := ReleaseOne(s, answers(k));
      var (r, errors) := ReleaseAll(m, answers, k + 1);
      (r, errors + (if st == OK then 0 else 1))
  }

  ghost predicate KeptAt(s: Shared, answers: nat -> Status, k: nat, i: nat)
    requires i < |s.retQ|
  {
    Hooked(s.pools, s.retQ[i]) && answers(k + i) == Interrupt
  }

  ghost predicate KeptBy(s: Shared, answers: nat -> Status, k: nat, x: Obj) {
    exists i: nat :: i < |s.retQ| && s.retQ[i] == x && KeptAt(s, answers, k, i)
  }

  /** How many callbacks answer neither OK nor Status_Interrupt. */
  ghost function Complaints(pools: seq<Pool>, q: seq<Obj>, answers: nat -> Status, k: nat): nat {
    if q == [] then 0
    else
      (if Hooked(pools, q[0]) && answers(k) != OK && answers(k) != Interrupt then 1 else 0)
      + Complaints(pools, q[1..], answers, k + 1)
  }

  lemma {:induction false} ComplaintsFrame(pools: seq<Pool>, pools': seq<Pool>, q: seq<Obj>, answers: nat -> Status, k: nat)
    requires forall x | x in q :: Hooked(pools, x) == Hooked(pools', x)
    ensures Complaints(pools, q, answers, k) == Complaints(pools', q, answers, k)
    decreases |q|
  {
    if q == [] {
    } else {
      ComplaintsFrame(pools, pools', q[1..], answers, k + 1);
    }
  }

  lemma KeptByFirst(s: Shared, answers: nat -> Status, k: nat)
    requires Conserved(s) && s.retQ != []
    ensures KeptBy(s, answers, k, s.retQ[0]) <==> KeptAt(s, answers, k, 0)
  {
    QueuedOnce(s);
    forall i: nat | 0 < i < |s.retQ| ensures s.retQ[i] != s.retQ[0] {
      assert s.retQ[i] == s.retQ[1..][i - 1];
    }
  }

  lemma KeptByRest(s: Shared, m: Shared, answers: nat -> Status, k: nat, x: Obj)
    requires s.retQ != [] && x != s.retQ[0] && m.retQ == s.retQ[1..]
    requires forall y: Obj | y != s.retQ[0] :: Hooked(m.pools, y) == Hooked(s.pools, y)
    ensures KeptBy(m, answers, k + 1, x) <==> KeptBy(s, answers, k, x)
  {
    if KeptBy(m, answers, k + 1, x) {
      var i: nat :| i < |m.retQ| && m.retQ[i] == x && KeptAt(m, answers, k + 1, i);
      assert s.retQ[i + 1] == x && k + 1 + i == k + (i + 1) && KeptAt(s, answers, k, i + 1);
    }
    if KeptBy(s, answers, k, x) {
      var i: nat :| i < |s.retQ| && s.retQ[i] == x && KeptAt(s, answers, k, i);
      assert m.retQ[i - 1] == x && k + i == k + 1 + (i - 1) && KeptAt(m, answers, k + 1, i - 1);
    }
  }

  /** What one ProcessReturnPoolObjects does: every queued object is free
      afterwards, unless its own callback kept it; no other object is touched; and
      the only errors counted are complaints of callbacks. */
  lemma {:induction false} ReleaseAllFrees(s: Shared, answers: nat -> Status, k: nat)
    requires Conserved(s)
    ensures var (r, errors) := ReleaseAll(s, answers, k);
            && (forall x: Obj :: Live(r.pools, x) <==> Live(s.pools, x) && (x in s.retQ ==> KeptBy(s, answers, k, x)))
            && errors == Complaints(s.pools, s.retQ, answers, k)
    decreases |s.retQ|
  {
    hide Conserved, Release, Live;
    if s.retQ == [] {
    } else {
      ReleaseOneKeeps(s, answers(k));
      var (m, st) := ReleaseOne(s, answers(k));
      QueuedOnce(s);
      ReleaseAllFrees(m, answers, k + 1);
      ComplaintsFrame(s.pools, m.pools, m.retQ, answers, k + 1);
      KeptByFirst(s, answers, k);
      var (r, errors) := ReleaseAll(s, answers, k);
      forall x: Obj ensures Live(r.pools, x) <==> Live(s.pools, x) && (x in s.retQ ==> KeptBy(s, answers, k, x)) {
        if x != s.retQ[0] {
          KeptByRest(s, m, answers, k, x);
          assert x in s.retQ <==> x in m.retQ;
        }
      }
    }
  }

  /** Nothing leaks: with no object in anybody's hands and no callback keeping one,
      a pass over the queue leaves every pool empty. */
  lemma NothingLeaks(s: Shared, answers: nat -> Status, k: nat)
    requires Conserved(s) && s.isr == multiset{} && s.others == multiset{}
    requires forall i: nat | i < |s.retQ| :: !KeptAt(s, answers, k, i)
    ensures forall x: Obj :: !Live(ReleaseAll(s, answers, k).0.pools, x)
  {
    hide Live, ReleaseAll;
    ReleaseAllFrees(s, answers, k);
    forall x: Obj | Live(s.pools, x) ensures x in s.retQ {
      assert (multiset(s.retQ) + s.isr + s.others)[x] == 1;
      assert x in multiset(s.retQ);
    }
  }

  // -------------------------------------------------------------------- the code

  class ReturnQueue {
    const pools: array<Pool>
    const isrRetQ: Ring<Obj>
    const answers: nat -> Status
    var asked: nat
    var droppedObjects: nat        // isrReqQ_dropped_objects
    var errors: nat                // isrReqQ_errors
    ghost var isr: multiset<Obj>
    ghost var others: multiset<Obj>

    ghost function Repr(): set<object> {
      {this, pools} + isrRetQ.Repr()
    }

    ghost function View(): Shared
      reads Repr()
    {
      Shared(pools[..], isrRetQ.contents, isr, others)
    }

    ghost predicate Valid()
      reads Repr()
    {
      isrRetQ.Valid() && isrRetQ.Capacity() == RET_Q_LEN && Conserved(View())
    }

    constructor (pools: array<Pool>, answers: nat -> Status)
      requires forall p | 0 <= p < pools.Length :: PoolOk(pools[p]) && pools[p].live == {}
      ensures Valid() && this.pools == pools && this.answers == answers && droppedObjects == 0 && errors == 0
      ensures View() == Shared(pools[..], [], multiset{}, multiset{})
    {
      this.pools, this.answers := pools, answers;
      isrRetQ := new Ring(RET_Q_LEN + 1);
      asked, droppedObjects, errors := 0, 0, 0;
      isr, others := multiset{}, multiset{};
    }

    /** ReturnPoolObject, in an interrupt handler. */
    method ReturnPoolObject(x: Obj)
      requires Valid() && x in isr
      modifies Repr()
      ensures Valid() && Live(old(View()).pools, x) && View() == HandBack(old(View()), x)
      ensures droppedObjects == old(droppedObjects) + if |old(isrRetQ.contents)| == RET_Q_LEN then 1 else 0
    {
      hide Conserved, Ring.Valid, Release;
      ghost var was := View();
      HandBackKeeps(was, x);
      var st := isrRetQ.Put(x);
      isr := isr - multiset{x};
      if st != OK {
        droppedObjects := droppedObjects + 1;
        pools[x.pool] := Extract(pools[x.pool], x.cell);
        pools[x.pool] := Release(pools[x.pool], x.cell, OK).0;
      }
      assert pools[..] == HandBack(was, x).pools;
    }

    /** The condition and the body of its loop. */
    method ReleaseNext() returns (more: bool)
      requires Valid()
      modifies Repr()
      ensures Valid() && (more <==> old(isrRetQ.contents) != [])
      ensures !more ==> View() == old(View()) && errors == old(errors) && asked == old(asked)
      ensures more ==> Live(old(View()).pools, old(isrRetQ.contents)[0]) && asked == old(asked) + 1
      ensures more ==> View() == ReleaseOne(old(View()), answers(old(asked))).0
      ensures more ==> errors == old(errors) + (if ReleaseOne(old(View()), answers(old(asked))).1 == OK then 0 else 1)
    {
      hide Conserved, Ring.Valid, Release;
      ghost var was := View();
      if was.retQ != [] {
        ReleaseOneKeeps(was, answers(asked));
      }
      var st, x := isrRetQ.Get();
      more := st == OK;
      if more {
        var (p, answer) := Release(pools[x.pool], x.cell, answers(asked));
        pools[x.pool] := p;
        asked := asked + 1;
        if answer != OK {
          errors := errors + 1;
        }
        others := ReleaseOne(was, answers(old(asked))).0.others;
        assert pools[..] == ReleaseOne(was, answers(old(asked))).0.pools;
      }
    }

    /** ProcessReturnPoolObjects, in the main loop. */
    method ProcessReturnPoolObjects()
      requires Valid()
      modifies Repr()
      ensures Valid()
      ensures (View(), errors - old(errors)) == ReleaseAll(old(View()), answers, old(asked))
    {
      hide Conserved, Ring.Valid, Release;
      ghost var s0, k0, e0 := View(), asked, errors;
      var more := true;
      while more
        invariant Valid() && e0 <= errors
        invariant ReleaseAll(s0, answers, k0).0 == ReleaseAll(View(), answers, asked).0
        invariant ReleaseAll(s0, answers, k0).1 == errors - e0 + ReleaseAll(View(), answers, asked).1
        invariant !more ==> isrRetQ.contents == []
        decreases |isrRetQ.contents|, more
      {
        more := ReleaseNext();
      }
    }
  }
}
