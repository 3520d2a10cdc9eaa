// The ring of src/genQ.c shared by one producer and one consumer that run at the
// same time.  GenQ_Put and GenQ_Get are broken into their separate accesses to
// memory - read the other side's index, copy the object byte by byte, publish the
// own index - and a schedule interleaves them in any order whatever.
module RingSteps {
  import opened Base
  import opened GenQ

  type Byte = bv8
  type Object = seq<Byte>

  /** Where GenQ_Put stands: outside, about to compare with last, or having copied
      `done` bytes of its object into the slot at next. */
  datatype Producer = Outside | Comparing(item: Object) | Writing(item: Object, done: nat)

  /** Where GenQ_Get stands: outside, or having copied these bytes out of the slot
      at last. */
  datatype Consumer = Away | Reading(copy: Object)

  /** size is objectSize; produced and consumed are what has been put and got. */
  datatype State = State(
    size: nat, slots: seq<Object>, next: nat, last: nat, p: Producer, c: Consumer,
    produced: seq<Object>, consumed: seq<Object>)

  /** One access by one side. */
  datatype Access =
    | CallPut(item: Object)   // enter GenQ_Put, compute the following index
    | Compare                 // read last: give up if full
    | WriteByte               // one byte of memcpy into the slot
    | PublishNext             // give next its new value
    | CallGet                 // enter GenQ_Get, read next: give up if empty
    | ReadByte                // one byte of memcpy out of the slot
    | PublishLast             // give last its new value

  function Start(size: nat, slots: seq<Object>): State {
    State(size, slots, 0, 0, Outside, Away, [], [])
  }

  function End(s: State): nat
    requires |s.slots| >= 2
  {
    |s.slots| - 1
  }

  /** An access its side is not ready for does nothing. */
  function Step(s: State, a: Access): State
    requires |s.slots| >= 2 && s.next < |s.slots| && s.last < |s.slots|
    requires forall i | 0 <= i < |s.slots| :: |s.slots[i]| == s.size
  {
    match a
    case CallPut(item) =>
      if s.p.Outside? && |item| == s.size then s.(p := Comparing(item)) else s
    case Compare =>
      if !s.p.Comparing? then s
      else if NextInQ(s.next, End(s)) == s.last then s.(p := Outside)
      else s.(p := Writing(s.p.item, 0))
    case WriteByte =>
      if s.p.Writing? && s.p.done < s.size && s.p.done < |s.p.item| then
        s.(slots := s.slots[s.next := s.slots[s.next][s.p.done := s.p.item[s.p.done]]],
           p := Writing(s.p.item, s.p.done + 1))
      else s
    case PublishNext =>
      if s.p.Writing? && s.p.done == s.size then
        s.(next := NextInQ(s.next, End(s)), p := Outside, produced := s.produced + [s.p.item])
      else s
    case CallGet =>
      if s.c.Away? && s.next != s.last then s.(c := Reading([])) else s
    case ReadByte =>
      if s.c.Reading? && |s.c.copy| < s.size then
        s.(c := Reading(s.c.copy + [s.slots[s.last][|s.c.copy|]]))
      else s
    case PublishLast =>
      if s.c.Reading? && |s.c.copy| == s.size then
        s.(last := NextInQ(s.last, End(s)), c := Away, consumed := s.consumed + [s.c.copy])
      else s
  }

  // ---------------------------------------------------------------- invariant

  function InFlight(s: State): int {
    |s.produced| - |s.consumed|
  }

  ghost predicate Shape(s: State) {
    && |s.slots| >= 2 && s.next < |s.slots| && s.last < |s.slots|
    && (forall i | 0 <= i < |s.slots| :: |s.slots[i]| == s.size)
    && 0 <= InFlight(s) <= End(s)
    && s.next == Around(s.last, InFlight(s), |s.slots|)
  }

  /** The slots from last to next hold what was produced and not yet consumed. */
  ghost predicate Stored(s: State)
    requires Shape(s)
  {
    forall k: nat | k < InFlight(s) :: s.slots[Around(s.last, k, |s.slots|)] == s.produced[|s.consumed| + k]
  }

  ghost predicate ProducerOk(s: State)
    requires Shape(s)
  {
    match s.p
    case Outside => true
    case Comparing(item) => |item| == s.size
    case Writing(item, done) =>
      && |item| == s.size && done <= s.size
      && InFlight(s) < End(s) && s.slots[s.next][..done] == item[..done]
  }

  ghost predicate ConsumerOk(s: State)
    requires Shape(s)
  {
    s.c.Reading? ==> |s.c.copy| <= s.size && InFlight(s) > 0 && s.c.copy == s.slots[s.last][..|s.c.copy|]
  }

  ghost predicate Inv(s: State) {
    && Shape(s) && Stored(s) && ProducerOk(s) && ConsumerOk(s)
    && s.consumed == s.produced[..|s.consumed|]
  }

  lemma StartInv(size: nat, slots: seq<Object>)
    requires |slots| >= 2 && forall i | 0 <= i < |slots| :: |slots[i]| == size
    ensures Inv(Start(size, slots))
  {
  }

  /** A slot being written is never the slot being read, nor any slot still holding
      an object. */
  lemma SlotsApart(s: State)
    requires Inv(s) && s.p.Writing?
    ensures s.c.Reading? ==> s.next != s.last
    ensures forall k: nat | k < InFlight(s) :: Around(s.last, k, |s.slots|) != s.next
  {
  }

  // ------------------------------------------------------------- preservation

  lemma CompareKeeps(s: State)
    requires Inv(s)
    ensures Inv(Step(s, Compare))
    ensures s.p.Comparing? ==> (Step(s, Compare).p == Outside <==> InFlight(s) == End(s))
  {
    if s.p.Comparing? {
      assert NextInQ(s.next, End(s)) == s.last <==> InFlight(s) == End(s);
    }
  }

  lemma WriteKeeps(s: State)
    requires Inv(s)
    ensures Inv(Step(s, WriteByte))
  {
    var r := Step(s, WriteByte);
    if r != s {
      SlotsApart(s);
      var d := s.p.done;
      assert r.slots[s.next][..d + 1] == s.slots[s.next][..d] + [s.p.item[d]];
      assert s.p.item[..d + 1] == s.p.item[..d] + [s.p.item[d]];
      assert Stored(r);
    }
  }

  lemma PublishNextKeeps(s: State)
    requires Inv(s)
    ensures Inv(Step(s, PublishNext))
  {
    var r := Step(s, PublishNext);
    if r != s {
      assert s.slots[s.next] == s.p.item by {
        assert s.slots[s.next][..s.size] == s.slots[s.next] && s.p.item[..s.size] == s.p.item;
      }
      assert r.next == Around(s.last, InFlight(s) + 1, |s.slots|);
      forall k: nat | k < InFlight(r)
        ensures r.slots[Around(r.last, k, |r.slots|)] == r.produced[|r.consumed| + k]
      {
        if k < InFlight(s) {
          assert s.slots[Around(s.last, k, |s.slots|)] == s.produced[|s.consumed| + k];
        }
      }
    }
  }

  lemma ReadKeeps(s: State)
    requires Inv(s)
    ensures Inv(Step(s, ReadByte))
  {
    var r := Step(s, ReadByte);
    if r != s {
      var d := |s.c.copy|;
      assert s.slots[s.last][..d + 1] == s.slots[s.last][..d] + [s.slots[s.last][d]];
    }
  }

  lemma PublishLastKeeps(s: State)
    requires Inv(s)
    ensures Inv(Step(s, PublishLast))
  {
    var r := Step(s, PublishLast);
    if r != s {
      assert s.c.copy == s.slots[s.last] by {
        assert s.slots[s.last][..s.size] == s.slots[s.last];
      }
      assert s.slots[Around(s.last, 0, |s.slots|)] == s.produced[|s.consumed|];
      assert r.consumed == s.produced[..|s.consumed| + 1];
      forall k: nat | k < InFlight(r)
        ensures r.slots[Around(r.last, k, |r.slots|)] == r.produced[|r.consumed| + k]
      {
        assert Around(r.last, k, |r.slots|) == Around(s.last, k + 1, |s.slots|);
        assert s.slots[Around(s.last, k + 1, |s.slots|)] == s.produced[|s.consumed| + (k + 1)];
      }
    }
  }

  lemma StepKeeps(s: State, a: Access)
    requires Inv(s)
    ensures Inv(Step(s, a))
  {
    match a {
      case Compare => CompareKeeps(s);
      case WriteByte => WriteKeeps(s);
      case PublishNext => PublishNextKeeps(s);
      case ReadByte => ReadKeeps(s);
      case PublishLast => PublishLastKeeps(s);
      case CallPut(_) =>
      case CallGet =>
    }
  }

  // --------------------------------------------------- a bounded FIFO, refined

  /** What a queue with the given capacity may do in one step. */
  datatype Effect = Nothing | Enqueue(x: Object) | Dequeue(x: Object)

  ghost predicate FifoStep(q: seq<Object>, e: Effect, r: seq<Object>, capacity: nat) {
    match e
    case Nothing => r == q
    case Enqueue(x) => |q| < capacity && r == q + [x]
    case Dequeue(x) => q != [] && x == q[0] && r == q[1..]
  }

  function Contents(s: State): seq<Object>
    requires 0 <= |s.consumed| <= |s.produced|
  {
    s.produced[|s.consumed|..]
  }

  /** Publishing next is the moment of enqueueing, publishing last the moment of
      dequeueing, and nothing else shows. */
  function EffectOf(s: State, a: Access): Effect {
    match a
    case PublishNext => if s.p.Writing? && s.p.done == s.size then Enqueue(s.p.item) else Nothing
    case PublishLast => if s.c.Reading? && |s.c.copy| == s.size then Dequeue(s.c.copy) else Nothing
    case _ => Nothing
  }

  /** Every access under every interleaving is a step of the bounded FIFO; and Put
      reports full, Get reports empty, exactly when the FIFO is so at the moment
      the other side's index is read. */
  lemma StepRefinesFifo(s: State, a: Access)
    requires Inv(s)
    ensures Inv(Step(s, a))
    ensures FifoStep(Contents(s), EffectOf(s, a), Contents(Step(s, a)), |s.slots| - 1)
    ensures a == Compare && s.p.Comparing? ==> (Step(s, a).p == Outside <==> |Contents(s)| == |s.slots| - 1)
    ensures a == CallGet && s.c == Away ==> (Step(s, a).c == Away <==> Contents(s) == [])
  {
    StepKeeps(s, a);
    match a {
      case Compare => CompareKeeps(s);
      case PublishLast =>
        if EffectOf(s, a) != Nothing {
          assert s.slots[s.last][..s.size] == s.slots[s.last];
          assert s.slots[Around(s.last, 0, |s.slots|)] == s.produced[|s.consumed|];
        }
      case _ =>
    }
  }

  // ------------------------------------------------------------ every schedule

  ghost function Run(s: State, schedule: seq<Access>): (r: State)
    requires Inv(s)
    ensures Inv(r) && r.slots != [] && |r.slots| == |s.slots|
    decreases |schedule|
  {
    if schedule == [] then s
    else
      StepKeeps(s, schedule[0]);
      Run(Step(s, schedule[0]), schedule[1..])
  }

  /** Under every interleaving what has come out is a prefix of what has gone in,
      at most all but one of the slots are in use, no object is ever torn, and the
      two sides never touch the same slot at the same time. */
  lemma EverySchedule(size: nat, slots: seq<Object>, schedule: seq<Access>)
    requires |slots| >= 2 && forall i | 0 <= i < |slots| :: |slots[i]| == size
    ensures Inv(Start(size, slots))
    ensures var s := Run(Start(size, slots), schedule);
            && s.consumed <= s.produced
            && |s.produced| - |s.consumed| <= |slots| - 1
            && (s.p.Writing? && s.c.Reading? ==> s.next != s.last)
  {
    StartInv(size, slots);
    var s := Run(Start(size, slots), schedule);
    if s.p.Writing? {
      SlotsApart(s);
    }
  }

  /** The producer never writes last, the consumer never writes next or a slot. */
  lemma SidesKeepTheirIndex(s: State, a: Access)
    requires Inv(s)
    ensures a.CallPut? || a.Compare? || a.WriteByte? || a.PublishNext? ==> Step(s, a).last == s.last && Step(s, a).c == s.c
    ensures a.CallGet? || a.ReadByte? || a.PublishLast? ==>
              Step(s, a).next == s.next && Step(s, a).slots == s.slots && Step(s, a).p == s.p
  {
  }

  // ------------------------------------------------------------------ progress

  function Repeat(a: Access, n: nat): seq<Access> {
    if n == 0 then [] else [a] + Repeat(a, n - 1)
  }

  /** A whole GenQ_Put, and a whole GenQ_Get, when the other side stands still. */
  function PutAlone(item: Object, size: nat): seq<Access> {
    [CallPut(item), Compare] + Repeat(WriteByte, size) + [PublishNext]
  }

  function GetAlone(size: nat): seq<Access> {
    [CallGet] + Repeat(ReadByte, size) + [PublishLast]
  }

  lemma {:induction false} RunComposes(s: State, a: seq<Access>, b: seq<Access>)
    requires Inv(s)
    ensures Run(s, a + b) == Run(Run(s, a), b)
    decreases |a|
  {
    if a == [] {
      assert a + b == b;
    } else {
      StepKeeps(s, a[0]);
      assert (a + b)[1..] == a[1..] + b;
      RunComposes(Step(s, a[0]), a[1..], b);
    }
  }

  lemma {:induction false} WritesRun(s: State, n: nat)
    requires Inv(s)
    requires s.p.Writing? ==> s.p.done + n <= s.size
    requires !s.p.Comparing?
    ensures var r := Run(s, Repeat(WriteByte, n));
            && r.size == s.size && r.next == s.next && r.last == s.last && r.c == s.c
            && r.produced == s.produced && r.consumed == s.consumed
            && r.p == if s.p.Writing? then Writing(s.p.item, s.p.done + n) else s.p
    decreases n
  {
    if n == 0 {
    } else {
      StepKeeps(s, WriteByte);
      assert Repeat(WriteByte, n)[1..] == Repeat(WriteByte, n - 1);
      WritesRun(Step(s, WriteByte), n - 1);
    }
  }

  lemma {:induction false} ReadsRun(s: State, n: nat)
    requires Inv(s) && (s.c.Reading? ==> |s.c.copy| + n <= s.size)
    ensures var r := Run(s, Repeat(ReadByte, n));
            && r.size == s.size && r.next == s.next && r.last == s.last && r.p == s.p
            && r.produced == s.produced && r.consumed == s.consumed
            && r.c.Reading? == s.c.Reading? && (s.c.Reading? ==> |r.c.copy| == |s.c.copy| + n)
    decreases n
  {
    if n == 0 {
    } else {
      StepKeeps(s, ReadByte);
      assert Repeat(ReadByte, n)[1..] == Repeat(ReadByte, n - 1);
      ReadsRun(Step(s, ReadByte), n - 1);
    }
  }

  lemma RunOne(s: State, a: Access)
    requires Inv(s)
    ensures Run(s, [a]) == Step(s, a)
  {
    StepKeeps(s, a);
    assert [a][1..] == [];
  }

  lemma PutEnters(s: State, item: Object)
    requires Inv(s) && s.p == Outside && |item| == s.size
    ensures var r := Run(s, [CallPut(item), Compare]);
            r == s.(p := if |Contents(s)| < |s.slots| - 1 then Writing(item, 0) else Outside)
  {
    RunComposes(s, [CallPut(item)], [Compare]);
    assert [CallPut(item)] + [Compare] == [CallPut(item), Compare];
    RunOne(s, CallPut(item));
    StepKeeps(s, CallPut(item));
    RunOne(Step(s, CallPut(item)), Compare);
    CompareKeeps(Step(s, CallPut(item)));
  }

  /** Neither side waits for the other: wherever the consumer stands, a Put run by
      itself finishes, and enqueues exactly when there is room. */
  lemma PutCompletes(s: State, item: Object)
    requires Inv(s) && s.p == Outside && |item| == s.size
    ensures var r := Run(s, PutAlone(item, s.size));
            && r.p == Outside && r.c == s.c && r.consumed == s.consumed
            && Contents(r) == if |Contents(s)| < |s.slots| - 1 then Contents(s) + [item] else Contents(s)
  {
    var first := [CallPut(item), Compare];
    RunComposes(s, first + Repeat(WriteByte, s.size), [PublishNext]);
    RunComposes(s, first, Repeat(WriteByte, s.size));
    PutEnters(s, item);
    var s2 := Run(s, first);
    WritesRun(s2, s.size);
    var s3 := Run(s2, Repeat(WriteByte, s.size));
    RunOne(s3, PublishNext);
    StepRefinesFifo(s3, PublishNext);
  }

  /** Wherever the producer stands, a Get run by itself finishes and takes the oldest object, if any. */
  lemma GetCompletes(s: State)
    requires Inv(s) && s.c == Away
    ensures var r := Run(s, GetAlone(s.size));
            && r.c == Away && r.p == s.p && r.produced == s.produced
            && r.consumed == if Contents(s) == [] then s.consumed else s.consumed + [Contents(s)[0]]
  {
    RunComposes(s, [CallGet] + Repeat(ReadByte, s.size), [PublishLast]);
    RunComposes(s, [CallGet], Repeat(ReadByte, s.size));
    RunOne(s, CallGet);
    StepRefinesFifo(s, CallGet);
    var s1 := Step(s, CallGet);
    ReadsRun(s1, s.size);
    var s2 := Run(s1, Repeat(ReadByte, s.size));
    RunOne(s2, PublishLast);
    StepRefinesFifo(s2, PublishLast);
  }
}
