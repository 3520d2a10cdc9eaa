// The mailbox of src/isr_comm.c when an interrupt may come between any two accesses to
// its rings: also between the copy of an object and the update of the index.
module MailboxSteps {
  import opened Base
  import opened RingSteps

  /** Both rings in the midst of their accesses, and who has which objects in hand.  An
      object is in hand until the index that hands it over is written. */
  datatype Box = Box(to: State, from: State, user: multiset<Object>, isr: multiset<Object>, live: set<Object>)

  /** One access by the user or the interrupt handler; the pool is the user's only. */
  datatype Move =
    | UserPuts(a: Access)         // in Ipt_SendToIsr
    | UserGets(a: Access)         // in Ipt_ReceiveFromIsr
    | IsrGets(a: Access)          // in Ipt_DequeueInIsr
    | IsrPuts(a: Access)          // in Ipt_ReturnToUserProcess
    | UserAllocates(x: Object)
    | UserFrees(x: Object)

  predicate IsPut(a: Access) {
    a.CallPut? || a == Compare || a == WriteByte || a == PublishNext
  }

  predicate IsGet(a: Access) {
    a == CallGet || a == ReadByte || a == PublishLast
  }

  /** Only what is in hand is put. */
  predicate MayPut(a: Access, hand: multiset<Object>) {
    IsPut(a) && (a.CallPut? ==> a.item in hand)
  }

  /** What a hand holds after an access to a ring. */
  function HandAfter(hand: multiset<Object>, e: Effect): multiset<Object> {
    match e
    case Nothing => hand
    case Enqueue(x) => hand - multiset{x}
    case Dequeue(x) => hand + multiset{x}
  }

  function Depth(b: Box): int {
    |b.to.slots| - 1
  }

  ghost function Moved(b: Box, m: Move): Box
    requires Inv(b.to) && Inv(b.from)
  {
    match m
    case UserPuts(a) =>
      if MayPut(a, b.user) then b.(to := Step(b.to, a), user := HandAfter(b.user, EffectOf(b.to, a))) else b
    case UserGets(a) =>
      if IsGet(a) then b.(from := Step(b.from, a), user := HandAfter(b.user, EffectOf(b.from, a))) else b
    case IsrGets(a) =>
      if IsGet(a) then b.(to := Step(b.to, a), isr := HandAfter(b.isr, EffectOf(b.to, a))) else b
    case IsrPuts(a) =>
      if MayPut(a, b.isr) then b.(from := Step(b.from, a), isr := HandAfter(b.isr, EffectOf(b.from, a))) else b
    case UserAllocates(x) =>
      if x !in b.live && |b.live| < Depth(b) then b.(live := b.live + {x}, user := b.user + multiset{x}) else b
    case UserFrees(x) =>
      if x in b.user && b.to.p == Outside then b.(live := b.live - {x}, user := b.user - multiset{x}) else b
  }

  /** Who is putting an object still has it in hand. */
  predicate InHand(p: Producer, hand: multiset<Object>) {
    match p
    case Outside => true
    case Comparing(x) => x in hand
    case Writing(x, _) => x in hand
  }

  /** Every live object is on one ring or in one hand, and only once. */
  ghost predicate BoxOk(b: Box) {
    && Inv(b.to) && Inv(b.from) && |b.from.slots| == |b.to.slots| && |b.live| <= Depth(b)
    && multiset(Contents(b.to)) + multiset(Contents(b.from)) + b.user + b.isr == multiset(b.live)
    && InHand(b.to.p, b.user) && InHand(b.from.p, b.isr)
  }

  // ------------------------------------------------------------------- one access

  lemma EnqueuesInHand(s: State, a: Access, hand: multiset<Object>)
    requires Inv(s) && (MayPut(a, hand) || IsGet(a)) && (IsPut(a) ==> InHand(s.p, hand))
    ensures EffectOf(s, a).Enqueue? ==> EffectOf(s, a).x in hand
  {
  }

  lemma FifoMoves(q: seq<Object>, e: Effect, r: seq<Object>, capacity: nat, hand: multiset<Object>)
    requires FifoStep(q, e, r, capacity) && (e.Enqueue? ==> e.x in hand)
    ensures multiset(r) + HandAfter(hand, e) == multiset(q) + hand
  {
    match e {
      case Nothing =>
      case Enqueue(x) =>
        assert hand == (hand - multiset{x}) + multiset{x};
      case Dequeue(x) =>
        assert q == [q[0]] + q[1..];
    }
  }

  lemma AccessSides(s: State, a: Access, hand: multiset<Object>)
    requires Inv(s) && (MayPut(a, hand) || IsGet(a)) && (IsPut(a) ==> InHand(s.p, hand))
    ensures |Step(s, a).slots| == |s.slots|
    ensures IsPut(a) ==> InHand(Step(s, a).p, HandAfter(hand, EffectOf(s, a)))
    ensures IsGet(a) ==> Step(s, a).p == s.p && hand <= HandAfter(hand, EffectOf(s, a))
  {
  }

  /** An access moves at most one object between a ring and a hand. */
  lemma RingAndHand(s: State, a: Access, hand: multiset<Object>)
    requires Inv(s) && (MayPut(a, hand) || IsGet(a)) && (IsPut(a) ==> InHand(s.p, hand))
    ensures var r, h := Step(s, a), HandAfter(hand, EffectOf(s, a));
            && Inv(r) && |r.slots| == |s.slots|
            && multiset(Contents(r)) + h == multiset(Contents(s)) + hand
            && (IsPut(a) ==> InHand(r.p, h)) && (IsGet(a) ==> r.p == s.p && hand <= h)
  {
    hide Stored, ProducerOk, ConsumerOk, Step, EffectOf, HandAfter;
    StepRefinesFifo(s, a);
    EnqueuesInHand(s, a, hand);
    FifoMoves(Contents(s), EffectOf(s, a), Contents(Step(s, a)), |s.slots| - 1, hand);
    AccessSides(s, a, hand);
  }

  lemma InMoreHands(p: Producer, hand: multiset<Object>, more: multiset<Object>)
    requires InHand(p, hand) && hand <= more
    ensures InHand(p, more)
  {
  }

  /** The sum over all places, if a ring's and a hand's does not change. */
  lemma SameSum(q: multiset<Object>, r: multiset<Object>, h: multiset<Object>, q': multiset<Object>, h': multiset<Object>, k: multiset<Object>)
    requires q' + h' == q + h
    ensures q' + r + h' + k == q + r + h + k && r + q' + h' + k == r + q + h + k
    ensures q' + r + k + h' == q + r + k + h && r + q' + k + h' == r + q + k + h
  {
    var sum := (q + h) + (r + k);
    assert q' + r + h' + k == (q' + h') + (r + k) == sum == q + r + h + k;
    assert r + q' + h' + k == (q' + h') + (r + k) == sum == r + q + h + k;
    assert q' + r + k + h' == (q' + h') + (r + k) == sum == q + r + k + h;
    assert r + q' + k + h' == (q' + h') + (r + k) == sum == r + q + k + h;
  }

  lemma PutOrGet(a: Access)
    ensures IsPut(a) <==> !IsGet(a)
  {
  }

  lemma MayPutIsPut(a: Access, hand: multiset<Object>)
    requires MayPut(a, hand)
    ensures IsPut(a)
  {
  }

  lemma RingMoveKeeps(b: Box, m: Move)
    requires BoxOk(b) && !m.UserAllocates? && !m.UserFrees?
    ensures BoxOk(Moved(b, m)) && Depth(Moved(b, m)) == Depth(b)
  {
    hide Stored, ProducerOk, ConsumerOk, Step, EffectOf, HandAfter, InHand, MayPut, IsPut, IsGet;
    PutOrGet(m.a);
    var c := Moved(b, m);
    match m {
      case UserPuts(a) =>
        if MayPut(a, b.user) {
          MayPutIsPut(a, b.user);
          RingAndHand(b.to, a, b.user);
          SameSum(multiset(Contents(b.to)), multiset(Contents(b.from)), b.user, multiset(Contents(c.to)), c.user, b.isr);
        }
      case UserGets(a) =>
        if IsGet(a) {
          RingAndHand(b.from, a, b.user);
          InMoreHands(b.to.p, b.user, c.user);
          SameSum(multiset(Contents(b.from)), multiset(Contents(b.to)), b.user, multiset(Contents(c.from)), c.user, b.isr);
        }
      case IsrGets(a) =>
        if IsGet(a) {
          RingAndHand(b.to, a, b.isr);
          InMoreHands(b.from.p, b.isr, c.isr);
          SameSum(multiset(Contents(b.to)), multiset(Contents(b.from)), b.isr, multiset(Contents(c.to)), c.isr, b.user);
        }
      case IsrPuts(a) =>
        if MayPut(a, b.isr) {
          MayPutIsPut(a, b.isr);
          RingAndHand(b.from, a, b.isr);
          SameSum(multiset(Contents(b.from)), multiset(Contents(b.to)), b.isr, multiset(Contents(c.from)), c.isr, b.user);
        }
    }
  }

  lemma PoolMoveKeeps(b: Box, m: Move)
    requires BoxOk(b) && (m.UserAllocates? || m.UserFrees?)
    ensures BoxOk(Moved(b, m)) && Depth(Moved(b, m)) == Depth(b)
  {
    hide Stored, ProducerOk, ConsumerOk;
    MultisetOfSet(b.live, m.x);
    if m.UserAllocates? {
      InMoreHands(b.to.p, b.user, b.user + multiset{m.x});
    } else if m.x in b.user {
      assert m.x in multiset(b.live);
      assert b.user == (b.user - multiset{m.x}) + multiset{m.x};
    }
  }

  lemma MovedKeeps(b: Box, m: Move)
    requires BoxOk(b)
    ensures BoxOk(Moved(b, m)) && Depth(Moved(b, m)) == Depth(b)
  {
    if m.UserAllocates? || m.UserFrees? {
      PoolMoveKeeps(b, m);
    } else {
      RingMoveKeeps(b, m);
    }
  }

  lemma RoomToWrite(s: State)
    requires Inv(s) && s.p.Comparing? && |Contents(s)| < |s.slots| - 1
    ensures Step(s, Compare).p == Writing(s.p.item, 0)
  {
    StepRefinesFifo(s, Compare);
  }

  /** The pigeonhole, at the very access: whoever compares the indices with an object in
      hand finds room, whatever the other side is in the midst of. */
  lemma NeverFull(b: Box)
    requires BoxOk(b)
    ensures b.to.p.Comparing? ==> Step(b.to, Compare).p == Writing(b.to.p.item, 0)
    ensures b.from.p.Comparing? ==> Step(b.from, Compare).p == Writing(b.from.p.item, 0)
  {
    hide Stored, ProducerOk, ConsumerOk;
    var q, r := Contents(b.to), Contents(b.from);
    assert |multiset(q) + multiset(r) + b.user + b.isr| == |q| + |r| + |b.user| + |b.isr| == |b.live|;
    if b.to.p.Comparing? {
      assert b.user == (b.user - multiset{b.to.p.item}) + multiset{b.to.p.item};
      RoomToWrite(b.to);
    }
    if b.from.p.Comparing? {
      assert b.isr == (b.isr - multiset{b.from.p.item}) + multiset{b.from.p.item};
      RoomToWrite(b.from);
    }
  }

  // --------------------------------------------------------------- every schedule

  ghost function MovedAll(b: Box, ms: seq<Move>): (r: Box)
    requires BoxOk(b)
    ensures BoxOk(r) && Depth(r) == Depth(b)
    decreases |ms|
  {
    if ms == [] then b
    else
      MovedKeeps(b, ms[0]);
      MovedAll(Moved(b, ms[0]), ms[1..])
  }

  /** Conservation under every interleaving of single accesses: from an empty mailbox
      each live object is always on one of the rings or in one hand, once, and no put
      on either ring ever finds it full. */
  lemma ConservedAtEveryAccess(size: nat, slots: seq<Object>, ms: seq<Move>)
    requires |slots| >= 2 && forall i | 0 <= i < |slots| :: |slots[i]| == size
    ensures var b := Box(Start(size, slots), Start(size, slots), multiset{}, multiset{}, {});
            && BoxOk(b)
            && var r := MovedAll(b, ms);
               && Inv(r.to) && Inv(r.from)
               && multiset(Contents(r.to)) + multiset(Contents(r.from)) + r.user + r.isr == multiset(r.live)
               && |r.live| <= |slots| - 1
               && (r.to.p.Comparing? ==> Step(r.to, Compare).p.Writing?)
               && (r.from.p.Comparing? ==> Step(r.from, Compare).p.Writing?)
  {
    StartInv(size, slots);
    var b := Box(Start(size, slots), Start(size, slots), multiset{}, multiset{}, {});
    assert Contents(b.to) == [];
    NeverFull(MovedAll(b, ms));
  }

  // --------------------------------------------------------------- whole transfers

  /** Who does a whole transfer. */
  datatype Role = Sender | Receiver | Dequeuer | Returner

  function Acting(role: Role, a: Access): Move {
    match role
    case Sender => UserPuts(a)
    case Receiver => UserGets(a)
    case Dequeuer => IsrGets(a)
    case Returner => IsrPuts(a)
  }

  function ActingAll(role: Role, accesses: seq<Access>): seq<Move> {
    if accesses == [] then [] else [Acting(role, accesses[0])] + ActingAll(role, accesses[1..])
  }

  function RingOf(b: Box, role: Role): State {
    if role == Sender || role == Dequeuer then b.to else b.from
  }

  function OtherRing(b: Box, role: Role): State {
    if role == Sender || role == Dequeuer then b.from else b.to
  }

  function HandOf(b: Box, role: Role): multiset<Object> {
    if role == Sender || role == Receiver then b.user else b.isr
  }

  function OtherHand(b: Box, role: Role): multiset<Object> {
    if role == Sender || role == Receiver then b.isr else b.user
  }

  predicate Fitting(role: Role, a: Access, hand: multiset<Object>) {
    if role == Sender || role == Returner then MayPut(a, hand) else IsGet(a)
  }

  lemma ActingMoves(b: Box, role: Role, a: Access)
    requires BoxOk(b) && Fitting(role, a, HandOf(b, role))
    ensures var r := Moved(b, Acting(role, a));
            && RingOf(r, role) == Step(RingOf(b, role), a) && OtherRing(r, role) == OtherRing(b, role)
            && OtherHand(r, role) == OtherHand(b, role) && r.live == b.live
  {
    hide Stored, ProducerOk, ConsumerOk, Step, EffectOf, HandAfter, MayPut, IsGet;
  }

  /** The accesses of one side alone, to their end. */
  lemma {:induction false} ActingRuns(b: Box, role: Role, accesses: seq<Access>)
    requires BoxOk(b)
    requires forall a | a in accesses :: Fitting(role, a, multiset{})
    ensures Inv(RingOf(b, role))
    ensures var r := MovedAll(b, ActingAll(role, accesses));
            && RingOf(r, role) == Run(RingOf(b, role), accesses) && OtherRing(r, role) == OtherRing(b, role)
            && OtherHand(r, role) == OtherHand(b, role) && r.live == b.live
    decreases |accesses|
  {
    hide Stored, ProducerOk, ConsumerOk, Step, Moved;
    if accesses == [] {
    } else {
      var a := accesses[0];
      assert Fitting(role, a, multiset{}) && Fitting(role, a, HandOf(b, role));
      ActingMoves(b, role, a);
      MovedKeeps(b, Acting(role, a));
      ActingRuns(Moved(b, Acting(role, a)), role, accesses[1..]);
    }
  }

  lemma Cancel<T>(a: multiset<T>, b: multiset<T>, c: multiset<T>)
    requires a + c == b + c
    ensures a == b
  {
    assert a == (a + c) - c == (b + c) - c == b;
  }

  /** What conservation leaves for the hand, when only it and one ring have changed. */
  lemma HandFollows(b: Box, r: Box, role: Role)
    requires BoxOk(b) && BoxOk(r) && r.live == b.live
    requires OtherRing(r, role) == OtherRing(b, role) && OtherHand(r, role) == OtherHand(b, role)
    ensures Inv(RingOf(b, role)) && Inv(RingOf(r, role))
    ensures multiset(Contents(RingOf(r, role))) + HandOf(r, role) == multiset(Contents(RingOf(b, role))) + HandOf(b, role)
  {
    hide Stored, ProducerOk, ConsumerOk;
    var q, q' := multiset(Contents(RingOf(b, role))), multiset(Contents(RingOf(r, role)));
    var rest := multiset(Contents(OtherRing(b, role))) + OtherHand(b, role);
    assert (q + HandOf(b, role)) + rest == multiset(b.live) == (q' + HandOf(r, role)) + rest;
    Cancel(q + HandOf(b, role), q' + HandOf(r, role), rest);
  }

  lemma GoneFromHand(q: seq<Object>, x: Object, h: multiset<Object>, h': multiset<Object>)
    requires multiset(q + [x]) + h' == multiset(q) + h
    ensures h' == h - multiset{x}
  {
    assert (h' + multiset{x}) + multiset(q) == multiset(q + [x]) + h' == h + multiset(q);
    Cancel(h' + multiset{x}, h, multiset(q));
  }

  lemma RepeatsOnly(a: Access, n: nat)
    ensures forall e | e in Repeat(a, n) :: e == a
  {
  }

  lemma PutRuns(b: Box, role: Role, x: Object)
    requires BoxOk(b) && (role == Sender || role == Returner) && x in HandOf(b, role)
    ensures Inv(RingOf(b, role))
    ensures var r := MovedAll(b, ActingAll(role, PutAlone(x, |x|)));
            && RingOf(r, role) == Run(RingOf(b, role), PutAlone(x, |x|)) && OtherRing(r, role) == OtherRing(b, role)
            && OtherHand(r, role) == OtherHand(b, role) && r.live == b.live
  {
    hide Stored, ProducerOk, ConsumerOk, Step, Moved, InHand;
    var rest := [Compare] + Repeat(WriteByte, |x|) + [PublishNext];
    assert PutAlone(x, |x|) == [CallPut(x)] + rest && PutAlone(x, |x|)[1..] == rest;
    ActingMoves(b, role, CallPut(x));
    MovedKeeps(b, Acting(role, CallPut(x)));
    RepeatsOnly(WriteByte, |x|);
    ActingRuns(Moved(b, Acting(role, CallPut(x))), role, rest);
  }

  lemma RoomForHand(b: Box, role: Role, x: Object)
    requires BoxOk(b) && x in HandOf(b, role)
    ensures Inv(RingOf(b, role)) && |Contents(RingOf(b, role))| < |RingOf(b, role).slots| - 1
  {
    hide Stored, ProducerOk, ConsumerOk;
    var h := HandOf(b, role);
    assert h == (h - multiset{x}) + multiset{x};
    var q, r := Contents(b.to), Contents(b.from);
    assert |multiset(q) + multiset(r) + b.user + b.isr| == |q| + |r| + |b.user| + |b.isr| == |b.live|;
  }

  /** A whole send or hand-over, run by itself wherever the other side stands: the object
      leaves the hand and joins the ring behind the others. */
  lemma PutArrives(b: Box, role: Role, x: Object)
    requires BoxOk(b) && (role == Sender || role == Returner)
    requires x in HandOf(b, role) && RingOf(b, role).p == Outside && |x| == RingOf(b, role).size
    ensures Inv(RingOf(b, role))
    ensures var r := MovedAll(b, ActingAll(role, PutAlone(x, |x|)));
            && Inv(RingOf(r, role)) && RingOf(r, role).p == Outside
            && Contents(RingOf(r, role)) == Contents(RingOf(b, role)) + [x]
            && HandOf(r, role) == HandOf(b, role) - multiset{x}
            && OtherRing(r, role) == OtherRing(b, role) && OtherHand(r, role) == OtherHand(b, role) && r.live == b.live
  {
    hide Stored, ProducerOk, ConsumerOk, Step, Moved, PutAlone, ActingAll, InHand;
    PutRuns(b, role, x);
    PutCompletes(RingOf(b, role), x);
    RoomForHand(b, role, x);
    var r := MovedAll(b, ActingAll(role, PutAlone(x, |x|)));
    HandFollows(b, r, role);
    GoneFromHand(Contents(RingOf(b, role)), x, HandOf(b, role), HandOf(r, role));
  }

  lemma ComeIntoHand(q: seq<Object>, q': seq<Object>, x: Object, h: multiset<Object>, h': multiset<Object>)
    requires q == [x] + q' && multiset(q') + h' == multiset(q) + h
    ensures h' == h + multiset{x}
  {
    assert multiset(q) == multiset{x} + multiset(q');
    assert h' + multiset(q') == multiset(q) + h == (h + multiset{x}) + multiset(q');
    Cancel(h', h + multiset{x}, multiset(q'));
  }

  /** A whole dequeue or receive, likewise: the oldest object comes into the hand. */
  lemma GetArrives(b: Box, role: Role)
    requires BoxOk(b) && (role == Dequeuer || role == Receiver)
    requires Inv(RingOf(b, role)) && RingOf(b, role).c == Away && Contents(RingOf(b, role)) != []
    ensures var r := MovedAll(b, ActingAll(role, GetAlone(RingOf(b, role).size)));
            && Inv(RingOf(r, role)) && RingOf(r, role).c == Away
            && Contents(RingOf(b, role)) == [Contents(RingOf(b, role))[0]] + Contents(RingOf(r, role))
            && HandOf(r, role) == HandOf(b, role) + multiset{Contents(RingOf(b, role))[0]}
            && OtherRing(r, role) == OtherRing(b, role) && OtherHand(r, role) == OtherHand(b, role) && r.live == b.live
  {
    hide Stored, ProducerOk, ConsumerOk, Step, Moved, InHand;
    var s := RingOf(b, role);
    RepeatsOnly(ReadByte, s.size);
    ActingRuns(b, role, GetAlone(s.size));
    GetCompletes(s);
    var r := MovedAll(b, ActingAll(role, GetAlone(s.size)));
    HandFollows(b, r, role);
    var x := Contents(s)[0];
    ComeIntoHand(Contents(s), Contents(RingOf(r, role)), x, HandOf(b, role), HandOf(r, role));
  }
}
