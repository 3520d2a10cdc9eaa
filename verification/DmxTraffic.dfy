// The DMX512 receiver while its mailboxes are in use: the user allocates, sends,
// receives and returns buffers between the chunks of the byte stream.
module DmxTraffic {
  import opened Base
  import opened IsrComm
  import opened Dmx
  import opened DmxTheorems

  // ---------------------------------------------------------------- conservation

  /** What the user may do with device i's mailbox, and the interrupts between. */
  datatype Op =
    | Chunk(bytes: seq<Byte>)                       // zero length is a break
    | LineBreak
    | LineReset                                     // DMX_receiver_reset
    | UserAllocate(i: nat, onRelease: nat)
    | UserSend(i: nat, obj: nat)
    | UserReceive(i: nat)
    | UserReturn(i: nat, obj: nat, answer: Status)

  ghost function WithBox(r: Receiver, i: nat, b: Mailbox): Receiver
    requires i < |r.devs|
  {
    r.(devs := r.devs[i := r.devs[i].(box := b)])
  }

  /** A mailbox call by the user. */
  predicate IsCall(op: Op) {
    op.UserAllocate? || op.UserSend? || op.UserReceive? || op.UserReturn?
  }

  /** The user only hands over what it has. */
  ghost function Apply(r: Receiver, op: Op): Receiver
    requires ReceiverOk(r)
  {
    match op
    case Chunk(bytes) => UseRawData(r, bytes)
    case LineBreak => Break(r)
    case LineReset => Reset(r)
    case UserAllocate(i, onRelease) =>
      if i < |r.devs| then WithBox(r, i, Allocate(r.devs[i].box, onRelease).0) else r
    case UserSend(i, obj) =>
      if i < |r.devs| && obj in r.devs[i].box.user then WithBox(r, i, Send(r.devs[i].box, obj).0) else r
    case UserReceive(i) =>
      if i < |r.devs| then WithBox(r, i, Receive(r.devs[i].box).0) else r
    case UserReturn(i, obj, answer) =>
      if i < |r.devs| && obj in r.devs[i].box.user then WithBox(r, i, PoolReturn(r.devs[i].box, obj, answer).0) else r
  }

  lemma BreakKeepsOk(r: Receiver)
    requires ReceiverOk(r)
    ensures ReceiverOk(Break(r))
  {
    forall i | 0 <= i < |r.devs| ensures DeviceOk(Break(r).devs[i]) {
      RewindKeeps(r.devs[i]);
    }
  }

  lemma FeedKeepsOk(r: Receiver, bytes: seq<Byte>)
    requires ReceiverOk(r)
    ensures ReceiverOk(UseRawData(r, bytes))
  {
    if bytes == [] {
      BreakKeepsOk(r);
    }
  }

  lemma ResetKeepsOk(r: Receiver)
    requires ReceiverOk(r)
    ensures ReceiverOk(Reset(r))
  {
    forall i | 0 <= i < |r.devs| ensures DeviceOk(Reset(r).devs[i]) {
      ResetKeeps(r.devs[i]);
    }
  }

  lemma WithBoxKeeps(r: Receiver, i: nat, b: Mailbox)
    requires ReceiverOk(r) && i < |r.devs|
    requires Conserved(b) && b.isr == r.devs[i].box.isr && b.pool.size == r.devs[i].box.pool.size
    ensures ReceiverOk(WithBox(r, i, b))
  {
    hide Conserved;
  }

  lemma BoxConserved(r: Receiver, i: nat)
    requires ReceiverOk(r) && i < |r.devs|
    ensures Conserved(r.devs[i].box)
  {
    assert DeviceOk(r.devs[i]);
  }

  lemma UserKeeps(r: Receiver, op: Op)
    requires ReceiverOk(r) && IsCall(op) && op.i < |r.devs|
    ensures ReceiverOk(Apply(r, op))
  {
    hide Conserved, WithBox, ReceiverOk, Allocate, Send, Receive, PoolReturn;
    assert Conserved(r.devs[op.i].box) && ReceiverOk(r) by { BoxConserved(r, op.i); }
    var box := r.devs[op.i].box;
    match op {
      case UserAllocate(i, onRelease) =>
        AllocateKeeps(box, onRelease);
        WithBoxKeeps(r, i, Allocate(box, onRelease).0);
      case UserSend(i, obj) =>
        if obj in box.user {
          SendKeeps(box, obj);
          WithBoxKeeps(r, i, Send(box, obj).0);
        }
      case UserReceive(i) =>
        ReceiveKeeps(box);
        WithBoxKeeps(r, i, Receive(box).0);
      case UserReturn(i, obj, answer) =>
        if obj in box.user {
          PoolReturnKeeps(box, obj, answer);
          WithBoxKeeps(r, i, PoolReturn(box, obj, answer).0);
        }
    }
  }

  lemma ApplyKeeps(r: Receiver, op: Op)
    requires ReceiverOk(r)
    ensures ReceiverOk(Apply(r, op)) && |Apply(r, op).devs| == |r.devs|
  {
    hide DeviceOk;
    match op {
      case Chunk(bytes) =>
        FeedKeepsOk(r, bytes);
      case LineBreak =>
        BreakKeepsOk(r);
      case LineReset =>
        ResetKeepsOk(r);
      case _ =>
        if op.i < |r.devs| {
          UserKeeps(r, op);
        }
    }
  }

  ghost function ApplyAll(r: Receiver, ops: seq<Op>): (u: Receiver)
    requires ReceiverOk(r)
    ensures ReceiverOk(u) && |u.devs| == |r.devs|
    decreases |ops|
  {
    if ops == [] then r
    else
      ApplyKeeps(r, ops[0]);
      ApplyAll(Apply(r, ops[0]), ops[1..])
  }

  /** Buffer conservation over every sequence of chunks, breaks, resets and mailbox
      calls: each live buffer of a device is on exactly one of its two rings, in
      the device or in the user's hands; and what the device holds can always be
      given back, for there is room. */
  lemma BuffersAreConserved(r: Receiver, ops: seq<Op>, i: nat)
    requires ReceiverOk(r) && i < |r.devs|
    ensures var d := ApplyAll(r, ops).devs[i];
            var held := if d.data.Some? then multiset{d.data.value} else multiset{};
            && multiset(d.box.toQ) + multiset(d.box.fromQ) + held + d.box.user == multiset(d.box.pool.live)
            && |d.box.toQ| <= d.box.pool.size && |d.box.fromQ| <= d.box.pool.size
            && (d.data.Some? ==> |d.box.fromQ| < d.box.pool.size)
  {
    var d := ApplyAll(r, ops).devs[i];
    assert DeviceOk(d);
    RoomInBoth(d.box);
    if d.data.Some? {
      HeldIsCell(d);
      RoomForHeld(d.box, d.data.value);
    }
  }

  // ------------------------------------------------------------ what a call does

  /** A mailbox call takes device d to e. */
  ghost predicate Called(d: Device, e: Device, op: Op)
    requires IsCall(op)
  {
    var b, c := d.box, e.box;
    && e.(box := b) == d
    && match op
       case UserAllocate(_, fn) =>
         if b.pool.live == Cells(b.pool.size) then c == b
         else exists x :: x !in b.pool.live && c.pool.live == b.pool.live + {x} && c == b.(pool := c.pool, user := b.user + multiset{x})
       case UserSend(_, x) =>
         c == if x in b.user then b.(toQ := b.toQ + [x], user := b.user - multiset{x}) else b
       case UserReceive(_) =>
         if b.fromQ == [] then c == b
         else b.fromQ == [b.fromQ[0]] + c.fromQ && c == b.(fromQ := c.fromQ, user := b.user + multiset{b.fromQ[0]})
       case UserReturn(_, x, answer) =>
         if x !in b.user || (x in b.pool.hooks && answer == Interrupt) then c == b
         else c.pool.live == b.pool.live - {x} && c == b.(pool := c.pool, user := b.user - multiset{x})
  }

  lemma BoxesCalled(d: Device, e: Device, op: Op)
    requires Conserved(d.box) && IsCall(op) && e.(box := d.box) == d
    requires match op
             case UserAllocate(_, fn) => e.box == Allocate(d.box, fn).0
             case UserSend(_, x) => e.box == if x in d.box.user then Send(d.box, x).0 else d.box
             case UserReceive(_) => e.box == Receive(d.box).0
             case UserReturn(_, x, answer) => e.box == if x in d.box.user then PoolReturn(d.box, x, answer).0 else d.box
    ensures Called(d, e, op)
  {
    hide Conserved, Allocate, Send, Receive, PoolReturn;
    match op {
      case UserAllocate(_, fn) =>
        AllocateKeeps(d.box, fn);
      case UserSend(_, x) =>
        if x in d.box.user {
          SendKeeps(d.box, x);
        }
      case UserReceive(_) =>
        ReceiveKeeps(d.box);
      case UserReturn(_, x, answer) =>
        if x in d.box.user {
          PoolReturnKeeps(d.box, x, answer);
          RoomInBoth(d.box);
        }
    }
  }

  /** A mailbox call does this to its device, and nothing to the line and the others. */
  lemma CallExact(r: Receiver, op: Op)
    requires ReceiverOk(r) && IsCall(op)
    ensures var u := Apply(r, op);
            && u.slotCnt == r.slotCnt && u.slot0 == r.slot0 && |u.devs| == |r.devs|
            && (forall j | 0 <= j < |r.devs| && j != op.i :: u.devs[j] == r.devs[j])
            && (op.i < |r.devs| ==> Called(r.devs[op.i], u.devs[op.i], op))
  {
    hide DeviceOk, Called, Allocate, Send, Receive, PoolReturn;
    if op.i < |r.devs| {
      BoxConserved(r, op.i);
      BoxesCalled(r.devs[op.i], Apply(r, op).devs[op.i], op);
    }
  }

  // --------------------------------------------------------------------- offline

  /** A break or a reset. */
  predicate EndsFrame(op: Op) {
    op == LineBreak || op == LineReset || op == Chunk([])
  }

  /** Untouched but for what the user did to its mailbox: nothing was stored, and no
      buffer was fetched or handed back. */
  ghost predicate Untouched(d: Device, e: Device) {
    e.(box := d.box) == d && e.box.isr == d.box.isr && d.box.toQ <= e.box.toQ
  }

  lemma UserLeavesLine(r: Receiver, op: Op)
    requires ReceiverOk(r) && IsCall(op)
    ensures |Apply(r, op).devs| == |r.devs| && Apply(r, op).slotCnt == r.slotCnt && Apply(r, op).slot0 == r.slot0
  {
    hide DeviceOk;
  }

  lemma CallsSpareRing(b: Mailbox, onRelease: nat, obj: nat, answer: Status)
    ensures var c := Allocate(b, onRelease).0; c.isr == b.isr && c.toQ == b.toQ
    ensures var c := Send(b, obj).0; c.isr == b.isr && b.toQ <= c.toQ
    ensures var c := Receive(b).0; c.isr == b.isr && c.toQ == b.toQ
    ensures var c := PoolReturn(b, obj, answer).0; c.isr == b.isr && c.toQ == b.toQ
  {
  }

  lemma UserLeavesDevice(r: Receiver, op: Op, i: nat)
    requires ReceiverOk(r) && IsCall(op) && i < |r.devs|
    ensures |Apply(r, op).devs| == |r.devs|
    ensures Untouched(r.devs[i], Apply(r, op).devs[i])
    ensures !op.UserSend? || op.i != i ==> Apply(r, op).devs[i].box.toQ == r.devs[i].box.toQ
  {
    hide ReceiverOk, Allocate, Send, Receive, PoolReturn;
    var b := r.devs[i].box;
    match op {
      case UserAllocate(_, onRelease) => CallsSpareRing(b, onRelease, 0, OK);
      case UserSend(_, obj) => CallsSpareRing(b, 0, obj, OK);
      case UserReceive(_) => CallsSpareRing(b, 0, 0, OK);
      case UserReturn(_, obj, answer) => CallsSpareRing(b, 0, obj, answer);
    }
  }

  /** After a wrong start code nothing the line or the user does reaches a device's
      buffer, until the next break. */
  lemma {:induction false} OfflineUntilBreak(r: Receiver, ops: seq<Op>)
    requires ReceiverOk(r) && r.slotCnt < 0 && forall op | op in ops :: !EndsFrame(op)
    ensures ApplyAll(r, ops).slotCnt == r.slotCnt
    ensures forall i | 0 <= i < |r.devs| :: Untouched(r.devs[i], ApplyAll(r, ops).devs[i])
    decreases |ops|
  {
    hide DeviceOk;
    if ops == [] {
    } else {
      var m := Apply(r, ops[0]);
      ApplyKeeps(r, ops[0]);
      assert !EndsFrame(ops[0]);
      if IsCall(ops[0]) {
        UserLeavesLine(r, ops[0]);
      }
      forall i | 0 <= i < |r.devs| ensures Untouched(r.devs[i], m.devs[i]) {
        if IsCall(ops[0]) {
          UserLeavesDevice(r, ops[0], i);
        }
      }
      hide Apply;
      OfflineUntilBreak(m, ops[1..]);
    }
  }

  /** A wrong start code is what takes the receiver offline. */
  lemma WrongStartIgnored(r: Receiver, bytes: seq<Byte>, ops: seq<Op>)
    requires ReceiverOk(r) && r.slotCnt == 0 && bytes != [] && bytes[0] != r.slot0
    requires forall op | op in ops :: !EndsFrame(op)
    ensures ReceiverOk(UseRawData(r, bytes)) && ApplyAll(UseRawData(r, bytes), ops).slotCnt == -1
    ensures forall i | 0 <= i < |r.devs| :: Untouched(r.devs[i], ApplyAll(UseRawData(r, bytes), ops).devs[i])
  {
    hide DeviceOk, Feed;
    OfflineUntilBreak(UseRawData(r, bytes), ops);
  }
}
