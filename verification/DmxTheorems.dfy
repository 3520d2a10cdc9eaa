// What the DMX512 receiver delivers, however the byte stream is cut up.
module DmxTheorems {
  import opened Base
  import opened IsrComm
  import opened Dmx
  import opened DmxTurns

  // -------------------------------------------------------------- independence

  /** The slot the next byte stands for, once slot 0 has been matched. */
  function Slot(r: Receiver): int {
    if r.slotCnt == 0 then 1 else r.slotCnt
  }

  /** In the course of a frame, or offline until the next break. */
  ghost predicate OnCourse(r: Receiver) {
    ReceiverOk(r) && (r.slotCnt >= 0 ==> AllInStep(r.devs, Slot(r)))
  }

  /** Equal but for the counters of fruitless fetches, and for whether devices whose
      windows are still ahead have yet taken the buffers that wait for them. */
  ghost predicate SameReceiver(r: Receiver, q: Receiver) {
    && r.slotCnt == q.slotCnt && r.slot0 == q.slot0 && |r.devs| == |q.devs|
    && forall i | 0 <= i < |r.devs| ::
         if r.slotCnt < 0 then Same(r.devs[i], q.devs[i]) else SameAt(r.devs[i], q.devs[i], Slot(r))
  }

  /** The bytes of a chunk that are slots: all but a start code. */
  function Slots(r: Receiver, bytes: seq<Byte>): seq<Byte>
    requires bytes != []
  {
    if r.slotCnt == 0 then bytes[1..] else bytes
  }

  predicate Accepted(r: Receiver, bytes: seq<Byte>)
    requires bytes != []
  {
    r.slotCnt > 0 || (r.slotCnt == 0 && bytes[0] == r.slot0)
  }

  lemma UseAccepted(r: Receiver, bytes: seq<Byte>)
    requires ReceiverOk(r) && bytes != [] && Accepted(r, bytes)
    ensures var (devs, cnt) := Feed(r.devs, 0, Slot(r), Slots(r, bytes));
            UseRawData(r, bytes) == r.(devs := devs, slotCnt := cnt)
  {
    hide DeviceOk, Feed;
    assert bytes[0..] == bytes;
  }

  lemma UseRejected(r: Receiver, bytes: seq<Byte>)
    requires ReceiverOk(r) && bytes != [] && !Accepted(r, bytes)
    ensures UseRawData(r, bytes) == r.(slotCnt := if r.slotCnt == 0 then -1 else r.slotCnt)
  {
    hide DeviceOk, Feed;
  }

  lemma SameInStep(d: Device, e: Device, cnt: int)
    requires InStep(d, cnt) && SameAt(e, d, cnt) && DeviceOk(e)
    ensures InStep(e, cnt) && e.first == d.first && e.slots == d.slots
  {
    hide Conserved;
  }

  lemma ServedInStep(devs: seq<Device>, cnt: int, bytes: seq<Byte>, out: seq<Device>)
    requires AllInStep(devs, cnt) && forall i | 0 <= i < |devs| :: DeviceOk(devs[i])
    requires |out| == |devs| && forall i | 0 <= i < |out| :: DeviceOk(out[i])
    requires forall i | 0 <= i < |out| :: SameAt(out[i], Entitled(devs[i], cnt, bytes), cnt + |bytes|)
    ensures AllInStep(out, cnt + |bytes|)
  {
    hide InStep, DeviceOk, Entitled, SameAt;
    forall i | 0 <= i < |out|
      ensures InStep(out[i], cnt + |bytes|) && out[i].first == devs[i].first && out[i].slots == devs[i].slots
    {
      assert InStep(devs[i], cnt);
      EntitledKeeps(devs[i], cnt, bytes);
      SameInStep(Entitled(devs[i], cnt, bytes), out[i], cnt + |bytes|);
    }
  }

  /** The block-wise code does to each device just what it is entitled to, whatever
      the other devices are and do. */
  lemma UseServes(r: Receiver, bytes: seq<Byte>)
    requires OnCourse(r) && bytes != []
    requires r.slotCnt >= 0 ==> r.slotCnt + |bytes| <= INT16_MAX
    ensures var u := UseRawData(r, bytes);
            && OnCourse(u) && |u.devs| == |r.devs| && u.slot0 == r.slot0
            && (forall i | 0 <= i < |r.devs| :: |u.devs[i].box.toQ| <= |r.devs[i].box.toQ|)
            && (Accepted(r, bytes) ==>
                  && u.slotCnt == r.slotCnt + |bytes|
                  && forall i | 0 <= i < |r.devs| :: SameAt(u.devs[i], Entitled(r.devs[i], Slot(r), Slots(r, bytes)), u.slotCnt))
            && (!Accepted(r, bytes) ==> u == r.(slotCnt := if r.slotCnt == 0 then -1 else r.slotCnt))
  {
    hide InStep, DeviceOk, Entitled, SameAt, Feed, UseRawData, Sorted;
    if Accepted(r, bytes) {
      FeedServes(r.devs, Slot(r), Slots(r, bytes));
      UseAccepted(r, bytes);
      assert Slot(r) + |Slots(r, bytes)| == r.slotCnt + |bytes|;
      ServedInStep(r.devs, Slot(r), Slots(r, bytes), UseRawData(r, bytes).devs);
    } else {
      UseRejected(r, bytes);
    }
  }

  lemma SameAtTransitive(d: Device, e: Device, f: Device, cnt: int)
    requires SameAt(d, e, cnt) && SameAt(e, f, cnt)
    ensures SameAt(d, f, cnt) && SameAt(f, d, cnt) && SameAt(e, d, cnt)
  {
  }

  /** A device that has its buffer, or for which none waits, leaves no such doubt. */
  lemma ExactIfSettled(d: Device, u: Device, w: Device, cnt: int, bytes: seq<Byte>)
    requires InStep(d, cnt) && Supplied(d) == d && |u.box.toQ| <= |d.box.toQ| && |w.box.toQ| <= |d.box.toQ|
    requires SameAt(u, w, cnt + |bytes|) && SameAt(w, Entitled(d, cnt, bytes), cnt + |bytes|)
    ensures Same(u, w)
  {
    hide Conserved, Due;
    BegunInStep(d, cnt);
    DueKeeps(d, cnt, bytes);
    if cnt + |bytes| <= d.first {
      NothingDue(d, cnt, bytes);
    }
  }

  /** Two outcomes of r are the same, and in full for the devices of r that were settled. */
  ghost predicate SameFrom(r: Receiver, u: Receiver, w: Receiver) {
    && SameReceiver(u, w) && |u.devs| == |r.devs|
    && forall i | 0 <= i < |r.devs| && Supplied(r.devs[i]) == r.devs[i] :: Same(u.devs[i], w.devs[i])
  }

  lemma UseIsExact(r: Receiver, bytes: seq<Byte>, u: Receiver)
    requires OnCourse(r) && bytes != [] && (r.slotCnt >= 0 ==> r.slotCnt + |bytes| <= INT16_MAX)
    requires SameReceiver(u, UseRawData(r, bytes)) && |u.devs| == |r.devs|
    requires forall i | 0 <= i < |r.devs| :: |u.devs[i].box.toQ| <= |r.devs[i].box.toQ|
    ensures SameFrom(r, u, UseRawData(r, bytes))
  {
    hide InStep, DeviceOk, Entitled, SameAt, Same, UseRawData, Sorted;
    UseServes(r, bytes);
    var w := UseRawData(r, bytes);
    if Accepted(r, bytes) {
      forall i | 0 <= i < |r.devs| && Supplied(r.devs[i]) == r.devs[i] ensures Same(u.devs[i], w.devs[i]) {
        assert InStep(r.devs[i], Slot(r)) && SameAt(u.devs[i], w.devs[i], Slot(w));
        assert Slot(r) + |Slots(r, bytes)| == w.slotCnt == Slot(w);
        ExactIfSettled(r.devs[i], u.devs[i], w.devs[i], Slot(r), Slots(r, bytes));
      }
    }
  }

  lemma ComposedAt(d: Device, m: Device, cnt: int, a: seq<Byte>, b: seq<Byte>)
    requires InStep(d, cnt) && InStep(m, cnt + |a|) && SameAt(m, Entitled(d, cnt, a), cnt + |a|)
    ensures SameAt(Entitled(d, cnt, a + b), Entitled(m, cnt + |a|, b), cnt + |a| + |b|)
    ensures SameAt(Entitled(m, cnt + |a|, b), Entitled(d, cnt, a + b), cnt + |a| + |b|)
  {
    hide DeviceOk, Entitled, SameAt;
    EntitledKeeps(d, cnt, a);
    EntitledComposes(d, cnt, a, b);
    SameEntitled(m, Entitled(d, cnt, a), cnt + |a|, b);
    SameIsSameAt(Entitled(d, cnt, a + b), Entitled(m, cnt + |a|, b), cnt + |a| + |b|);
    SameIsSameAt(Entitled(m, cnt + |a|, b), Entitled(d, cnt, a + b), cnt + |a| + |b|);
  }

  /** Chunk independence: feeding a and then b is feeding a + b. */
  lemma ChunksCompose(r: Receiver, a: seq<Byte>, b: seq<Byte>)
    requires OnCourse(r) && a != [] && b != []
    requires r.slotCnt >= 0 ==> r.slotCnt + |a| + |b| <= INT16_MAX
    ensures OnCourse(UseRawData(r, a))
    ensures SameFrom(r, UseRawData(UseRawData(r, a), b), UseRawData(r, a + b))
  {
    hide InStep, DeviceOk, Entitled, SameAt, Feed, UseRawData, Sorted;
    UseServes(r, a);
    var m := UseRawData(r, a);
    UseServes(m, b);
    UseServes(r, a + b);
    if Accepted(r, a) {
      var u, w := UseRawData(m, b), UseRawData(r, a + b);
      assert Slots(r, a + b) == Slots(r, a) + b;
      forall i | 0 <= i < |r.devs| ensures SameAt(u.devs[i], w.devs[i], u.slotCnt) {
        assert InStep(r.devs[i], Slot(r)) && InStep(m.devs[i], Slot(m));
        assert m.slotCnt == Slot(m) == Slot(r) + |Slots(r, a)|;
        ComposedAt(r.devs[i], m.devs[i], Slot(r), Slots(r, a), b);
        var x, y := Entitled(r.devs[i], Slot(r), Slots(r, a + b)), Entitled(m.devs[i], Slot(m), b);
        SameAtTransitive(w.devs[i], x, y, u.slotCnt);
        SameAtTransitive(u.devs[i], y, w.devs[i], u.slotCnt);
      }
    }
    UseIsExact(r, a + b, UseRawData(m, b));
  }

  // --------------------------------------------------------------- whole frames

  function Flatten(chunks: seq<seq<Byte>>): seq<Byte> {
    if chunks == [] then [] else chunks[0] + Flatten(chunks[1..])
  }

  ghost function UseAll(r: Receiver, chunks: seq<seq<Byte>>): (u: Receiver)
    requires OnCourse(r) && forall c | c in chunks :: c != []
    requires r.slotCnt >= 0 ==> r.slotCnt + |Flatten(chunks)| <= INT16_MAX
    ensures OnCourse(u) && |u.devs| == |r.devs|
    ensures forall i | 0 <= i < |r.devs| :: |u.devs[i].box.toQ| <= |r.devs[i].box.toQ|
    decreases |chunks|
  {
    if chunks == [] then r
    else
      assert chunks[0] in chunks && forall c | c in chunks[1..] :: c in chunks;
      UseServes(r, chunks[0]);
      UseAll(UseRawData(r, chunks[0]), chunks[1..])
  }

  lemma SameReflexive(r: Receiver)
    ensures SameReceiver(r, r)
  {
  }

  lemma SameTransitive(r: Receiver, q: Receiver, s: Receiver)
    requires SameReceiver(r, q) && SameReceiver(q, s)
    ensures SameReceiver(r, s)
  {
    hide SameAt;
    forall i | 0 <= i < |r.devs| && r.slotCnt >= 0 ensures SameAt(r.devs[i], s.devs[i], Slot(r)) {
      SameAtTransitive(r.devs[i], q.devs[i], s.devs[i], Slot(r));
    }
  }

  /** However a stream is cut into chunks, it is the stream that counts. */
  lemma {:induction false} AnyChunking(r: Receiver, chunks: seq<seq<Byte>>)
    requires OnCourse(r) && chunks != [] && forall c | c in chunks :: c != []
    requires r.slotCnt >= 0 ==> r.slotCnt + |Flatten(chunks)| <= INT16_MAX
    ensures Flatten(chunks) != []
    ensures SameFrom(r, UseAll(r, chunks), UseRawData(r, Flatten(chunks)))
    decreases |chunks|
  {
    hide InStep, DeviceOk, SameAt, Same, UseRawData, Sorted;
    var a, rest := chunks[0], chunks[1..];
    assert a in chunks && forall c | c in rest :: c in chunks;
    UseServes(r, a);
    var m := UseRawData(r, a);
    if rest == [] {
      assert Flatten(chunks) == a && UseAll(r, chunks) == m;
      SameReflexive(m);
    } else {
      AnyChunking(m, rest);
      ChunksCompose(r, a, Flatten(rest));
      SameTransitive(UseAll(m, rest), UseRawData(m, Flatten(rest)), UseRawData(r, Flatten(chunks)));
    }
    UseIsExact(r, Flatten(chunks), UseAll(r, chunks));
  }

  /** Windows that lie past the start code, in order. */
  ghost predicate WellPlaced(devs: seq<Device>) {
    Sorted(devs) && forall i | 0 <= i < |devs| :: devs[i].first >= 1 && devs[i].slots >= 1
  }

  /** A break puts every device at the start of its window, with a buffer if there
      is one to be had. */
  lemma BreakStarts(r: Receiver)
    requires ReceiverOk(r) && WellPlaced(r.devs)
    ensures OnCourse(Break(r)) && Break(r).slotCnt == 0
  {
    forall i | 0 <= i < |r.devs|
      ensures InStep(Break(r).devs[i], 1) && Break(r).devs[i].first == r.devs[i].first && Break(r).devs[i].slots == r.devs[i].slots
    {
      RewindKeeps(r.devs[i]);
    }
  }

  /** What a device that begins a frame with buffer c has to show for it in the end:
      exactly its slots of the frame, handed back once, if the frame was long
      enough to fill them; otherwise the buffer is still its own. */
  ghost predicate Delivered(d: Device, e: Device, frame: seq<Byte>) {
    match d.data
    case None => Same(e, d)
    case Some(c) =>
      c < |e.mem| && |e.mem[c]| >= d.slots &&
      if |frame| >= d.first + d.slots then
        && e.data == None && e.box.fromQ == d.box.fromQ + [c]
        && e.mem[c][..d.slots] == frame[d.first..d.first + d.slots]
      else
        && e.data == Some(c) && e.box == d.box
        && (|frame| > d.first ==> e.mem[c][..|frame| - d.first] == frame[d.first..])
  }

  lemma CellIsRoomy(d: Device)
    requires DeviceOk(d) && d.data.Some?
    ensures d.data.value < |d.mem| && |d.mem[d.data.value]| >= d.slots
  {
    HeldIsCell(d);
  }

  lemma NoneDelivered(d: Device, e: Device, frame: seq<Byte>)
    requires DeviceOk(d) && d.slots >= 1 && Supplied(d) == d && (d.data == None || |frame| <= d.first)
    requires SameAt(e, d, |frame|) && |e.box.toQ| <= |d.box.toQ| && (d.data == None ==> d.box.toQ == [])
    ensures Delivered(d, e, frame)
  {
    hide Conserved;
    if d.data.Some? {
      CellIsRoomy(d);
    }
  }

  lemma PastStartCode(frame: seq<Byte>, first: nat, hi: nat)
    requires 1 <= first <= hi + 1 <= |frame|
    ensures [] + frame[1..][first - 1..hi] == frame[first..hi + 1]
  {
  }

  lemma WindowDelivered(d: Device, e: Device, frame: seq<Byte>)
    requires InStep(d, 1) && d.pos == 0 && d.data.Some? && |frame| > d.first
    requires Same(e, Due(d, 1, frame[1..]))
    ensures Delivered(d, e, frame)
  {
    hide DeviceOk, Due;
    DueFills(d, 1, frame[1..]);
    var c, hi := d.data.value, WindowHi(d, 1, |frame| - 1);
    PastStartCode(frame, d.first, hi);
    assert d.mem[c][..0] == [];
    if |frame| < d.first + d.slots {
      assert hi + 1 == |frame|;
      assert frame[d.first..|frame|] == frame[d.first..];
    }
  }

  /** What the entitlement to a whole frame amounts to. */
  lemma DueDelivers(d: Device, e: Device, frame: seq<Byte>)
    requires InStep(d, 1) && d.pos == 0 && (d.data == None ==> d.box.toQ == []) && frame != []
    requires SameAt(e, Entitled(d, 1, frame[1..]), |frame|) && |e.box.toQ| <= |d.box.toQ|
    ensures Delivered(d, e, frame)
  {
    hide DeviceOk, Due, Delivered, Same;
    assert DeviceOk(d) && Supplied(d) == d by { BegunInStep(d, 1); }
    if d.data == None || |frame| <= d.first {
      if d.data == None {
        NothingForStarved(d, 1, frame[1..]);
      } else {
        NothingDue(d, 1, frame[1..]);
      }
      NoneDelivered(d, e, frame);
    } else {
      DueKeeps(d, 1, frame[1..]);
      WindowDelivered(d, e, frame);
    }
  }

  /** Frame delivery.  After a break, for every cutting of a frame into chunks: a
      frame with another start code changes no device and puts the receiver
      offline; one with the right start code is delivered to every device,
      whether or not the others have buffers. */
  lemma FrameDelivered(r: Receiver, chunks: seq<seq<Byte>>)
    requires ReceiverOk(r) && WellPlaced(r.devs)
    requires chunks != [] && (forall c | c in chunks :: c != []) && |Flatten(chunks)| <= INT16_MAX
    ensures OnCourse(Break(r)) && Break(r).slotCnt == 0 && Flatten(chunks) != []
    ensures var frame := Flatten(chunks);
            var b := Break(r);
            var u := UseAll(b, chunks);
            if frame[0] != r.slot0 then
              u.slotCnt == -1 && |u.devs| == |b.devs| && forall i | 0 <= i < |b.devs| :: Same(u.devs[i], b.devs[i])
            else
              u.slotCnt == |frame| && |u.devs| == |b.devs| && forall i | 0 <= i < |b.devs| :: Delivered(b.devs[i], u.devs[i], frame)
  {
    hide InStep, DeviceOk, Entitled, SameAt, Same, UseRawData, Delivered, Rewind;
    BreakStarts(r);
    var b := Break(r);
    AnyChunking(b, chunks);
    var frame := Flatten(chunks);
    var u := UseAll(b, chunks);
    var w := UseRawData(b, frame);
    UseServes(b, frame);
    if frame[0] == r.slot0 {
      forall i | 0 <= i < |b.devs| ensures Delivered(b.devs[i], u.devs[i], frame) {
        RewindKeeps(r.devs[i]);
        assert InStep(b.devs[i], 1);
        SameAtTransitive(u.devs[i], w.devs[i], Entitled(b.devs[i], 1, frame[1..]), |frame|);
        DueDelivers(b.devs[i], u.devs[i], frame);
      }
    }
  }
}
