// A frame from break to break: chunks of bytes, and mailbox calls by the user in
// between.  Who gets what, from any chunks and any calls.
module DmxFrames {
  import opened Base
  import opened IsrComm
  import opened Dmx
  import opened DmxTurns
  import opened DmxTheorems
  import opened DmxTraffic

  // ----------------------------------------------------------------- bookkeeping

  /** What a frame has brought a device so far: the buffers it has handed back, whether
      its first slot came when it had no buffer, whether its first slot went to another
      device although it had one, and whether it has taken a slot past its window. */
  datatype Record = Record(returned: seq<nat>, starved: bool, shifted: bool, past: bool)

  /** A frame in progress, with its bytes so far and a record for each device. */
  datatype Trace = Trace(r: Receiver, frame: seq<Byte>, recs: seq<Record>)

  function HandedBack(d: Device, e: Device): seq<nat> {
    if |d.box.fromQ| <= |e.box.fromQ| then e.box.fromQ[|d.box.fromQ|..] else []
  }

  /** The device takes a slot that is not in its window. */
  predicate Past(d: Device, r: int, total: int) {
    HasTurn(d, r, total) && TurnAt(d, r) + Taken(d, r, total) > d.first + d.slots
  }

  predicate Arrives(d: Device, cnt: int, total: int) {
    cnt <= d.first < total
  }

  /** From d to e in the chunk of slots cnt to total, of which those up to r are taken
      by other devices before. */
  function Noted(rec: Record, d: Device, e: Device, cnt: int, total: int, r: int): Record {
    Record(rec.returned + HandedBack(d, e),
           rec.starved || (Arrives(d, cnt, total) && !HasBuffer(d)),
           rec.shifted || (Arrives(d, cnt, total) && HasBuffer(d) && r > d.first),
           rec.past || Past(d, r, total))
  }

  ghost function Follow(t: Trace, op: Op): (u: Trace)
    requires ReceiverOk(t.r) && |t.recs| == |t.r.devs|
    ensures ReceiverOk(u.r) && |u.recs| == |u.r.devs| == |t.r.devs|
  {
    ApplyKeeps(t.r, op);
    var r := Apply(t.r, op);
    match op
    case Chunk(bytes) =>
      if bytes == [] || !Accepted(t.r, bytes) then Trace(r, t.frame + bytes, t.recs)
      else
        var cnt, total := Slot(t.r), t.r.slotCnt + |bytes|;
        Trace(r, t.frame + bytes,
              seq(|r.devs|, i requires 0 <= i < |r.devs| =>
                Noted(t.recs[i], t.r.devs[i], r.devs[i], cnt, total, Reach(t.r.devs, 0, i, cnt, total))))
    case _ => t.(r := r)
  }

  ghost function FollowAll(t: Trace, ops: seq<Op>): (u: Trace)
    requires ReceiverOk(t.r) && |t.recs| == |t.r.devs|
    ensures ReceiverOk(u.r) && |u.recs| == |u.r.devs| == |t.r.devs|
    decreases |ops|
  {
    if ops == [] then t else FollowAll(Follow(t, ops[0]), ops[1..])
  }

  ghost function Start(r: Receiver): (t: Trace)
    requires ReceiverOk(r)
    ensures ReceiverOk(t.r) && |t.recs| == |t.r.devs| == |r.devs|
  {
    BreakKeepsOk(r);
    Trace(Break(r), [], seq(|r.devs|, _ => Record([], false, false, false)))
  }

  function Sent(ops: seq<Op>): seq<Byte> {
    if ops == [] then [] else (if ops[0].Chunk? then ops[0].bytes else []) + Sent(ops[1..])
  }

  /** What may happen in the course of a frame: bytes, within the range of the slot
      counter, and mailbox calls. */
  predicate InFrame(ops: seq<Op>, sofar: nat) {
    && (forall op | op in ops :: !EndsFrame(op))
    && sofar + |Sent(ops)| <= INT16_MAX
  }

  // ------------------------------------------------------------------ one device

  /** Before slot cnt a device has at most the slots of its window so far. */
  ghost predicate Loose(d: Device, cnt: int) {
    && DeviceOk(d) && d.first >= 1 && d.slots >= 1
    && (cnt < d.first + d.slots && d.data.Some? ==> d.pos <= if cnt <= d.first then 0 else cnt - d.first)
  }

  /** The buffer holds the last bytes of the frame, as many as it is filled with. */
  predicate HoldsLast(d: Device, f: seq<Byte>) {
    && d.data.Some? && d.data.value < |d.mem| && d.pos <= |d.mem[d.data.value]| && d.pos <= |f|
    && d.mem[d.data.value][..d.pos] == f[|f| - d.pos..]
  }

  /** Buffer c has the device's number of slots of the frame, from slot `from` on. */
  predicate Holds(d: Device, c: nat, f: seq<Byte>, from: nat) {
    && c < |d.mem| && |d.mem[c]| >= d.slots && from + d.slots <= |f|
    && d.mem[c][..d.slots] == f[from..from + d.slots]
  }

  ghost predicate Misplaced(d: Device, c: nat, f: seq<Byte>) {
    exists from: nat :: from > d.first && Holds(d, c, f, from)
  }

  /** How far device d has come after the bytes f of a frame: nothing is handed back
      before the window is over; then exactly the window if the device had a buffer when
      its first slot came and got that slot; and otherwise nothing, or - if it has taken
      a slot past its window - slots that are not its own. */
  ghost predicate Progress(d: Device, f: seq<Byte>, rec: Record) {
    var end := d.first + d.slots;
    var missed := rec.starved || rec.shifted;
    if |f| <= d.first then rec == Record([], false, false, false)
    else if |f| < end then
      && rec.returned == [] && !rec.past
      && (if d.data.Some? then HoldsLast(d, f) && (d.pos == |f| - d.first <==> !missed) else missed)
    else if !missed then
      !rec.past && |rec.returned| == 1 && Holds(d, rec.returned[0], f, d.first)
    else
      rec.returned == [] || (rec.past && |rec.returned| == 1 && Misplaced(d, rec.returned[0], f))
  }

  /** The device has taken the bytes x, which fit into its buffer. */
  ghost predicate Took(d: Device, e: Device, x: seq<Byte>)
    requires HasBuffer(d)
  {
    var c, n := Supplied(d).data.value, Filled(d) + |x|;
    && e.first == d.first && e.slots == d.slots
    && c < |d.mem| && |e.mem| == |d.mem| && |e.mem[c]| == |d.mem[c]| >= d.slots >= n
    && e.mem[c][..n] == d.mem[c][..Filled(d)] + x
    && (if n == d.slots then e.data == None && HandedBack(d, e) == [c]
        else e.data == Some(c) && e.pos == n && HandedBack(d, e) == [])
  }

  ghost predicate TookNothing(d: Device, e: Device) {
    e.(missed := d.missed) == d
  }

  lemma ReturnAppends(b: Mailbox, c: nat)
    ensures Return(b, c).fromQ == b.fromQ + [c]
  {
  }

  lemma StoreTook(d: Device, x: seq<Byte>)
    requires DeviceOk(d) && HasBuffer(d) && Filled(d) + |x| <= d.slots && Supplied(d).data.value < |d.mem|
    ensures Took(d, Store(Supplied(d), x, |x|), x)
  {
    hide Conserved, Store, Return, DeviceOk;
    SuppliedKeeps(d);
    var q := Supplied(d);
    StoredShape(q, x);
    CellIsRoomy(q);
    ReturnAppends(q.box, q.data.value);
    assert q.box.fromQ == d.box.fromQ;
  }

  lemma AddTakes(d: Device, b: seq<Byte>)
    requires DeviceOk(d)
    ensures HasBuffer(d) ==> Supplied(d).data.value < |d.mem| && Filled(d) <= d.slots
    ensures if HasBuffer(d) then
              var n := Min(|b|, d.slots - Filled(d));
              AddToDevice(d, b) == (Store(Supplied(d), b[..n], n), n)
            else TookNothing(d, AddToDevice(d, b).0) && AddToDevice(d, b) == (d.(missed := d.missed + 1), 0)
  {
    hide Conserved, Store;
    SuppliedKeeps(d);
    if HasBuffer(d) {
      HeldIsCell(Supplied(d));
      StoreSlice(Supplied(d), b, Min(|b|, d.slots - Filled(d)));
    }
  }

  /** The bytes a device takes in its turn. */
  function Part(d: Device, r: int, cnt: int, bytes: seq<Byte>): seq<Byte>
    requires cnt <= r && HasTurn(d, r, cnt + |bytes|) && Filled(d) <= d.slots
  {
    var at := TurnAt(d, r) - cnt;
    bytes[at..at + Taken(d, r, cnt + |bytes|)]
  }

  /** What one turn does to a device. */
  lemma TurnTakes(d: Device, r: int, cnt: int, bytes: seq<Byte>)
    requires DeviceOk(d) && cnt <= r && HasTurn(d, r, cnt + |bytes|)
    ensures DeviceOk(After(d, r, cnt, bytes)) && Filled(d) <= d.slots
    ensures if HasBuffer(d) then Took(d, After(d, r, cnt, bytes), Part(d, r, cnt, bytes))
            else TookNothing(d, After(d, r, cnt, bytes))
  {
    hide DeviceOk, Store, Took;
    var b := bytes[TurnAt(d, r) - cnt..];
    AddTakes(d, b);
    if HasBuffer(d) {
      var x := Part(d, r, cnt, bytes);
      assert x == b[..Min(|b|, d.slots - Filled(d))];
      StoreTook(d, x);
    }
  }

  /** The taken part continues what the buffer holds of the frame. */
  lemma Continued(f: seq<Byte>, bytes: seq<Byte>, p: nat, lo: nat, n: nat)
    requires p <= |f| && lo + n <= |bytes| && (p > 0 ==> lo == 0)
    ensures f[|f| - p..] + bytes[lo..lo + n] == (f + bytes)[|f| + lo - p..|f| + lo + n]
  {
  }

  lemma Sliced(f: seq<Byte>, bytes: seq<Byte>, from: nat, n: nat)
    requires from + n <= |f|
    ensures (f + bytes)[from..from + n] == f[from..from + n]
  {
  }

  /** A device that has no turn. */
  lemma IdleProgress(d: Device, f: seq<Byte>, bytes: seq<Byte>, r: int, rec: Record)
    requires |f| <= r <= |f| + |bytes| && Loose(d, |f|) && Progress(d, f, rec) && !HasTurn(d, r, |f| + |bytes|)
    requires d.first < |f| < d.first + d.slots ==> r == |f|
    ensures Loose(d, |f| + |bytes|)
    ensures Progress(d, f + bytes, Noted(rec, d, d, |f|, |f| + |bytes|, r))
  {
    hide DeviceOk;
    assert HandedBack(d, d) == [] && rec.returned + [] == rec.returned;
    var end := d.first + d.slots;
    if |f| >= end {
      if rec.returned != [] {
        if rec.starved || rec.shifted {
          var from: nat :| from > d.first && Holds(d, rec.returned[0], f, from);
          Sliced(f, bytes, from, d.slots);
          assert Holds(d, rec.returned[0], f + bytes, from);
        } else {
          Sliced(f, bytes, d.first, d.slots);
        }
      }
    } else if bytes == [] {
      assert f + bytes == f;
    } else if d.data.Some? {
      CellIsRoomy(d);
    }
  }

  lemma StarvedProgress(d: Device, e: Device, f: seq<Byte>, bytes: seq<Byte>, r: int, rec: Record)
    requires |f| <= r <= |f| + |bytes| && Loose(d, |f|) && Progress(d, f, rec) && HasTurn(d, r, |f| + |bytes|)
    requires !HasBuffer(d) && TookNothing(d, e) && DeviceOk(e) && (d.first < |f| ==> r == |f|)
    ensures Loose(e, |f| + |bytes|) && e.first == d.first && e.slots == d.slots
    ensures Progress(e, f + bytes, Noted(rec, d, e, |f|, |f| + |bytes|, r))
  {
    hide DeviceOk;
    assert HandedBack(d, e) == [] && rec.returned + [] == rec.returned;
  }

  /** What the buffer holds after the turn, as a part of the frame. */
  lemma PartOfFrame(d: Device, e: Device, f: seq<Byte>, bytes: seq<Byte>, r: int)
    requires |f| <= r && HasTurn(d, r, |f| + |bytes|)
    requires HasBuffer(d) && Filled(d) <= d.slots && Took(d, e, Part(d, r, |f|, bytes))
    requires Filled(d) > 0 ==> HoldsLast(d, f) && TurnAt(d, r) == |f|
    ensures var c, p, at, n := Supplied(d).data.value, Filled(d), TurnAt(d, r), Taken(d, r, |f| + |bytes|);
            0 <= at - p && 0 <= n && at + n <= |f| + |bytes| && e.mem[c][..p + n] == (f + bytes)[at - p..at + n]
  {
    var p, at, n := Filled(d), TurnAt(d, r), Taken(d, r, |f| + |bytes|);
    Continued(f, bytes, p, at - |f|, n);
    assert d.mem[Supplied(d).data.value][..p] == f[|f| - p..];
  }

  /** A device with a buffer has missed its first slot exactly if it is behind by now. */
  lemma BeforeTurn(d: Device, f: seq<Byte>, total: int, r: int, rec: Record)
    requires |f| <= r <= total && Loose(d, |f|) && Progress(d, f, rec) && HasTurn(d, r, total) && HasBuffer(d)
    requires d.first < |f| ==> r == |f|
    ensures rec.returned == [] && !rec.past && TurnAt(d, r) - Filled(d) >= d.first
    ensures TurnAt(d, r) - Filled(d) > d.first <==> rec.starved || rec.shifted || (Arrives(d, |f|, total) && r > d.first)
    ensures total > d.first && |f| <= d.first ==> Arrives(d, |f|, total)
  {
    hide DeviceOk, HoldsLast;
  }

  lemma NotYet(d: Device, f: seq<Byte>, rec: Record)
    requires Progress(d, f, rec)
    ensures |f| <= d.first ==> rec == Record([], false, false, false)
  {
  }

  lemma FilledHoldsLast(d: Device, f: seq<Byte>, rec: Record)
    requires Loose(d, |f|) && Progress(d, f, rec) && Filled(d) > 0 && |f| < d.first + d.slots
    ensures HoldsLast(d, f) && d.first < |f|
  {
  }

  lemma HoldsEnds(d: Device, c: nat, f: seq<Byte>, from: nat)
    requires Holds(d, c, f, from)
    ensures from + d.slots <= |f|
  {
  }

  /** The buffer is full and handed back. */
  lemma GivenProgress(d: Device, e: Device, f: seq<Byte>, bytes: seq<Byte>, r: int, rec: Record)
    requires |f| <= r && HasTurn(d, r, |f| + |bytes|) && HasBuffer(d) && e.first == d.first && e.slots == d.slots >= 1
    requires HandedBack(d, e) == [Supplied(d).data.value] && rec.returned == [] && !rec.past
    requires TurnAt(d, r) - Filled(d) > d.first <==> rec.starved || rec.shifted || (Arrives(d, |f|, |f| + |bytes|) && r > d.first)
    requires Filled(d) + Taken(d, r, |f| + |bytes|) == d.slots
    requires var from := TurnAt(d, r) - Filled(d);
             from >= d.first && Holds(e, Supplied(d).data.value, f + bytes, from)
    ensures Progress(e, f + bytes, Noted(rec, d, e, |f|, |f| + |bytes|, r))
  {
    hide HoldsLast, Supplied;
    var c, from := Supplied(d).data.value, TurnAt(d, r) - Filled(d);
    assert [] + [c] == [c];
    assert from + d.slots <= |f| + |bytes| by { HoldsEnds(e, c, f + bytes, from); }
    hide Holds;
    if from > d.first {
      assert Misplaced(e, c, f + bytes);
    }
  }

  /** The buffer is not full yet: there were no more bytes. */
  lemma KeptProgress(d: Device, e: Device, f: seq<Byte>, bytes: seq<Byte>, r: int, rec: Record)
    requires |f| <= r && HasTurn(d, r, |f| + |bytes|) && HasBuffer(d) && e.first == d.first && e.slots == d.slots >= 1
    requires HandedBack(d, e) == [] && rec.returned == [] && !rec.past && DeviceOk(e) && d.first >= 1
    requires |f| <= d.first ==> rec == Record([], false, false, false)
    requires TurnAt(d, r) - Filled(d) > d.first <==> rec.starved || rec.shifted || (Arrives(d, |f|, |f| + |bytes|) && r > d.first)
    requires TurnAt(d, r) - Filled(d) >= d.first && e.data.Some? && e.pos == Filled(d) + Taken(d, r, |f| + |bytes|) < d.slots
    requires HoldsLast(e, f + bytes)
    ensures Loose(e, |f| + |bytes|)
    ensures Progress(e, f + bytes, Noted(rec, d, e, |f|, |f| + |bytes|, r))
  {
    hide DeviceOk, Holds, HoldsLast, Supplied;
  }

  lemma TakingProgress(d: Device, e: Device, f: seq<Byte>, bytes: seq<Byte>, r: int, rec: Record)
    requires |f| <= r <= |f| + |bytes| && Loose(d, |f|) && Progress(d, f, rec) && HasTurn(d, r, |f| + |bytes|)
    requires HasBuffer(d) && Filled(d) <= d.slots && Took(d, e, Part(d, r, |f|, bytes)) && DeviceOk(e)
    requires d.first < |f| ==> r == |f|
    ensures Loose(e, |f| + |bytes|) && e.first == d.first && e.slots == d.slots
    ensures Progress(e, f + bytes, Noted(rec, d, e, |f|, |f| + |bytes|, r))
  {
    hide DeviceOk, Progress, Noted, Supplied;
    var p, at, n := Filled(d), TurnAt(d, r), Taken(d, r, |f| + |bytes|);
    assert |f| <= d.first ==> rec == Record([], false, false, false) by { NotYet(d, f, rec); }
    assert p > 0 ==> HoldsLast(d, f) && at == |f| by {
      if p > 0 {
        FilledHoldsLast(d, f, rec);
      }
    }
    PartOfFrame(d, e, f, bytes, r);
    BeforeTurn(d, f, |f| + |bytes|, r, rec);
    if p + n == d.slots {
      GivenProgress(d, e, f, bytes, r, rec);
    } else {
      KeptProgress(d, e, f, bytes, r, rec);
    }
  }

  /** One device, in a chunk of which other devices take the slots up to r before it. */
  lemma ChunkProgress(d: Device, f: seq<Byte>, bytes: seq<Byte>, r: int, rec: Record)
    requires |f| <= r <= |f| + |bytes| && Loose(d, |f|) && Progress(d, f, rec)
    requires d.first < |f| < d.first + d.slots ==> r == |f|
    ensures var e := After(d, r, |f|, bytes);
            && Loose(e, |f| + |bytes|) && e.first == d.first && e.slots == d.slots
            && Progress(e, f + bytes, Noted(rec, d, e, |f|, |f| + |bytes|, r))
  {
    hide DeviceOk, Progress, Noted, Took, TookNothing;
    if HasTurn(d, r, |f| + |bytes|) {
      TurnTakes(d, r, |f|, bytes);
      if HasBuffer(d) {
        TakingProgress(d, After(d, r, |f|, bytes), f, bytes, r, rec);
      } else {
        StarvedProgress(d, After(d, r, |f|, bytes), f, bytes, r, rec);
      }
    } else {
      IdleProgress(d, f, bytes, r, rec);
    }
  }

  // ------------------------------------------------------------------ whole frames

  ghost predicate SameLayout(r: Receiver, q: Receiver) {
    && r.slot0 == q.slot0 && |r.devs| == |q.devs|
    && forall i | 0 <= i < |r.devs| :: q.devs[i].first == r.devs[i].first && q.devs[i].slots == r.devs[i].slots
  }

  ghost predicate TraceOk(t: Trace) {
    && ReceiverOk(t.r) && Sorted(t.r.devs) && |t.recs| == |t.r.devs|
    && if t.r.slotCnt < 0 then
         && t.frame != [] && t.frame[0] != t.r.slot0
         && forall i | 0 <= i < |t.recs| :: t.recs[i] == Record([], false, false, false)
       else
         && t.r.slotCnt == |t.frame| && (t.frame != [] ==> t.frame[0] == t.r.slot0)
         && forall i | 0 <= i < |t.r.devs| :: Loose(t.r.devs[i], Slot(t.r)) && Progress(t.r.devs[i], t.frame, t.recs[i])
  }

  lemma TracesAreOk(t: Trace)
    requires TraceOk(t)
    ensures ReceiverOk(t.r) && |t.recs| == |t.r.devs|
  {
  }

  lemma PositionsOk(r: Receiver)
    requires ReceiverOk(r)
    ensures forall j | 0 <= j < |r.devs| :: r.devs[j].pos <= r.devs[j].slots
  {
    forall j | 0 <= j < |r.devs| ensures r.devs[j].pos <= r.devs[j].slots {
      assert DeviceOk(r.devs[j]);
    }
  }

  /** The device loop, seen from device i. */
  lemma ChunkTurn(q: Receiver, bytes: seq<Byte>, i: nat)
    requires ReceiverOk(q) && Sorted(q.devs) && bytes != [] && Accepted(q, bytes) && q.slotCnt + |bytes| <= INT16_MAX
    requires i < |q.devs|
    ensures DeviceOk(q.devs[i]) && Slot(q) + |Slots(q, bytes)| == q.slotCnt + |bytes|
    ensures UseRawData(q, bytes).slotCnt == q.slotCnt + |bytes| && UseRawData(q, bytes).slot0 == q.slot0
    ensures |UseRawData(q, bytes).devs| == |q.devs|
    ensures var r := Reach(q.devs, 0, i, Slot(q), q.slotCnt + |bytes|);
            && Slot(q) <= r <= q.slotCnt + |bytes| && (q.devs[i].first < Slot(q) ==> r == Slot(q))
            && UseRawData(q, bytes).devs[i] == After(q.devs[i], r, Slot(q), Slots(q, bytes))
  {
    hide DeviceOk, After, UseRawData, Feed, Reach, Sorted;
    var cnt, total := Slot(q), q.slotCnt + |bytes|;
    UseAccepted(q, bytes);
    FeedIsTurns(q.devs, 0, cnt, Slots(q, bytes));
    PositionsOk(q);
    ReachBounds(q.devs, 0, i, cnt, total);
    if q.devs[i].first < cnt {
      ReachBegun(q.devs, i, cnt, total);
    }
  }

  lemma LooseBasics(d: Device, cnt: int)
    requires Loose(d, cnt)
    ensures DeviceOk(d) && d.first >= 1 && d.slots >= 1
  {
  }

  lemma StartCodeProgress(d: Device, f: seq<Byte>, rec: Record)
    requires Progress(d, [], rec) && |f| == 1 && d.first >= 1
    ensures Progress(d, f, rec)
  {
  }

  /** The start code stands at slot 0, which is in no window. */
  lemma AcceptedFollowed(t: Trace, bytes: seq<Byte>, i: nat)
    requires TraceOk(t) && bytes != [] && Accepted(t.r, bytes) && t.r.slotCnt + |bytes| <= INT16_MAX && i < |t.r.devs|
    ensures var u := Follow(t, Chunk(bytes));
            && |u.r.devs| == |t.r.devs| && u.r.slotCnt == |u.frame| && u.r.slot0 == t.r.slot0
            && Loose(u.r.devs[i], Slot(u.r)) && Progress(u.r.devs[i], u.frame, u.recs[i])
            && u.r.devs[i].first == t.r.devs[i].first && u.r.devs[i].slots == t.r.devs[i].slots
  {
    hide DeviceOk, After, UseRawData, Reach, Progress, Loose, Sorted, Noted;
    ChunkTurn(t.r, bytes, i);
    var d := t.r.devs[i];
    var f := if t.frame == [] then bytes[..1] else t.frame;
    assert Loose(d, Slot(t.r)) && Progress(d, t.frame, t.recs[i]);
    if t.frame == [] {
      LooseBasics(d, Slot(t.r));
      StartCodeProgress(d, f, t.recs[i]);
    }
    var sl := Slots(t.r, bytes);
    assert f + sl == t.frame + bytes && |f| == Slot(t.r);
    ChunkProgress(d, f, sl, Reach(t.r.devs, 0, i, |f|, |f| + |sl|), t.recs[i]);
  }

  lemma LineCounts(t: Trace, bytes: seq<Byte>)
    requires TraceOk(t) && bytes != [] && Accepted(t.r, bytes) && |t.frame| + |bytes| <= INT16_MAX
    ensures var u := Follow(t, Chunk(bytes));
            u.r.slotCnt == |u.frame| && u.r.slot0 == t.r.slot0 && u.frame[0] == t.r.slot0
  {
    hide DeviceOk, Feed, Reach, Noted, Loose, Progress;
    UseAccepted(t.r, bytes);
    FeedIsTurns(t.r.devs, 0, Slot(t.r), Slots(t.r, bytes));
  }

  lemma NothingNoted(t: Trace)
    requires TraceOk(t) && t.frame == []
    ensures forall i | 0 <= i < |t.recs| :: t.recs[i] == Record([], false, false, false)
  {
    hide Loose, ReceiverOk, Sorted;
    forall i | 0 <= i < |t.recs| && t.r.slotCnt >= 0 ensures t.recs[i] == Record([], false, false, false) {
      assert Progress(t.r.devs[i], t.frame, t.recs[i]);
    }
  }

  lemma ChunkFollowed(t: Trace, bytes: seq<Byte>)
    requires TraceOk(t) && bytes != [] && |t.frame| + |bytes| <= INT16_MAX
    ensures TraceOk(Follow(t, Chunk(bytes))) && SameLayout(t.r, Follow(t, Chunk(bytes)).r)
  {
    hide DeviceOk, UseRawData, Progress, Loose, Noted, Reach;
    var u := Follow(t, Chunk(bytes));
    if Accepted(t.r, bytes) {
      LineCounts(t, bytes);
      forall i | 0 <= i < |t.r.devs|
        ensures Loose(u.r.devs[i], Slot(u.r)) && Progress(u.r.devs[i], u.frame, u.recs[i])
        ensures u.r.devs[i].first == t.r.devs[i].first && u.r.devs[i].slots == t.r.devs[i].slots
      {
        AcceptedFollowed(t, bytes, i);
      }
    } else {
      UseRejected(t.r, bytes);
      if t.frame == [] {
        NothingNoted(t);
      }
    }
  }

  /** A mailbox call changes no progress. */
  lemma UntouchedProgress(d: Device, e: Device, cnt: int, f: seq<Byte>, rec: Record)
    requires Loose(d, cnt) && Progress(d, f, rec) && Untouched(d, e) && DeviceOk(e)
    ensures Loose(e, cnt) && Progress(e, f, rec)
  {
    hide DeviceOk;
    if |rec.returned| == 1 && Misplaced(d, rec.returned[0], f) {
      var from: nat :| from > d.first && Holds(d, rec.returned[0], f, from);
      assert Holds(e, rec.returned[0], f, from);
    }
  }

  lemma CallFollowed(t: Trace, op: Op)
    requires TraceOk(t) && IsCall(op)
    ensures TraceOk(Follow(t, op)) && SameLayout(t.r, Follow(t, op).r)
  {
    hide DeviceOk, Apply, Loose, Progress;
    ApplyKeeps(t.r, op);
    UserLeavesLine(t.r, op);
    var u := Apply(t.r, op);
    forall i | 0 <= i < |t.r.devs|
      ensures u.devs[i].first == t.r.devs[i].first && u.devs[i].slots == t.r.devs[i].slots
      ensures t.r.slotCnt >= 0 ==> Loose(u.devs[i], Slot(u)) && Progress(u.devs[i], t.frame, t.recs[i])
    {
      UserLeavesDevice(t.r, op, i);
      if t.r.slotCnt >= 0 {
        UntouchedProgress(t.r.devs[i], u.devs[i], Slot(t.r), t.frame, t.recs[i]);
      }
    }
  }

  lemma StepFollowed(t: Trace, op: Op)
    requires TraceOk(t) && !EndsFrame(op) && |t.frame| + |Sent([op])| <= INT16_MAX
    ensures TraceOk(Follow(t, op)) && SameLayout(t.r, Follow(t, op).r)
    ensures Follow(t, op).frame == t.frame + Sent([op])
  {
    hide Progress, Apply, Loose, Reach;
    TracesAreOk(t);
    assert Sent([op]) == if op.Chunk? then op.bytes else [];
    if op.Chunk? {
      ChunkFollowed(t, op.bytes);
    } else {
      CallFollowed(t, op);
    }
  }

  /** A chunk, seen from device i of a trace. */
  lemma ChunkNoted(t: Trace, bytes: seq<Byte>, i: nat)
    requires ReceiverOk(t.r) && |t.recs| == |t.r.devs| && Sorted(t.r.devs) && i < |t.r.devs|
    requires bytes != [] && Accepted(t.r, bytes) && t.r.slotCnt + |bytes| <= INT16_MAX
    ensures Follow(t, Chunk(bytes)).r == UseRawData(t.r, bytes)
    ensures Follow(t, Chunk(bytes)).recs[i] ==
            Noted(t.recs[i], t.r.devs[i], Follow(t, Chunk(bytes)).r.devs[i], Slot(t.r), t.r.slotCnt + |bytes|,
                  Reach(t.r.devs, 0, i, Slot(t.r), t.r.slotCnt + |bytes|))
  {
    hide DeviceOk, UseRawData, Reach, Sorted, Noted;
  }

  /** A mailbox call, seen from device i. */
  lemma CallNoted(t: Trace, op: Op, i: nat)
    requires ReceiverOk(t.r) && |t.recs| == |t.r.devs| && IsCall(op) && i < |t.r.devs|
    ensures var u := Follow(t, op);
            && u.recs == t.recs && u.r.slotCnt == t.r.slotCnt && u.frame == t.frame
            && Untouched(t.r.devs[i], u.r.devs[i])
  {
    hide DeviceOk, Apply;
    UserLeavesLine(t.r, op);
    UserLeavesDevice(t.r, op, i);
  }

  lemma SentSplits(ops: seq<Op>)
    requires ops != []
    ensures Sent(ops) == Sent([ops[0]]) + Sent(ops[1..])
  {
  }

  lemma SameLayoutChain(r: Receiver, q: Receiver, s: Receiver)
    ensures SameLayout(r, r)
    ensures SameLayout(r, q) && SameLayout(q, s) ==> SameLayout(r, s)
  {
  }

  lemma NothingSent()
    ensures Sent([]) == []
  {
  }

  lemma {:induction false} AllFollowed(t: Trace, ops: seq<Op>)
    requires TraceOk(t) && InFrame(ops, |t.frame|)
    ensures ReceiverOk(t.r) && |t.recs| == |t.r.devs|
    ensures TraceOk(FollowAll(t, ops)) && SameLayout(t.r, FollowAll(t, ops).r)
    ensures FollowAll(t, ops).frame == t.frame + Sent(ops)
    decreases |ops|
  {
    hide TraceOk, Follow, ReceiverOk, SameLayout, Sent;
    TracesAreOk(t);
    SameLayoutChain(t.r, t.r, t.r);
    if ops == [] {
      assert Sent([]) == [] by { NothingSent(); }
    } else {
      SentSplits(ops);
      StepFollowed(t, ops[0]);
      var m := Follow(t, ops[0]);
      AllFollowed(m, ops[1..]);
      SameLayoutChain(t.r, m.r, FollowAll(m, ops[1..]).r);
    }
  }

  lemma StartIsOk(r: Receiver)
    requires ReceiverOk(r) && WellPlaced(r.devs)
    ensures TraceOk(Start(r)) && SameLayout(r, Start(r).r)
  {
    hide DeviceOk, Rewind;
    BreakKeepsOk(r);
    forall i | 0 <= i < |r.devs|
      ensures Break(r).devs[i].first == r.devs[i].first && Break(r).devs[i].slots == r.devs[i].slots && Break(r).devs[i].pos == 0
    {
      RewindKeeps(r.devs[i]);
    }
  }

  lemma StartFrame(r: Receiver)
    requires ReceiverOk(r)
    ensures Start(r).frame == []
  {
  }

  /** Frame delivery amid mailbox calls.  From a break on, bytes in any chunks and calls
      by the user in any order, also such as bring a device its buffer too late.  With a
      wrong start code nothing is handed back.  With the right one each device that had
      a buffer when its first slot came, and was given that slot, hands back one buffer
      with exactly its slots of the frame, once its window is over and not before.  Any
      other device hands back nothing, or once a buffer with other slots if it has taken
      one past its window. */
  lemma FrameDeliveredAmidCalls(r: Receiver, ops: seq<Op>)
    requires ReceiverOk(r) && WellPlaced(r.devs) && InFrame(ops, 0)
    ensures var t := FollowAll(Start(r), ops);
            && t.frame == Sent(ops) && SameLayout(r, t.r)
            && forall i | 0 <= i < |r.devs| ::
                 var d, rec := t.r.devs[i], t.recs[i];
                 if (t.frame != [] && t.frame[0] != r.slot0) || |t.frame| < r.devs[i].first + r.devs[i].slots then
                   rec.returned == []
                 else if !rec.starved && !rec.shifted then
                   |rec.returned| == 1 && Holds(d, rec.returned[0], t.frame, r.devs[i].first)
                 else
                   rec.returned == [] || (rec.past && |rec.returned| == 1 && Misplaced(d, rec.returned[0], t.frame))
  {
    hide DeviceOk, Loose, ReceiverOk, Sorted, Start, Holds, Misplaced;
    StartIsOk(r);
    StartFrame(r);
    AllFollowed(Start(r), ops);
    var t := FollowAll(Start(r), ops);
    forall i | 0 <= i < |r.devs| && t.r.slotCnt >= 0 ensures Progress(t.r.devs[i], t.frame, t.recs[i]) {
    }
  }
}
