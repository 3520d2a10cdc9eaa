// Devices that get a buffer in the middle of their window: what becomes of the buffer,
// and of the other devices.
module DmxLate {
  import opened Base
  import GenPool
  import opened IsrComm
  import opened Dmx
  import opened DmxTurns
  import opened DmxTheorems
  import opened DmxTraffic
  import opened DmxFrames

  /** Before slot cnt, in the middle of its window, a device has a buffer - or one waits
      for it - that is filled with less than the window so far. */
  predicate Lags(d: Device, cnt: int) {
    d.first < cnt < d.first + d.slots && HasBuffer(d) && Filled(d) < cnt - d.first
  }

  /** A device takes a slot past its window exactly if it comes to its turn behind the
      window and the bytes go on beyond its end. */
  lemma PastIff(d: Device, r: int, cnt: int, total: int)
    requires Loose(d, cnt) && cnt <= r
    ensures Past(d, r, total) <==>
            HasTurn(d, r, total) && HasBuffer(d) && TurnAt(d, r) - Filled(d) > d.first && total > d.first + d.slots
  {
    hide Conserved;
    SuppliedKeeps(d);
  }

  // ------------------------------------------------------------ the lagging device

  /** Some chunk of ops, which begin at slot pos, begins before slot `end` and ends
      beyond it. */
  predicate Straddled(ops: seq<Op>, pos: nat, end: nat) {
    && ops != []
    && (pos < end < pos + |Sent([ops[0]])| || Straddled(ops[1..], pos + |Sent([ops[0]])|, end))
  }

  /** Some chunk of ops begins before slot `end` and reaches slot goal. */
  predicate Reached(ops: seq<Op>, pos: nat, end: nat, goal: nat) {
    && ops != []
    && ((ops[0].Chunk? && pos < end && goal <= pos + |Sent([ops[0]])|) || Reached(ops[1..], pos + |Sent([ops[0]])|, end, goal))
  }

  lemma {:induction false} NeverAgain(ops: seq<Op>, pos: nat, end: nat, goal: nat)
    requires pos >= end
    ensures !Straddled(ops, pos, end) && !Reached(ops, pos, end, goal)
    decreases |ops|
  {
    if ops == [] {
    } else {
      NeverAgain(ops[1..], pos + |Sent([ops[0]])|, end, goal);
    }
  }

  lemma OnlyBytes(op: Op)
    requires op.Chunk?
    ensures Sent([op]) == op.bytes
  {
  }

  /** In the middle of a frame the line counts the bytes. */
  lemma OnLine(t: Trace, i: nat)
    requires TraceOk(t) && t.r.slotCnt > 0 && i < |t.r.devs|
    ensures t.r.slotCnt == |t.frame| == Slot(t.r) && Loose(t.r.devs[i], |t.frame|) && Progress(t.r.devs[i], t.frame, t.recs[i])
  {
  }

  lemma TraceBasics(t: Trace)
    requires TraceOk(t)
    ensures ReceiverOk(t.r) && |t.recs| == |t.r.devs| && Sorted(t.r.devs)
  {
  }

  /** A device whose window is over is left alone. */
  lemma FrozenStep(t: Trace, op: Op, i: nat)
    requires TraceOk(t) && !EndsFrame(op) && |t.frame| + |Sent([op])| <= INT16_MAX && i < |t.r.devs|
    requires t.r.slotCnt >= t.r.devs[i].first + t.r.devs[i].slots >= 1
    ensures |Follow(t, op).r.devs| == |t.r.devs|
    ensures Follow(t, op).recs[i] == t.recs[i] && Follow(t, op).r.slotCnt >= t.r.slotCnt
    ensures var d, e := t.r.devs[i], Follow(t, op).r.devs[i]; e.mem == d.mem && e.first == d.first && e.slots == d.slots
  {
    hide DeviceOk, Progress, Loose, Apply, Reach, UseRawData, TraceOk, Follow;
    TraceBasics(t);
    if op.Chunk? {
      OnlyBytes(op);
      OnLine(t, i);
      ChunkTurn(t.r, op.bytes, i);
      ChunkNoted(t, op.bytes, i);
      assert HandedBack(t.r.devs[i], t.r.devs[i]) == [] && t.recs[i].returned + [] == t.recs[i].returned;
    } else {
      CallNoted(t, op, i);
    }
  }

  lemma {:induction false} Frozen(t: Trace, ops: seq<Op>, i: nat)
    requires TraceOk(t) && InFrame(ops, |t.frame|) && i < |t.r.devs|
    requires t.r.slotCnt >= t.r.devs[i].first + t.r.devs[i].slots >= 1
    ensures ReceiverOk(t.r) && |t.recs| == |t.r.devs|
    ensures var u := FollowAll(t, ops);
            && |u.r.devs| == |t.r.devs| && u.recs[i] == t.recs[i]
            && u.r.devs[i].mem == t.r.devs[i].mem && u.r.devs[i].slots == t.r.devs[i].slots
    decreases |ops|
  {
    hide TraceOk, Follow, ReceiverOk, Sent;
    TraceBasics(t);
    if ops == [] {
    } else {
      SentSplits(ops);
      StepFollowed(t, ops[0]);
      FrozenStep(t, ops[0], i);
      Frozen(Follow(t, ops[0]), ops[1..], i);
    }
  }

  lemma HeldIsSupplied(d: Device)
    ensures d.data.Some? ==> Supplied(d) == d
  {
  }

  lemma NothingYet(d: Device, f: seq<Byte>, rec: Record)
    requires Progress(d, f, rec) && |f| < d.first + d.slots
    ensures rec.returned == [] && !rec.past
  {
    hide HoldsLast;
  }

  lemma LateTurn(d: Device, e: Device, f: seq<Byte>, bytes: seq<Byte>, rec: Record)
    requires Lags(d, |f|) && bytes != [] && Loose(d, |f|) && Progress(d, f, rec) && Filled(d) <= d.slots
    requires Took(d, e, Part(d, |f|, |f|, bytes))
    ensures var total, from, end := |f| + |bytes|, |f| - Filled(d), d.first + d.slots;
            var rec' := Noted(rec, d, e, |f|, total, |f|);
            && e.first == d.first && e.slots == d.slots
            && (rec'.past <==> total > end)
            && (total < end ==> Lags(e, total) && total - Filled(e) == from)
            && if total >= from + d.slots then |rec'.returned| == 1 && Holds(e, rec'.returned[0], f + bytes, from)
               else rec'.returned == []
  {
    hide DeviceOk, Progress, Supplied, HoldsLast;
    if Filled(d) > 0 {
      FilledHoldsLast(d, f, rec);
    }
    PartOfFrame(d, e, f, bytes, |f|);
    NothingYet(d, f, rec);
    assert [] + HandedBack(d, e) == HandedBack(d, e);
    if |f| + |bytes| < |f| - Filled(d) + d.slots {
      assert e.data.Some? && Supplied(e) == e by { HeldIsSupplied(e); }
    }
  }

  /** One chunk for a lagging device: within the window it takes all of it, and lags
      as before; beyond the window's end it takes more than the window. */
  lemma LateChunk(t: Trace, bytes: seq<Byte>, i: nat)
    requires TraceOk(t) && bytes != [] && t.r.slotCnt + |bytes| <= INT16_MAX && i < |t.r.devs|
    requires Lags(t.r.devs[i], t.r.slotCnt)
    ensures |t.frame| == t.r.slotCnt && |Follow(t, Chunk(bytes)).recs| == |t.r.devs| == |Follow(t, Chunk(bytes)).r.devs|
    ensures var u, d, total := Follow(t, Chunk(bytes)), t.r.devs[i], |t.frame| + |bytes|;
            var e, rec, from, end := u.r.devs[i], u.recs[i], |t.frame| - Filled(d), d.first + d.slots;
            && e.first == d.first && e.slots == d.slots && u.r.slotCnt == total && u.frame == t.frame + bytes
            && (rec.past <==> total > end)
            && (total < end ==> Lags(e, total) && total - Filled(e) == from)
            && if total >= from + d.slots then |rec.returned| == 1 && Holds(e, rec.returned[0], u.frame, from)
               else rec.returned == []
  {
    hide DeviceOk, Progress, Loose, Reach, UseRawData, TraceOk, Follow, Took, Noted, After, Holds, ReceiverOk, Sorted;
    TraceBasics(t);
    OnLine(t, i);
    ChunkTurn(t.r, bytes, i);
    ChunkNoted(t, bytes, i);
    StepFollowed(t, Chunk(bytes));
    OnlyBytes(Chunk(bytes));
    var d, e := t.r.devs[i], Follow(t, Chunk(bytes)).r.devs[i];
    LooseBasics(d, |t.frame|);
    TurnTakes(d, |t.frame|, |t.frame|, bytes);
    LateTurn(d, e, t.frame, bytes, t.recs[i]);
  }

  lemma LagsWithin(t: Trace, i: nat)
    requires TraceOk(t) && i < |t.r.devs| && Lags(t.r.devs[i], t.r.slotCnt)
    ensures t.r.slotCnt == |t.frame| && |t.frame| < t.r.devs[i].first + t.r.devs[i].slots
    ensures t.recs[i].returned == [] && !t.recs[i].past && t.r.devs[i].first + Filled(t.r.devs[i]) < |t.frame|
  {
    hide DeviceOk, HoldsLast;
    OnLine(t, i);
  }

  lemma StillLags(d: Device, e: Device, cnt: int)
    requires Lags(d, cnt) && Untouched(d, e)
    ensures Lags(e, cnt) && Filled(e) == Filled(d) && e.first == d.first && e.slots == d.slots
  {
  }

  lemma ChunkNotEmpty(ops: seq<Op>)
    requires ops != [] && ops[0].Chunk? && forall op | op in ops :: !EndsFrame(op)
    ensures ops[0].bytes != []
  {
    assert !EndsFrame(ops[0]);
  }

  lemma NothingSentBy(op: Op)
    requires !op.Chunk?
    ensures Sent([op]) == []
  {
  }

  /** The outcome u of a lagging device's frame, for chunks ops from slot pos on, if its
      buffer begins with slot `from`. */
  ghost predicate LateOutcome(u: Trace, i: nat, ops: seq<Op>, pos: nat, from: nat, end: nat)
    requires i < |u.r.devs| == |u.recs|
  {
    var d, rec := u.r.devs[i], u.recs[i];
    && (rec.past <==> Straddled(ops, pos, end))
    && (rec.returned != [] <==> Reached(ops, pos, end, from + d.slots))
    && (rec.returned != [] ==> |rec.returned| == 1 && Holds(d, rec.returned[0], u.frame, from))
  }

  lemma StillHolds(d: Device, e: Device, c: nat, f: seq<Byte>, more: seq<Byte>, from: nat)
    requires Holds(d, c, f, from) && e.mem == d.mem && e.slots == d.slots
    ensures Holds(e, c, f + more, from)
  {
    Sliced(f, more, from, d.slots);
  }

  /** What becomes of a buffer that a device lags behind with, in the rest of the frame
      and for any calls meanwhile.  The device takes a slot past its window exactly if
      some chunk straddles the window's end; and it hands the buffer back exactly if
      some chunk that begins in the window reaches as many slots after the buffer's
      first as it takes to fill it - which it does with those. */
  lemma {:induction false} LateExact(t: Trace, ops: seq<Op>, i: nat)
    requires TraceOk(t) && InFrame(ops, |t.frame|) && i < |t.r.devs| && Lags(t.r.devs[i], t.r.slotCnt)
    ensures ReceiverOk(t.r) && |t.recs| == |t.r.devs| && Filled(t.r.devs[i]) <= |t.frame|
    ensures |FollowAll(t, ops).r.devs| == |t.r.devs|
    ensures LateOutcome(FollowAll(t, ops), i, ops, |t.frame|, |t.frame| - Filled(t.r.devs[i]), t.r.devs[i].first + t.r.devs[i].slots)
    decreases |ops|, 1
  {
    hide TraceOk, Follow, ReceiverOk, Sent, Lags, Holds, Loose;
    TraceBasics(t);
    LagsWithin(t, i);
    if ops == [] {
    } else {
      SentSplits(ops);
      StepFollowed(t, ops[0]);
      if ops[0].Chunk? {
        LateChunkExact(t, ops, i);
      } else {
        CallNoted(t, ops[0], i);
        NothingSentBy(ops[0]);
        StillLags(t.r.devs[i], Follow(t, ops[0]).r.devs[i], |t.frame|);
        LateExact(Follow(t, ops[0]), ops[1..], i);
      }
    }
  }

  lemma LateChunkExact(t: Trace, ops: seq<Op>, i: nat)
    requires TraceOk(t) && InFrame(ops, |t.frame|) && i < |t.r.devs| && Lags(t.r.devs[i], t.r.slotCnt)
    requires ops != [] && ops[0].Chunk?
    ensures ReceiverOk(t.r) && |t.recs| == |t.r.devs| && Filled(t.r.devs[i]) <= |t.frame|
    ensures |FollowAll(t, ops).r.devs| == |t.r.devs|
    ensures LateOutcome(FollowAll(t, ops), i, ops, |t.frame|, |t.frame| - Filled(t.r.devs[i]), t.r.devs[i].first + t.r.devs[i].slots)
    decreases |ops|, 0
  {
    hide TraceOk, Follow, ReceiverOk, Sent, Lags, Holds, Loose;
    TraceBasics(t);
    LagsWithin(t, i);
    SentSplits(ops);
    StepFollowed(t, ops[0]);
    OnlyBytes(ops[0]);
    ChunkNotEmpty(ops);
    LateChunk(t, ops[0].bytes, i);
    var m := Follow(t, ops[0]);
    var end, from := t.r.devs[i].first + t.r.devs[i].slots, |t.frame| - Filled(t.r.devs[i]);
    AllFollowed(m, ops[1..]);
    if |m.frame| < end {
      LateExact(m, ops[1..], i);
    } else {
      Frozen(m, ops[1..], i);
      NeverAgain(ops[1..], |m.frame|, end, from + t.r.devs[i].slots);
      if m.recs[i].returned != [] {
        StillHolds(m.r.devs[i], FollowAll(m, ops[1..]).r.devs[i], m.recs[i].returned[0], m.frame, Sent(ops[1..]), from);
      }
    }
  }

  /** To hand back a buffer that begins late is to have taken slots past the window. */
  lemma {:induction false} ReachedStraddles(ops: seq<Op>, pos: nat, end: nat, goal: nat)
    requires goal > end
    ensures Reached(ops, pos, end, goal) ==> Straddled(ops, pos, end)
    decreases |ops|
  {
    if ops == [] {
    } else {
      ReachedStraddles(ops[1..], pos + |Sent([ops[0]])|, end, goal);
    }
  }

  /** A lagging device hands nothing back and takes no slot past its window exactly if no
      chunk straddles the window's end. */
  lemma HarmlessIffNotStraddled(t: Trace, ops: seq<Op>, i: nat)
    requires TraceOk(t) && InFrame(ops, |t.frame|) && i < |t.r.devs| && Lags(t.r.devs[i], t.r.slotCnt)
    ensures ReceiverOk(t.r) && |t.recs| == |t.r.devs| && |FollowAll(t, ops).r.devs| == |t.r.devs|
    ensures var rec, d := FollowAll(t, ops).recs[i], t.r.devs[i];
            !rec.past && rec.returned == [] <==> !Straddled(ops, |t.frame|, d.first + d.slots)
  {
    hide TraceOk, FollowAll, ReceiverOk, Straddled, Reached, Holds;
    LateExact(t, ops, i);
    LagsWithin(t, i);
    AllFollowed(t, ops);
    var d := t.r.devs[i];
    ReachedStraddles(ops, |t.frame|, d.first + d.slots, |t.frame| - Filled(d) + FollowAll(t, ops).r.devs[i].slots);
  }

  // ------------------------------------------------------------ the other devices

  lemma {:induction false} ReachStep(devs: seq<Device>, k: nat, i: nat, r: int, total: int)
    requires k <= i < |devs|
    ensures Reach(devs, k, i + 1, r, total) == Next(devs[i], Reach(devs, k, i, r, total), total)
    decreases i - k
  {
    if k == i {
    } else {
      ReachStep(devs, k + 1, i, Next(devs[k], r, total), total);
    }
  }

  /** The device after a lagging one is overtaken exactly if its first slot comes before
      the bytes end and before the late buffer is full. */
  lemma NeighbourShifted(devs: seq<Device>, l: nat, cnt: int, total: int)
    requires l + 1 < |devs| && Sorted(devs) && Lags(devs[l], cnt) && cnt < total && Filled(devs[l]) <= devs[l].slots
    ensures Reach(devs, 0, l + 1, cnt, total) == Min(total, cnt - Filled(devs[l]) + devs[l].slots)
    ensures Reach(devs, 0, l + 1, cnt, total) > devs[l + 1].first <==>
            devs[l + 1].first < total && devs[l + 1].first < cnt - Filled(devs[l]) + devs[l].slots
  {
    ReachBegun(devs, l, cnt, total);
    ReachStep(devs, 0, l, cnt, total);
  }

  /** A chunk that straddles no lagging device's window end. */
  ghost predicate CalmChunk(q: Receiver, bytes: seq<Byte>)
    requires bytes != []
  {
    Accepted(q, bytes) ==>
      forall i | 0 <= i < |q.devs| && Lags(q.devs[i], Slot(q)) :: q.slotCnt + |bytes| <= q.devs[i].first + q.devs[i].slots
  }

  ghost predicate Calm(t: Trace, ops: seq<Op>)
    requires ReceiverOk(t.r) && |t.recs| == |t.r.devs|
    decreases |ops|
  {
    ops == []
    || ((ops[0].Chunk? && ops[0].bytes != [] ==> CalmChunk(t.r, ops[0].bytes)) && Calm(Follow(t, ops[0]), ops[1..]))
  }

  lemma LooseFilled(d: Device, cnt: int)
    requires Loose(d, cnt)
    ensures Filled(d) <= d.slots && d.slots >= 1
    ensures cnt < d.first + d.slots ==> Filled(d) <= if cnt <= d.first then 0 else cnt - d.first
  {
    hide Conserved;
  }

  lemma CalmStaysIn(d: Device, cnt: int, total: int)
    requires Loose(d, cnt) && (Lags(d, cnt) ==> total <= d.first + d.slots)
    ensures StaysIn(d, cnt, total)
  {
    LooseFilled(d, cnt);
    hide Loose, Supplied;
  }

  /** A calm chunk overtakes nobody. */
  lemma CalmOnTime(q: Receiver, bytes: seq<Byte>, i: nat)
    requires i < |q.devs| && Sorted(q.devs) && bytes != [] && Accepted(q, bytes) && CalmChunk(q, bytes)
    requires forall j | 0 <= j < |q.devs| :: Loose(q.devs[j], Slot(q))
    ensures OnTime(q.devs[i], Reach(q.devs, 0, i, Slot(q), q.slotCnt + |bytes|), Slot(q))
  {
    hide Loose, StaysIn, Lags, Sorted;
    forall j | 0 <= j < |q.devs| ensures StaysIn(q.devs[j], Slot(q), q.slotCnt + |bytes|) {
      CalmStaysIn(q.devs[j], Slot(q), q.slotCnt + |bytes|);
    }
    NobodyOvertaken(q.devs, 0, i, Slot(q), Slot(q), q.slotCnt + |bytes|);
  }

  /** On time, only a lagging device can take a slot past its window. */
  lemma PastLags(d: Device, r: int, cnt: int, total: int)
    requires Loose(d, cnt) && OnTime(d, r, cnt) && Past(d, r, total)
    ensures Lags(d, cnt) && total > d.first + d.slots
  {
    PastIff(d, r, cnt, total);
    LooseFilled(d, cnt);
    hide Loose, Supplied;
  }

  lemma LagsPast(d: Device, cnt: int, total: int)
    requires Loose(d, cnt) && Lags(d, cnt) && total > d.first + d.slots
    ensures Past(d, cnt, total)
  {
    PastIff(d, cnt, cnt, total);
    hide Loose, Supplied;
  }

  ghost predicate Clean(t: Trace) {
    forall i | 0 <= i < |t.recs| :: !t.recs[i].past
  }

  ghost predicate Unshifted(t: Trace) {
    forall i | 0 <= i < |t.recs| :: !t.recs[i].shifted
  }

  lemma LagsHasBegun(d: Device, cnt: int)
    requires Lags(d, cnt)
    ensures d.first < cnt
  {
  }

  lemma CalmNoted(t: Trace, bytes: seq<Byte>, i: nat)
    requires TraceOk(t) && bytes != [] && |t.frame| + |bytes| <= INT16_MAX && Accepted(t.r, bytes) && i < |t.recs|
    requires !t.recs[i].past && !t.recs[i].shifted
    ensures |t.recs| == |t.r.devs| == |Follow(t, Chunk(bytes)).recs|
    ensures var rec := Follow(t, Chunk(bytes)).recs[i];
            && (CalmChunk(t.r, bytes) ==> !rec.past && !rec.shifted)
            && (Lags(t.r.devs[i], Slot(t.r)) && t.r.slotCnt + |bytes| > t.r.devs[i].first + t.r.devs[i].slots ==> rec.past)
  {
    hide DeviceOk, Loose, Progress, UseRawData, Reach, Past, Lags, Sorted, Follow;
    TraceBasics(t);
    ChunkTurn(t.r, bytes, i);
    ChunkNoted(t, bytes, i);
    var d, cnt, total := t.r.devs[i], Slot(t.r), t.r.slotCnt + |bytes|;
    var r := Reach(t.r.devs, 0, i, cnt, total);
    assert Loose(d, cnt);
    if CalmChunk(t.r, bytes) {
      CalmOnTime(t.r, bytes, i);
      if Past(d, r, total) {
        PastLags(d, r, cnt, total);
      }
    }
    if Lags(d, cnt) && total > d.first + d.slots {
      LagsHasBegun(d, cnt);
      LagsPast(d, cnt, total);
    }
  }

  lemma CalmStep(t: Trace, bytes: seq<Byte>)
    requires TraceOk(t) && bytes != [] && |t.frame| + |bytes| <= INT16_MAX
    requires Clean(t) && Unshifted(t)
    ensures ReceiverOk(t.r) && |t.recs| == |t.r.devs|
    ensures Clean(Follow(t, Chunk(bytes))) <==> CalmChunk(t.r, bytes)
    ensures CalmChunk(t.r, bytes) ==> Unshifted(Follow(t, Chunk(bytes)))
  {
    hide DeviceOk, Loose, Progress, UseRawData, Reach, Past, Lags, Sorted;
    TraceBasics(t);
    if Accepted(t.r, bytes) {
      forall i | 0 <= i < |t.recs|
        ensures CalmChunk(t.r, bytes) ==>
                  !Follow(t, Chunk(bytes)).recs[i].past && !Follow(t, Chunk(bytes)).recs[i].shifted
        ensures Lags(t.r.devs[i], Slot(t.r)) && t.r.slotCnt + |bytes| > t.r.devs[i].first + t.r.devs[i].slots ==>
                  Follow(t, Chunk(bytes)).recs[i].past
      {
        CalmNoted(t, bytes, i);
      }
    }
  }

  lemma {:induction false} PastStays(t: Trace, ops: seq<Op>, i: nat)
    requires ReceiverOk(t.r) && |t.recs| == |t.r.devs| && i < |t.recs| && t.recs[i].past
    ensures FollowAll(t, ops).recs[i].past
    decreases |ops|
  {
    hide ReceiverOk, Apply, Reach;
    if ops == [] {
    } else {
      PastStays(Follow(t, ops[0]), ops[1..], i);
    }
  }

  lemma SameNotes(t: Trace, op: Op)
    requires TraceOk(t) && IsCall(op)
    ensures ReceiverOk(t.r) && |t.recs| == |t.r.devs|
    ensures Clean(Follow(t, op)) == Clean(t) && Unshifted(Follow(t, op)) == Unshifted(t)
  {
    TraceBasics(t);
    hide TraceOk, ReceiverOk, Apply;
  }

  lemma {:induction false} CalmRun(t: Trace, ops: seq<Op>)
    requires TraceOk(t) && InFrame(ops, |t.frame|) && Clean(t) && Unshifted(t)
    ensures ReceiverOk(t.r) && |t.recs| == |t.r.devs|
    ensures Clean(FollowAll(t, ops)) <==> Calm(t, ops)
    ensures Calm(t, ops) ==> Unshifted(FollowAll(t, ops))
    decreases |ops|
  {
    hide TraceOk, Follow, ReceiverOk, Sent, CalmChunk, Unshifted;
    TraceBasics(t);
    if ops == [] {
    } else {
      SentSplits(ops);
      StepFollowed(t, ops[0]);
      var m := Follow(t, ops[0]);
      if ops[0].Chunk? {
        OnlyBytes(ops[0]);
        ChunkNotEmpty(ops);
        CalmStep(t, ops[0].bytes);
      } else {
        SameNotes(t, ops[0]);
      }
      if Clean(m) {
        CalmRun(m, ops[1..]);
      } else {
        var i :| 0 <= i < |m.recs| && m.recs[i].past;
        PastStays(m, ops[1..], i);
      }
    }
  }

  lemma StartIsClean(r: Receiver)
    requires ReceiverOk(r)
    ensures Clean(Start(r)) && Unshifted(Start(r))
  {
  }

  /** From a break on, for all traffic: no device takes a slot past its window exactly if
      no chunk straddles the end of a lagging device's window.  Then every device that
      had a buffer when its first slot came hands back exactly its window, and every
      other nothing. */
  lemma CalmExact(r: Receiver, ops: seq<Op>)
    requires ReceiverOk(r) && WellPlaced(r.devs) && InFrame(ops, 0)
    ensures var t := FollowAll(Start(r), ops);
            && (Clean(t) <==> Calm(Start(r), ops))
            && (Calm(Start(r), ops) ==> SameLayout(r, t.r) && forall i | 0 <= i < |r.devs| ::
                  var d, rec := t.r.devs[i], t.recs[i];
                  && !rec.shifted
                  && if (t.frame != [] && t.frame[0] != r.slot0) || |t.frame| < r.devs[i].first + r.devs[i].slots || rec.starved then
                       rec.returned == []
                     else
                       |rec.returned| == 1 && Holds(d, rec.returned[0], t.frame, r.devs[i].first))
  {
    hide TraceOk, ReceiverOk, Holds, Misplaced, Calm, FollowAll;
    StartIsOk(r);
    StartFrame(r);
    StartIsClean(r);
    CalmRun(Start(r), ops);
    FrameDeliveredAmidCalls(r, ops);
  }

  // -------------------------------------------------------------- what can go wrong

  /** Two devices with adjacent windows, of 2 slots and 1, and a pool of one buffer each.
      The first device's buffer is with the user, the second has its own. */
  function TwoDevices(): Receiver {
    var one := GenPool.Pool(1, {0}, map[], 0);
    Receiver(-1, 0, [Device(1, 2, None, 0, 0, Mailbox(one, [], [], multiset{}, multiset{0}), [[0, 0]]),
                     Device(3, 1, Some(0), 0, 0, Mailbox(one, [], [], multiset{0}, multiset{}), [[0]])])
  }

  /** The frame 0, 1, 2, 3 in two chunks, and the user's buffer is sent between them. */
  function LateSend(): seq<Op> {
    [Chunk([0, 1]), UserSend(0, 0), Chunk([2, 3])]
  }

  lemma FollowFirst(t: Trace, a: Op, rest: seq<Op>)
    requires ReceiverOk(t.r) && |t.recs| == |t.r.devs|
    ensures FollowAll(t, [a] + rest) == FollowAll(Follow(t, a), rest)
  {
    hide Follow, ReceiverOk;
    assert ([a] + rest)[1..] == rest;
  }

  lemma FollowNone(t: Trace)
    requires ReceiverOk(t.r) && |t.recs| == |t.r.devs|
    ensures FollowAll(t, []) == t
  {
  }

  lemma UnfoldThree(t: Trace, a: Op, b: Op, c: Op)
    requires ReceiverOk(t.r) && |t.recs| == |t.r.devs|
    ensures FollowAll(t, [a, b, c]) == Follow(Follow(Follow(t, a), b), c)
  {
    hide Follow, ReceiverOk, FollowAll;
    FollowFirst(t, a, [b, c]);
    FollowFirst(Follow(t, a), b, [c]);
    FollowFirst(Follow(Follow(t, a), b), c, []);
    FollowNone(Follow(Follow(Follow(t, a), b), c));
    assert [a] + [b, c] == [a, b, c] && [b] + [c] == [b, c] && [c] + [] == [c];
  }

  lemma TwoDevicesOk()
    ensures ReceiverOk(TwoDevices()) && WellPlaced(TwoDevices().devs) && InFrame(LateSend(), 0)
  {
    var r := TwoDevices();
    assert multiset({0 as nat}) == multiset{0};
    assert r.devs[0].box.pool.live <= Cells(1) && r.devs[1].box.pool.live <= Cells(1);
    assert DeviceOk(r.devs[0]) && DeviceOk(r.devs[1]);
    assert LateSend()[1..] == [UserSend(0, 0), Chunk([2, 3])] && LateSend()[1..][1..] == [Chunk([2, 3])] && LateSend()[1..][1..][1..] == [];
  }

  /** Where it starts from after the break. */
  ghost predicate AtStart(t: Trace) {
    && TraceOk(t) && t.r.slotCnt == 0 && t.r.slot0 == 0 && t.frame == [] && |t.r.devs| == 2
    && t.r.devs == TwoDevices().devs && t.recs == [Record([], false, false, false), Record([], false, false, false)]
  }

  lemma StartOfTwo()
    requires ReceiverOk(TwoDevices()) && TraceOk(Start(TwoDevices()))
    ensures AtStart(Start(TwoDevices()))
  {
    hide DeviceOk, TraceOk;
    var r := TwoDevices();
    assert Rewind(r.devs[0]) == r.devs[0] && Rewind(r.devs[1]) == r.devs[1];
    assert Break(r).devs == r.devs;
  }

  /** After the first half the first device goes without a buffer. */
  ghost predicate HalfWay(t: Trace, sent: bool) {
    && TraceOk(t) && t.r.slotCnt == 2 && t.frame == [0, 1] && |t.r.devs| == 2
    && var d, g := t.r.devs[0], t.r.devs[1];
       && d.first == 1 && d.slots == 2 && d.data == None && |d.mem| == 1
       && (if sent then d.box.toQ == [0] else d.box.toQ == [] && d.box.user == multiset{0} && d.box.pool.size == 1)
       && g == TwoDevices().devs[1]
       && t.recs == [Record([], true, false, false), Record([], false, false, false)]
  }

  lemma FirstHalf(t: Trace)
    requires AtStart(t)
    ensures ReceiverOk(t.r) && |t.recs| == |t.r.devs| && HalfWay(Follow(t, Chunk([0, 1])), false)
  {
    hide DeviceOk, TraceOk, UseRawData, Follow, Progress, Loose;
    TraceBasics(t);
    OnlyBytes(Chunk([0, 1]));
    StepFollowed(t, Chunk([0, 1]));
    ChunkTurn(t.r, [0, 1], 0);
    ChunkTurn(t.r, [0, 1], 1);
    ChunkNoted(t, [0, 1], 0);
    ChunkNoted(t, [0, 1], 1);
    var u := Follow(t, Chunk([0, 1]));
    ReachStep(t.r.devs, 0, 0, 1, 2);
    assert Reach(t.r.devs, 0, 0, 1, 2) == 1 && Reach(t.r.devs, 0, 1, 1, 2) == 1;
    TurnTakes(t.r.devs[0], 1, 1, [1]);
    assert [0, 1][1..] == [1 as Byte];
    assert u.r.devs[1] == t.r.devs[1];
    assert u.recs == [u.recs[0], u.recs[1]];
  }

  lemma SendBetween(t: Trace)
    requires HalfWay(t, false)
    ensures ReceiverOk(t.r) && |t.recs| == |t.r.devs| && HalfWay(Follow(t, UserSend(0, 0)), true)
  {
    hide DeviceOk, TraceOk, Progress, Loose;
    TraceBasics(t);
    NothingSentBy(UserSend(0, 0));
    StepFollowed(t, UserSend(0, 0));
  }

  lemma HalfWayBasics(t: Trace)
    requires HalfWay(t, true)
    ensures TraceOk(t) && ReceiverOk(t.r) && |t.recs| == |t.r.devs| == 2 && t.r.slotCnt == 2 == |t.frame|
    ensures Sorted(t.r.devs) && Lags(t.r.devs[0], 2) && Filled(t.r.devs[0]) == 0
  {
    hide DeviceOk, Progress, Loose;
  }

  lemma StarvedStays(rec: Record, d: Device, e: Device, cnt: int, total: int, r: int)
    requires rec.starved
    ensures Noted(rec, d, e, cnt, total, r).starved
  {
  }

  lemma HoldsCell(d: Device, c: nat, f: seq<Byte>, from: nat)
    requires Holds(d, c, f, from)
    ensures c < |d.mem|
  {
  }

  lemma TakesKeepSize(d: Device, e: Device, r: int, bytes: seq<Byte>)
    requires HasTurn(d, r, r + |bytes|) && Filled(d) <= d.slots
    requires if HasBuffer(d) then Took(d, e, Part(d, r, r, bytes)) else TookNothing(d, e)
    ensures |e.mem| == |d.mem|
  {
  }

  /** A pool of one buffer. */
  lemma TakenIsMem(d: Device, e: Device, bytes: seq<Byte>)
    requires DeviceOk(d) && |d.mem| == 1 && bytes != [] && HasTurn(d, 2, 2 + |bytes|) && e == After(d, 2, 2, bytes)
    ensures |e.mem| == 1
  {
    hide DeviceOk, AddToDevice, Took, Part, After;
    TurnTakes(d, 2, 2, bytes);
    TakesKeepSize(d, e, 2, bytes);
  }

  lemma LateFirst(t: Trace)
    requires HalfWay(t, true)
    ensures ReceiverOk(t.r) && |t.recs| == |t.r.devs| == 2
    ensures var u := Follow(t, Chunk([2, 3]));
            && u.frame == [0, 1, 2, 3]
            && u.recs[0].starved && u.recs[0].past && u.recs[0].returned == [0] && Holds(u.r.devs[0], 0, u.frame, 2)
  {
    HalfWayBasics(t);
    hide TraceOk, ReceiverOk, UseRawData, Follow, Reach, Lags, Sorted, DeviceOk, After, Holds, Noted;
    var u := Follow(t, Chunk([2, 3]));
    LateChunk(t, [2, 3], 0);
    ChunkTurn(t.r, [2, 3], 0);
    ChunkNoted(t, [2, 3], 0);
    StarvedStays(t.recs[0], t.r.devs[0], u.r.devs[0], 2, 4, Reach(t.r.devs, 0, 0, 2, 4));
    TakenIsMem(t.r.devs[0], u.r.devs[0], [2, 3]);
    HoldsCell(u.r.devs[0], u.recs[0].returned[0], u.frame, 2);
    assert u.recs[0].returned == [u.recs[0].returned[0]];
  }

  lemma PunctualSecond(t: Trace)
    requires HalfWay(t, true)
    ensures ReceiverOk(t.r) && |t.recs| == |t.r.devs| == 2
    ensures var u := Follow(t, Chunk([2, 3]));
            && |u.r.devs| == 2 && u.recs[1].shifted && u.recs[1].returned == [] && u.r.devs[1].data == Some(0)
  {
    HalfWayBasics(t);
    hide TraceOk, ReceiverOk, UseRawData, Follow, Reach, Lags, Sorted, DeviceOk;
    ChunkTurn(t.r, [2, 3], 1);
    ChunkNoted(t, [2, 3], 1);
    NeighbourShifted(t.r.devs, 0, 2, 4);
  }

  lemma SecondHalf(t: Trace)
    requires HalfWay(t, true)
    ensures ReceiverOk(t.r) && |t.recs| == |t.r.devs|
    ensures var u := Follow(t, Chunk([2, 3]));
            && u.frame == [0, 1, 2, 3] && |u.r.devs| == 2
            && u.recs[0].starved && u.recs[0].past && u.recs[0].returned == [0] && Holds(u.r.devs[0], 0, u.frame, 2)
            && u.recs[1].shifted && u.recs[1].returned == [] && u.r.devs[1].data == Some(0)
  {
    hide HalfWay, Follow, Holds;
    HalfWayBasics(t);
    LateFirst(t);
    PunctualSecond(t);
  }

  /** From a break on, the first device hands back slots 2 and 3 instead of 1 and 2; and
      the second, which had its buffer all the time, hands back nothing and still has it
      when its window is over. */
  lemma WrongHandBack()
    ensures var r := TwoDevices();
            && ReceiverOk(r) && WellPlaced(r.devs) && InFrame(LateSend(), 0)
            && var u := FollowAll(Start(r), LateSend());
               && u.frame == [0, 1, 2, 3] && |u.r.devs| == 2
               && u.recs[0].starved && u.recs[0].past && u.recs[0].returned == [0] && Holds(u.r.devs[0], 0, u.frame, 2)
               && u.recs[1].shifted && u.recs[1].returned == [] && u.r.devs[1].data == Some(0)
  {
    hide DeviceOk, Follow, Holds;
    TwoDevicesOk();
    var r := TwoDevices();
    var s := Start(r);
    StartIsOk(r);
    StartOfTwo();
    var m := Follow(s, Chunk([0, 1]));
    FirstHalf(s);
    var n := Follow(m, UserSend(0, 0));
    SendBetween(m);
    SecondHalf(n);
    UnfoldThree(s, Chunk([0, 1]), UserSend(0, 0), Chunk([2, 3]));
  }
}
