// What the device loop of src/rs485_dmx.c does to every device from any state: which
// slots it takes when its turn comes, whoever took what before it.
module DmxTurns {
  import opened Base
  import opened IsrComm
  import opened Dmx

  // ------------------------------------------------------------------------ turns

  /** How many slots a device has in its buffer; a new one begins empty. */
  function Filled(d: Device): nat {
    if d.data.Some? then d.pos else 0
  }

  predicate HasBuffer(d: Device) {
    Supplied(d).data.Some?
  }

  /** The slot at which d's turn begins, if the devices before it have taken the bytes up
      to slot r. */
  function TurnAt(d: Device, r: int): int {
    if r < d.first then d.first else r
  }

  /** There is a turn if the bytes, which end before slot total, last until then and the
      device's window is not over. */
  predicate HasTurn(d: Device, r: int, total: int) {
    r < total && r < d.first + d.slots && TurnAt(d, r) <= total
  }

  /** A device takes what fits into its buffer, not what its window holds. */
  function Taken(d: Device, r: int, total: int): int {
    if HasBuffer(d) then Min(total - TurnAt(d, r), d.slots - Filled(d)) else 0
  }

  function Next(d: Device, r: int, total: int): int {
    if HasTurn(d, r, total) then TurnAt(d, r) + Taken(d, r, total) else r
  }

  /** The slot up to which devices k to i-1 take the bytes, if those before take them up
      to slot r. */
  function Reach(devs: seq<Device>, k: nat, i: nat, r: int, total: int): int
    requires k <= i <= |devs|
    decreases i - k
  {
    if k == i then r else Reach(devs, k + 1, i, Next(devs[k], r, total), total)
  }

  /** The device after its turn, for bytes that begin at slot cnt. */
  ghost function After(d: Device, r: int, cnt: int, bytes: seq<Byte>): Device
    requires DeviceOk(d) && cnt <= r
  {
    if HasTurn(d, r, cnt + |bytes|) then AddToDevice(d, bytes[TurnAt(d, r) - cnt..]).0 else d
  }

  // -------------------------------------------------------------- reach and order

  lemma NextBounds(d: Device, r: int, total: int)
    requires d.pos <= d.slots && r <= total
    ensures r <= Next(d, r, total) <= total
  {
  }

  lemma {:induction false} ReachBounds(devs: seq<Device>, k: nat, i: nat, r: int, total: int)
    requires k <= i <= |devs| && r <= total && forall j | 0 <= j < |devs| :: devs[j].pos <= devs[j].slots
    ensures r <= Reach(devs, k, i, r, total) <= total
    decreases i - k
  {
    if k == i {
    } else {
      NextBounds(devs[k], r, total);
      ReachBounds(devs, k + 1, i, Next(devs[k], r, total), total);
    }
  }

  /** Devices that have no turn reach no further. */
  lemma {:induction false} ReachIdle(devs: seq<Device>, k: nat, i: nat, r: int, total: int)
    requires k <= i <= |devs| && forall j | k <= j < i :: !HasTurn(devs[j], r, total)
    ensures Reach(devs, k, i, r, total) == r
    decreases i - k
  {
    if k == i {
    } else {
      ReachIdle(devs, k + 1, i, r, total);
    }
  }

  lemma {:induction false} ReachAgrees(devs: seq<Device>, devs': seq<Device>, k: nat, i: nat, r: int, total: int)
    requires k <= i <= |devs| == |devs'| && forall j | k <= j < i :: devs[j] == devs'[j]
    ensures Reach(devs, k, i, r, total) == Reach(devs', k, i, r, total)
    decreases i - k
  {
    if k == i {
    } else {
      ReachAgrees(devs, devs', k + 1, i, Next(devs[k], r, total), total);
    }
  }

  lemma {:induction false} ReachFrame(devs: seq<Device>, d: Device, k: nat, i: nat, r: int, total: int)
    requires k < i <= |devs|
    ensures Reach(devs[k := d], k + 1, i, r, total) == Reach(devs, k + 1, i, r, total)
  {
    ReachAgrees(devs[k := d], devs, k + 1, i, r, total);
  }

  /** A device whose window has begun is the first one to have a turn. */
  lemma ReachBegun(devs: seq<Device>, i: nat, cnt: int, total: int)
    requires i < |devs| && Sorted(devs) && cnt > devs[i].first
    ensures Reach(devs, 0, i, cnt, total) == cnt
  {
    forall j | 0 <= j < i ensures !HasTurn(devs[j], cnt, total) {
      assert devs[j].first + devs[j].slots <= devs[i].first;
    }
    ReachIdle(devs, 0, i, cnt, total);
  }

  // ------------------------------------------------------- the loop is these turns

  lemma UsedIsTaken(d: Device, r: int, cnt: int, bytes: seq<Byte>)
    requires DeviceOk(d) && cnt <= r && HasTurn(d, r, cnt + |bytes|)
    ensures AddToDevice(d, bytes[TurnAt(d, r) - cnt..]).1 == Taken(d, r, cnt + |bytes|)
  {
    hide Conserved;
  }

  /** A device that comes later sees the same bytes at the same slots. */
  lemma AfterShift(d: Device, r: int, cnt: int, bytes: seq<Byte>, n: nat)
    requires DeviceOk(d) && n <= |bytes| && cnt + n <= r
    ensures After(d, r, cnt, bytes) == After(d, r, cnt + n, bytes[n..])
  {
    hide DeviceOk, AddToDevice;
    if HasTurn(d, r, cnt + |bytes|) {
      var at := TurnAt(d, r);
      assert bytes[n..][at - (cnt + n)..] == bytes[at - cnt..];
    }
  }

  /** Device i has had its turn, in a loop from device k on. */
  ghost predicate HadTurn(devs: seq<Device>, k: nat, i: nat, cnt: int, bytes: seq<Byte>, e: Device)
    requires k <= i < |devs| && DeviceOk(devs[i])
  {
    var r := Reach(devs, k, i, cnt, cnt + |bytes|);
    cnt <= r && e == After(devs[i], r, cnt, bytes)
  }

  ghost predicate Turns(devs: seq<Device>, k: nat, cnt: int, bytes: seq<Byte>, out: seq<Device>)
    requires k <= |devs| && forall i | 0 <= i < |devs| :: DeviceOk(devs[i])
  {
    && |out| == |devs|
    && (forall i | 0 <= i < |devs| && i < k :: out[i] == devs[i])
    && (forall i | k <= i < |devs| :: HadTurn(devs, k, i, cnt, bytes, out[i]))
  }

  lemma NoTurns(devs: seq<Device>, k: nat, cnt: int, bytes: seq<Byte>)
    requires k <= |devs| && Sorted(devs) && forall i | 0 <= i < |devs| :: DeviceOk(devs[i])
    requires k == |devs| || bytes == [] || devs[k].first > cnt + |bytes|
    ensures Turns(devs, k, cnt, bytes, devs)
  {
    hide DeviceOk, AddToDevice;
    var total := cnt + |bytes|;
    forall i | k <= i < |devs| ensures !HasTurn(devs[i], cnt, total) {
      assert i == k || devs[k].first + devs[k].slots <= devs[i].first;
    }
    forall i | k <= i < |devs| ensures Reach(devs, k, i, cnt, total) == cnt {
      ReachIdle(devs, k, i, cnt, total);
    }
  }

  lemma PassedTurns(devs: seq<Device>, k: nat, cnt: int, bytes: seq<Byte>, out: seq<Device>)
    requires k < |devs| && cnt >= devs[k].first + devs[k].slots && forall i | 0 <= i < |devs| :: DeviceOk(devs[i])
    requires Turns(devs, k + 1, cnt, bytes, out)
    ensures Turns(devs, k, cnt, bytes, out)
  {
    hide DeviceOk, AddToDevice;
    assert !HasTurn(devs[k], cnt, cnt + |bytes|);
    forall i | k <= i < |devs| ensures HadTurn(devs, k, i, cnt, bytes, out[i]) {
      if i > k {
        assert HadTurn(devs, k + 1, i, cnt, bytes, out[i]);
      }
    }
  }

  lemma SortedStill(devs: seq<Device>, k: nat, d: Device)
    requires Sorted(devs) && k < |devs| && d.first == devs[k].first && d.slots == devs[k].slots
    ensures Sorted(devs[k := d])
  {
  }

  lemma OwnAfter(d: Device, cnt: int, bytes: seq<Byte>)
    requires DeviceOk(d) && HasTurn(d, cnt, cnt + |bytes|)
    ensures After(d, cnt, cnt, bytes) == AddToDevice(d, bytes[TurnAt(d, cnt) - cnt..]).0
  {
    hide DeviceOk, AddToDevice;
  }

  lemma TakenTurns(devs: seq<Device>, k: nat, cnt: int, bytes: seq<Byte>, d': Device, used: nat, out: seq<Device>)
    requires k < |devs| && bytes != [] && forall i | 0 <= i < |devs| :: DeviceOk(devs[i])
    requires cnt < devs[k].first + devs[k].slots && TurnAt(devs[k], cnt) <= cnt + |bytes| && DeviceOk(d')
    requires (d', used) == AddToDevice(devs[k], bytes[TurnAt(devs[k], cnt) - cnt..])
    requires Turns(devs[k := d'], k + 1, TurnAt(devs[k], cnt) + used, bytes[TurnAt(devs[k], cnt) - cnt + used..], out)
    ensures Turns(devs, k, cnt, bytes, out)
  {
    hide DeviceOk, AddToDevice, After;
    var total, at := cnt + |bytes|, TurnAt(devs[k], cnt);
    var n := at - cnt + used;
    var devs' := devs[k := d'];
    UsedIsTaken(devs[k], cnt, cnt, bytes);
    assert Next(devs[k], cnt, total) == cnt + n && cnt + n + |bytes[n..]| == total;
    assert out[k] == devs'[k] == After(devs[k], cnt, cnt, bytes) by { OwnAfter(devs[k], cnt, bytes); }
    forall i | k < i < |devs| ensures HadTurn(devs, k, i, cnt, bytes, out[i]) {
      var r := Reach(devs, k, i, cnt, total);
      assert HadTurn(devs', k + 1, i, cnt + n, bytes[n..], out[i]);
      assert devs'[i] == devs[i];
      ReachFrame(devs, d', k, i, cnt + n, total);
      assert r == Reach(devs', k + 1, i, cnt + n, total) >= cnt + n;
      AfterShift(devs[i], r, cnt, bytes, n);
    }
  }

  /** From any state, the device loop gives each device its turn. */
  lemma {:induction false} FeedIsTurns(devs: seq<Device>, k: nat, cnt: int, bytes: seq<Byte>)
    requires k <= |devs| && Sorted(devs) && forall i | 0 <= i < |devs| :: DeviceOk(devs[i])
    requires 0 <= cnt && cnt + |bytes| <= INT16_MAX
    ensures Feed(devs, k, cnt, bytes).1 == cnt + |bytes|
    ensures Turns(devs, k, cnt, bytes, Feed(devs, k, cnt, bytes).0)
    decreases |devs| - k
  {
    hide DeviceOk, Feed, AddToDevice, ToInt16, HasTurn, After, Sorted, Turns, Reach;
    if k == |devs| || bytes == [] || (cnt < devs[k].first && devs[k].first - cnt > |bytes|) {
      FeedEnds(devs, k, cnt, bytes);
      SmallInt16(cnt + |bytes|);
      NoTurns(devs, k, cnt, bytes);
    } else if cnt >= devs[k].first + devs[k].slots {
      FeedPasses(devs, k, cnt, bytes);
      FeedIsTurns(devs, k + 1, cnt, bytes);
      PassedTurns(devs, k, cnt, bytes, Feed(devs, k, cnt, bytes).0);
    } else {
      FeedTakesTurn(devs, k, cnt, bytes);
    }
  }

  lemma FeedTakesTurn(devs: seq<Device>, k: nat, cnt: int, bytes: seq<Byte>)
    requires k < |devs| && Sorted(devs) && forall i | 0 <= i < |devs| :: DeviceOk(devs[i])
    requires 0 <= cnt && cnt + |bytes| <= INT16_MAX && bytes != []
    requires cnt < devs[k].first + devs[k].slots && devs[k].first - cnt <= |bytes|
    ensures Feed(devs, k, cnt, bytes).1 == cnt + |bytes|
    ensures Turns(devs, k, cnt, bytes, Feed(devs, k, cnt, bytes).0)
    decreases |devs| - k, 0
  {
    hide DeviceOk, Feed, AddToDevice, ToInt16, HasTurn, After, Sorted, Turns, Reach;
    var at := TurnAt(devs[k], cnt);
    var (d', used) := AddToDevice(devs[k], bytes[at - cnt..]);
    FeedUnfolds(devs, k, cnt, bytes);
    SmallInt16(at);
    SmallInt16(at + used);
    SortedStill(devs, k, d');
    FeedIsTurns(devs[k := d'], k + 1, at + used, bytes[at - cnt + used..]);
    TakenTurns(devs, k, cnt, bytes, d', used, Feed(devs, k, cnt, bytes).0);
  }

  // ------------------------------------------------------------- devices in step

  /** Before slot cnt: where a device not overtaken may find the others. */
  predicate OnTime(d: Device, r: int, cnt: int) {
    cnt <= r <= if cnt <= d.first then d.first else cnt
  }

  /** In step, and not overtaken by those before it, a device gets what it is entitled
      to. */
  lemma TurnServes(d: Device, r: int, cnt: int, bytes: seq<Byte>)
    requires InStep(d, cnt) && OnTime(d, r, cnt)
    ensures SameAt(After(d, r, cnt, bytes), Entitled(d, cnt, bytes), cnt + |bytes|)
  {
    hide DeviceOk, AddToDevice, Entitled, SameAt, Same;
    BegunInStep(d, cnt);
    var at, total := TurnAt(d, r), cnt + |bytes|;
    if HasTurn(d, r, total) {
      if cnt <= d.first {
        EntitledShift(d, cnt, bytes, at - cnt);
      }
      assert bytes[0..] == bytes;
      AddIsDue(d, at, bytes[at - cnt..]);
      SameIsSameAt(After(d, r, cnt, bytes), Entitled(d, cnt, bytes), total);
    } else {
      NothingEntitled(d, cnt, bytes);
    }
  }

  /** Not overtaken, the device reaches no further than its window's end. */
  ghost predicate StaysIn(d: Device, cnt: int, total: int) {
    forall r | OnTime(d, r, cnt) :: r <= Next(d, r, total) && (Next(d, r, total) == r || Next(d, r, total) <= d.first + d.slots)
  }

  lemma InStepFilled(d: Device, cnt: int)
    requires InStep(d, cnt)
    ensures Filled(d) <= d.slots && d.slots >= 1
    ensures cnt < d.first + d.slots && HasBuffer(d) ==> Filled(d) == if cnt <= d.first then 0 else cnt - d.first
  {
    hide Conserved;
  }

  lemma InStepStaysIn(d: Device, cnt: int, total: int)
    requires InStep(d, cnt)
    ensures StaysIn(d, cnt, total)
  {
    InStepFilled(d, cnt);
    hide InStep, DeviceOk, Supplied;
  }

  /** If all devices stay in, nobody is overtaken. */
  lemma {:induction false} NobodyOvertaken(devs: seq<Device>, k: nat, i: nat, r: int, cnt: int, total: int)
    requires k <= i < |devs| && Sorted(devs) && forall j | 0 <= j < |devs| :: StaysIn(devs[j], cnt, total)
    requires forall j | k <= j < |devs| :: OnTime(devs[j], r, cnt)
    ensures OnTime(devs[i], Reach(devs, k, i, r, total), cnt)
    decreases i - k
  {
    hide Next;
    if k == i {
    } else {
      var r' := Next(devs[k], r, total);
      assert StaysIn(devs[k], cnt, total) && OnTime(devs[k], r, cnt);
      forall j | k < j < |devs| ensures OnTime(devs[j], r', cnt) {
        assert devs[k].first + devs[k].slots <= devs[j].first && OnTime(devs[j], r, cnt);
      }
      NobodyOvertaken(devs, k + 1, i, r', cnt, total);
    }
  }

  /** The device loop serves devices that are in step, whatever buffers they have. */
  lemma FeedServes(devs: seq<Device>, cnt: int, bytes: seq<Byte>)
    requires AllInStep(devs, cnt) && 0 <= cnt && cnt + |bytes| <= INT16_MAX
    ensures forall i | 0 <= i < |devs| :: DeviceOk(devs[i])
    ensures var (out, cnt') := Feed(devs, 0, cnt, bytes);
            && cnt' == cnt + |bytes|
            && forall i | 0 <= i < |devs| :: SameAt(out[i], Entitled(devs[i], cnt, bytes), cnt + |bytes|)
  {
    hide InStep, DeviceOk, Feed, AddToDevice, Entitled, SameAt, After, StaysIn;
    forall i | 0 <= i < |devs| ensures DeviceOk(devs[i]) {
      BegunInStep(devs[i], cnt);
    }
    forall i | 0 <= i < |devs| ensures StaysIn(devs[i], cnt, cnt + |bytes|) {
      InStepStaysIn(devs[i], cnt, cnt + |bytes|);
    }
    FeedIsTurns(devs, 0, cnt, bytes);
    forall i | 0 <= i < |devs|
      ensures SameAt(Feed(devs, 0, cnt, bytes).0[i], Entitled(devs[i], cnt, bytes), cnt + |bytes|)
    {
      NobodyOvertaken(devs, 0, i, cnt, cnt, cnt + |bytes|);
      TurnServes(devs[i], Reach(devs, 0, i, cnt, cnt + |bytes|), cnt, bytes);
    }
  }
}
