// The DMX512 receiver of src/rs485_dmx.c as a value: the block-wise form of the
// code, and an independent account of which bytes of a frame each device gets.
module Dmx {
  import opened Base
  import opened GenPool
  import opened IsrComm

  type Byte = bv8

  const INT16_MAX: int := 32767

  /** What is left of x in an int16_t. */
  function ToInt16(x: int): int {
    var w := x % 0x1_0000;
    if w >= 0x8000 then w - 0x1_0000 else w
  }

  /** A device collects `slots` slots from slot `first` on.  mem[c] is what pool
      cell c of its mailbox holds; pos is next_data - data. */
  datatype Device = Device(
    first: nat, slots: nat, data: Option<nat>, pos: nat, missed: nat, box: Mailbox, mem: seq<seq<Byte>>)

  /** slotCnt is -1 while the receiver waits for the next break. */
  datatype Receiver = Receiver(slotCnt: int, slot0: Byte, devs: seq<Device>)

  ghost predicate DeviceOk(d: Device) {
    && |d.mem| == d.box.pool.size
    && (forall c | 0 <= c < |d.mem| :: |d.mem[c]| >= d.slots)
    && Conserved(d.box)
    && d.box.isr == (if d.data.Some? then multiset{d.data.value} else multiset{})
    && d.pos <= d.slots
  }

  lemma HeldIsCell(d: Device)
    requires DeviceOk(d)
    ensures d.data.Some? ==> d.data.value < |d.mem| && d.data.value in d.box.isr
    ensures forall c | c in d.box.toQ :: c < |d.mem|
  {
    RoomInBoth(d.box);
    if d.data.Some? {
      assert d.data.value in d.box.isr;
    }
  }

  function Min(a: int, b: int): int {
    if a <= b then a else b
  }

  // ------------------------------------------------------------ block by block

  /** The device with the buffer it would take next, if it has none and one waits. */
  function Supplied(d: Device): Device {
    match (d.data, Dequeue(d.box))
    case (None, (b, Some(c))) => d.(data := Some(c), pos := 0, box := b)
    case _ => d
  }

  lemma SuppliedKeeps(d: Device)
    requires DeviceOk(d)
    ensures DeviceOk(Supplied(d)) && Supplied(Supplied(d)) == Supplied(d)
    ensures Supplied(d).data == None ==> d.box.toQ == []
    ensures |Supplied(d).box.toQ| <= |d.box.toQ|
  {
    hide Conserved;
    DequeueKeeps(d.box);
  }

  /** _add_to_device takes a buffer if it has none. */
  function Fetch(d: Device): Device {
    if Supplied(d).data.Some? then Supplied(d) else d.(missed := d.missed + 1)
  }

  /** n bytes have gone into the buffer. */
  function Copied(d: Device, bytes: seq<Byte>, n: nat): Device
    requires d.data.Some? && d.data.value < |d.mem| && n <= |bytes| && d.pos + n <= |d.mem[d.data.value]|
  {
    var m := d.mem[d.data.value];
    d.(mem := d.mem[d.data.value := m[..d.pos] + bytes[..n] + m[d.pos + n..]], pos := d.pos + n)
  }

  /** The bytes go into the buffer, and if that is full now it goes back to the user. */
  function Store(d: Device, bytes: seq<Byte>, n: nat): Device
    requires d.data.Some? && d.data.value < |d.mem| && n <= |bytes| && d.pos + n <= |d.mem[d.data.value]|
  {
    var filled := Copied(d, bytes, n);
    if d.pos + n == d.slots then filled.(data := None, box := Return(d.box, d.data.value)) else filled
  }

  lemma CopiedNothing(d: Device, bytes: seq<Byte>)
    requires d.data.Some? && d.data.value < |d.mem| && d.pos <= |d.mem[d.data.value]|
    ensures Copied(d, bytes, 0) == d
  {
    var m := d.mem[d.data.value];
    assert m[..d.pos] + bytes[..0] + m[d.pos + 0..] == m;
    assert d.mem[d.data.value := m] == d.mem;
  }

  lemma CopiedOneMore(d: Device, bytes: seq<Byte>, k: nat)
    requires d.data.Some? && d.data.value < |d.mem| && k < |bytes| && d.pos + k < |d.mem[d.data.value]|
    ensures var s := Copied(d, bytes, k);
            var c := d.data.value;
            && s.pos == d.pos + k && s.data == d.data && |s.mem| == |d.mem| && |s.mem[c]| == |d.mem[c]|
            && Copied(d, bytes, k + 1) == s.(mem := s.mem[c := s.mem[c][s.pos := bytes[k]]], pos := s.pos + 1)
  {
    var c := d.data.value;
    var m := d.mem[c];
    var s := Copied(d, bytes, k);
    assert s.mem[c][s.pos := bytes[k]] == m[..d.pos] + bytes[..k + 1] + m[d.pos + (k + 1)..];
    assert s.mem[c := s.mem[c][s.pos := bytes[k]]] == d.mem[c := m[..d.pos] + bytes[..k + 1] + m[d.pos + (k + 1)..]];
  }

  function Room(d: Device, bytes: seq<Byte>): nat {
    if d.pos < d.slots then Min(|bytes|, d.slots - d.pos) else 0
  }

  lemma FetchKeeps(d: Device)
    requires DeviceOk(d)
    ensures DeviceOk(Fetch(d)) && Fetch(d).first == d.first && Fetch(d).slots == d.slots && Fetch(d).mem == d.mem
    ensures |Fetch(d).box.toQ| <= |d.box.toQ|
  {
    hide Conserved;
    SuppliedKeeps(d);
  }

  lemma StoreKeeps(d: Device, bytes: seq<Byte>, n: nat)
    requires DeviceOk(d) && d.data.Some? && d.data.value < |d.mem| && n <= |bytes| && d.pos + n <= d.slots
    ensures DeviceOk(Store(d, bytes, n)) && Store(d, bytes, n).first == d.first && Store(d, bytes, n).slots == d.slots
  {
    hide Conserved;
    HeldIsCell(d);
    ReturnKeeps(d.box, d.data.value);
    assert d.box.isr - multiset{d.data.value} == multiset{};
  }

  /** _add_to_device: the device afterwards, and how many bytes it used. */
  ghost function AddToDevice(d: Device, bytes: seq<Byte>): (r: (Device, nat))
    requires DeviceOk(d)
    ensures DeviceOk(r.0) && r.1 <= |bytes| && r.0.first == d.first && r.0.slots == d.slots
    ensures |r.0.box.toQ| <= |d.box.toQ|
  {
    hide Conserved;
    FetchKeeps(d);
    var f := Fetch(d);
    if f.data == None then (f, 0)
    else
      HeldIsCell(f);
      var n := Room(f, bytes);
      StoreKeeps(f, bytes, n);
      (Store(f, bytes, n), n)
  }

  /** The device loop of DMX_use_raw_data from device k on, at slot cnt. */
  ghost function Feed(devs: seq<Device>, k: nat, cnt: int, bytes: seq<Byte>): (r: (seq<Device>, int))
    requires k <= |devs| && forall i | 0 <= i < |devs| :: DeviceOk(devs[i])
    ensures |r.0| == |devs| && forall i | 0 <= i < |devs| :: DeviceOk(r.0[i])
    ensures forall i | 0 <= i < |devs| :: |r.0[i].box.toQ| <= |devs[i].box.toQ|
    decreases |devs| - k
  {
    hide DeviceOk;
    if k == |devs| || bytes == [] then (devs, ToInt16(cnt + |bytes|))
    else
      var d := devs[k];
      if cnt >= d.first + d.slots then Feed(devs, k + 1, cnt, bytes)
      else if cnt < d.first && d.first - cnt > |bytes| then (devs, ToInt16(cnt + |bytes|))
      else
        var skip := if cnt < d.first then d.first - cnt else 0;
        var at := if cnt < d.first then ToInt16(cnt + skip) else cnt;
        var (d', used) := AddToDevice(d, bytes[skip..]);
        Feed(devs[k := d'], k + 1, ToInt16(at + used), bytes[skip + used..])
  }

  ghost predicate ReceiverOk(r: Receiver) {
    forall i | 0 <= i < |r.devs| :: DeviceOk(r.devs[i])
  }

  function Rewind(d: Device): Device {
    Supplied(d).(pos := 0)
  }

  /** DMX_process_break */
  function Break(r: Receiver): Receiver {
    r.(slotCnt := 0, devs := seq(|r.devs|, i requires 0 <= i < |r.devs| => Rewind(r.devs[i])))
  }

  lemma RewindKeeps(d: Device)
    requires DeviceOk(d)
    ensures DeviceOk(Rewind(d)) && Rewind(d).first == d.first && Rewind(d).slots == d.slots && Rewind(d).mem == d.mem
    ensures Rewind(d).pos == 0 && (Rewind(d).data == None ==> Rewind(d).box.toQ == [])
    ensures d.data.Some? ==> Rewind(d).data == d.data && Rewind(d).box == d.box
  {
    hide Conserved;
    SuppliedKeeps(d);
  }

  /** DMX_receiver_reset of one device: it loses its buffer, and its mailbox is reset. */
  function ResetDevice(d: Device): Device {
    d.(data := None, box := Emptied(d.box))
  }

  lemma ResetKeeps(d: Device)
    requires DeviceOk(d)
    ensures DeviceOk(ResetDevice(d))
    ensures ResetDevice(d).box.toQ == [] && ResetDevice(d).box.fromQ == [] && ResetDevice(d).box.pool.live == {}
  {
  }

  /** DMX_receiver_reset */
  function Reset(r: Receiver): Receiver {
    r.(slotCnt := 0, devs := seq(|r.devs|, i requires 0 <= i < |r.devs| => ResetDevice(r.devs[i])))
  }

  /** DMX_use_raw_data */
  ghost function UseRawData(r: Receiver, bytes: seq<Byte>): Receiver
    requires ReceiverOk(r)
  {
    if bytes == [] then Break(r)
    else if r.slotCnt < 0 then r
    else if r.slotCnt == 0 && bytes[0] != r.slot0 then r.(slotCnt := -1)
    else
      var start := if r.slotCnt == 0 then 1 else 0;
      var (devs, cnt) := Feed(r.devs, 0, r.slotCnt + start, bytes[start..]);
      r.(devs := devs, slotCnt := cnt)
  }

  // -------------------------------------------------------- what a device is due

  /** The part of bytes, standing at slots cnt, cnt+1, ..., that falls into the
      device's window. */
  function WindowLo(d: Device, cnt: int): int {
    if cnt < d.first then d.first - cnt else 0
  }

  function WindowHi(d: Device, cnt: int, n: nat): int {
    Min(n, d.first + d.slots - cnt)
  }

  /** What the window's bytes do to the device, whoever comes before it. */
  ghost function Due(d: Device, cnt: int, bytes: seq<Byte>): Device
    requires DeviceOk(d)
  {
    var lo, hi := WindowLo(d, cnt), WindowHi(d, cnt, |bytes|);
    if d.data == None || lo >= hi then d
    else
      HeldIsCell(d);
      if d.pos + (hi - lo) > d.slots then d
      else Store(d, bytes[lo..hi], hi - lo)
  }

  /** Up to its first slot a device may still take a buffer; from then on it has the
      one it has. */
  function Begun(d: Device, cnt: int): Device {
    if cnt <= d.first then Supplied(d) else d
  }

  lemma BegunKeeps(d: Device, cnt: int)
    requires DeviceOk(d)
    ensures DeviceOk(Begun(d, cnt)) && Begun(d, cnt).first == d.first && Begun(d, cnt).slots == d.slots
    ensures Begun(Begun(d, cnt), cnt) == Begun(d, cnt)
  {
    SuppliedKeeps(d);
  }

  /** What a device is entitled to from bytes that stand at slots cnt, cnt+1, ... */
  ghost function Entitled(d: Device, cnt: int, bytes: seq<Byte>): Device
    requires DeviceOk(d)
  {
    BegunKeeps(d, cnt);
    Due(Begun(d, cnt), cnt, bytes)
  }

  /** Before slot cnt of a frame: the device has collected its window so far, or it
      is past its window, or it has not reached it and may yet get a buffer, or it
      has no buffer and none is on its way. */
  ghost predicate InStep(d: Device, cnt: int) {
    && DeviceOk(d) && d.first >= 1 && d.slots >= 1
    && (cnt >= d.first + d.slots
        || (d.data == None && (cnt <= d.first || d.box.toQ == []))
        || (d.data.Some? && d.pos == if cnt <= d.first then 0 else cnt - d.first))
  }

  lemma BegunInStep(d: Device, cnt: int)
    requires InStep(d, cnt)
    ensures DeviceOk(d) && DeviceOk(Begun(d, cnt)) && InStep(Begun(d, cnt), cnt) && d.first >= 1 && d.slots >= 1
    ensures cnt < d.first + d.slots && Begun(d, cnt).data == None ==> Begun(d, cnt).box.toQ == []
  {
    hide Conserved;
    BegunKeeps(d, cnt);
    SuppliedKeeps(d);
  }

  /** Devices in the order of their windows, which do not overlap. */
  ghost predicate Sorted(devs: seq<Device>) {
    forall i, j | 0 <= i < j < |devs| :: devs[i].first + devs[i].slots <= devs[j].first
  }

  ghost predicate AllInStep(devs: seq<Device>, cnt: int) {
    Sorted(devs) && forall i | 0 <= i < |devs| :: InStep(devs[i], cnt)
  }

  /** Equal but for the debugging counter of fruitless fetches. */
  ghost predicate Same(d: Device, e: Device) {
    d.(missed := 0) == e.(missed := 0)
  }

  /** Before slot cnt, equal but for that, and as long as the device's window is still
      ahead, for whether it has yet taken the buffer that waits for it. */
  ghost predicate SameAt(d: Device, e: Device, cnt: int) {
    d.first == e.first && Same(Begun(d, cnt), Begun(e, cnt))
  }

  lemma SameIsSameAt(d: Device, e: Device, cnt: int)
    requires Same(d, e)
    ensures SameAt(d, e, cnt)
  {
  }

  // --------------------------------------------- the code meets that account

  lemma NothingForStarved(d: Device, cnt: int, bytes: seq<Byte>)
    requires DeviceOk(d) && d.data == None
    ensures Due(d, cnt, bytes) == d
  {
  }

  lemma StoreNothing(d: Device)
    requires DeviceOk(d) && d.data.Some? && d.data.value < |d.mem| && d.pos < d.slots
    ensures Store(d, [], 0) == d
  {
    CopiedNothing(d, []);
  }

  lemma StoreSlice(d: Device, bytes: seq<Byte>, n: nat)
    requires d.data.Some? && d.data.value < |d.mem| && n <= |bytes| && d.pos + n <= |d.mem[d.data.value]|
    ensures Store(d, bytes, n) == Store(d, bytes[..n], n)
  {
    assert bytes[..n][..n] == bytes[..n];
  }

  lemma HeldAddIsDue(d: Device, cnt: int, bytes: seq<Byte>)
    requires DeviceOk(d) && d.data.Some? && d.first <= cnt < d.first + d.slots && d.pos == cnt - d.first
    ensures AddToDevice(d, bytes) == (Due(d, cnt, bytes), Min(|bytes|, d.first + d.slots - cnt))
  {
    hide Conserved, Store;
    HeldIsCell(d);
    if bytes == [] {
      StoreNothing(d);
    } else {
      assert bytes[0..Room(d, bytes)] == bytes[..Room(d, bytes)];
      StoreSlice(d, bytes, Room(d, bytes));
    }
  }

  /** In its window, a device takes what it is due, or nothing if it is starved. */
  lemma AddIsDue(d: Device, cnt: int, bytes: seq<Byte>)
    requires InStep(d, cnt) && d.first <= cnt < d.first + d.slots
    ensures Same(AddToDevice(d, bytes).0, Entitled(d, cnt, bytes))
    ensures AddToDevice(d, bytes).1 == if Begun(d, cnt).data == None then 0 else Min(|bytes|, d.first + d.slots - cnt)
  {
    hide Conserved, DeviceOk, Store, Due;
    var q := Begun(d, cnt);
    BegunInStep(d, cnt);
    SuppliedKeeps(d);
    if q.data.Some? {
      assert Fetch(d) == q;
      HeldAddIsDue(q, cnt, bytes);
    } else {
      NothingForStarved(q, cnt, bytes);
    }
  }

  /** Bytes before the window do not matter. */
  lemma DueShift(d: Device, cnt: int, bytes: seq<Byte>, k: nat)
    requires DeviceOk(d) && k <= |bytes| && cnt + k <= d.first
    ensures Due(d, cnt, bytes) == Due(d, cnt + k, bytes[k..])
  {
    hide DeviceOk;
    var lo, hi := WindowLo(d, cnt), WindowHi(d, cnt, |bytes|);
    var lo', hi' := WindowLo(d, cnt + k), WindowHi(d, cnt + k, |bytes| - k);
    assert lo' == lo - k && hi' == hi - k;
    if lo < hi {
      assert bytes[lo..hi] == bytes[k..][lo'..hi'];
    }
  }

  lemma NothingDue(d: Device, cnt: int, bytes: seq<Byte>)
    requires DeviceOk(d) && (bytes == [] || cnt + |bytes| <= d.first || cnt >= d.first + d.slots)
    ensures Due(d, cnt, bytes) == d
  {
  }

  lemma NothingEntitled(d: Device, cnt: int, bytes: seq<Byte>)
    requires DeviceOk(d) && d.slots >= 1 && (bytes == [] || cnt + |bytes| <= d.first || cnt >= d.first + d.slots)
    ensures SameAt(d, Entitled(d, cnt, bytes), cnt + |bytes|)
  {
    hide DeviceOk, Due;
    BegunKeeps(d, cnt);
    NothingDue(Begun(d, cnt), cnt, bytes);
    SuppliedKeeps(d);
  }

  /** Bytes before the window do not matter. */
  lemma EntitledShift(d: Device, cnt: int, bytes: seq<Byte>, k: nat)
    requires DeviceOk(d) && k <= |bytes| && cnt + k <= d.first
    ensures Entitled(d, cnt, bytes) == Entitled(d, cnt + k, bytes[k..])
  {
    hide DeviceOk, Due;
    BegunKeeps(d, cnt);
    DueShift(Begun(d, cnt), cnt, bytes, k);
  }

  lemma SmallInt16(x: int)
    requires 0 <= x <= INT16_MAX
    ensures ToInt16(x) == x
  {
  }

  lemma FeedEnds(devs: seq<Device>, k: nat, cnt: int, bytes: seq<Byte>)
    requires k <= |devs| && forall i | 0 <= i < |devs| :: DeviceOk(devs[i])
    requires k == |devs| || bytes == []
             || (cnt < devs[k].first && devs[k].first - cnt > |bytes|)
    ensures Feed(devs, k, cnt, bytes) == (devs, ToInt16(cnt + |bytes|))
  {
    hide DeviceOk, AddToDevice, ToInt16;
  }

  lemma FeedPasses(devs: seq<Device>, k: nat, cnt: int, bytes: seq<Byte>)
    requires k < |devs| && bytes != [] && forall i | 0 <= i < |devs| :: DeviceOk(devs[i])
    requires cnt >= devs[k].first + devs[k].slots
    ensures Feed(devs, k, cnt, bytes) == Feed(devs, k + 1, cnt, bytes)
  {
    hide DeviceOk, AddToDevice, ToInt16;
  }

  lemma FeedUnfolds(devs: seq<Device>, k: nat, cnt: int, bytes: seq<Byte>)
    requires k < |devs| && bytes != [] && forall i | 0 <= i < |devs| :: DeviceOk(devs[i])
    requires cnt < devs[k].first + devs[k].slots && devs[k].first - cnt <= |bytes|
    ensures var skip := WindowLo(devs[k], cnt);
            var (d', used) := AddToDevice(devs[k], bytes[skip..]);
            var devs' := devs[k := d'];
            && DeviceOk(d') && (forall i | 0 <= i < |devs| :: DeviceOk(devs'[i])) &&
            var at := if cnt < devs[k].first then ToInt16(cnt + skip) else cnt;
            Feed(devs, k, cnt, bytes) == Feed(devs', k + 1, ToInt16(at + used), bytes[skip + used..])
  {
    hide DeviceOk, AddToDevice, ToInt16;
  }

  // ------------------------------------------------------- what is due composes

  lemma DueKeeps(d: Device, cnt: int, bytes: seq<Byte>)
    requires DeviceOk(d)
    ensures DeviceOk(Due(d, cnt, bytes)) && Due(d, cnt, bytes).first == d.first && Due(d, cnt, bytes).slots == d.slots
  {
    hide Conserved, Store;
    var lo, hi := WindowLo(d, cnt), WindowHi(d, cnt, |bytes|);
    if d.data.Some? && lo < hi {
      HeldIsCell(d);
      if d.pos + (hi - lo) <= d.slots {
        StoreKeeps(d, bytes[lo..hi], hi - lo);
      }
    }
  }

  lemma DueInStep(d: Device, cnt: int, bytes: seq<Byte>)
    requires InStep(d, cnt) && (d.data.Some? || d.box.toQ == [] || cnt >= d.first + d.slots)
    ensures InStep(Due(d, cnt, bytes), cnt + |bytes|)
  {
    hide Conserved, DeviceOk;
    DueKeeps(d, cnt, bytes);
  }

  /** Storing in two goes is storing in one. */
  lemma StoreTwice(d: Device, x: seq<Byte>, y: seq<Byte>)
    requires DeviceOk(d) && d.data.Some? && d.data.value < |d.mem|
    requires d.pos + |x| < d.slots && d.pos + |x| + |y| <= d.slots
    ensures var s := Store(d, x, |x|);
            && s.data == d.data && s.pos == d.pos + |x| && |s.mem| == |d.mem| && |s.mem[d.data.value]| == |d.mem[d.data.value]|
            && Store(s, y, |y|) == Store(d, x + y, |x + y|)
  {
    hide Conserved;
    var c := d.data.value;
    var m := d.mem[c];
    var p := d.pos;
    var m1 := m[..p] + x + m[p + |x|..];
    assert x[..|x|] == x && y[..|y|] == y && (x + y)[..|x + y|] == x + y;
    assert m1[..p + |x|] == m[..p] + x;
    assert m1[p + |x| + |y|..] == m[p + |x| + |y|..];
    assert m1[..p + |x|] + y + m1[p + |x| + |y|..] == m[..p] + (x + y) + m[p + |x + y|..];
    assert d.mem[c := m1][c := m[..p] + (x + y) + m[p + |x + y|..]] == d.mem[c := m[..p] + (x + y) + m[p + |x + y|..]];
  }

  /** What is due when the window has been reached and not yet filled. */
  lemma DueInside(d: Device, cnt: int, bytes: seq<Byte>)
    requires InStep(d, cnt) && d.data.Some? && d.first < cnt + |bytes| <= d.first + d.slots && cnt < d.first + d.slots
    ensures var x := bytes[WindowLo(d, cnt)..];
            && d.data.value < |d.mem| && d.pos + |x| == cnt + |bytes| - d.first
            && Due(d, cnt, bytes) == Store(d, x, |x|)
  {
    HeldIsCell(d);
    var lo := WindowLo(d, cnt);
    assert bytes[lo..|bytes|] == bytes[lo..];
    if bytes == [] {
      StoreNothing(d);
    }
  }

  /** Bytes past the window do not matter. */
  lemma Clip(d: Device, cnt: int, bytes: seq<Byte>)
    requires DeviceOk(d) && cnt < d.first + d.slots
    ensures 0 <= WindowHi(d, cnt, |bytes|) <= |bytes|
    ensures Due(d, cnt, bytes) == Due(d, cnt, bytes[..WindowHi(d, cnt, |bytes|)])
  {
    hide DeviceOk;
    var lo, hi := WindowLo(d, cnt), WindowHi(d, cnt, |bytes|);
    if lo < hi {
      assert bytes[..hi][lo..hi] == bytes[lo..hi];
    }
  }

  /** The cut falls inside the window. */
  lemma SplitInWindow(d: Device, cnt: int, a: seq<Byte>, b: seq<Byte>)
    requires DeviceOk(d) && InStep(d, cnt) && d.data.Some? && cnt < d.first + d.slots
    requires d.first < cnt + |a| < d.first + d.slots
    ensures DeviceOk(Due(d, cnt, a))
    ensures Due(Due(d, cnt, a), cnt + |a|, b) == Due(d, cnt, a + b)
  {
    hide Store, InStep, DeviceOk, Due;
    DueKeeps(d, cnt, a);
    DueInStep(d, cnt, a);
    DueInside(d, cnt, a);
    var x := a[WindowLo(d, cnt)..];
    var y := b[..WindowHi(d, cnt + |a|, |b|)];
    StoreTwice(d, x, y);
    var s := Due(d, cnt, a);
    Clip(s, cnt + |a|, b);
    Clip(d, cnt, a + b);
    assert (a + b)[..WindowHi(d, cnt, |a + b|)] == a + y;
    assert (a + y)[WindowLo(d, cnt)..] == x + y;
    DueInside(s, cnt + |a|, y);
    DueInside(d, cnt, a + y);
    assert y[0..] == y;
  }

  /** Chunk independence, for one device. */
  lemma DueComposes(d: Device, cnt: int, a: seq<Byte>, b: seq<Byte>)
    requires InStep(d, cnt)
    ensures DeviceOk(Due(d, cnt, a))
    ensures Due(Due(d, cnt, a), cnt + |a|, b) == Due(d, cnt, a + b)
  {
    hide Store, Conserved;
    DueKeeps(d, cnt, a);
    var ab := a + b;
    var lo := WindowLo(d, cnt);
    if d.data == None || cnt >= d.first + d.slots {
    } else if cnt + |a| <= d.first {
      NothingDue(d, cnt, a);
      DueShift(d, cnt, ab, |a|);
      assert ab[|a|..] == b;
    } else if cnt + |a| >= d.first + d.slots {
      assert WindowHi(d, cnt, |a|) == WindowHi(d, cnt, |ab|) <= |a|;
      assert ab[lo..WindowHi(d, cnt, |ab|)] == a[lo..WindowHi(d, cnt, |a|)];
      NothingDue(Due(d, cnt, a), cnt + |a|, b);
    } else {
      SplitInWindow(d, cnt, a, b);
    }
  }

  lemma StoredShape(d: Device, x: seq<Byte>)
    requires DeviceOk(d) && d.data.Some? && d.data.value < |d.mem| && d.pos + |x| <= d.slots
    ensures var s := Store(d, x, |x|);
            var c := d.data.value;
            && s.first == d.first && s.slots == d.slots && |s.mem| == |d.mem| && |s.mem[c]| == |d.mem[c]|
            && s.mem[c][..d.pos + |x|] == d.mem[c][..d.pos] + x
            && (if d.pos + |x| == d.slots then s.data == None && s.box == Return(d.box, c)
                else s.data == d.data && s.pos == d.pos + |x| && s.box == d.box)
  {
    hide Conserved, Return;
    var m := d.mem[d.data.value];
    assert x[..|x|] == x;
    assert (m[..d.pos] + x + m[d.pos + |x|..])[..d.pos + |x|] == m[..d.pos] + x;
  }

  /** What reaching into the window does: the buffer holds that much more of it, and
      goes to the user exactly when it holds all of it. */
  lemma DueFills(d: Device, cnt: int, bytes: seq<Byte>)
    requires InStep(d, cnt) && d.data.Some? && cnt < d.first + d.slots && d.first < cnt + |bytes|
    ensures d.data.value < |d.mem|
    ensures var e := Due(d, cnt, bytes);
            var c := d.data.value;
            var lo, hi := WindowLo(d, cnt), WindowHi(d, cnt, |bytes|);
            && 0 <= lo <= hi <= |bytes| && d.pos + (hi - lo) == cnt + hi - d.first
            && |e.mem| == |d.mem| && |e.mem[c]| == |d.mem[c]| >= d.slots
            && e.mem[c][..d.pos + (hi - lo)] == d.mem[c][..d.pos] + bytes[lo..hi]
            && (if cnt + |bytes| >= d.first + d.slots then e.data == None && e.box == Return(d.box, c)
                else e.data == d.data && e.box == d.box)
  {
    hide Conserved, Store, Return;
    HeldIsCell(d);
    var lo, hi := WindowLo(d, cnt), WindowHi(d, cnt, |bytes|);
    if lo < hi {
      StoredShape(d, bytes[lo..hi]);
    }
  }

  lemma SameDue(d: Device, e: Device, cnt: int, bytes: seq<Byte>)
    requires DeviceOk(d) && DeviceOk(e) && Same(d, e)
    ensures Same(Due(d, cnt, bytes), Due(e, cnt, bytes))
  {
    hide Conserved;
  }

  lemma SameEntitled(d: Device, e: Device, cnt: int, bytes: seq<Byte>)
    requires DeviceOk(d) && DeviceOk(e) && SameAt(d, e, cnt)
    ensures Same(Entitled(d, cnt, bytes), Entitled(e, cnt, bytes))
  {
    hide DeviceOk, Due, Same;
    BegunKeeps(d, cnt);
    BegunKeeps(e, cnt);
    SameDue(Begun(d, cnt), Begun(e, cnt), cnt, bytes);
  }

  lemma EntitledKeeps(d: Device, cnt: int, bytes: seq<Byte>)
    requires InStep(d, cnt)
    ensures var q := Entitled(d, cnt, bytes);
            DeviceOk(q) && q.first == d.first && q.slots == d.slots && InStep(q, cnt + |bytes|)
  {
    hide DeviceOk, Due, InStep;
    BegunInStep(d, cnt);
    BegunKeeps(d, cnt);
    DueKeeps(Begun(d, cnt), cnt, bytes);
    DueInStep(Begun(d, cnt), cnt, bytes);
  }

  /** Chunk independence, for one device that may be waiting for a buffer. */
  lemma EntitledComposes(d: Device, cnt: int, a: seq<Byte>, b: seq<Byte>)
    requires InStep(d, cnt)
    ensures DeviceOk(Entitled(d, cnt, a))
    ensures Entitled(Entitled(d, cnt, a), cnt + |a|, b) == Entitled(d, cnt, a + b)
  {
    hide DeviceOk, Due, InStep;
    var q := Begun(d, cnt);
    BegunInStep(d, cnt);
    EntitledKeeps(d, cnt, a);
    DueComposes(q, cnt, a, b);
    if cnt + |a| <= d.first {
      NothingDue(q, cnt, a);
      BegunKeeps(d, cnt);
    }
  }
}
