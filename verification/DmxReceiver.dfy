// src/rs485_dmx.c: the receiver, updating its devices and their buffers in place.
// A device's mailbox is used through the operations that IsrComm.Target implements.
module DmxReceiver {
  import opened Base
  import opened GenPool
  import opened IsrComm
  import opened Dmx

  lemma ResetSteps(d: Device)
    ensures var e := ResetDevice(d);
            && e == d.(data := None).(box := Emptied(d.box))
            && e.data == None && e.box.toQ == [] && e.box.fromQ == []
            && e.box.pool.live == {} && e.box.isr == e.box.user == multiset{}
  {
  }

  class DmxReceiver {
    const slot0: Byte
    const devs: array<Device>     // the device list, in its order
    var slotCnt: int              // an int16_t

    ghost function View(): Receiver
      reads this, devs
    {
      Receiver(slotCnt, slot0, devs[..])
    }

    ghost predicate Valid()
      reads this, devs
    {
      forall i | 0 <= i < devs.Length :: DeviceOk(devs[i])
    }

    constructor (slot0: Byte, devs: array<Device>)
      requires forall i | 0 <= i < devs.Length :: DeviceOk(devs[i])
      ensures Valid() && this.devs == devs && View() == Receiver(0, slot0, devs[..])
    {
      this.slot0, this.devs, this.slotCnt := slot0, devs, 0;
    }

    /** Ipt_DequeueInIsr, and the place to store next goes to the buffer's start; false if there is
        no buffer to be had. */
    method TakeBuffer(i: nat) returns (ok: bool)
      requires i < devs.Length && devs[i].data == None
      modifies devs
      ensures ok <==> old(devs[i]).box.toQ != []
      ensures devs[..] == old(devs[..])[i := if ok then Rewind(old(devs[i])) else old(devs[i])]
    {
      var (b, c) := Dequeue(devs[i].box);
      ok := c.Some?;
      if ok {
        devs[i] := devs[i].(data := c, box := b);
        devs[i] := devs[i].(pos := 0);
      }
      assert devs[..] == old(devs[..])[i := devs[i]];
    }

    /** The byte loop of _add_to_device. */
    method CopyBytes(i: nat, bytes: seq<Byte>) returns (remaining: nat)
      requires i < devs.Length && DeviceOk(devs[i]) && devs[i].data.Some?
      modifies devs
      ensures |bytes| - remaining == Room(old(devs[i]), bytes)
      ensures old(devs[i]).data.value < |old(devs[i]).mem|
      ensures devs[..] == old(devs[..])[i := Copied(old(devs[i]), bytes, |bytes| - remaining)]
    {
      hide Conserved;
      ghost var d := devs[i];
      HeldIsCell(d);
      var c := devs[i].data.value;
      remaining := |bytes|;
      CopiedNothing(d, bytes);
      assert devs[..] == old(devs[..])[i := d];
      while remaining > 0 && devs[i].pos < devs[i].slots
        invariant 0 <= remaining <= |bytes| && d.pos + (|bytes| - remaining) <= d.slots
        invariant devs[..] == old(devs[..])[i := Copied(d, bytes, |bytes| - remaining)]
        invariant devs[i] == Copied(d, bytes, |bytes| - remaining)
      {
        ghost var k := |bytes| - remaining;
        CopiedOneMore(d, bytes, k);
        var buffer := devs[i].mem[c];
        devs[i] := devs[i].(mem := devs[i].mem[c := buffer[devs[i].pos := bytes[|bytes| - remaining]]]);
        devs[i] := devs[i].(pos := devs[i].pos + 1);
        remaining := remaining - 1;
        assert devs[..] == old(devs[..])[i := devs[i]];
      }
    }

    /** The device needs a buffer to go on. */
    method FetchBuffer(i: nat) returns (ok: bool)
      requires i < devs.Length
      modifies devs
      ensures devs[..] == old(devs[..])[i := Fetch(old(devs[i]))]
      ensures ok <==> devs[i].data.Some?
    {
      ok := true;
      if devs[i].data == None {
        ok := TakeBuffer(i);
        if !ok {
          devs[i] := devs[i].(missed := devs[i].missed + 1);
        }
      }
      assert devs[..] == old(devs[..])[i := devs[i]];
    }

    /** If the device is done, its buffer goes to the user. */
    method GiveBackFull(i: nat, ghost f: Device, bytes: seq<Byte>, n: nat)
      requires i < devs.Length && DeviceOk(f) && f.data.Some? && f.data.value < |f.mem|
      requires n <= |bytes| && f.pos + n <= f.slots && devs[i] == Copied(f, bytes, n)
      modifies devs
      ensures devs[..] == old(devs[..])[i := Store(f, bytes, n)]
    {
      if devs[i].pos == devs[i].slots {
        devs[i] := devs[i].(box := Return(devs[i].box, devs[i].data.value));
        devs[i] := devs[i].(data := None);
      }
      assert devs[..] == old(devs[..])[i := devs[i]];
    }

    /** _add_to_device */
    method AddToDevice(i: nat, bytes: seq<Byte>) returns (used: nat)
      requires Valid() && i < devs.Length
      modifies devs
      ensures Valid() && (devs[i], used) == Dmx.AddToDevice(old(devs[i]), bytes)
      ensures devs[..] == old(devs[..])[i := devs[i]]
    {
      hide Conserved, Copied, Store, Fetch;
      ghost var d := devs[i];
      FetchKeeps(d);
      var ok := FetchBuffer(i);
      if !ok {
        return 0;
      }
      ghost var f := devs[i];
      HeldIsCell(f);
      var remaining := CopyBytes(i, bytes);
      StoreKeeps(f, bytes, |bytes| - remaining);
      used := |bytes| - remaining;
      GiveBackFull(i, f, bytes, used);
      assert devs[..] == old(devs[..])[i := devs[i]];
    }

    method RewindDevice(i: nat)
      requires i < devs.Length && DeviceOk(devs[i])
      modifies devs
      ensures devs[..] == old(devs[..])[i := Rewind(old(devs[i]))] && DeviceOk(devs[i])
    {
      hide Conserved;
      RewindKeeps(devs[i]);
      if devs[i].data == None {
        var _ := TakeBuffer(i);
      }
      devs[i] := devs[i].(pos := 0);
      assert devs[..] == old(devs[..])[i := devs[i]];
    }

    /** DMX_process_break */
    method ProcessBreak()
      requires Valid()
      modifies this, devs
      ensures Valid() && View() == Break(old(View()))
    {
      hide DeviceOk, Rewind;
      ghost var before := devs[..];
      slotCnt := 0;
      var i := 0;
      while i < devs.Length
        invariant 0 <= i <= devs.Length && slotCnt == 0 && Valid()
        invariant forall k | 0 <= k < i :: devs[k] == Rewind(before[k])
        invariant forall k | i <= k < devs.Length :: devs[k] == before[k]
      {
        ghost var now := devs[..];
        RewindDevice(i);
        assert forall k | 0 <= k < devs.Length :: devs[k] == devs[..][k] == now[i := Rewind(now[i])][k];
        i := i + 1;
      }
      assert devs[..] == Break(old(View())).devs;
    }

    /** The device loop of DMX_use_raw_data. */
    method FeedDevices(bytes: seq<Byte>)
      requires Valid()
      modifies this, devs
      ensures Valid()
      ensures (devs[..], slotCnt) == Feed(old(devs[..]), 0, old(slotCnt), bytes)
    {
      hide DeviceOk, Dmx.AddToDevice, ToInt16, Feed;
      var rest := bytes;
      var i := 0;
      while i < devs.Length && rest != []
        invariant 0 <= i <= devs.Length && Valid()
        invariant Feed(devs[..], i, slotCnt, rest) == Feed(old(devs[..]), 0, old(slotCnt), bytes)
        decreases devs.Length - i
      {
        ghost var before := devs[..];
        if slotCnt < devs[i].first + devs[i].slots {
          if slotCnt < devs[i].first && devs[i].first - slotCnt > |rest| {
            FeedEnds(before, i, slotCnt, rest);
            slotCnt := ToInt16(slotCnt + |rest|);
            return;
          }
          FeedUnfolds(before, i, slotCnt, rest);
          if slotCnt < devs[i].first {
            var skip := devs[i].first - slotCnt;
            slotCnt := ToInt16(slotCnt + skip);
            rest := rest[skip..];
          }
          var used := AddToDevice(i, rest);
          slotCnt := ToInt16(slotCnt + used);
          rest := rest[used..];
        } else {
          FeedPasses(before, i, slotCnt, rest);
        }
        i := i + 1;
      }
      FeedEnds(devs[..], i, slotCnt, rest);
      slotCnt := ToInt16(slotCnt + |rest|);
    }

    /** DMX_use_raw_data; zero length means a break. */
    method UseRawData(bytes: seq<Byte>)
      requires Valid()
      modifies this, devs
      ensures Valid() && View() == Dmx.UseRawData(old(View()), bytes)
    {
      hide DeviceOk, Feed;
      if bytes == [] {
        ProcessBreak();
      } else if slotCnt >= 0 {
        var rest := bytes;
        if slotCnt == 0 {
          if bytes[0] == slot0 {
            rest := bytes[1..];
            slotCnt := 1;
          } else {
            slotCnt := -1;
            return;
          }
        }
        assert bytes[0..] == bytes;
        FeedDevices(rest);
      }
    }

    /** Ipt_Reset on a device's mailbox, ring by ring and then the pool, as
        IsrComm.Target.Reset does it in place. */
    method ResetMailbox(i: nat)
      requires i < devs.Length
      modifies devs
      ensures devs[..] == old(devs[..])[i := old(devs[i]).(box := Emptied(old(devs[i]).box))]
    {
      devs[i] := devs[i].(box := devs[i].box.(toQ := []));
      devs[i] := devs[i].(box := devs[i].box.(fromQ := []));
      devs[i] := devs[i].(box := devs[i].box.(pool := Cleared(devs[i].box.pool), isr := multiset{}, user := multiset{}));
      assert devs[..] == old(devs[..])[i := devs[i]];
    }

    /** DMX_receiver_reset */
    method Reset()
      requires Valid()
      modifies this, devs
      ensures Valid() && View() == Dmx.Reset(old(View()))
      ensures slotCnt == 0
      ensures forall i | 0 <= i < devs.Length ::
                && devs[i].data == None && devs[i].box.toQ == [] && devs[i].box.fromQ == []
                && devs[i].box.pool.live == {} && devs[i].box.isr == devs[i].box.user == multiset{}
    {
      hide DeviceOk, ResetDevice;
      ghost var before := devs[..];
      var i := 0;
      while i < devs.Length
        invariant 0 <= i <= devs.Length && Valid() && slotCnt == old(slotCnt)
        invariant forall k | 0 <= k < i :: devs[k] == ResetDevice(before[k])
        invariant forall k | i <= k < devs.Length :: devs[k] == before[k]
      {
        ghost var now := devs[..];
        ResetKeeps(now[i]);
        ResetSteps(now[i]);
        devs[i] := devs[i].(data := None);
        ResetMailbox(i);
        assert forall k | 0 <= k < devs.Length :: devs[k] == devs[..][k] == now[i := ResetDevice(now[i])][k];
        i := i + 1;
      }
      slotCnt := 0;
      assert devs[..] == Dmx.Reset(old(View())).devs;
      forall k | 0 <= k < devs.Length
        ensures devs[k].data == None && devs[k].box.toQ == [] && devs[k].box.fromQ == []
        ensures devs[k].box.pool.live == {} && devs[k].box.isr == devs[k].box.user == multiset{}
      {
        ResetSteps(before[k]);
      }
    }
  }
}
