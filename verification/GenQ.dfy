// The ring queue of src/genQ.c, used from one thread of control.
// RingSteps.dfy treats the same algorithm under every interleaving of one
// producer and one consumer.
module GenQ {
  import opened Base

  /** NEXTINQ: the slot after i in a ring whose last slot is end. */
  function NextInQ(i: nat, end: nat): nat {
    if i >= end then 0 else i + 1
  }

  /** What the slots from last up to (not including) next hold, in order. */
  ghost function Held<T>(slots: seq<T>, last: nat, next: nat): seq<T>
    requires last < |slots| && next < |slots|
  {
    if last <= next then slots[last..next] else slots[last..] + slots[..next]
  }

  class Ring<T(0)> {
    const buf: array<T>
    var next: nat   // written by the source only
    var last: nat   // written by the consumer only
    ghost var contents: seq<T>

    ghost function Repr(): set<object> {
      {this, buf}
    }

    /** One slot always stays empty. */
    ghost function Capacity(): nat {
      if buf.Length == 0 then 0 else buf.Length - 1
    }

    ghost predicate Valid()
      reads this, buf
    {
      && buf.Length >= 2
      && next < buf.Length && last < buf.Length
      && contents == Held(buf[..], last, next)
    }

    constructor (total: nat)
      requires total >= 2
      ensures Valid() && fresh(this) && fresh(buf)
      ensures contents == [] && buf.Length == total
    {
      buf := new T[total];
      next, last := 0, 0;
      contents := [];
    }

    /** GenQ_Init: a ring needs at least two slots. */
    static method Init(total: nat) returns (st: Status, q: Ring?<T>)
      ensures st == if total < 2 then Param else OK
      ensures q == null <==> total < 2
      ensures q != null ==> fresh(q) && fresh(q.buf) && q.Valid() && q.contents == [] && q.Capacity() == total - 1
    {
      if total < 2 {
        return Param, null;
      }
      q := new Ring(total);
      st := OK;
    }

    method Reset()
      requires Valid()
      modifies this
      ensures Valid() && contents == []
    {
      last := next;
      contents := [];
    }

    method Put(x: T) returns (st: Status)
      requires Valid()
      modifies this, buf
      ensures Valid()
      ensures |old(contents)| <= Capacity()
      ensures st == if |old(contents)| == Capacity() then FULL else OK
      ensures contents == if st == OK then old(contents) + [x] else old(contents)
    {
      var following := NextInQ(next, buf.Length - 1);
      if following == last {
        return FULL;
      }
      buf[next] := x;
      next := following;
      contents := contents + [x];
      st := OK;
    }

    method Get() returns (st: Status, x: T)
      requires Valid()
      modifies this
      ensures Valid()
      ensures st == if old(contents) == [] then EMPTY else OK
      ensures st == OK ==> old(contents) == [x] + contents
      ensures st != OK ==> contents == old(contents)
    {
      x := buf[last];
      if next == last {
        return EMPTY, x;
      }
      last := NextInQ(last, buf.Length - 1);
      contents := contents[1..];
      st := OK;
    }

    method HasData() returns (r: bool)
      requires Valid()
      ensures r <==> contents != []
    {
      r := next != last;
    }

    method HasSpace() returns (r: bool)
      requires Valid()
      ensures r <==> |contents| < Capacity()
    {
      r := last != NextInQ(next, buf.Length - 1);
    }
  }
}
