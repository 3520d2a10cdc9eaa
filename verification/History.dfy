// The record of a run: which submission ran when, what was called, what it said.
module History {
  import opened Base

  /** The callback cb of submission `serial` was run at tick `at` and answered. */
  datatype Event = Event(serial: nat, at: nat, cb: Cb, status: Status)

  /** The events of submission k, in order. */
  function Of(log: seq<Event>, k: nat): seq<Event> {
    if log == [] then []
    else
      Of(log[..|log| - 1], k) + (if log[|log| - 1].serial == k then [log[|log| - 1]] else [])
  }

  lemma {:induction false} OfUnborn(log: seq<Event>, k: nat)
    requires forall e | e in log :: e.serial < k
    ensures Of(log, k) == []
    decreases |log|
  {
    if log == [] {
    } else {
      assert log[|log| - 1] in log;
      OfUnborn(log[..|log| - 1], k);
    }
  }

  lemma OfSnoc(log: seq<Event>, e: Event, k: nat)
    ensures Of(log + [e], k) == Of(log, k) + (if e.serial == k then [e] else [])
  {
    assert (log + [e])[..|log|] == log;
  }

  lemma {:induction false} OfAreLogged(log: seq<Event>, k: nat)
    ensures forall e | e in Of(log, k) :: e in log && e.serial == k
    decreases |log|
  {
    if log == [] {
    } else {
      OfAreLogged(log[..|log| - 1], k);
    }
  }

  lemma {:induction false} OfHas(log: seq<Event>, e: Event)
    requires e in log
    ensures e in Of(log, e.serial)
    decreases |log|
  {
    if e != log[|log| - 1] {
      OfHas(log[..|log| - 1], e);
    }
  }
}
