// The phase machine of src/state.c.  A state function is a number, 0 being the
// null pointer (the off state).
module PhaseMachine {
  import Base

  const WRAP: int := 0x1_0000_0000

  datatype Phase = RUN | INIT | EXIT | TIMEOUT

  datatype Ret = SM_OK | SM_ERR | SM_OFF | SM_AT_TARGET | SM_BAD_PARAMETER

  /** User code other than a state function: the timeout's callback, those of the error
      and the target trigger, and the application between two passes. */
  datatype Trig = TimeoutCb | ErrorCb | TargetCb | Application

  // ------------------------------------------------------------- what happens

  datatype Event =
    | Enter(state: nat, at: nat)                     // doSwitchBookKeeping, at that time
    | Called(state: nat, phase: Phase, ret: Ret)     // the state function is called
    | Visited(whose: Trig)                           // other user code is called
    | Aimed(state: nat)                              // another state is asked for
    | Refused(number: nat)                           // by a number not on the list
    | Armed(ticks: nat, cb: bool)                    // SmSetTimeout, with a callback or not
    | Counted                                        // a run is counted
    | Checked(at: nat)                               // the clock was read, too early
    | Expired(at: nat)                               // the clock was read, in time
    | Failed                                         // processError

  /** What a history amounts to. */
  datatype Summary = Summary(
    cur: nat,          // the state last entered
    entering: bool,    // and not yet given INIT
    free: bool,        // another state may be entered
    entries: nat,      // runs begun since it was entered
    entryTime: nat,
    armed: nat,        // timeout set since then and not yet expired, else 0
    cb: bool,          // the timeout last set since then has a callback
    checked: bool,     // the clock has been read for the coming call
    pending: bool,     // the timeout has expired but TIMEOUT was not yet given
    expired: bool,     // a timeout has expired since the state was entered
    error: bool,       // the last INIT, RUN or TIMEOUT call answered SM_ERR
    fails: nat,        // errors processed
    next: nat,         // the state asked for
    fell: bool,        // nothing was entered yet, or not since an error was processed
    begun: bool)       // a run has begun that has not yet been given RUN or TIMEOUT

  /** The state function is called to run: RUN or TIMEOUT. */
  predicate IsRun(e: Event) {
    e.Called? && (e.phase == RUN || e.phase == TIMEOUT)
  }

  predicate IsCall(e: Event, phase: Phase) {
    e.Called? && e.phase == phase
  }

  /** An event that says where to go next. */
  predicate Wish(e: Event) {
    e.Aimed? || e.Enter?
  }

  function After(s: Summary, e: Event): Summary {
    Summary(
      if e.Enter? then e.state else s.cur,
      if e.Enter? then e.state != 0 else s.entering && !IsCall(e, INIT),
      if e.Enter? then e.state == 0 else s.free || IsCall(e, EXIT) || e == Failed,
      if e.Enter? then 0 else if e == Counted then s.entries + 1 else s.entries,
      if e.Enter? then e.at else s.entryTime,
      if e.Enter? || e.Expired? then 0 else if e.Armed? then e.ticks else s.armed,
      !e.Enter? && (if e.Armed? then e.cb else s.cb),
      !e.Enter? && !IsRun(e) && (s.checked || e.Checked?),
      !e.Enter? && !IsRun(e) && (s.pending || e.Expired?),
      !e.Enter? && (s.expired || e.Expired?),
      if e.Called? then e.phase != EXIT && e.ret == SM_ERR else s.error && !e.Enter? && e != Failed,
      if e == Failed then s.fails + 1 else s.fails,
      if Wish(e) then e.state else s.next,
      !e.Enter? && (s.fell || e == Failed),
      !e.Enter? && !IsRun(e) && (s.begun || e == Counted))
  }

  function Sum(log: seq<Event>): Summary {
    if log == [] then Summary(0, false, true, 0, 0, 0, false, false, false, false, false, 0, 0, true, false)
    else After(Sum(log[..|log| - 1]), log[|log| - 1])
  }

  /** uint32_t time since the state was entered. */
  function Elapsed(s: Summary, at: nat): nat {
    (at - s.entryTime) % WRAP
  }

  /** A state that has been given INIT and is not on its way out. */
  predicate Settled(s: Summary) {
    s.cur != 0 && !s.entering && !s.free
  }

  predicate May(s: Summary, e: Event) {
    match e
    case Enter(st, _) => s.free && !s.entering && (s.fell || st == s.next)
    case Called(st, INIT, _) => st == s.cur && s.entering
    case Called(st, RUN, _) => st == s.cur && Settled(s) && s.begun && !s.pending && (s.armed == 0 || s.checked)
    case Called(st, TIMEOUT, _) => st == s.cur && Settled(s) && s.begun && s.pending
    case Called(st, EXIT, _) => st == s.cur && Settled(s) && !s.begun
    case Visited(TimeoutCb) => Settled(s) && s.begun && s.pending && s.cb
    case Visited(_) => !s.entering && !s.begun
    case Armed(_, _) => !s.entering
    case Aimed(_) => !s.entering
    case Refused(_) => !s.entering
    case Counted => Settled(s) && !s.begun
    case Checked(at) => Settled(s) && s.begun && !s.pending && s.armed != 0 && Elapsed(s, at) < s.armed
    case Expired(at) => Settled(s) && s.begun && !s.pending && s.armed != 0 && Elapsed(s, at) >= s.armed
    case Failed => s.error && !s.begun
  }

  predicate Legal(log: seq<Event>) {
    log == [] || (Legal(log[..|log| - 1]) && May(Sum(log[..|log| - 1]), log[|log| - 1]))
  }

  // ------------------------------------------------- what a legal history shows

  lemma Unsnoc(log: seq<Event>)
    ensures log == [] ==> Sum(log) == Summary(0, false, true, 0, 0, 0, false, false, false, false, false, 0, 0, true, false)
    ensures log != [] ==> Sum(log) == After(Sum(log[..|log| - 1]), log[|log| - 1])
    ensures log != [] && Legal(log) ==> Legal(log[..|log| - 1]) && May(Sum(log[..|log| - 1]), log[|log| - 1])
  {
    hide After, May;
  }

  lemma {:induction false} LegalPrefix(log: seq<Event>, k: nat)
    requires Legal(log) && k <= |log|
    ensures Legal(log[..k])
    ensures k < |log| ==> May(Sum(log[..k]), log[k])
    decreases |log|
  {
    if k < |log| {
      assert log[..|log| - 1][..k] == log[..k];
      LegalPrefix(log[..|log| - 1], k);
    } else {
      assert log[..k] == log;
    }
  }

  /** No state is entered in log[from..to). */
  predicate Stays(log: seq<Event>, from: nat, to: nat)
    requires from <= to <= |log|
  {
    forall j | from <= j < to :: !log[j].Enter?
  }

  /** Position j is where the state that the history ends in was entered; the very
      next event, if there is one, gives it INIT. */
  predicate EntryAt(log: seq<Event>, j: nat) {
    && j < |log| && log[j] == Enter(Sum(log).cur, Sum(log).entryTime) && Stays(log, j + 1, |log|)
    && (Sum(log).entering || (j + 1 < |log| && log[j + 1].Called? && log[j + 1].phase == INIT && log[j + 1].state == Sum(log).cur))
  }

  lemma CallNames(s: Summary, e: Event)
    requires May(s, e) && e.Called?
    ensures e.state == s.cur && (e.phase != INIT ==> !s.entering)
  {
    hide After;
  }

  lemma OnlyEnterStarts(s: Summary, e: Event)
    requires May(s, e) && After(s, e).entering
    ensures !After(s, e).error
    ensures (s.entering ==> !s.error) ==> e.Enter?
  {
  }

  /** Nothing comes between entering a state and giving it INIT. */
  lemma NextAfterEnter(log: seq<Event>, j: nat)
    requires Legal(log) && Sum(log).entering
    requires j < |log| && log[j].Enter? && Stays(log, j + 1, |log|)
    ensures j + 1 == |log|
  {
    hide Sum, Legal;
    Unsnoc(log);
    hide May, After;
    var shorter := log[..|log| - 1];
    Unsnoc(shorter);
    if Sum(shorter).entering {
      OnlyEnterStarts(Sum(shorter[..|shorter| - 1]), shorter[|shorter| - 1]);
    }
    OnlyEnterStarts(Sum(shorter), log[|log| - 1]);
  }

  lemma {:induction false} SinceEntry(log: seq<Event>)
    requires Legal(log) && Sum(log).cur != 0
    ensures exists j: nat :: EntryAt(log, j)
    decreases |log|
  {
    hide Sum, Legal, May;
    Unsnoc(log);
    var shorter, e := log[..|log| - 1], log[|log| - 1];
    if e.Called? {
      CallNames(Sum(shorter), e);
    }
    if e.Enter? {
      assert EntryAt(log, |log| - 1);
    } else {
      SinceEntry(shorter);
      var j: nat :| EntryAt(shorter, j);
      assert forall l | 0 <= l < |shorter| :: shorter[l] == log[l];
      if Sum(shorter).entering {
        NextAfterEnter(shorter, j);
      }
      assert EntryAt(log, j);
    }
  }

  /** RUN and TIMEOUT go only to the state last given INIT: no other state has been
      entered since, and that INIT came straight after entering it. */
  lemma CallsGoToInited(log: seq<Event>, k: nat)
    requires Legal(log) && k < |log|
    requires log[k].Called? && (log[k].phase == RUN || log[k].phase == TIMEOUT)
    ensures exists j: nat :: 0 < j < k && log[j].Called? && log[j].phase == INIT && log[j].state == log[k].state
              && log[j - 1].Enter? && log[j - 1].state == log[k].state && Stays(log, j, k)
  {
    var before := log[..k];
    LegalPrefix(log, k);
    SinceEntry(before);
    var j: nat :| EntryAt(before, j);
    assert forall l | 0 <= l < k :: before[l] == log[l];
    assert log[(j + 1) - 1].Enter? && Stays(log, j + 1, k);
  }

  /** What made way for another state: nothing was entered yet, or the machine is
      off, or the state was given EXIT, or an error was processed. */
  predicate Excuse(log: seq<Event>, j: nat)
    requires j < |log|
  {
    match log[j]
    case Enter(st, _) => st == 0
    case Called(st, phase, _) => phase == EXIT && st == Sum(log).cur
    case Failed => true
    case _ => false
  }

  lemma {:induction false} WhyFree(log: seq<Event>)
    requires Legal(log) && Sum(log).free
    ensures Stays(log, 0, |log|) || exists j: nat :: j < |log| && Excuse(log, j) && Stays(log, j + 1, |log|)
    decreases |log|
  {
    hide Sum, Legal;
    Unsnoc(log);
    if log == [] {
    } else {
      var shorter, e := log[..|log| - 1], log[|log| - 1];
      assert forall l | 0 <= l < |shorter| :: shorter[l] == log[l];
      if e.Enter? || e == Failed || (e.Called? && e.phase == EXIT) {
        assert Excuse(log, |log| - 1) && Stays(log, |log| - 1 + 1, |log|);
      } else {
        WhyFree(shorter);
        if !Stays(shorter, 0, |shorter|) {
          var j: nat :| j < |shorter| && Excuse(shorter, j) && Stays(shorter, j + 1, |shorter|);
          assert Excuse(log, j) && Stays(log, j + 1, |log|);
        }
      }
    }
  }

  /** Entering a state, anywhere in a legal history, has an excuse. */
  lemma EveryEntryIsExcused(log: seq<Event>, k: nat)
    requires Legal(log) && k < |log| && log[k].Enter?
    ensures Stays(log, 0, k) || exists j: nat :: j < k && Excuse(log[..k], j) && Stays(log, j + 1, k)
  {
    var before := log[..k];
    LegalPrefix(log, k);
    WhyFree(before);
    assert forall l | 0 <= l < k :: before[l] == log[l];
    if !Stays(before, 0, k) {
      var j: nat :| j < |before| && Excuse(before, j) && Stays(before, j + 1, |before|);
      assert Stays(log, j + 1, k);
    }
  }

  /** Position j is the last event that says where to go, namely to st. */
  predicate LastWish(log: seq<Event>, j: nat, st: nat) {
    j < |log| && Wish(log[j]) && log[j].state == st && forall l | j < l < |log| :: !Wish(log[l])
  }

  lemma {:induction false} WhyNext(log: seq<Event>)
    requires !Sum(log).fell
    ensures exists j: nat :: LastWish(log, j, Sum(log).next)
    decreases |log|
  {
    hide Sum, Legal, May;
    Unsnoc(log);
    var shorter, e := log[..|log| - 1], log[|log| - 1];
    assert forall l | 0 <= l < |shorter| :: shorter[l] == log[l];
    if Wish(e) {
      assert LastWish(log, |log| - 1, e.state);
    } else {
      WhyNext(shorter);
      var j: nat :| LastWish(shorter, j, Sum(shorter).next);
      assert LastWish(log, j, Sum(log).next);
    }
  }

  lemma {:induction false} WhyFell(log: seq<Event>)
    requires Sum(log).fell
    ensures Stays(log, 0, |log|) || exists j: nat :: j < |log| && log[j] == Failed && Stays(log, j, |log|)
    decreases |log|
  {
    hide Sum, Legal, May;
    Unsnoc(log);
    if log == [] {
    } else {
      var shorter, e := log[..|log| - 1], log[|log| - 1];
      assert forall l | 0 <= l < |shorter| :: shorter[l] == log[l];
      if e == Failed {
        assert Stays(log, |log| - 1, |log|);
      } else {
        WhyFell(shorter);
        if !Stays(shorter, 0, |shorter|) {
          var j: nat :| j < |shorter| && shorter[j] == Failed && Stays(shorter, j, |shorter|);
          assert log[j] == Failed && Stays(log, j, |log|);
        }
      }
    }
  }

  /** A state is entered, anywhere in a legal history, because it is the one last
      asked for; or it is the first of all, or the fallback from an error processed
      since the state before was entered. */
  lemma EveryEntryIsWanted(log: seq<Event>, k: nat)
    requires Legal(log) && k < |log| && log[k].Enter?
    ensures || Stays(log, 0, k)
            || (exists j: nat :: j < k && log[j] == Failed && Stays(log, j, k))
            || (exists j: nat :: LastWish(log[..k], j, log[k].state))
  {
    var before := log[..k];
    LegalPrefix(log, k);
    assert forall l | 0 <= l < k :: before[l] == log[l];
    if Sum(before).fell {
      WhyFell(before);
      if !Stays(before, 0, k) {
        var j: nat :| j < |before| && before[j] == Failed && Stays(before, j, |before|);
        assert log[j] == Failed && Stays(log, j, k);
      }
    } else {
      WhyNext(before);
    }
  }

  /** A failure is processed only after an INIT, RUN or TIMEOUT call said SM_ERR. */
  lemma {:induction false} WhyError(log: seq<Event>)
    requires Legal(log) && Sum(log).error
    ensures exists j: nat :: j < |log| && log[j].Called? && log[j].ret == SM_ERR && log[j].phase != EXIT
              && log[j].state == Sum(log).cur && Stays(log, j, |log|)
    decreases |log|
  {
    hide Sum, Legal;
    Unsnoc(log);
    var shorter, e := log[..|log| - 1], log[|log| - 1];
    assert forall l | 0 <= l < |shorter| :: shorter[l] == log[l];
    if !e.Called? {
      WhyError(shorter);
      var j: nat :| j < |shorter| && shorter[j].Called? && shorter[j].ret == SM_ERR && shorter[j].phase != EXIT
                    && shorter[j].state == Sum(shorter).cur && Stays(shorter, j, |shorter|);
      assert log[j] == shorter[j] && Stays(log, j, |log|);
    } else {
      assert log[|log| - 1] == e && Stays(log, |log| - 1, |log|);
    }
  }

  /** Processing an error, anywhere in a legal history, follows an SM_ERR. */
  lemma EveryFailureHasCause(log: seq<Event>, k: nat)
    requires Legal(log) && k < |log| && log[k] == Failed
    ensures exists j: nat :: j < k && log[j].Called? && log[j].ret == SM_ERR && log[j].phase != EXIT && Stays(log, j, k)
  {
    var before := log[..k];
    LegalPrefix(log, k);
    WhyError(before);
    assert forall l | 0 <= l < k :: before[l] == log[l];
    var j: nat :| j < |before| && before[j].Called? && before[j].ret == SM_ERR && before[j].phase != EXIT
                  && before[j].state == Sum(before).cur && Stays(before, j, |before|);
    assert log[j] == before[j] && Stays(log, j, k);
  }

  lemma {:induction false} WhyArmed(log: seq<Event>)
    requires Legal(log) && Sum(log).armed != 0
    ensures exists j: nat :: j < |log| && log[j].Armed? && log[j].ticks == Sum(log).armed && Stays(log, j, |log|)
    decreases |log|
  {
    hide Sum, Legal;
    Unsnoc(log);
    var shorter, e := log[..|log| - 1], log[|log| - 1];
    assert forall l | 0 <= l < |shorter| :: shorter[l] == log[l];
    if e.Armed? {
      assert log[|log| - 1] == e && Stays(log, |log| - 1, |log|);
    } else {
      WhyArmed(shorter);
      var j: nat :| j < |shorter| && shorter[j].Armed? && shorter[j].ticks == Sum(shorter).armed && Stays(shorter, j, |shorter|);
      assert log[j] == shorter[j] && Stays(log, j, |log|);
    }
  }

  /** Entered at i, armed at j, expired at k, with no other state in between. */
  predicate OwnTimeout(log: seq<Event>, i: nat, j: nat, k: nat) {
    && i < j < k < |log| && log[i].Enter? && log[j].Armed? && log[k].Expired? && Stays(log, i + 1, k)
    && log[j].ticks != 0 && (log[k].at - log[i].at) % WRAP >= log[j].ticks
  }

  lemma EnteredFirst(log: seq<Event>, i: nat, j: nat)
    requires EntryAt(log, i) && j < |log| && log[j].Armed? && Stays(log, j, |log|)
    ensures i < j && Stays(log, i + 1, |log|)
  {
    hide Sum;
    assert log[i].Enter?;
  }

  lemma OnlyArmedExpire(s: Summary, e: Event)
    requires May(s, e) && e.Expired?
    ensures s.armed != 0 && s.cur != 0 && Elapsed(s, e.at) >= s.armed
  {
  }

  lemma OwnIfFirst(log: seq<Event>, i: nat, j: nat, k: nat)
    requires k < |log| && log[k].Expired? && Elapsed(Sum(log[..k]), log[k].at) >= Sum(log[..k]).armed > 0
    requires EntryAt(log[..k], i)
    requires j < k && log[j].Armed? && log[j].ticks == Sum(log[..k]).armed && Stays(log[..k], j, k)
    ensures OwnTimeout(log, i, j, k)
  {
    hide Sum;
    EnteredFirst(log[..k], i, j);
    assert forall l | 0 <= l < k :: log[..k][l] == log[l];
    assert log[..k][i] == log[i];
  }

  /** A timeout that expires was armed in the state it expires in, for no longer
      than that state has lasted (in wrapped ticks). */
  lemma TimeoutsAreOwn(log: seq<Event>, k: nat)
    requires Legal(log) && k < |log| && log[k].Expired?
    ensures exists i: nat, j: nat :: OwnTimeout(log, i, j, k)
  {
    hide Sum, Legal, May, After, EntryAt, Stays, OwnTimeout;
    var before := log[..k];
    LegalPrefix(log, k);
    OnlyArmedExpire(Sum(before), log[k]);
    SinceEntry(before);
    WhyArmed(before);
    var i: nat :| EntryAt(before, i);
    var j: nat :| j < |before| && before[j].Armed? && before[j].ticks == Sum(before).armed && Stays(before, j, |before|);
    OwnIfFirst(log, i, j, k);
  }

  /** RUN and TIMEOUT calls in log[from..]. */
  function Entries(log: seq<Event>, from: nat): nat
    requires from <= |log|
    decreases |log|
  {
    if from == |log| then 0
    else
      var e := log[|log| - 1];
      Entries(log[..|log| - 1], from) + (if e.Called? && (e.phase == RUN || e.phase == TIMEOUT) then 1 else 0)
  }

  /** The entry count is the number of RUN and TIMEOUT calls since the state was
      entered, with the one that is being prepared. */
  lemma {:induction false} EntriesCounted(log: seq<Event>, j: nat)
    requires Legal(log) && j < |log| && log[j].Enter? && Stays(log, j + 1, |log|)
    ensures Sum(log).entries == Entries(log, j + 1) + (if Sum(log).begun then 1 else 0)
    decreases |log|
  {
    hide Sum, Legal;
    Unsnoc(log);
    var shorter := log[..|log| - 1];
    if j < |log| - 1 {
      assert forall l | 0 <= l < |shorter| :: shorter[l] == log[l];
      EntriesCounted(shorter, j);
    }
  }

  // ------------------------------------------------- user code and the time base

  /** What user code does to the machine while it has control. */
  datatype Action =
    | SetNext(state: nat)                   // SmSetNext, by number
    | Assign(fn: nat)                       // next, by function
    | SetTimeout(ticks: nat, cb: bool)      // SmSetTimeout, with or without a callback

  datatype Visit = Visit(actions: seq<Action>, ret: Ret)

  /** The state asked for, the timeout and whether it has a callback. */
  type Knobs = (nat, nat, bool)

  /** What one action of user code does to them. */
  function Turned(stateList: Base.Option<seq<nat>>, k: Knobs, a: Action): Knobs {
    match a
    case SetNext(state) =>
      if stateList.Some? && state < |stateList.value| then (stateList.value[state], k.1, k.2)
      else if state == 0 then (0, k.1, k.2)
      else k
    case Assign(fn) => (fn, k.1, k.2)
    case SetTimeout(ticks, cb) => (k.0, ticks, cb)
  }

  function Left(stateList: Base.Option<seq<nat>>, k: Knobs, actions: seq<Action>): Knobs
    decreases |actions|
  {
    if actions == [] then k else Left(stateList, Turned(stateList, k, actions[0]), actions[1..])
  }

  /** A target or error trigger, with or without a callback. */
  datatype Trigger = Trigger(trigState: nat, callback: bool)

  /** What the k-th invocation of user code does, and what the k-th reading of the time
      base gives; with the list that states are numbered by. */
  datatype World = World(stateList: Base.Option<seq<nat>>, user: nat -> Visit, clock: nat -> nat)

  /** How far a history has come: invocations begun, readings taken, and what the
      invocation in progress has yet to do. */
  datatype Place = Place(visits: nat, readings: nat, owed: seq<Action>)

  /** User code is called. */
  predicate IsVisit(e: Event) {
    e.Called? || e.Visited?
  }

  /** The time base is read. */
  predicate IsReading(e: Event) {
    e.Enter? || e.Checked? || e.Expired?
  }

  /** User code acts. */
  predicate IsAct(e: Event) {
    e.Aimed? || e.Refused? || e.Armed?
  }

  function ActOf(stateList: Base.Option<seq<nat>>, a: Action): Event {
    match a
    case SetNext(state) =>
      if stateList.Some? && state < |stateList.value| then Aimed(stateList.value[state])
      else if state == 0 then Aimed(0)
      else Refused(state)
    case Assign(fn) => Aimed(fn)
    case SetTimeout(ticks, cb) => Armed(ticks, cb)
  }

  function Moved(w: World, p: Place, e: Event): Place {
    Place(
      if IsVisit(e) then p.visits + 1 else p.visits,
      if IsReading(e) then p.readings + 1 else p.readings,
      if IsVisit(e) then w.user(p.visits).actions
      else if IsAct(e) && p.owed != [] then p.owed[1..]
      else p.owed)
  }

  /** SmInit itself has taken the first reading. */
  function At(w: World, log: seq<Event>): Place {
    if log == [] then Place(0, 1, []) else Moved(w, At(w, log[..|log| - 1]), log[|log| - 1])
  }

  /** e is what comes next in this world: the invocation in progress does its actions in
      order, and nothing else happens until it has done them all; state functions answer
      as told; the time base is read one reading after another. */
  predicate Fits(w: World, p: Place, e: Event) {
    match e
    case Called(_, _, ret) => p.owed == [] && ret == w.user(p.visits).ret
    case Enter(_, at) => p.owed == [] && at == w.clock(p.readings)
    case Checked(at) => p.owed == [] && at == w.clock(p.readings)
    case Expired(at) => p.owed == [] && at == w.clock(p.readings)
    case _ => if IsAct(e) then p.owed != [] && e == ActOf(w.stateList, p.owed[0]) else p.owed == []
  }

  predicate True(w: World, log: seq<Event>) {
    log == [] || (True(w, log[..|log| - 1]) && Fits(w, At(w, log[..|log| - 1]), log[|log| - 1]))
  }

  function Reading(e: Event): seq<nat> {
    match e
    case Enter(_, at) => [at]
    case Checked(at) => [at]
    case Expired(at) => [at]
    case _ => []
  }

  /** The times in a history are the readings of the time base, one after another from
      the second on. */
  lemma {:induction false} ClockReadInOrder(w: World, log: seq<Event>)
    requires True(w, log)
    ensures var times := Base.Flat(log, Reading);
            |times| + 1 == At(w, log).readings && forall i | 0 <= i < |times| :: times[i] == w.clock(i + 1)
    decreases |log|
  {
    if log != [] {
      ClockReadInOrder(w, log[..|log| - 1]);
    }
  }

  function VisitIn(e: Event): seq<Event> {
    if IsVisit(e) then [e] else []
  }

  function ActIn(e: Event): seq<Event> {
    if IsAct(e) then [e] else []
  }

  function Acts(stateList: Base.Option<seq<nat>>, actions: seq<Action>): seq<Event> {
    if actions == [] then [] else [ActOf(stateList, actions[0])] + Acts(stateList, actions[1..])
  }

  /** What the first k invocations do. */
  function ActsUpTo(w: World, k: nat): seq<Event> {
    if k == 0 then [] else ActsUpTo(w, k - 1) + Acts(w.stateList, w.user(k - 1).actions)
  }

  /** The k-th call of user code in a history answers as user code's k-th invocation
      does. */
  lemma {:induction false} AnswersInOrder(w: World, log: seq<Event>)
    requires True(w, log)
    ensures var calls := Base.Flat(log, VisitIn);
            && |calls| == At(w, log).visits
            && forall k | 0 <= k < |calls| && calls[k].Called? :: calls[k].ret == w.user(k).ret
    decreases |log|
  {
    hide ActOf;
    if log != [] {
      AnswersInOrder(w, log[..|log| - 1]);
    }
  }

  lemma Regroup<T>(s: seq<T>, a: seq<T>, b: seq<T>, c: seq<T>, d: seq<T>)
    requires a + b == c + d
    ensures s + a + b == s + c + d
  {
    assert s + a + b == s + (a + b) && s + c + d == s + (c + d);
  }

  lemma ActsStep(w: World, p: Place, e: Event)
    requires Fits(w, p, e)
    ensures ActIn(e) + Acts(w.stateList, Moved(w, p, e).owed) ==
            Acts(w.stateList, p.owed) + if IsVisit(e) then Acts(w.stateList, w.user(p.visits).actions) else []
    ensures Moved(w, p, e).visits == if IsVisit(e) then p.visits + 1 else p.visits
  {
    hide ActOf;
  }

  /** The actions in a history are those of the invocations in it, in order. */
  lemma {:induction false} ActsInOrder(w: World, log: seq<Event>)
    requires True(w, log)
    ensures Base.Flat(log, ActIn) + Acts(w.stateList, At(w, log).owed) == ActsUpTo(w, At(w, log).visits)
    decreases |log|
  {
    hide ActOf, ActIn, Fits, Moved;
    if log == [] {
      assert Acts(w.stateList, []) == [];
    } else {
      var before := log[..|log| - 1];
      ActsInOrder(w, before);
      ActsStep(w, At(w, before), log[|log| - 1]);
      var p, e := At(w, before), log[|log| - 1];
      var done, more := Base.Flat(before, ActIn), if IsVisit(e) then Acts(w.stateList, w.user(p.visits).actions) else [];
      Regroup(done, ActIn(e), Acts(w.stateList, Moved(w, p, e).owed), Acts(w.stateList, p.owed), more);
    }
  }

  // -------------------------------------------------------------------- the code

  /** The calls and transitions of a history, without what user code does, the counting
      and the early clock readings in between. */
  function Control(log: seq<Event>): seq<Event> {
    if log == [] then []
    else
      var e := log[|log| - 1];
      Control(log[..|log| - 1]) + (if IsAct(e) || e.Counted? || e.Checked? then [] else [e])
  }

  /** What one more event makes of a history. */
  lemma Append(w: World, log: seq<Event>, e: Event)
    ensures Sum(log + [e]) == After(Sum(log), e) && At(w, log + [e]) == Moved(w, At(w, log), e)
    ensures Legal(log) && May(Sum(log), e) ==> Legal(log + [e])
    ensures True(w, log) && Fits(w, At(w, log), e) ==> True(w, log + [e])
    ensures Control(log + [e]) == Control(log) + (if IsAct(e) || e.Counted? || e.Checked? then [] else [e])
  {
    hide After, May, Moved, Fits;
    assert (log + [e])[..|log|] == log;
  }

  lemma ActAfter(s: Summary, e: Event)
    requires IsAct(e)
    ensures After(s, e) ==
            match e
            case Aimed(fn) => s.(next := fn)
            case Armed(ticks, cb) => s.(armed := ticks, cb := cb)
            case _ => s
  {
  }

  function With(s: Summary, k: Knobs): Summary {
    s.(next := k.0, armed := k.1, cb := k.2)
  }

  lemma WithTwice(s: Summary, k: Knobs, k': Knobs)
    ensures With(With(s, k), k') == With(s, k') && With(s, (s.next, s.armed, s.cb)) == s
    ensures With(s, k).entering == s.entering
  {
  }

  /** An action of user code turns the knobs and nothing else. */
  lemma ActStep(w: World, s: Summary, p: Place, a: Action)
    requires !s.entering && p.owed != [] && p.owed[0] == a
    ensures var e, k := ActOf(w.stateList, a), Turned(w.stateList, (s.next, s.armed, s.cb), a);
            && IsAct(e) && May(s, e) && Fits(w, p, e) && Moved(w, p, e) == p.(owed := p.owed[1..])
            && After(s, e) == With(s, k)
  {
    hide After;
    ActAfter(s, ActOf(w.stateList, a));
  }

  /** Counting. */
  lemma CountStep(w: World, s: Summary, p: Place, e: Event)
    requires p.owed == [] && (e == Counted || e == Failed)
    ensures Fits(w, p, e) && Moved(w, p, e) == p
    ensures var r := After(s, e);
            && r.cur == s.cur && r.next == s.next && r.armed == s.armed && r.cb == s.cb && r.entryTime == s.entryTime
            && r.entries == s.entries + (if e == Counted then 1 else 0) && r.expired == s.expired
            && r.fails == s.fails + (if e == Failed then 1 else 0)
  {
  }

  /** A call of user code. */
  lemma VisitStep(w: World, s: Summary, p: Place, e: Event)
    requires IsVisit(e) && p.owed == [] && (e.Called? ==> e.ret == w.user(p.visits).ret)
    ensures Fits(w, p, e) && Moved(w, p, e) == Place(p.visits + 1, p.readings, w.user(p.visits).actions)
    ensures var r := After(s, e);
            && r.cur == s.cur && r.next == s.next && r.armed == s.armed && r.cb == s.cb && r.entryTime == s.entryTime
            && r.entries == s.entries && r.fails == s.fails && r.expired == s.expired
  {
  }

  /** One run of a state: TIMEOUT if its timeout is due at the time `at` that the clock
      gives, after the timeout's own callback if it has one; else RUN. */
  predicate RunPart(c: seq<Event>, state: nat, due: bool, cb: bool, at: nat) {
    if state == 0 then c == []
    else
      && c != [] && c[|c| - 1].Called? && c[|c| - 1].state == state && c[|c| - 1].phase == (if due then TIMEOUT else RUN)
      && c[..|c| - 1] == if !due then [] else if cb then [Expired(at), Visited(TimeoutCb)] else [Expired(at)]
  }

  /** A state is entered and given INIT; the off state is just entered. */
  predicate EntryPart(c: seq<Event>) {
    && c != [] && c[0].Enter?
    && (if c[0].state == 0 then |c| == 1
        else |c| == 2 && c[1].Called? && c[1].state == c[0].state && c[1].phase == INIT)
  }

  /** State `from` is given EXIT, unless it is the off state, and another entered. */
  predicate MovePart(c: seq<Event>, from: nat) {
    if from == 0 then EntryPart(c)
    else c != [] && c[0].Called? && c[0].state == from && c[0].phase == EXIT && EntryPart(c[1..])
  }

  /** Then comes the target trigger's callback, if it is to be called. */
  predicate SwitchPart(c: seq<Event>, from: nat, cb: bool) {
    if cb then c != [] && c[|c| - 1] == Visited(TargetCb) && MovePart(c[..|c| - 1], from) else MovePart(c, from)
  }

  /** An error is processed, with the error trigger's callback, if it has one, first. */
  predicate FailPart(c: seq<Event>, cb: bool) {
    && c != [] && c[0] == Failed
    && if cb then |c| >= 2 && c[1] == Visited(ErrorCb) && EntryPart(c[2..]) else EntryPart(c[1..])
  }

  /** What the last call of a state function in a part answered; a part ending off
      answers so. */
  function Answer(c: seq<Event>): Ret {
    if c == [] then SM_OFF
    else
      match c[|c| - 1]
      case Called(_, _, ret) => ret
      case Visited(_) => Answer(c[..|c| - 1])
      case _ => SM_OFF
  }

  /** The state that a part leaves the machine in. */
  function Arrival(c: seq<Event>): nat {
    if c == [] then 0
    else
      match c[|c| - 1]
      case Enter(st, _) => st
      case Called(st, _, _) => st
      case Visited(_) => Arrival(c[..|c| - 1])
      case _ => 0
  }

  /** What a part with an entry at its end answers and leaves. */
  lemma EndsLike(c: seq<Event>, part: seq<Event>)
    requires EntryPart(part)
    ensures Answer(c + part) == Answer(part) && Arrival(c + part) == Arrival(part)
  {
  }

  lemma MoveShape(out: seq<Event>, part: seq<Event>, from: nat)
    requires EntryPart(part)
    requires if from == 0 then out == []
             else |out| == 1 && out[0].Called? && out[0].state == from && out[0].phase == EXIT
    ensures MovePart(out + part, from) && out + part != []
    ensures Answer(out + part) == Answer(part) && Arrival(out + part) == Arrival(part)
  {
    EndsLike(out, part);
    assert part == (out + part)[|out|..];
  }

  lemma FailShape(begin: seq<Event>, part: seq<Event>, cb: bool)
    requires begin == (if cb then [Failed, Visited(ErrorCb)] else [Failed]) && EntryPart(part)
    ensures FailPart(begin + part, cb) && begin + part != []
    ensures Answer(begin + part) == Answer(part) && Arrival(begin + part) == Arrival(part)
  {
    EndsLike(begin, part);
    assert part == (begin + part)[|begin|..];
  }

  lemma RunShape(begin: seq<Event>, calls: seq<Event>, state: nat, due: bool, cb: bool, at: nat, ret: Ret)
    requires begin == (if due then [Expired(at)] else []) && state != 0
    requires calls == (if due && cb then [Visited(TimeoutCb)] else []) + [Called(state, if due then TIMEOUT else RUN, ret)]
    ensures RunPart(begin + calls, state, due, cb, at) && begin + calls != [] && Answer(begin + calls) == ret
  {
    var c := begin + calls;
    assert c[..|c| - 1] == begin + calls[..|calls| - 1];
  }

  class Machine {
    const stateList: Base.Option<seq<nat>>
    const target: Base.Option<Trigger>
    const onErr: Base.Option<Trigger>
    const user: nat -> Visit      // what the k-th invocation of user code does
    const clock: nat -> nat       // what the k-th reading of the time base gives
    var visits: nat
    var readings: nat
    ghost var owed: seq<Action>   // what the invocation in progress has yet to do
    var current: nat
    var next: nat
    var prev: nat
    var timeoutCb: bool
    var currentStateEntries: nat
    var stateStartTime: nat
    var currentTimeout: nat
    var prevStateDuration: nat
    var prevStateEntries: nat
    var errors: nat
    var doBefore: bool
    var timedOut: bool
    ghost var log: seq<Event>

    ghost function TheWorld(): World {
      World(stateList, user, clock)
    }

    /** Whatever has been done to the machine makes a legal history that is true of the
        world, of which its fields keep the summary. */
    ghost predicate Valid()
      reads this
    {
      && (stateList.Some? ==> stateList.value != [])
      && Legal(log) && True(TheWorld(), log) && At(TheWorld(), log) == Place(visits, readings, owed)
      && var s := Sum(log);
         && current == s.cur && next == s.next && currentTimeout == s.armed && timeoutCb == s.cb
         && stateStartTime == (if log == [] then clock(0) else s.entryTime)
         && currentStateEntries == s.entries % WRAP && errors == s.fails % WRAP && timedOut == s.expired
    }

    /** The state asked for, the timeout and whether it has a callback. */
    function Asked(): Knobs
      reads this
    {
      (next, currentTimeout, timeoutCb)
    }

    lemma Told()
      requires Valid()
      ensures Sum(log).cur == current && Sum(log).next == next
      ensures Sum(log).armed == currentTimeout && Sum(log).cb == timeoutCb
      ensures log != [] ==> Sum(log).entryTime == stateStartTime
      ensures At(TheWorld(), log) == Place(visits, readings, owed)
    {
      hide Legal, True, At, Sum;
    }

    /** No call is in progress: an entered state has been given INIT. */
    ghost predicate AtRest()
      reads this
    {
      && Valid() && log != [] && owed == []
      && !Sum(log).entering && !Sum(log).begun && !Sum(log).pending && !Sum(log).checked
      && Sum(log).free == (current == 0)
    }

    lemma Rested()
      requires AtRest()
      ensures Sum(log).cur == current && Sum(log).next == next && Sum(log).entryTime == stateStartTime
      ensures Sum(log).armed == currentTimeout && Sum(log).cb == timeoutCb
      ensures At(TheWorld(), log) == Place(visits, readings, [])
    {
      hide Valid, Sum, At;
      Told();
    }

    /** SmInit: memset, then INIT for the first state, if there is a list. */
    constructor (stateList: Base.Option<seq<nat>>, target: Base.Option<Trigger>, onErr: Base.Option<Trigger>,
                 user: nat -> Visit, clock: nat -> nat)
      requires stateList.Some? ==> stateList.value != []
      ensures AtRest()
      ensures current == if stateList.Some? then stateList.value[0] else 0
      ensures EntryPart(Control(log)) && log[0] == Enter(current, clock(1)) && prevStateDuration == (clock(1) - clock(0)) % WRAP
    {
      this.stateList, this.target, this.onErr, this.user, this.clock := stateList, target, onErr, user, clock;
      visits, readings, owed, current, next, prev, timeoutCb, currentStateEntries := 0, 1, [], 0, 0, 0, false, 0;
      stateStartTime, currentTimeout, prevStateDuration, prevStateEntries := clock(0), 0, 0, 0;
      errors, doBefore, timedOut, log := 0, false, false, [];
      new;
      assert Control([]) == [];
      var _, _ := InitProcess(if stateList.Some? then stateList.value[0] else 0);
    }

    /** SmSetNext */
    method SetNextState(state: nat) returns (ret: Ret)
      modifies this`next
      ensures var states := if stateList.Some? then |stateList.value| else 0;
              if state < states then ret == SM_OK && next == stateList.value[state]
              else if state == 0 then ret == SM_OK && next == 0
              else ret == SM_BAD_PARAMETER && next == old(next)
    {
      if stateList.Some? && state < |stateList.value| {
        next := stateList.value[state];
        return SM_OK;
      }
      if state != 0 {
        return SM_BAD_PARAMETER;
      }
      next := 0;
      ret := SM_OK;
    }

    /** SmSetTimeout */
    method ArmTimeout(ticks: nat, cb: bool)
      modifies this`currentTimeout, this`timeoutCb
      ensures currentTimeout == ticks && timeoutCb == cb
    {
      currentTimeout := ticks;
      timeoutCb := cb;
    }

    method Turn(a: Action)
      modifies this`next, this`currentTimeout, this`timeoutCb
      ensures Asked() == Turned(stateList, old(Asked()), a)
    {
      match a {
        case SetNext(state) =>
          var _ := SetNextState(state);
        case Assign(fn) =>
          next := fn;
        case SetTimeout(ticks, cb) =>
          ArmTimeout(ticks, cb);
      }
    }

    /** The invocation in progress does the next thing it has to do. */
    method Act(a: Action)
      requires Valid() && log != [] && !Sum(log).entering && owed != [] && owed[0] == a
      modifies this`next, this`currentTimeout, this`timeoutCb, this`owed, this`log
      ensures Valid() && log == old(log) + [ActOf(stateList, a)] && Control(log) == Control(old(log))
      ensures owed == old(owed)[1..]
      ensures Sum(log) == With(Sum(old(log)), Asked())
      ensures Asked() == Turned(stateList, old(Asked()), a)
    {
      hide Legal, Sum, Control, True, At, ActOf, Turned, After, May, Fits, Moved;
      ActStep(TheWorld(), Sum(log), At(TheWorld(), log), a);
      Append(TheWorld(), log, ActOf(stateList, a));
      Turn(a);
      log := log + [ActOf(stateList, a)];
      owed := owed[1..];
    }

    method Perform(actions: seq<Action>)
      requires Valid() && log != [] && !Sum(log).entering && owed == actions
      modifies this`next, this`currentTimeout, this`timeoutCb, this`owed, this`log
      ensures Valid() && owed == [] && Control(log) == Control(old(log)) && old(log) <= log
      ensures Sum(log) == With(Sum(old(log)), Asked())
      ensures Asked() == Left(stateList, old(Asked()), actions)
      decreases |actions|
    {
      hide Legal, Sum, Control, Turned, After, May, True, At, Valid, ActOf, With;
      Told();
      WithTwice(Sum(log), Asked(), Asked());
      if actions != [] {
        ghost var s := Sum(log);
        Act(actions[0]);
        WithTwice(s, Asked(), Asked());
        ghost var k := Asked();
        Perform(actions[1..]);
        WithTwice(s, k, Asked());
      }
    }

    /** User code has control: it may redirect the machine and set timeouts, and
        nothing else.  `call` is the call it gets. */
    method UserCode(ghost call: Event) returns (ret: Ret)
      requires Valid() && owed == [] && IsVisit(call) && (call.Called? ==> call.ret == user(visits).ret)
      requires log != [] && May(Sum(log), call) && !After(Sum(log), call).entering
      modifies this`visits, this`next, this`currentTimeout, this`timeoutCb, this`owed, this`log
      ensures Valid() && owed == [] && Control(log) == Control(old(log)) + [call] && old(log) <= log
      ensures log != [] && Sum(log) == With(After(Sum(old(log)), call), Asked())
      ensures ret == user(old(visits)).ret && visits == old(visits) + 1
      ensures Asked() ==
              Left(stateList, old(Asked()), user(old(visits)).actions)
    {
      hide Legal, Sum, Control, Left, May, True, At, After, Fits, Moved;
      VisitStep(TheWorld(), Sum(log), At(TheWorld(), log), call);
      Append(TheWorld(), log, call);
      log := log + [call];
      var visit := user(visits);
      visits := visits + 1;
      owed := visit.actions;
      ret := visit.ret;
      Perform(visit.actions);
    }

    /** The application has control between two passes. */
    method BetweenPasses()
      requires AtRest()
      modifies this`visits, this`next, this`currentTimeout, this`timeoutCb, this`owed, this`log
      ensures AtRest() && Control(log) == Control(old(log)) + [Visited(Application)] && old(log) <= log
      ensures Asked() ==
              Left(stateList, old(Asked()), user(old(visits)).actions)
    {
      hide Legal, Sum, Control, Left, True, At;
      var _ := UserCode(Visited(Application));
    }

    /** The current state is called. */
    method CallState(phase: Phase) returns (ret: Ret)
      requires Valid() && log != [] && owed == [] && forall r: Ret :: May(Sum(log), Called(current, phase, r))
      modifies this`visits, this`next, this`currentTimeout, this`timeoutCb, this`owed, this`log
      ensures Valid() && owed == [] && log != [] && old(log) <= log
      ensures Control(log) == Control(old(log)) + [Called(current, phase, ret)]
      ensures Sum(log) == With(After(Sum(old(log)), Called(current, phase, ret)), Asked())
      ensures ret == user(old(visits)).ret && visits == old(visits) + 1
      ensures Asked() ==
              Left(stateList, old(Asked()), user(old(visits)).actions)
    {
      hide Legal, Sum, Control, Left, True, At;
      ghost var e := Called(current, phase, user(visits).ret);
      assert May(Sum(log), e);
      ret := UserCode(e);
    }

    /** doSwitchBookKeeping */
    method DoSwitchBookKeeping()
      modifies this`readings, this`prev, this`prevStateDuration, this`stateStartTime, this`prevStateEntries,
               this`currentStateEntries, this`currentTimeout, this`timeoutCb, this`timedOut
      ensures prev == current && prevStateEntries == old(currentStateEntries)
      ensures stateStartTime == clock(old(readings)) && prevStateDuration == (stateStartTime - old(stateStartTime)) % WRAP
      ensures currentStateEntries == 0 && currentTimeout == 0 && !timeoutCb && !timedOut && readings == old(readings) + 1
    {
      var time := clock(readings);
      readings := readings + 1;
      prev := current;
      prevStateDuration := (time - stateStartTime) % WRAP;
      stateStartTime := time;
      prevStateEntries := currentStateEntries;
      currentStateEntries := 0;
      currentTimeout := 0;
      timeoutCb := false;
      timedOut := false;
    }

    /** The bookkeeping and what follows it; in processSwitch fn is next already, so
        that assigning it again changes nothing. */
    method EnterState(fn: nat)
      requires Valid() && owed == [] && Sum(log).free && !Sum(log).entering && (Sum(log).fell || fn == next)
      modifies this
      ensures Valid() && owed == [] && next == fn && current == fn && visits == old(visits)
      ensures readings == old(readings) + 1 && stateStartTime == clock(old(readings))
      ensures prev == old(current) && prevStateEntries == old(currentStateEntries)
      ensures prevStateDuration == (stateStartTime - old(stateStartTime)) % WRAP
      ensures !timeoutCb && doBefore == old(doBefore) && errors == old(errors)
      ensures log == old(log) + [Enter(fn, stateStartTime)]
      ensures Sum(log) == After(Sum(old(log)), Enter(fn, stateStartTime))
      ensures Control(log) == Control(old(log)) + [Enter(fn, stateStartTime)]
    {
      hide Legal, Sum, Control, True, At;
      DoSwitchBookKeeping();
      current, next := fn, fn;
      Append(TheWorld(), log, Enter(fn, stateStartTime));
      log := log + [Enter(fn, stateStartTime)];
    }

    /** initProcess, and the second half of processSwitch: the state fn is entered, and
        given INIT unless it is the off state. */
    method InitProcess(fn: nat) returns (ret: Ret, ghost part: seq<Event>)
      requires Valid() && owed == [] && Sum(log).free && !Sum(log).entering && (Sum(log).fell || fn == next)
      modifies this
      ensures AtRest() && current == fn && old(log) <= log && doBefore == old(doBefore)
      ensures old(log) == [] ==> log[0] == Enter(fn, clock(old(readings)))
      ensures prevStateDuration == (clock(old(readings)) - old(stateStartTime)) % WRAP
      ensures fn == 0 ==> next == 0
      ensures Control(log) == Control(old(log)) + part && EntryPart(part) && Arrival(part) == fn && ret == Answer(part)
      ensures Sum(log).error <==> ret == SM_ERR
      ensures Sum(log).fails == Sum(old(log)).fails && errors == old(errors)
    {
      hide Legal, Sum, Control, True, At, Left;
      EnterState(fn);
      part := [Enter(fn, stateStartTime)];
      if current != 0 {
        ret := CallState(INIT);
        part := part + [Called(fn, INIT, ret)];
      } else {
        ret := SM_OFF;
      }
    }

    /** The state the machine falls back to after an error. */
    function Fallback(): nat
      requires stateList.Some? ==> stateList.value != []
    {
      if onErr.Some? then onErr.value.trigState else if stateList.Some? then stateList.value[0] else 0
    }

    /** What processError reports. */
    function ErrorAnswer(fail: seq<Event>): Ret {
      if onErr.None? && stateList.None? then SM_ERR else Answer(fail)
    }

    method CountError()
      requires Valid() && log != [] && owed == [] && May(Sum(log), Failed)
      modifies this`errors, this`log
      ensures Valid() && log == old(log) + [Failed] && Control(log) == Control(old(log)) + [Failed]
      ensures Sum(log) == After(Sum(old(log)), Failed)
      ensures errors == (old(errors) + 1) % WRAP
    {
      hide Legal, Sum, Control, True, At, After, May, Fits, Moved;
      CountStep(TheWorld(), Sum(log), At(TheWorld(), log), Failed);
      Append(TheWorld(), log, Failed);
      errors := (errors + 1) % WRAP;
      log := log + [Failed];
    }

    /** An SM_ERR that came from INIT, RUN or TIMEOUT may be processed. */
    lemma MayFail()
      requires AtRest() && Sum(log).error
      ensures Valid() && log != [] && owed == [] && May(Sum(log), Failed) && !Sum(log).entering
    {
      hide Valid, Sum;
    }

    /** The error is counted and its trigger's callback called, if it has one. */
    method AnnounceError() returns (ghost fail: seq<Event>)
      requires Valid() && log != [] && owed == [] && May(Sum(log), Failed) && !Sum(log).entering
      modifies this`errors, this`visits, this`next, this`currentTimeout, this`timeoutCb, this`owed, this`log
      ensures Valid() && owed == [] && log != [] && old(log) <= log && errors == (old(errors) + 1) % WRAP
      ensures Sum(log).free && !Sum(log).entering && Sum(log).fell
      ensures Control(log) == Control(old(log)) + fail
      ensures fail == if onErr.Some? && onErr.value.callback then [Failed, Visited(ErrorCb)] else [Failed]
    {
      hide Legal, Sum, Control, Left, True, At, Valid;
      CountError();
      fail := [Failed];
      if onErr.Some? {
        if onErr.value.callback {
          var _ := UserCode(Visited(ErrorCb));
          fail := [Failed, Visited(ErrorCb)];
        }
      }
    }

    /** processError */
    method ProcessError() returns (ret: Ret, ghost fail: seq<Event>)
      requires Valid() && log != [] && owed == [] && May(Sum(log), Failed) && !Sum(log).entering
      modifies this
      ensures AtRest() && current == Fallback() && old(log) <= log && doBefore == old(doBefore)
      ensures errors == (old(errors) + 1) % WRAP
      ensures Control(log) == Control(old(log)) + fail && FailPart(fail, onErr.Some? && onErr.value.callback)
      ensures fail != [] && Arrival(fail) == current
      ensures ret == ErrorAnswer(fail)
    {
      hide Legal, Sum, Control, Left, True, At, After, May, AtRest, FailPart, EntryPart, Answer, Arrival;
      fail := AnnounceError();
      ghost var part;
      if onErr.Some? {
        ret, part := InitProcess(onErr.value.trigState);
      } else if stateList.Some? {
        ret, part := InitProcess(stateList.value[0]);
      } else {
        ret, part := InitProcess(0);
        ret := SM_ERR;
      }
      FailShape(fail, part, onErr.Some? && onErr.value.callback);
      fail := fail + part;
    }

    /** By the next reading of the clock, the timeout has expired. */
    ghost predicate Due()
      reads this
    {
      currentTimeout != 0 && (clock(readings) - stateStartTime) % WRAP >= currentTimeout
    }

    /** The reading just taken is late enough. */
    method Expire(time: nat)
      requires Valid() && log != [] && owed == [] && time == clock(readings) && May(Sum(log), Expired(time))
      modifies this`readings, this`timedOut, this`currentTimeout, this`log
      ensures Valid() && log == old(log) + [Expired(time)] && Control(log) == Control(old(log)) + [Expired(time)]
      ensures Sum(log) == After(Sum(old(log)), Expired(time))
      ensures readings == old(readings) + 1 && currentTimeout == 0
    {
      hide Legal, Sum, Control, True, At;
      Append(TheWorld(), log, Expired(time));
      timedOut := true;
      currentTimeout := 0;
      readings := readings + 1;
      log := log + [Expired(time)];
    }

    /** The reading just taken is too early. */
    method Check(time: nat)
      requires Valid() && log != [] && owed == [] && time == clock(readings) && May(Sum(log), Checked(time))
      modifies this`readings, this`log
      ensures Valid() && log == old(log) + [Checked(time)] && Control(log) == Control(old(log))
      ensures Sum(log) == After(Sum(old(log)), Checked(time))
      ensures readings == old(readings) + 1
    {
      hide Legal, Sum, Control, True, At;
      Append(TheWorld(), log, Checked(time));
      readings := readings + 1;
      log := log + [Checked(time)];
    }

    /** The clock is read and compared, if a timeout is armed. */
    method CheckTimeout() returns (expired: bool, time: nat)
      requires Valid() && log != [] && owed == []
      requires current != 0 && Settled(Sum(log)) && Sum(log).begun && !Sum(log).pending && !Sum(log).checked
      modifies this`readings, this`timedOut, this`currentTimeout, this`log
      ensures Valid() && log != [] && old(log) <= log
      ensures expired == old(Due()) && readings == old(readings) + (if old(currentTimeout) != 0 then 1 else 0)
      ensures expired ==> time == clock(old(readings)) && currentTimeout == 0
      ensures expired ==> Control(log) == Control(old(log)) + [Expired(time)] && Sum(log) == After(Sum(old(log)), Expired(time))
      ensures !expired ==> Control(log) == Control(old(log)) && Sum(log) == Sum(old(log)).(checked := currentTimeout != 0)
      ensures !expired ==> currentTimeout == old(currentTimeout)
    {
      hide Legal, Sum, Control, True, At;
      expired, time := false, 0;
      if currentTimeout != 0 {
        time := clock(readings);
        if (time - stateStartTime) % WRAP >= currentTimeout {
          Expire(time);
          expired := true;
        } else {
          Check(time);
        }
      }
    }

    /** The run is counted before anything else. */
    method CountEntry()
      requires Valid() && log != [] && owed == [] && May(Sum(log), Counted)
      modifies this`currentStateEntries, this`log
      ensures Valid() && log == old(log) + [Counted] && Control(log) == Control(old(log))
      ensures Sum(log) == After(Sum(old(log)), Counted)
      ensures currentStateEntries == (old(currentStateEntries) + 1) % WRAP
    {
      hide Legal, Sum, Control, True, At, After, May, Fits, Moved;
      CountStep(TheWorld(), Sum(log), At(TheWorld(), log), Counted);
      Append(TheWorld(), log, Counted);
      currentStateEntries := (currentStateEntries + 1) % WRAP;
      log := log + [Counted];
    }

    /** What giving TIMEOUT, beginning with k and the v-th invocation of user code,
        leaves. */
    function TimeoutLeaves(k: Knobs, v: nat): Knobs {
      if k.2 then Left(stateList, Left(stateList, k, user(v).actions), user(v + 1).actions)
      else Left(stateList, k, user(v).actions)
    }

    /** What a run leaves; a timeout that is due is switched off. */
    function RunLeaves(k: Knobs, v: nat, due: bool): Knobs {
      if due then TimeoutLeaves((k.0, 0, k.2), v) else Left(stateList, k, user(v).actions)
    }

    /** An expired timeout's own callback, if there is one, comes first. */
    method GiveTimeout() returns (ret: Ret)
      requires Valid() && log != [] && owed == [] && Sum(log).pending && May(Sum(log), Called(current, TIMEOUT, SM_OK))
      modifies this`visits, this`next, this`currentTimeout, this`timeoutCb, this`owed, this`log
      ensures Valid() && log != [] && owed == [] && old(log) <= log
      ensures Asked() == TimeoutLeaves(old(Asked()), old(visits))
      ensures Control(log) ==
              Control(old(log)) + (if old(timeoutCb) then [Visited(TimeoutCb)] else []) + [Called(current, TIMEOUT, ret)]
      ensures Sum(log) == With(After(Sum(old(log)), Called(current, TIMEOUT, ret)), Asked())
    {
      hide Legal, Sum, Control, Left, True, At;
      if timeoutCb {
        var _ := UserCode(Visited(TimeoutCb));
      }
      ret := CallState(TIMEOUT);
    }

    /** The run that has begun is given to the state. */
    method GiveRun(expired: bool) returns (ret: Ret, ghost calls: seq<Event>)
      requires Valid() && log != [] && owed == [] && current != 0 && Settled(Sum(log)) && Sum(log).begun
      requires Sum(log).pending == expired && (expired || currentTimeout == 0 || Sum(log).checked)
      modifies this`visits, this`next, this`currentTimeout, this`timeoutCb, this`owed, this`log
      ensures AtRest() && old(log) <= log && Control(log) == Control(old(log)) + calls
      ensures Sum(log).error <==> ret == SM_ERR
      ensures Sum(log).fails == Sum(old(log)).fails
      ensures var k := old(Asked());
              Asked() ==
              if expired then TimeoutLeaves(k, old(visits)) else Left(stateList, k, user(old(visits)).actions)
      ensures calls == (if expired && old(timeoutCb) then [Visited(TimeoutCb)] else [])
                       + [Called(current, if expired then TIMEOUT else RUN, ret)]
    {
      hide Legal, Sum, Control, Left, TimeoutLeaves, True, At, Valid;
      Told();
      calls := if expired && timeoutCb then [Visited(TimeoutCb)] else [];
      if expired {
        ret := GiveTimeout();
      } else {
        ret := CallState(RUN);
      }
      Told();
      calls := calls + [Called(current, if expired then TIMEOUT else RUN, ret)];
    }

    /** The run is counted and the clock consulted. */
    method BeginRun() returns (expired: bool, time: nat)
      requires AtRest() && current != 0
      modifies this`currentStateEntries, this`readings, this`timedOut, this`currentTimeout, this`log
      ensures Valid() && old(log) + [Counted] <= log && owed == []
      ensures expired == old(Due()) && readings == old(readings) + (if old(currentTimeout) != 0 then 1 else 0)
      ensures expired ==> time == clock(old(readings))
      ensures currentTimeout == if expired then 0 else old(currentTimeout)
      ensures Control(log) == Control(old(log)) + (if expired then [Expired(time)] else [])
      ensures Settled(Sum(log)) && Sum(log).begun && Sum(log).pending == expired
      ensures expired || currentTimeout == 0 || Sum(log).checked
      ensures Sum(log).fails == Sum(old(log)).fails && currentStateEntries == (old(currentStateEntries) + 1) % WRAP
    {
      hide Legal, Sum, Control, True, At, Valid;
      Told();
      CountEntry();
      expired, time := CheckTimeout();
    }

    /** smProcessRun: with a timeout armed the clock is read once, and the state is given
        TIMEOUT exactly if that reading is late enough. */
    method ProcessRun() returns (ret: Ret, ghost run: seq<Event>)
      requires AtRest() && current != 0
      modifies this
      ensures AtRest() && old(log) + [Counted] <= log && current == old(current) && doBefore == old(doBefore)
      ensures run != [] && Control(log) == Control(old(log)) + run && ret == Answer(run)
      ensures RunPart(run, current, old(Due()), old(timeoutCb), clock(old(readings)))
      ensures readings == old(readings) + (if old(currentTimeout) != 0 then 1 else 0)
      ensures Sum(log).error <==> ret == SM_ERR
      ensures Sum(log).fails == Sum(old(log)).fails
      ensures Asked() == RunLeaves(old(Asked()), old(visits), old(Due()))
      ensures currentStateEntries == (old(currentStateEntries) + 1) % WRAP
    {
      hide Legal, Sum, Control, Left, TimeoutLeaves, True, At, Valid, RunPart, Answer, AtRest, Settled;
      ghost var at, cb := clock(readings), timeoutCb;
      var expired, time := BeginRun();
      ghost var begin := if expired then [Expired(at)] else [];
      ghost var calls;
      ret, calls := GiveRun(expired);
      RunShape(begin, calls, current, expired, cb, at, ret);
      run := begin + calls;
    }

    /** EXIT for the current state, if there is one. */
    method Leave() returns (ghost out: seq<Event>)
      requires AtRest()
      modifies this
      ensures Valid() && log != [] && owed == [] && old(log) <= log && current == old(current) && doBefore == old(doBefore)
      ensures !Sum(log).entering && Sum(log).free && Sum(log).fails == Sum(old(log)).fails
      ensures Control(log) == Control(old(log)) + out
      ensures next == if current == 0 then old(next)
                      else Left(stateList, old(Asked()), user(old(visits)).actions).0
      ensures if current == 0 then out == []
              else |out| == 1 && out[0].Called? && out[0].state == current && out[0].phase == EXIT
    {
      hide Legal, Sum, Control, True, At;
      out := [];
      if current != 0 {
        var ret := CallState(EXIT);
        out := [Called(current, EXIT, ret)];
      }
    }

    /** What processSwitch reports: arrival at the target hides INIT's answer. */
    function SwitchAnswer(sw: seq<Event>, arrived: nat): Ret {
      if target.Some? && target.value.trigState == arrived then SM_AT_TARGET else Answer(sw)
    }

    /** The target trigger's callback is called on arrival at its state. */
    predicate Greeted(arrived: nat) {
      target.Some? && target.value.trigState == arrived && target.value.callback
    }

    /** What is different if the state just entered is the target's. */
    method Greet(answer: Ret, ghost moved: seq<Event>) returns (ret: Ret, ghost sw: seq<Event>)
      requires AtRest()
      modifies this`visits, this`next, this`currentTimeout, this`timeoutCb, this`owed, this`log
      ensures AtRest() && old(log) <= log
      ensures ret == if target.Some? && target.value.trigState == current then SM_AT_TARGET else answer
      ensures sw == if Greeted(current) then moved + [Visited(TargetCb)] else moved
      ensures Control(log) == Control(old(log)) + (if Greeted(current) then [Visited(TargetCb)] else [])
      ensures Sum(log).error == Sum(old(log)).error && Sum(log).fails == Sum(old(log)).fails
    {
      hide Legal, Sum, Control, Left, True, At, Valid;
      ret, sw := answer, moved;
      if target.Some? {
        if target.value.trigState == current {
          ret := SM_AT_TARGET;
          if target.value.callback {
            var _ := UserCode(Visited(TargetCb));
            sw := moved + [Visited(TargetCb)];
          }
        }
      }
    }

    lemma GreetedPart(moved: seq<Event>, sw: seq<Event>, from: nat, to: nat)
      requires moved != [] && MovePart(moved, from) && Arrival(moved) == to
      requires sw == if Greeted(to) then moved + [Visited(TargetCb)] else moved
      ensures SwitchPart(sw, from, Greeted(to)) && Arrival(sw) == to && Answer(sw) == Answer(moved)
    {
      if Greeted(to) {
        assert sw[..|sw| - 1] == moved;
      }
    }

    /** EXIT, the entry and INIT. */
    method Move() returns (ret: Ret, ghost moved: seq<Event>)
      requires AtRest()
      modifies this
      ensures AtRest() && old(log) <= log && doBefore == old(doBefore)
      ensures Control(log) == Control(old(log)) + moved
      ensures moved != [] && MovePart(moved, old(current)) && Arrival(moved) == current && Answer(moved) == ret
      ensures current == if old(current) == 0 then old(next) else Left(stateList, old(Asked()), user(old(visits)).actions).0
      ensures Sum(log).error <==> ret == SM_ERR
      ensures Sum(log).fails == Sum(old(log)).fails
    {
      hide Legal, Sum, Control, Left, True, At, Valid, AtRest, After, May, With, EntryPart, Answer, Arrival, MovePart;
      ghost var out := Leave();
      ghost var part;
      ret, part := InitProcess(next);
      MoveShape(out, part, old(current));
      moved := out + part;
    }

    /** processSwitch */
    method ProcessSwitch() returns (ret: Ret, ghost sw: seq<Event>)
      requires AtRest()
      modifies this
      ensures AtRest() && old(log) <= log && doBefore == old(doBefore)
      ensures sw != [] && Control(log) == Control(old(log)) + sw
      ensures SwitchPart(sw, old(current), Greeted(current)) && Arrival(sw) == current
      ensures current == if old(current) == 0 then old(next) else Left(stateList, old(Asked()), user(old(visits)).actions).0
      ensures ret == SwitchAnswer(sw, current)
      ensures Sum(log).error <==> Answer(sw) == SM_ERR
      ensures Sum(log).fails == Sum(old(log)).fails
    {
      hide Legal, Sum, Control, Left, True, At, Valid, AtRest, SwitchPart, MovePart, Answer, Arrival, Greeted;
      ghost var moved;
      ret, moved := Move();
      ret, sw := Greet(ret, moved);
      GreetedPart(moved, sw, old(current), current);
    }

    /** A pass of smProcessAfter from state `from` to state `to`: run, then switch if
        another state was asked for; an SM_ERR from either - unless hidden by arrival at
        the target - is processed.  Its timeout, with a callback or not, is due or not by
        the reading `at`. */
    ghost predicate AfterPass(from: nat, to: nat, due: bool, cb: bool, at: nat, asked: nat, run: seq<Event>, sw: seq<Event>, fail: seq<Event>, ret: Ret)
      requires stateList.Some? ==> stateList.value != []
    {
      var answer := if fail != [] then ErrorAnswer(fail) else if sw != [] then SwitchAnswer(sw, to) else Answer(run);
      && RunPart(run, from, due, cb, at)
      && (sw != [] <==> Answer(run) != SM_ERR && asked != from) && (sw != [] ==> SwitchPart(sw, from, Greeted(Arrival(sw))))
      && (fail != [] ==> FailPart(fail, onErr.Some? && onErr.value.callback))
      && (fail != [] <==> (if sw == [] then Answer(run) == SM_ERR else SwitchAnswer(sw, Arrival(sw)) == SM_ERR))
      && to == (if fail != [] then Fallback() else if sw != [] then Arrival(sw) else from)
      && ret == if to == 0 && answer == SM_OK then SM_OFF else answer
    }

    /** smProcessAfter */
    method ProcessAfter() returns (ret: Ret, ghost run: seq<Event>, ghost sw: seq<Event>, ghost fail: seq<Event>)
      requires AtRest()
      modifies this
      ensures AtRest() && old(log) <= log
      ensures Control(log) == Control(old(log)) + run + sw + fail
      ensures var asked := if old(current) == 0 then old(next)
                           else RunLeaves(old(Asked()), old(visits), old(Due())).0;
              AfterPass(old(current), current, old(Due()), old(timeoutCb), clock(old(readings)), asked, run, sw, fail, ret)
    {
      hide Legal, Sum, Control, Left, RunLeaves, True, At, AtRest, SwitchPart, FailPart;
      Rested();
      run, sw, fail := [], [], [];
      if current != 0 {
        ret, run := ProcessRun();
      } else {
        ret := SM_OFF;
      }
      if ret != SM_ERR {
        if current != next {
          ret, sw := ProcessSwitch();
        }
      }
      if ret == SM_ERR {
        MayFail();
        ret, fail := ProcessError();
      }
      if current == 0 {
        if ret == SM_OK {
          ret := SM_OFF;
        }
      }
    }

    /** What smProcessBefore reports if nothing goes wrong for good: the answer of its
        switch, even an SM_ERR that has been processed. */
    function FirstAnswer(sw: seq<Event>, now: nat): Ret {
      var first := if sw == [] then SM_OK else SwitchAnswer(sw, Arrival(sw));
      if now == 0 && first == SM_OK then SM_OFF else first
    }

    /** A run as the history pre before it wants it: by the next reading of the clock the
        timeout that is armed is due, or not. */
    ghost predicate RunIs(pre: seq<Event>, run: seq<Event>, state: nat) {
      var s, at := Sum(pre), clock(At(TheWorld(), pre).readings);
      RunPart(run, state, s.armed != 0 && Elapsed(s, at) >= s.armed, s.cb, at)
    }

    /** A pass of smProcessBefore from state `from` to state `to`: switch if another state
        was asked for, then run; each SM_ERR is processed, and an error in that ends the
        pass. */
    ghost predicate BeforePass(from: nat, to: nat, asked: nat, sw: seq<Event>, fail1: seq<Event>, pre: seq<Event>,
                               run: seq<Event>, fail2: seq<Event>, ret: Ret)
      requires stateList.Some? ==> stateList.value != []
    {
      var runs := if fail1 != [] then Fallback() else if sw != [] then Arrival(sw) else from;
      && (sw == [] <==> from == asked) && (sw != [] ==> SwitchPart(sw, from, Greeted(Arrival(sw))))
      && (fail1 != [] <==> sw != [] && SwitchAnswer(sw, Arrival(sw)) == SM_ERR) && (fail1 != [] ==> FailPart(fail1, onErr.Some? && onErr.value.callback))
      && (if fail1 != [] && ErrorAnswer(fail1) == SM_ERR then run == [] && fail2 == [] else RunIs(pre, run, runs))
      && (fail2 != [] <==> run != [] && Answer(run) == SM_ERR) && (fail2 != [] ==> FailPart(fail2, onErr.Some? && onErr.value.callback))
      && to == (if fail2 != [] then Fallback() else runs)
      && ret == if (fail1 != [] && ErrorAnswer(fail1) == SM_ERR) || (fail2 != [] && ErrorAnswer(fail2) == SM_ERR) then SM_ERR
                else FirstAnswer(sw, to)
    }

    /** Between calls, the history tells whether the timeout is due. */
    lemma RunIsNow()
      requires AtRest()
      ensures forall run, state | RunPart(run, state, Due(), timeoutCb, clock(readings)) :: RunIs(log, run, state)
      ensures RunIs(log, [], 0)
    {
      hide Sum, At, Valid;
      Rested();
    }

    /** smProcessBefore; pre is the history up to the run. */
    method ProcessBefore() returns (ret: Ret, ghost sw: seq<Event>, ghost fail1: seq<Event>, ghost pre: seq<Event>,
                                    ghost run: seq<Event>, ghost fail2: seq<Event>)
      requires AtRest()
      modifies this
      ensures AtRest() && old(log) <= pre <= log
      ensures Control(pre) == Control(old(log)) + sw + fail1 && Control(log) == Control(pre) + run + fail2
      ensures (sw == [] ==> pre == old(log)) && (run != [] ==> pre + [Counted] <= log)
      ensures BeforePass(old(current), current, old(next), sw, fail1, pre, run, fail2, ret)
    {
      hide Legal, Sum, Control, Left, RunLeaves, True, At, Valid, RunPart, SwitchPart, FailPart, AtRest, After, May;
      hide RunIs, Due, Answer, Arrival, ErrorAnswer, Fallback, Greeted;
      ret := SM_OK;
      sw, fail1, run, fail2 := [], [], [], [];
      if current != next {
        ret, sw := ProcessSwitch();
        if ret == SM_ERR {
          var handled;
          MayFail();
          handled, fail1 := ProcessError();
          if handled == SM_ERR {
            pre := log;
            return;
          }
        }
      }
      pre := log;
      RunIsNow();
      if current != 0 {
        var ret2;
        ret2, run := ProcessRun();
        if ret2 == SM_ERR {
          var handled;
          MayFail();
          handled, fail2 := ProcessError();
          if handled == SM_ERR {
            ret := SM_ERR;
            return;
          }
        }
      }
      if ret == SM_AT_TARGET {
        return;
      }
      if current == 0 {
        if ret == SM_OK {
          ret := SM_OFF;
        }
      }
    }

    /** SmProcess: one pass or the other, as doBefore says; `parts` is what it consists
        of, in order, and pre the history up to the run. */
    method Process() returns (ret: Ret, ghost parts: seq<seq<Event>>, ghost pre: seq<Event>)
      requires AtRest()
      modifies this
      ensures AtRest() && old(log) <= pre <= log
      ensures if old(doBefore) then
                && |parts| == 4 && Control(pre) == Control(old(log)) + parts[0] + parts[1]
                && Control(log) == Control(pre) + parts[2] + parts[3]
                && (parts[0] == [] ==> pre == old(log)) && (parts[2] != [] ==> pre + [Counted] <= log)
                && BeforePass(old(current), current, old(next), parts[0], parts[1], pre, parts[2], parts[3], ret)
              else
                && |parts| == 3 && Control(log) == Control(old(log)) + parts[0] + parts[1] + parts[2]
                && var asked := if old(current) == 0 then old(next)
                                else RunLeaves(old(Asked()), old(visits), old(Due())).0;
                   AfterPass(old(current), current, old(Due()), old(timeoutCb), clock(old(readings)), asked,
                             parts[0], parts[1], parts[2], ret)
    {
      hide Legal, Sum, Control, AfterPass, BeforePass, True, At;
      pre := log;
      if doBefore {
        var r, sw, fail1, before, run, fail2 := ProcessBefore();
        ret, parts, pre := r, [sw, fail1, run, fail2], before;
      } else {
        var r, run, sw, fail := ProcessAfter();
        ret, parts := r, [run, sw, fail];
      }
    }
  }
}
